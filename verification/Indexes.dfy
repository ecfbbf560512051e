/** The manager's two redundant tables, and when they agree with the session table. */
module Indexes {
  import opened BlobTypes
  import opened OrderedIds
  import opened Reference

  type OpenFiles = map<Text, int>
  type OpenSessions = map<HandlerId, set<word>>

  /** Reading a C++ map with operator[]: an absent count is 0, an absent set is empty. */
  function CountOf(openFiles: OpenFiles, p: Text): int {
    if p in openFiles then openFiles[p] else 0
  }

  function IndexOf(openSessions: OpenSessions, h: HandlerId): set<word> {
    if h in openSessions then openSessions[h] else {}
  }

  /** deleteBlob leaves zero entries behind, so agreement reads an absent count as zero. */
  ghost predicate Agree(sessions: Sessions, openFiles: OpenFiles, openSessions: OpenSessions) {
    && (forall p: Text :: CountOf(openFiles, p) == |On(sessions, p)|)
    && (forall h: HandlerId :: IndexOf(openSessions, h) == Of(sessions, h))
  }

  lemma AgreeAfterTouch(sessions: Sessions, openFiles: OpenFiles, openSessions: OpenSessions, s: word, now: Time)
    requires Agree(sessions, openFiles, openSessions) && s in sessions
    ensures Agree(Touched(sessions, s, now), openFiles, openSessions)
  {
    var t := Touched(sessions, s, now);
    forall p: Text ensures CountOf(openFiles, p) == |On(t, p)| {
      assert On(t, p) == On(sessions, p);
    }
    forall h: HandlerId ensures IndexOf(openSessions, h) == Of(t, h) {
      assert Of(t, h) == Of(sessions, h);
    }
  }

  lemma CountAfterInsert(sessions: Sessions, s: word, e: Session, p: Text)
    requires s !in sessions
    ensures |On(sessions[s := e], p)| == |On(sessions, p)| + (if e.blobId == p then 1 else 0)
  {
    if e.blobId == p {
      assert On(sessions[s := e], p) == On(sessions, p) + {s};
    } else {
      assert On(sessions[s := e], p) == On(sessions, p);
    }
  }

  lemma IndexAfterInsert(sessions: Sessions, s: word, e: Session, h: HandlerId)
    requires s !in sessions
    ensures Of(sessions[s := e], h) == if e.handler == h then Of(sessions, h) + {s} else Of(sessions, h)
  {
  }

  lemma AgreeAfterInsert(sessions: Sessions, openFiles: OpenFiles, openSessions: OpenSessions, s: word, e: Session)
    requires Agree(sessions, openFiles, openSessions) && s !in sessions
    ensures Agree(sessions[s := e],
                  openFiles[e.blobId := CountOf(openFiles, e.blobId) + 1],
                  openSessions[e.handler := IndexOf(openSessions, e.handler) + {s}])
  {
    var t := sessions[s := e];
    forall p: Text ensures CountOf(openFiles[e.blobId := CountOf(openFiles, e.blobId) + 1], p) == |On(t, p)| {
      CountAfterInsert(sessions, s, e, p);
      assert CountOf(openFiles, p) == |On(sessions, p)|;
    }
    forall h: HandlerId
      ensures IndexOf(openSessions[e.handler := IndexOf(openSessions, e.handler) + {s}], h) == Of(t, h)
    {
      IndexAfterInsert(sessions, s, e, h);
      assert IndexOf(openSessions, h) == Of(sessions, h);
    }
  }

  /** A session's path is counted at least once, and one less is right without it. */
  lemma CountAfterErase(sessions: Sessions, s: word, p: Text)
    requires s in sessions
    ensures |On(sessions - {s}, p)| == |On(sessions, p)| - (if sessions[s].blobId == p then 1 else 0)
  {
    if sessions[s].blobId == p {
      assert On(sessions, p) == On(sessions - {s}, p) + {s};
    } else {
      assert On(sessions, p) == On(sessions - {s}, p);
    }
  }

  lemma AgreeAfterErase(sessions: Sessions, openFiles: OpenFiles, openSessions: OpenSessions,
                        s: word, files: OpenFiles, index: OpenSessions)
    requires Agree(sessions, openFiles, openSessions) && s in sessions
    requires var p := sessions[s].blobId;
             var n := CountOf(openFiles, p) - 1;
             files == if n == 0 then openFiles - {p} else openFiles[p := n]
    requires var h := sessions[s].handler;
             index == openSessions[h := IndexOf(openSessions, h) - {s}]
    ensures Agree(sessions - {s}, files, index)
  {
    var t := sessions - {s};
    forall p: Text ensures CountOf(files, p) == |On(t, p)| {
      CountAfterErase(sessions, s, p);
      assert CountOf(openFiles, p) == |On(sessions, p)|;
    }
    forall h: HandlerId ensures IndexOf(index, h) == Of(t, h) {
      assert Of(t, h) == Of(sessions, h) - {s};
      assert IndexOf(openSessions, h) == Of(sessions, h);
    }
  }

  /** A path is counted above zero exactly when some live session is on it. */
  lemma CountedIffOpen(sessions: Sessions, openFiles: OpenFiles, openSessions: OpenSessions, p: Text)
    requires Agree(sessions, openFiles, openSessions)
    ensures CountOf(openFiles, p) > 0 <==> exists s :: s in sessions && sessions[s].blobId == p
  {
    assert CountOf(openFiles, p) == |On(sessions, p)|;
    if s :| s in sessions && sessions[s].blobId == p {
      assert s in On(sessions, p);
    }
  }

  /** The counts are those of a C++ int: never negative, never above 65536. */
  lemma CountsFitInt(sessions: Sessions, openFiles: OpenFiles, openSessions: OpenSessions, p: Text)
    requires Agree(sessions, openFiles, openSessions)
    ensures 0 <= CountOf(openFiles, p) <= 0x1_0000
  {
    assert CountOf(openFiles, p) == |On(sessions, p)|;
    AtMostAllIds(On(sessions, p));
  }

  // Totals. Both tables group the sessions by a key: their path, or their handler.

  ghost function Group<K(!new)>(sessions: Sessions, key: Session -> K, k: K): set<word> {
    set s | s in sessions && key(sessions[s]) == k
  }

  ghost predicate SizesOfGroups<K(!new)>(m: map<K, int>, sessions: Sessions, key: Session -> K) {
    forall k: K :: (if k in m then m[k] else 0) == |Group(sessions, key, k)|
  }

  ghost function AnyKey<K(!new)>(m: map<K, int>): K
    requires m != map[]
  {
    var k :| k in m; k
  }

  ghost function Total<K(!new)>(m: map<K, int>): int
    decreases |m|
  {
    if m == map[] then 0
    else
      var k := AnyKey(m);
      assert (m - {k}).Keys == m.Keys - {k};
      m[k] + Total(m - {k})
  }

  lemma SplitByKey<K(!new)>(sessions: Sessions, key: Session -> K, k: K)
    ensures var rest := sessions - Group(sessions, key, k);
            && |sessions| == |Group(sessions, key, k)| + |rest|
            && forall j: K :: Group(rest, key, j) == if j == k then {} else Group(sessions, key, j)
  {
    var rest := sessions - Group(sessions, key, k);
    assert sessions.Keys == rest.Keys + Group(sessions, key, k);
    assert rest.Keys !! Group(sessions, key, k);
    assert |sessions| == |sessions.Keys| && |rest| == |rest.Keys|;
  }

  lemma {:induction false} TotalIsSize<K(!new)>(m: map<K, int>, sessions: Sessions, key: Session -> K)
    requires SizesOfGroups(m, sessions, key)
    ensures Total(m) == |sessions|
    decreases |m|
  {
    if m == map[] {
      forall s: word ensures s !in sessions {
        assert s in sessions ==> s in Group(sessions, key, key(sessions[s]));
      }
      assert sessions.Keys == {};
    } else {
      var k := AnyKey(m);
      var fewer := m - {k};
      assert fewer.Keys == m.Keys - {k};
      var rest := sessions - Group(sessions, key, k);
      SplitByKey(sessions, key, k);
      forall j: K ensures (if j in fewer then fewer[j] else 0) == |Group(rest, key, j)| {
        assert (if j in m then m[j] else 0) == |Group(sessions, key, j)|;
      }
      TotalIsSize(fewer, rest, key);
      assert (if k in m then m[k] else 0) == |Group(sessions, key, k)|;
    }
  }

  function SetSizes(openSessions: OpenSessions): map<HandlerId, int> {
    map h | h in openSessions :: |openSessions[h]|
  }

  lemma CountsAddUp(sessions: Sessions, openFiles: OpenFiles)
    requires forall p: Text :: CountOf(openFiles, p) == |On(sessions, p)|
    ensures Total(openFiles) == |sessions|
  {
    var path := (e: Session) => e.blobId;
    forall p: Text ensures (if p in openFiles then openFiles[p] else 0) == |Group(sessions, path, p)| {
      assert Group(sessions, path, p) == On(sessions, p);
      assert CountOf(openFiles, p) == |On(sessions, p)|;
    }
    TotalIsSize(openFiles, sessions, path);
  }

  lemma SetSizeIsGroupSize(sessions: Sessions, openSessions: OpenSessions, key: Session -> HandlerId, h: HandlerId)
    requires IndexOf(openSessions, h) == Of(sessions, h) && forall e :: key(e) == e.handler
    ensures (if h in SetSizes(openSessions) then SetSizes(openSessions)[h] else 0) == |Group(sessions, key, h)|
  {
    assert Group(sessions, key, h) == Of(sessions, h);
  }

  lemma SetSizesAddUp(sessions: Sessions, openSessions: OpenSessions)
    requires forall h: HandlerId :: IndexOf(openSessions, h) == Of(sessions, h)
    ensures Total(SetSizes(openSessions)) == |sessions|
  {
    var key := (e: Session) => e.handler;
    forall h: HandlerId
      ensures (if h in SetSizes(openSessions) then SetSizes(openSessions)[h] else 0) == |Group(sessions, key, h)|
    {
      assert IndexOf(openSessions, h) == Of(sessions, h);
      SetSizeIsGroupSize(sessions, openSessions, key, h);
    }
    assert SizesOfGroups(SetSizes(openSessions), sessions, key);
    TotalIsSize(SetSizes(openSessions), sessions, key);
  }

  /** The counts over all paths, and the set sizes over all handlers, both add up to the number of
      sessions, which is at most 65536. */
  lemma TotalsAgree(sessions: Sessions, openFiles: OpenFiles, openSessions: OpenSessions)
    requires Agree(sessions, openFiles, openSessions)
    ensures Total(openFiles) == Total(SetSizes(openSessions)) == |sessions| <= 0x1_0000
  {
    AtMostAllIds(sessions.Keys);
    CountsAddUp(sessions, openFiles);
    SetSizesAddUp(sessions, openSessions);
  }
}
