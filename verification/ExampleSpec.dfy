/** What ExampleBlobHandler does, as a function of its session table, and the theory of its buffers. */
module ExampleSpec {
  import opened BlobTypes

  const BUFFER_SIZE: nat := 1024
  const OPEN_READ_WRITE: word := 3

  type Buffer = b: seq<byte> | |b| == BUFFER_SIZE witness seq(BUFFER_SIZE, i => 0)

  // The bytes of "/dev/fake/command".
  const SUPPORTED_PATH: Text := [47, 100, 101, 118, 47, 102, 97, 107, 101, 47, 99, 111, 109, 109, 97, 110, 100]

  datatype Blob = Blob(sessionId: word, flags: word, state: word, length: dword, buffer: Buffer)

  type Table = map<word, Blob>

  const NO_META: BlobMeta := BlobMeta(0, 0, [])

  function Verdict(ok: bool): Answer {
    Answer(ok, [], [], NO_META)
  }

  /** `data` copied over `buffer` from `offset` on. */
  function Overlay(buffer: Buffer, offset: nat, data: seq<byte>): Buffer
    requires offset + |data| <= BUFFER_SIZE
  {
    buffer[..offset] + data + buffer[offset + |data|..]
  }

  /** A write is accepted when it starts inside the buffer and fits. */
  predicate Fits(offset: dword, data: seq<byte>) {
    offset < BUFFER_SIZE && |data| <= BUFFER_SIZE - offset
  }

  function Written(b: Blob, offset: dword, data: seq<byte>): Blob {
    if !Fits(offset, data) then b
    else b.(buffer := Overlay(b.buffer, offset, data),
            length := if offset + |data| > b.length then offset + |data| else b.length)
  }

  function Slice(b: Blob, offset: dword, size: dword): seq<byte> {
    if offset >= BUFFER_SIZE then []
    else b.buffer[offset..offset + (if BUFFER_SIZE - offset < size then BUFFER_SIZE - offset else size)]
  }

  /** What the handler answers. */
  function Reply(t: Table, c: Call): Answer {
    match c
    case AskCanHandle(path) => Verdict(path == SUPPORTED_PATH)
    case AskIds => Answer(true, [SUPPORTED_PATH], [], NO_META)
    case AskOpen(s, _, path) => Verdict(path == SUPPORTED_PATH && s !in t)
    case AskRead(s, offset, size) => Answer(true, [], if s in t then Slice(t[s], offset, size) else [], NO_META)
    case AskWrite(s, offset, data) => Verdict(s in t && Fits(offset, data))
    case AskClose(s) => Verdict(s in t)
    case AskStat(s) =>
      if s in t then Answer(true, [], [], BlobMeta(t[s].state, t[s].length, [])) else Verdict(false)
    case _ => Verdict(false) // delete, path stat, writeMeta, commit and expire
  }

  /** The table afterwards. A new blob's buffer is not initialised: `fill` is what it happens to hold. */
  function Next(t: Table, c: Call, fill: Buffer): Table {
    match c
    case AskOpen(s, flags, path) =>
      if path == SUPPORTED_PATH && s !in t then t[s := Blob(s, flags, OPEN_READ_WRITE, 0, fill)] else t
    case AskWrite(s, offset, data) => if s in t then t[s := Written(t[s], offset, data)] else t
    case AskClose(s) => t - {s}
    case _ => t
  }

  // The handler's decisions, and what they lead to

  lemma PathIsDevFakeCommand()
    ensures |SUPPORTED_PATH| == |"/dev/fake/command"|
    ensures forall i :: 0 <= i < |SUPPORTED_PATH| ==> SUPPORTED_PATH[i] == "/dev/fake/command"[i] as int
  {
  }

  /** Which calls the handler says yes to. A write is refused when it starts outside its session's 1024 bytes
      or does not end inside them. */
  lemma AcceptsExactly(t: Table, c: Call)
    ensures var ok := Reply(t, c).ok;
            match c
            case AskCanHandle(path) => ok <==> path == SUPPORTED_PATH
            case AskOpen(s, _, path) => ok <==> path == SUPPORTED_PATH && s !in t
            case AskWrite(s, offset, data) => ok <==> s in t && offset < 1024 && offset + |data| <= 1024
            case AskClose(s) => ok <==> s in t
            case AskStat(s) => ok <==> s in t
            case AskRead(_, _, _) => true
            case AskIds => true
            case _ => !ok
  {
  }

  /** What the handler says no to, it does not do, and only an open, a write or a close does anything. */
  lemma RefusedCallsChangeNothing(t: Table, c: Call, fill: Buffer)
    ensures !Reply(t, c).ok || !(c.AskOpen? || c.AskWrite? || c.AskClose?) ==> Next(t, c, fill) == t
  {
    if c.AskWrite? && c.session in t {
      assert t[c.session := t[c.session]] == t;
    }
  }

  /** What it says yes to, it does, byte by byte, and to no other session. */
  lemma AcceptedCallsTakeEffect(t: Table, c: Call, fill: Buffer)
    requires Reply(t, c).ok && (c.AskOpen? || c.AskWrite? || c.AskClose?)
    ensures var after := Next(t, c, fill);
            && (forall s :: s != c.session ==> (s in after <==> s in t) && (s in t ==> after[s] == t[s]))
            && (c.session in after <==> !c.AskClose?)
            && (c.AskOpen? ==> after[c.session] == Blob(c.session, c.flags, 3, 0, fill))
            && (c.AskWrite? ==>
                  var (b, a, end) := (t[c.session], after[c.session], c.offset + |c.data|);
                  && a == b.(buffer := a.buffer, length := a.length)
                  && a.length >= end && a.length >= b.length && (a.length == end || a.length == b.length)
                  && forall i :: 0 <= i < 1024 ==>
                       a.buffer[i] == if c.offset <= i < end then c.data[i - c.offset] else b.buffer[i])
  {
  }

  /** What it lists, and what it reports of a session it does not have. */
  lemma ListsAndUnknownSessions(t: Table, s: word, offset: dword, size: dword)
    ensures Reply(t, AskIds).ids == [SUPPORTED_PATH]
    ensures s !in t ==> Reply(t, AskRead(s, offset, size)).bytes == []
  {
  }

  // Buffer theory

  datatype Patch = Patch(offset: dword, data: seq<byte>)

  ghost predicate Covers(p: Patch, i: nat) {
    Fits(p.offset, p.data) && p.offset <= i < p.offset + |p.data|
  }

  /** The blob after a series of writes, accepted or not. */
  ghost function WriteAll(b: Blob, patches: seq<Patch>): Blob {
    if patches == [] then b
    else
      var p := patches[|patches| - 1];
      Written(WriteAll(b, patches[..|patches| - 1]), p.offset, p.data)
  }

  /** Byte `i` of the buffer comes from the last accepted write that covers it, or was there before. */
  ghost predicate ByteExplained(before: Buffer, patches: seq<Patch>, i: nat, value: byte)
    requires i < BUFFER_SIZE
  {
    || ((forall k :: 0 <= k < |patches| ==> !Covers(patches[k], i)) && value == before[i])
    || (exists k :: 0 <= k < |patches| && Covers(patches[k], i) && value == patches[k].data[i - patches[k].offset]
          && forall j :: k < j < |patches| ==> !Covers(patches[j], i))
  }

  lemma {:induction false} LastWriterWins(b: Blob, patches: seq<Patch>, i: nat)
    requires i < BUFFER_SIZE
    ensures ByteExplained(b.buffer, patches, i, WriteAll(b, patches).buffer[i])
  {
    if patches != [] {
      var n := |patches| - 1;
      var earlier := patches[..n];
      LastWriterWins(b, earlier, i);
      var value := WriteAll(b, earlier).buffer[i];
      if Covers(patches[n], i) {
        assert WriteAll(b, patches).buffer[i] == patches[n].data[i - patches[n].offset];
      } else {
        assert WriteAll(b, patches).buffer[i] == value;
        if k :| 0 <= k < n && Covers(earlier[k], i) && value == earlier[k].data[i - earlier[k].offset]
                && forall j :: k < j < n ==> !Covers(earlier[j], i)
        {
          assert Covers(patches[k], i);
          assert forall j :: k < j < |patches| && j < n ==> patches[j] == earlier[j];
        } else {
          assert forall k :: 0 <= k < n ==> patches[k] == earlier[k];
        }
      }
    }
  }

  /** `length` is the highest end any accepted write reached, and never passes the buffer. */
  lemma {:induction false} LengthIsHighWater(b: Blob, patches: seq<Patch>)
    ensures var after := WriteAll(b, patches).length;
            && b.length <= after
            && (after == b.length || exists k :: 0 <= k < |patches| && Fits(patches[k].offset, patches[k].data)
                                                && after == patches[k].offset + |patches[k].data|)
            && (forall k :: 0 <= k < |patches| && Fits(patches[k].offset, patches[k].data) ==>
                  patches[k].offset + |patches[k].data| <= after)
            && (b.length <= BUFFER_SIZE ==> after <= BUFFER_SIZE)
  {
    if patches != [] {
      var n := |patches| - 1;
      LengthIsHighWater(b, patches[..n]);
      var before := WriteAll(b, patches[..n]).length;
      assert forall k :: 0 <= k < n ==> patches[..n][k] == patches[k];
    }
  }

  /** The writes to session `s` among `calls`, in order. */
  ghost function PatchesOf(calls: seq<Call>, s: word): seq<Patch> {
    if calls == [] then []
    else
      var c := calls[|calls| - 1];
      PatchesOf(calls[..|calls| - 1], s) + if c.AskWrite? && c.session == s then [Patch(c.offset, c.data)] else []
  }

  ghost function NextAll(t: Table, calls: seq<Call>, fills: nat -> Buffer): Table {
    if calls == [] then t
    else
      var n := |calls| - 1;
      Next(NextAll(t, calls[..n], fills), calls[n], fills(n))
  }

  /** What one call does to the blob of an open session that it does not close. */
  lemma NextOnSession(t: Table, c: Call, fill: Buffer, s: word)
    requires s in t && c != AskClose(s)
    ensures s in Next(t, c, fill)
    ensures Next(t, c, fill)[s] ==
            if c.AskWrite? && c.session == s then Written(t[s], c.offset, c.data) else t[s]
  {
  }

  /** Whatever else the handler is asked, a session that is not closed holds the fold of its own writes. */
  lemma {:induction false} BlobIsFoldOfItsWrites(t: Table, calls: seq<Call>, fills: nat -> Buffer, s: word)
    requires s in t && AskClose(s) !in calls
    ensures s in NextAll(t, calls, fills)
    ensures NextAll(t, calls, fills)[s] == WriteAll(t[s], PatchesOf(calls, s))
  {
    if calls != [] {
      var n := |calls| - 1;
      var c := calls[n];
      assert c in calls;
      assert forall d :: d in calls[..n] ==> d in calls;
      BlobIsFoldOfItsWrites(t, calls[..n], fills, s);
      NextOnSession(NextAll(t, calls[..n], fills), c, fills(n), s);
      var earlier := PatchesOf(calls[..n], s);
      assert earlier + [] == earlier;
      if c.AskWrite? && c.session == s {
        assert PatchesOf(calls, s)[..|earlier|] == earlier;
      }
    }
  }

  /** A read gives the bytes at its offset, clipped at the end of the buffer and not at `length`. */
  lemma ReadGivesTheSlice(t: Table, s: word, offset: dword, size: dword)
    requires s in t
    ensures var bytes := Reply(t, AskRead(s, offset, size)).bytes;
            && |bytes| <= size
            && (forall i :: 0 <= i < |bytes| ==> offset + i < BUFFER_SIZE && bytes[i] == t[s].buffer[offset + i])
            && (|bytes| < size ==> offset + |bytes| >= BUFFER_SIZE)
  {
  }
}
