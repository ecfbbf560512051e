/** ExampleBlobHandler as it is written: a table of blobs, each with its own 1024-byte buffer. */
module Example {
  import opened BlobTypes
  import opened ExampleSpec

  class ExampleBlob {
    var sessionId: word
    var flags: word
    var state: word
    var length: dword
    const buffer: array<byte>

    constructor (id: word, flags: word)
      ensures this.sessionId == id && this.flags == flags && state == OPEN_READ_WRITE && length == 0
      ensures buffer.Length == BUFFER_SIZE && fresh(buffer)
    {
      this.sessionId, this.flags := id, flags;
      state, length := OPEN_READ_WRITE, 0;
      buffer := new byte[BUFFER_SIZE];
    }

    ghost function Value(): Blob
      requires buffer.Length == BUFFER_SIZE
      reads this, buffer
    {
      Blob(sessionId, flags, state, length, buffer[..])
    }

    /** The two updates of an accepted write. */
    method Store(offset: dword, data: seq<byte>)
      requires buffer.Length == BUFFER_SIZE && Fits(offset, data)
      modifies this`length, buffer
      ensures Value() == Written(old(Value()), offset, data)
    {
      length := if offset + |data| > length then offset + |data| else length;
      forall i | 0 <= i < |data| {
        buffer[offset + i] := data[i];
      }
      assert buffer[..] == Overlay(old(buffer[..]), offset, data);
    }
  }

  /** Every session has a blob and a buffer of its own. */
  ghost predicate Separate(sessions: map<word, ExampleBlob>) {
    && (forall s :: s in sessions ==> sessions[s].buffer.Length == BUFFER_SIZE)
    && (forall s, t :: s in sessions && t in sessions && s != t ==>
          sessions[s] != sessions[t] && sessions[s].buffer != sessions[t].buffer)
  }

  ghost function BuffersOf(sessions: map<word, ExampleBlob>): set<object> {
    set b | b in sessions.Values :: b.buffer
  }

  ghost function TableOf(sessions: map<word, ExampleBlob>): Table
    requires Separate(sessions)
    reads sessions.Values, BuffersOf(sessions)
  {
    map s | s in sessions :: sessions[s].Value()
  }

  lemma SeparateAfterInsert(sessions: map<word, ExampleBlob>, s: word, blob: ExampleBlob)
    requires Separate(sessions) && s !in sessions && blob.buffer.Length == BUFFER_SIZE
    requires blob !in sessions.Values && blob.buffer !in BuffersOf(sessions)
    ensures Separate(sessions[s := blob])
    ensures sessions[s := blob].Values == sessions.Values + {blob}
    ensures BuffersOf(sessions[s := blob]) == BuffersOf(sessions) + {blob.buffer}
  {
    var after := sessions[s := blob];
    forall t | t in sessions ensures after[t] == sessions[t] && after[t] in sessions.Values {
    }
    assert after[s] == blob;
  }

  lemma TableAfterInsert(sessions: map<word, ExampleBlob>, s: word, blob: ExampleBlob)
    requires Separate(sessions) && Separate(sessions[s := blob]) && blob.buffer.Length == BUFFER_SIZE
    ensures TableOf(sessions[s := blob]) == TableOf(sessions)[s := blob.Value()]
  {
  }

  lemma TableAfterRemove(sessions: map<word, ExampleBlob>, s: word)
    requires Separate(sessions)
    ensures Separate(sessions - {s}) && TableOf(sessions - {s}) == TableOf(sessions) - {s}
  {
  }

  class ExampleBlobHandler {
    var sessions: map<word, ExampleBlob>

    ghost function Buffers(): set<object>
      reads this
    {
      BuffersOf(sessions)
    }

    ghost predicate Valid()
      reads this
    {
      Separate(sessions)
    }

    ghost function Model(): Table
      requires Valid()
      reads this, sessions.Values, Buffers()
    {
      TableOf(sessions)
    }

    constructor ()
      ensures Valid() && Model() == map[]
    {
      sessions := map[];
    }

    method GetSession(id: word) returns (blob: ExampleBlob?)
      ensures blob == if id in sessions then sessions[id] else null
    {
      if id !in sessions {
        return null;
      }
      return sessions[id];
    }

    method CanHandleBlob(path: Text) returns (ok: bool)
      requires Valid()
      ensures Verdict(ok) == Reply(Model(), AskCanHandle(path))
    {
      return path == SUPPORTED_PATH;
    }

    method GetBlobIds() returns (ids: seq<Text>)
      requires Valid()
      ensures ids == Reply(Model(), AskIds).ids
    {
      return [SUPPORTED_PATH];
    }

    method Open(session: word, flags: word, path: Text) returns (ok: bool, ghost fill: Buffer)
      requires Valid()
      modifies this
      ensures Valid() && fresh(sessions.Values - old(sessions.Values)) && fresh(Buffers() - old(Buffers()))
      ensures Verdict(ok) == Reply(old(Model()), AskOpen(session, flags, path))
      ensures Model() == Next(old(Model()), AskOpen(session, flags, path), fill)
    {
      fill := seq(BUFFER_SIZE, i => 0);
      var can := CanHandleBlob(path);
      if !can {
        return false, fill;
      }
      if session in sessions {
        return false, fill;
      }
      fill := AddBlob(session, flags);
      ok := true;
    }

    /** Makes the new entry; `fill` is what its uninitialised buffer holds. */
    method AddBlob(session: word, flags: word) returns (ghost fill: Buffer)
      requires Valid() && session !in sessions
      modifies this
      ensures Valid() && fresh(sessions.Values - old(sessions.Values)) && fresh(Buffers() - old(Buffers()))
      ensures Model() == old(Model())[session := Blob(session, flags, OPEN_READ_WRITE, 0, fill)]
    {
      var blob := new ExampleBlob(session, flags);
      fill := blob.buffer[..];
      assert blob !in sessions.Values && blob.buffer !in Buffers();
      SeparateAfterInsert(sessions, session, blob);
      TableAfterInsert(sessions, session, blob);
      ghost var entry := blob.Value();
      assert TableOf(sessions) == old(Model()) && entry == Blob(session, flags, OPEN_READ_WRITE, 0, fill);
      ghost var table := old(Model())[session := entry];
      sessions := sessions[session := blob];
      assert Model() == table;
    }

    method Read(session: word, offset: dword, requestedSize: dword) returns (bytes: seq<byte>)
      requires Valid()
      ensures bytes == Reply(Model(), AskRead(session, offset, requestedSize)).bytes
    {
      var sess := GetSession(session);
      if sess == null {
        return [];
      }
      if offset >= BUFFER_SIZE {
        return [];
      }
      var remain: dword := BUFFER_SIZE - offset;
      var numBytes := if remain < requestedSize then remain else requestedSize;
      return sess.buffer[offset..offset + numBytes];
    }

    method Write(session: word, offset: dword, data: seq<byte>) returns (ok: bool)
      requires Valid()
      modifies sessions.Values, Buffers()
      ensures Valid() && Verdict(ok) == Reply(old(Model()), AskWrite(session, offset, data))
      ensures forall fill :: Model() == Next(old(Model()), AskWrite(session, offset, data), fill)
    {
      var sess := GetSession(session);
      if sess == null {
        return false;
      }
      if offset >= BUFFER_SIZE {
        return false;
      }
      var remain: dword := BUFFER_SIZE - offset;
      if |data| > remain {
        return false;
      }
      sess.Store(offset, data);
      ghost var expected := old(Model())[session := Written(old(Model())[session], offset, data)];
      forall s | s in sessions ensures Model()[s] == expected[s] {
        if s != session {
          assert sessions[s].buffer != sess.buffer;
          assert sessions[s].Value() == old(sessions[s].Value());
        }
      }
      assert Model() == expected;
      return true;
    }

    method Commit(session: word, data: seq<byte>) returns (ok: bool)
      requires Valid()
      ensures Verdict(ok) == Reply(Model(), AskCommit(session, data))
    {
      var sess := GetSession(session);
      if sess == null {
        return false;
      }
      return false;
    }

    method Close(session: word) returns (ok: bool)
      requires Valid()
      modifies this
      ensures Valid() && sessions.Values <= old(sessions.Values)
      ensures Verdict(ok) == Reply(old(Model()), AskClose(session))
      ensures forall fill :: Model() == Next(old(Model()), AskClose(session), fill)
    {
      var sess := GetSession(session);
      if sess == null {
        return false;
      }
      TableAfterRemove(sessions, session);
      sessions := sessions - {session};
      return true;
    }

    method Stat(session: word) returns (meta: Option<BlobMeta>)
      requires Valid()
      ensures var a := Reply(Model(), AskStat(session)); meta == if a.ok then Some(a.meta) else None
    {
      var sess := GetSession(session);
      if sess == null {
        return None;
      }
      return Some(BlobMeta(sess.state, sess.length, []));
    }

    method Expire(session: word) returns (ok: bool)
      requires Valid()
      ensures Verdict(ok) == Reply(Model(), AskExpire(session))
    {
      var sess := GetSession(session);
      if sess == null {
        return false;
      }
      return false;
    }

    /** The calls that change nothing. */
    method Query(c: Call) returns (a: Answer)
      requires Valid() && !c.AskOpen? && !c.AskWrite? && !c.AskClose?
      ensures a == Reply(Model(), c) && forall fill :: Next(Model(), c, fill) == Model()
    {
      match c
      case AskCanHandle(path) => var ok := CanHandleBlob(path); a := Verdict(ok);
      case AskIds => var ids := GetBlobIds(); a := Answer(true, ids, [], NO_META);
      case AskRead(s, offset, size) => var bytes := Read(s, offset, size); a := Answer(true, [], bytes, NO_META);
      case AskCommit(s, data) => var ok := Commit(s, data); a := Verdict(ok);
      case AskStat(s) =>
        var meta := Stat(s);
        a := if meta.Some? then Answer(true, [], [], meta.value) else Verdict(false);
      case AskExpire(s) => var ok := Expire(s); a := Verdict(ok);
      case _ => a := Verdict(false); // delete, path stat and writeMeta are not supported
    }

    /** One call of the interface: what the manager's view of this handler rests on. */
    method Invoke(c: Call) returns (a: Answer, ghost fill: Buffer)
      requires Valid()
      modifies this, sessions.Values, Buffers()
      ensures fresh(sessions.Values - old(sessions.Values)) && fresh(Buffers() - old(Buffers()))
      ensures Valid() && a == Reply(old(Model()), c) && Model() == Next(old(Model()), c, fill)
    {
      fill := seq(BUFFER_SIZE, i => 0);
      if c.AskOpen? {
        var ok, f := Open(c.session, c.flags, c.path);
        a, fill := Verdict(ok), f;
      } else if c.AskWrite? {
        var ok := Write(c.session, c.offset, c.data);
        a := Verdict(ok);
      } else if c.AskClose? {
        var ok := Close(c.session);
        a := Verdict(ok);
      } else {
        a := Query(c);
      }
    }
  }
}
