/** BlobManager as it is written, with its three tables updated in place. Every method is proved to do
    what the simple machine of module Reference does. */
module Manager {
  import opened BlobTypes
  import opened SessionIds
  import opened OrderedIds
  import opened Reference
  import opened Indexes
  import opened Sweeping

  /** The registered handlers, as the manager sees them: things to call. `log` records every call. */
  class HandlerBus {
    const w: World
    var log: Log

    constructor (w: World)
      ensures this.w == w && log == []
    {
      this.w := w;
      log := [];
    }

    method Invoke(h: HandlerId, c: Call) returns (a: Answer)
      modifies this
      ensures log == Told(w, old(log), h, c)
      ensures a == w.answer(old(log), h, c)
    {
      a := w.answer(log, h, c);
      log := log + [Event(h, c, a)];
    }
  }

  class BlobManager {
    const bus: HandlerBus
    var next: word
    var ids: seq<Text>
    var handlers: seq<HandlerId>
    var sessions: Sessions
    var openFiles: OpenFiles
    var openSessions: OpenSessions

    ghost predicate Valid()
      reads this
    {
      Agree(sessions, openFiles, openSessions)
    }

    /** What the simple machine would hold: everything but the two redundant tables. */
    ghost function Abs(): State
      reads this, bus
    {
      State(handlers, ids, next, sessions, bus.log)
    }

    /** `seed` is the low half of the wall clock. */
    constructor (bus: HandlerBus, seed: int)
      requires bus.log == []
      ensures Valid() && this.bus == bus && Abs() == Initial(seed % 0x1_0000)
      ensures handlers == [] && ids == [] && sessions == map[] && next == seed % 0x1_0000
    {
      this.bus := bus;
      next := seed % 0x1_0000;
      ids, handlers := [], [];
      sessions, openFiles, openSessions := map[], map[], map[];
      new;
      forall p: Text ensures On(sessions, p) == {} {}
      forall h: HandlerId ensures Of(sessions, h) == {} {}
    }

    method RegisterHandler(handler: Option<HandlerId>) returns (ok: bool)
      requires Valid()
      modifies this`handlers
      ensures Valid() && Outcome(Abs(), Done(ok)) == Step(bus.w, old(Abs()), Register(handler))
    {
      if handler.None? {
        return false;
      }
      handlers := handlers + [handler.value];
      return true;
    }

    method BuildBlobList() returns (n: dword)
      requires Valid()
      modifies this`ids, bus
      ensures Valid() && Outcome(Abs(), Count(n)) == Step(bus.w, old(Abs()), BuildList)
    {
      ghost var all := ListAll(bus.w, bus.log, handlers);
      ids := [];
      for i := 0 to |handlers|
        invariant all.log == ListAll(bus.w, bus.log, handlers[i..]).log
        invariant all.ids == ids + ListAll(bus.w, bus.log, handlers[i..]).ids
      {
        var a := bus.Invoke(handlers[i], AskIds);
        assert handlers[i..][1..] == handlers[i + 1..];
        ghost var rest := ListAll(bus.w, bus.log, handlers[i + 1..]).ids;
        assert ids + (a.ids + rest) == (ids + a.ids) + rest;
        ids := ids + a.ids;
      }
      return |ids| % 0x1_0000_0000;
    }

    method GetBlobId(index: dword) returns (id: Text)
      requires Valid()
      ensures Valid() && Outcome(Abs(), Name(id)) == Step(bus.w, old(Abs()), GetId(index))
    {
      if index >= |ids| {
        return [];
      }
      return ids[index];
    }

    method GetHandler(path: Text) returns (handler: Option<HandlerId>)
      modifies bus
      ensures Found(bus.log, handler) == Find(bus.w, old(bus.log), handlers, path)
    {
      for i := 0 to |handlers|
        invariant Find(bus.w, old(bus.log), handlers, path) == Find(bus.w, bus.log, handlers[i..], path)
      {
        var a := bus.Invoke(handlers[i], AskCanHandle(path));
        if a.ok {
          return Some(handlers[i]);
        }
        assert handlers[i..][1..] == handlers[i + 1..];
      }
      return None;
    }

    method GetSession() returns (session: Option<word>)
      requires Valid()
      modifies this`next
      ensures Valid() && Outcome(Abs(), Opened(session)) == Step(bus.w, old(Abs()), Op.GetSession)
    {
      var tries := 0;
      while true
        invariant 0 <= tries < MAX_TRIES && next == Ahead(old(next), tries)
        invariant Scan(old(next), sessions.Keys, 0) == Scan(old(next), sessions.Keys, tries)
        decreases MAX_TRIES - tries
      {
        var candidate := next;
        next := (next + 1) % 0x1_0000;
        if candidate !in sessions {
          return Some(candidate);
        }
        tries := tries + 1;
        if tries >= MAX_TRIES {
          break;
        }
      }
      return None;
    }

    /** The one gate of every session call: finds the handler and refreshes the session's time. */
    method GetActionHandler(session: word, required: word, now: Time) returns (handler: Option<HandlerId>)
      requires Valid()
      modifies this`sessions
      ensures Valid()
      ensures handler.Some? <==> Admits(old(sessions), session, required)
      ensures handler.Some? ==> handler.value == old(sessions)[session].handler
      ensures sessions == if handler.Some? then Touched(old(sessions), session, now) else old(sessions)
    {
      if session in sessions && And(sessions[session].flags, required) != 0 {
        AgreeAfterTouch(sessions, openFiles, openSessions, session, now);
        handler := Some(sessions[session].handler);
        sessions := sessions[session := sessions[session].(lastActionTime := now)];
      } else {
        handler := None;
      }
    }

    /** The three inserts at the end of open. */
    method AddSession(session: word, entry: Session)
      requires Valid() && session !in sessions
      modifies this`sessions, this`openFiles, this`openSessions
      ensures Valid() && sessions == old(sessions)[session := entry]
    {
      AgreeAfterInsert(sessions, openFiles, openSessions, session, entry);
      sessions := sessions[session := entry];
      openSessions := openSessions[entry.handler := IndexOf(openSessions, entry.handler) + {session}];
      openFiles := openFiles[entry.blobId := CountOf(openFiles, entry.blobId) + 1];
    }

    method EraseSession(handler: HandlerId, session: word)
      requires Valid()
      requires session in sessions ==> sessions[session].handler == handler
      modifies this`sessions, this`openFiles, this`openSessions
      ensures Valid() && sessions == old(sessions) - {session}
    {
      if session in sessions {
        var blobId := sessions[session].blobId;
        openSessions := openSessions[handler := IndexOf(openSessions, handler) - {session}];
        openFiles := openFiles[blobId := CountOf(openFiles, blobId) - 1];
        if openFiles[blobId] == 0 {
          openFiles := openFiles - {blobId};
        }
        AgreeAfterErase(sessions, old(openFiles), old(openSessions), session, openFiles, openSessions);
        sessions := sessions - {session};
      } else {
        assert sessions == sessions - {session};
      }
    }

    predicate Idle(sessions: Sessions, s: word, now: Time) {
      s in sessions && now - sessions[s].lastActionTime >= bus.w.timeout
    }

    /** The first loop of the sweep, over the index of `handler`: the sessions idle for at least the timeout. */
    method CollectStale(handler: HandlerId, all: seq<word>, now: Time) returns (expired: set<word>)
      requires forall s :: s in all <==> s in Of(sessions, handler)
      ensures expired == Stale(bus.w, sessions, handler, now)
    {
      expired := {};
      for i := 0 to |all|
        invariant expired == set s | s in all[..i] && Idle(sessions, s, now)
      {
        // The source reads sessions[sessionId], which would create an absent entry; none is absent.
        assert all[i] in Of(sessions, handler);
        assert all[..i + 1] == all[..i] + [all[i]];
        if now - sessions[all[i]].lastActionTime >= bus.w.timeout {
          expired := expired + {all[i]};
        }
      }
      assert all[..|all|] == all;
    }

    /** The second loop of the sweep. */
    method ExpireEach(handler: HandlerId, queue: seq<word>)
      requires Valid() && Increasing(queue)
      requires forall s :: s in queue ==> s in Of(sessions, handler)
      modifies this`sessions, this`openFiles, this`openSessions, bus
      ensures Valid() && Abs() == ExpireAll(bus.w, old(Abs()), handler, queue)
    {
      for i := 0 to |queue|
        invariant Valid()
        invariant forall j :: i <= j < |queue| ==> queue[j] in Of(sessions, handler)
        invariant ExpireAll(bus.w, old(Abs()), handler, queue) == ExpireAll(bus.w, Abs(), handler, queue[i..])
      {
        assert queue[i..][1..] == queue[i + 1..];
        ghost var before := Abs();
        var a := bus.Invoke(handler, AskExpire(queue[i]));
        if a.ok {
          EraseSession(handler, queue[i]);
        }
        assert Abs() == ExpireOne(bus.w, before, handler, queue[i]);
      }
    }

    method CleanUpStaleSessions(handler: HandlerId, now: Time)
      requires Valid()
      modifies this`sessions, this`openFiles, this`openSessions, bus
      ensures Valid() && Abs() == Sweep(bus.w, old(Abs()), handler, now)
    {
      assert IndexOf(openSessions, handler) == Of(sessions, handler);
      if handler !in openSessions {
        NothingStale(bus.w, sessions, handler, now);
        return;
      }
      IndexWalk(sessions, handler);
      StaleWalk(bus.w, sessions, handler, now);
      var expired := CollectStale(handler, Ascending(openSessions[handler]), now);
      ExpireEach(handler, Ascending(expired));
    }

    method Open(flags: word, path: Text, now: Time, later: Time) returns (session: Option<word>)
      requires Valid()
      modifies this, bus
      ensures Valid()
      ensures Outcome(Abs(), Opened(session)) == OpenStep(bus.w, old(Abs()), flags, path, now, later)
    {
      ghost var st := Abs();
      var handler := GetHandler(path);
      ghost var asked := Abs();
      assert asked == st.(log := Find(bus.w, st.log, st.handlers, path).log);
      if handler.None? {
        return None;
      }
      var s := GetSession();
      assert Abs() == asked.(next := Allot(st.next, st.sessions.Keys).next);
      if s.None? {
        return None;
      }
      if And(flags, READ_OR_WRITE) == 0 {
        return None;
      }
      session := OpenOn(handler.value, s.value, flags, path, now, later);
    }

    /** The rest of open, once there is a handler and an id for it. */
    method OpenOn(handler: HandlerId, s: word, flags: word, path: Text, now: Time, later: Time)
      returns (session: Option<word>)
      requires Valid() && s !in sessions
      modifies this`sessions, this`openFiles, this`openSessions, bus
      ensures Valid()
      ensures Outcome(Abs(), Opened(session)) == OpenOnStep(bus.w, old(Abs()), handler, s, flags, path, now, later)
    {
      CleanUpStaleSessions(handler, now);
      SweepShrinks(bus.w, old(Abs()), handler, now);
      var a := bus.Invoke(handler, AskOpen(s, flags, path));
      if !a.ok {
        return None;
      }
      AddSession(s, Session(path, handler, flags, later));
      return Some(s);
    }

    method StatPath(path: Text) returns (meta: Option<BlobMeta>)
      requires Valid()
      modifies bus
      ensures Valid() && Outcome(Abs(), Meta(meta)) == Step(bus.w, old(Abs()), Op.StatPath(path))
    {
      var handler := GetHandler(path);
      if handler.None? {
        return None;
      }
      var a := bus.Invoke(handler.value, AskStatPath(path));
      return if a.ok then Some(a.meta) else None;
    }

    method Stat(session: word, now: Time) returns (meta: Option<BlobMeta>)
      requires Valid()
      modifies this`sessions, bus
      ensures Valid() && Outcome(Abs(), Meta(meta)) == Step(bus.w, old(Abs()), Op.Stat(session, now))
    {
      var handler := GetActionHandler(session, ANY_FLAG, now);
      if handler.Some? {
        var a := bus.Invoke(handler.value, AskStat(session));
        return if a.ok then Some(a.meta) else None;
      }
      return None;
    }

    method Commit(session: word, data: seq<byte>, now: Time) returns (ok: bool)
      requires Valid()
      modifies this`sessions, bus
      ensures Valid() && Outcome(Abs(), Done(ok)) == Step(bus.w, old(Abs()), Op.Commit(session, data, now))
    {
      var handler := GetActionHandler(session, ANY_FLAG, now);
      if handler.Some? {
        var a := bus.Invoke(handler.value, AskCommit(session, data));
        return a.ok;
      }
      return false;
    }

    method Close(session: word, now: Time) returns (ok: bool)
      requires Valid()
      modifies this`sessions, this`openFiles, this`openSessions, bus
      ensures Valid() && Outcome(Abs(), Done(ok)) == Step(bus.w, old(Abs()), Op.Close(session, now))
    {
      var handler := GetActionHandler(session, ANY_FLAG, now);
      if handler.Some? {
        var a := bus.Invoke(handler.value, AskClose(session));
        if !a.ok {
          return false;
        }
        EraseSession(handler.value, session);
        return true;
      }
      return false;
    }

    method Read(session: word, offset: dword, size: dword, now: Time) returns (bytes: seq<byte>)
      requires Valid()
      modifies this`sessions, bus
      ensures Valid() && Outcome(Abs(), Data(bytes)) == Step(bus.w, old(Abs()), Op.Read(session, offset, size, now))
    {
      var handler := GetActionHandler(session, READ, now);
      if handler.Some? {
        var a := bus.Invoke(handler.value, AskRead(session, offset, size));
        return a.bytes;
      }
      return [];
    }

    method Write(session: word, offset: dword, data: seq<byte>, now: Time) returns (ok: bool)
      requires Valid()
      modifies this`sessions, bus
      ensures Valid() && Outcome(Abs(), Done(ok)) == Step(bus.w, old(Abs()), Op.Write(session, offset, data, now))
    {
      var handler := GetActionHandler(session, WRITE, now);
      if handler.Some? {
        var a := bus.Invoke(handler.value, AskWrite(session, offset, data));
        return a.ok;
      }
      return false;
    }

    method DeleteBlob(path: Text) returns (ok: bool)
      requires Valid()
      modifies this`openFiles, bus
      ensures Valid() && Outcome(Abs(), Done(ok)) == Step(bus.w, old(Abs()), Op.Delete(path))
    {
      var handler := GetHandler(path);
      if handler.None? {
        return false;
      }
      CountedIffOpen(sessions, openFiles, openSessions, path);
      assert On(sessions, path) == {} <==> CountOf(openFiles, path) <= 0;
      // Reading openFiles[path] creates a zero entry for a path that has none.
      if path !in openFiles {
        openFiles := openFiles[path := 0];
        assert forall p: Text :: CountOf(openFiles, p) == CountOf(old(openFiles), p);
      }
      if openFiles[path] > 0 {
        return false;
      }
      var a := bus.Invoke(handler.value, AskDelete(path));
      return a.ok;
    }

    method WriteMeta(session: word, offset: dword, data: seq<byte>, now: Time) returns (ok: bool)
      requires Valid()
      modifies this`sessions, bus
      ensures Valid()
      ensures Outcome(Abs(), Done(ok)) == Step(bus.w, old(Abs()), Op.WriteMeta(session, offset, data, now))
    {
      var handler := GetActionHandler(session, ANY_FLAG, now);
      if handler.Some? {
        var a := bus.Invoke(handler.value, AskWriteMeta(session, offset, data));
        return a.ok;
      }
      return false;
    }

    /** One call of the interface. */
    method Perform(op: Op) returns (result: Result)
      requires Valid()
      modifies this, bus
      ensures Valid() && Outcome(Abs(), result) == Step(bus.w, old(Abs()), op)
    {
      match op
      case Register(handler) => var ok := RegisterHandler(handler); result := Done(ok);
      case BuildList => var n := BuildBlobList(); result := Count(n);
      case GetId(index) => var id := GetBlobId(index); result := Name(id);
      case GetSession => var s := GetSession(); result := Opened(s);
      case Open(flags, path, now, later) => var s := Open(flags, path, now, later); result := Opened(s);
      case StatPath(path) => var m := StatPath(path); result := Meta(m);
      case Stat(s, now) => var m := Stat(s, now); result := Meta(m);
      case Commit(s, data, now) => var ok := Commit(s, data, now); result := Done(ok);
      case Close(s, now) => var ok := Close(s, now); result := Done(ok);
      case Read(s, offset, size, now) => var b := Read(s, offset, size, now); result := Data(b);
      case Write(s, offset, data, now) => var ok := Write(s, offset, data, now); result := Done(ok);
      case Delete(path) => var ok := DeleteBlob(path); result := Done(ok);
      case WriteMeta(s, offset, data, now) => var ok := WriteMeta(s, offset, data, now); result := Done(ok);
    }

    /** Any client's whole run gives the results of the simple machine and asks the handlers the same
        things in the same order, whatever they answer. */
    method Drive(ops: seq<Op>) returns (results: seq<Result>)
      requires Valid()
      modifies this, bus
      ensures Valid()
      ensures results == Results(bus.w, old(Abs()), ops)
      ensures Abs() == Run(bus.w, old(Abs()), ops)
    {
      results := [];
      for i := 0 to |ops|
        invariant Valid()
        invariant Run(bus.w, old(Abs()), ops) == Run(bus.w, Abs(), ops[i..])
        invariant Results(bus.w, old(Abs()), ops) == results + Results(bus.w, Abs(), ops[i..])
      {
        assert ops[i..][1..] == ops[i + 1..];
        var r := Perform(ops[i]);
        results := results + [r];
      }
    }
  }
}
