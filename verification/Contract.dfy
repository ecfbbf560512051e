/** The calling contract of README.md:372-383, stated over the history of calls alone, and the proof that
    every history the manager produces honours it. */
module Contract {
  import opened BlobTypes
  import opened OrderedIds
  import opened SessionIds
  import opened Reference
  import opened Sweeping

  /** Who holds a live session, as the handlers themselves could tell from the calls they saw. */
  datatype Holder = Holder(handler: HandlerId, path: Text, flags: word)

  type Live = map<word, Holder>

  ghost function After(live: Live, e: Event): Live {
    match e.call
    case AskOpen(s, flags, path) => if e.answer.ok then live[s := Holder(e.handler, path, flags)] else live
    case AskClose(s) => if e.answer.ok then live - {s} else live
    case AskExpire(s) => if e.answer.ok then live - {s} else live
    case _ => live
  }

  /** The sessions opened and not yet closed or expired. */
  ghost function LiveIn(log: Log): Live {
    if log == [] then map[] else After(LiveIn(log[..|log| - 1]), log[|log| - 1])
  }

  /** `h` was the last to be asked whether it owns `path`, it said yes, and since then it was only asked to
      expire sessions. */
  ghost predicate Accepted(log: Log, h: HandlerId, path: Text) {
    && log != []
    && var e := log[|log| - 1];
       && e.handler == h
       && (|| (e.call == AskCanHandle(path) && e.answer.ok)
           || (e.call.AskExpire? && Accepted(log[..|log| - 1], h, path)))
  }

  ghost predicate Holds(live: Live, s: word, h: HandlerId) {
    s in live && live[s].handler == h
  }

  /** What the contract lets the manager ask of `h` after the history `log`. */
  ghost predicate Permitted(log: Log, h: HandlerId, c: Call) {
    match c
    case AskCanHandle(_) => true
    case AskIds => true
    case AskStatPath(path) => Accepted(log, h, path)
    case AskDelete(path) => Accepted(log, h, path) && forall s :: s in LiveIn(log) ==> LiveIn(log)[s].path != path
    case AskOpen(s, flags, path) =>
      Accepted(log, h, path) && s !in LiveIn(log) && And(flags, READ_OR_WRITE) != 0
    case AskRead(s, _, _) => Holds(LiveIn(log), s, h) && And(LiveIn(log)[s].flags, READ) != 0
    case AskWrite(s, _, _) => Holds(LiveIn(log), s, h) && And(LiveIn(log)[s].flags, WRITE) != 0
    case AskWriteMeta(s, _, _) => Holds(LiveIn(log), s, h)
    case AskCommit(s, _) => Holds(LiveIn(log), s, h)
    case AskClose(s) => Holds(LiveIn(log), s, h)
    case AskStat(s) => Holds(LiveIn(log), s, h)
    case AskExpire(s) => Holds(LiveIn(log), s, h)
  }

  /** Every call in the history was permitted when it was made. */
  ghost predicate Honoured(log: Log) {
    forall i :: 0 <= i < |log| ==> Permitted(log[..i], log[i].handler, log[i].call)
  }

  /** Every answer in the history is the world's. */
  ghost predicate Genuine(w: World, log: Log) {
    forall i :: 0 <= i < |log| ==> log[i].answer == w.answer(log[..i], log[i].handler, log[i].call)
  }

  function Holders(sessions: Sessions): Live {
    map s | s in sessions :: Holder(sessions[s].handler, sessions[s].blobId, sessions[s].flags)
  }

  /** The invariant: the session table is what the handlers would make of the history. */
  ghost predicate Sound(w: World, st: State) {
    Explains(w, st.log, st.sessions)
  }

  ghost predicate Explains(w: World, log: Log, sessions: Sessions) {
    && Genuine(w, log)
    && Honoured(log)
    && LiveIn(log) == Holders(sessions)
    && forall s :: s in sessions ==> And(sessions[s].flags, READ_OR_WRITE) != 0
  }

  lemma LiveAfter(log: Log, e: Event)
    ensures LiveIn(log + [e]) == After(LiveIn(log), e)
  {
    assert (log + [e])[..|log|] == log;
  }

  /** A permitted call keeps the history honoured and genuine. */
  lemma Tell(w: World, log: Log, h: HandlerId, c: Call)
    requires Genuine(w, log) && Honoured(log) && Permitted(log, h, c)
    ensures Genuine(w, Told(w, log, h, c)) && Honoured(Told(w, log, h, c))
    ensures LiveIn(Told(w, log, h, c)) == After(LiveIn(log), Event(h, c, w.answer(log, h, c)))
  {
    var log' := Told(w, log, h, c);
    LiveAfter(log, log'[|log|]);
    forall i | 0 <= i < |log'|
      ensures Permitted(log'[..i], log'[i].handler, log'[i].call)
      ensures log'[i].answer == w.answer(log'[..i], log'[i].handler, log'[i].call)
    {
      if i < |log| {
        assert log'[..i] == log[..i] && log'[i] == log[i];
      } else {
        assert log'[..i] == log;
      }
    }
  }

  lemma {:induction false} FindIsSound(w: World, log: Log, handlers: seq<HandlerId>, path: Text)
    requires Genuine(w, log) && Honoured(log)
    ensures var f := Find(w, log, handlers, path);
            && Genuine(w, f.log) && Honoured(f.log) && LiveIn(f.log) == LiveIn(log)
            && (f.handler.Some? ==> Accepted(f.log, f.handler.value, path) && f.handler.value in handlers)
    decreases |handlers|
  {
    if handlers != [] {
      Tell(w, log, handlers[0], AskCanHandle(path));
      if !w.answer(log, handlers[0], AskCanHandle(path)).ok {
        FindIsSound(w, Told(w, log, handlers[0], AskCanHandle(path)), handlers[1..], path);
      }
    }
  }

  lemma LookupIsSound(w: World, st: State, path: Text)
    requires Sound(w, st)
    ensures var f := Find(w, st.log, st.handlers, path);
            && Explains(w, f.log, st.sessions)
            && (f.handler.Some? ==> Accepted(f.log, f.handler.value, path))
  {
    FindIsSound(w, st.log, st.handlers, path);
  }

  lemma {:induction false} ListAllIsSound(w: World, log: Log, handlers: seq<HandlerId>)
    requires Genuine(w, log) && Honoured(log)
    ensures var l := ListAll(w, log, handlers);
            Genuine(w, l.log) && Honoured(l.log) && LiveIn(l.log) == LiveIn(log)
    decreases |handlers|
  {
    if handlers != [] {
      Tell(w, log, handlers[0], AskIds);
      ListAllIsSound(w, Told(w, log, handlers[0], AskIds), handlers[1..]);
    }
  }

  lemma ExpireOneIsSound(w: World, st: State, h: HandlerId, s: word)
    requires Sound(w, st) && s in Of(st.sessions, h)
    ensures Sound(w, ExpireOne(w, st, h, s))
    ensures forall path :: Accepted(st.log, h, path) ==> Accepted(ExpireOne(w, st, h, s).log, h, path)
  {
    Tell(w, st.log, h, AskExpire(s));
    var after := ExpireOne(w, st, h, s);
    assert after.log[..|after.log| - 1] == st.log;
    assert LiveIn(after.log) == Holders(after.sessions);
  }

  lemma {:induction false} ExpireAllIsSound(w: World, st: State, h: HandlerId, order: seq<word>)
    requires Sound(w, st) && Increasing(order) && forall s :: s in order ==> s in Of(st.sessions, h)
    ensures Sound(w, ExpireAll(w, st, h, order))
    ensures forall path :: Accepted(st.log, h, path) ==> Accepted(ExpireAll(w, st, h, order).log, h, path)
    decreases |order|
  {
    if order != [] {
      ExpireOneIsSound(w, st, h, order[0]);
      var one := ExpireOne(w, st, h, order[0]);
      forall s | s in order[1..] ensures s in Of(one.sessions, h) {
        assert s in order && s != order[0];
      }
      ExpireAllIsSound(w, one, h, order[1..]);
    }
  }

  lemma SweepIsSound(w: World, st: State, h: HandlerId, now: Time)
    requires Sound(w, st)
    ensures Sound(w, Sweep(w, st, h, now))
    ensures forall path :: Accepted(st.log, h, path) ==> Accepted(Sweep(w, st, h, now).log, h, path)
  {
    StaleWalk(w, st.sessions, h, now);
    ExpireAllIsSound(w, st, h, Ascending(Stale(w, st.sessions, h, now)));
  }

  lemma HoldersAfterTouch(sessions: Sessions, s: word, now: Time)
    requires s in sessions
    ensures Holders(Touched(sessions, s, now)) == Holders(sessions)
    ensures Holders(Touched(sessions, s, now) - {s}) == Holders(sessions) - {s}
  {
  }

  /** The calls that go to the handler of a live session. */
  ghost predicate OnSession(c: Call, s: word, required: word) {
    match c
    case AskRead(s', _, _) => s' == s && required == READ
    case AskWrite(s', _, _) => s' == s && required == WRITE
    case AskWriteMeta(s', _, _) => s' == s
    case AskCommit(s', _) => s' == s
    case AskStat(s') => s' == s
    case _ => false
  }

  lemma RouteIsSound(w: World, st: State, s: word, required: word, now: Time, c: Call)
    requires Sound(w, st) && Admits(st.sessions, s, required) && OnSession(c, s, required)
    ensures Sound(w, Route(w, st, s, now, c).state)
  {
    var h := st.sessions[s].handler;
    assert Holders(st.sessions)[s] == Holder(h, st.sessions[s].blobId, st.sessions[s].flags);
    Tell(w, st.log, h, c);
    HoldersAfterTouch(st.sessions, s, now);
  }

  lemma RouteOkIsSound(w: World, st: State, s: word, required: word, now: Time, c: Call)
    requires Sound(w, st) && OnSession(c, s, required)
    ensures Sound(w, RouteOk(w, st, s, required, now, c).state)
  {
    if Admits(st.sessions, s, required) {
      RouteIsSound(w, st, s, required, now, c);
    }
  }

  lemma CloseIsSound(w: World, st: State, s: word, now: Time)
    requires Sound(w, st)
    ensures Sound(w, CloseStep(w, st, s, now).state)
  {
    if Admits(st.sessions, s, ANY_FLAG) {
      var h := st.sessions[s].handler;
      assert Holders(st.sessions)[s].handler == h;
      Tell(w, st.log, h, AskClose(s));
      HoldersAfterTouch(st.sessions, s, now);
    }
  }

  lemma OfferIsSound(w: World, st: State, h: HandlerId, s: word, flags: word, path: Text, later: Time)
    requires Sound(w, st) && Accepted(st.log, h, path) && s !in st.sessions && And(flags, READ_OR_WRITE) != 0
    ensures var told := st.(log := Told(w, st.log, h, AskOpen(s, flags, path)));
            && (w.answer(st.log, h, AskOpen(s, flags, path)).ok ==>
                  Sound(w, told.(sessions := st.sessions[s := Session(path, h, flags, later)])))
            && (!w.answer(st.log, h, AskOpen(s, flags, path)).ok ==> Sound(w, told))
  {
    assert s !in LiveIn(st.log);
    Tell(w, st.log, h, AskOpen(s, flags, path));
    assert Holders(st.sessions[s := Session(path, h, flags, later)])
        == Holders(st.sessions)[s := Holder(h, path, flags)];
  }

  lemma OpenOnIsSound(w: World, st: State, h: HandlerId, s: word, flags: word, path: Text, now: Time, later: Time)
    requires Sound(w, st) && Accepted(st.log, h, path) && s !in st.sessions && And(flags, READ_OR_WRITE) != 0
    ensures Sound(w, OpenOnStep(w, st, h, s, flags, path, now, later).state)
  {
    SweepIsSound(w, st, h, now);
    SweepShrinks(w, st, h, now);
    OfferIsSound(w, Sweep(w, st, h, now), h, s, flags, path, later);
  }

  lemma OpenIsSound(w: World, st: State, flags: word, path: Text, now: Time, later: Time)
    requires Sound(w, st)
    ensures Sound(w, OpenStep(w, st, flags, path, now, later).state)
  {
    LookupIsSound(w, st, path);
    var found := Find(w, st.log, st.handlers, path);
    var allotted := Allot(st.next, st.sessions.Keys);
    var moved := st.(log := found.log, next := allotted.next);
    if found.handler.None? {
      assert OpenStep(w, st, flags, path, now, later).state == st.(log := found.log);
    } else if allotted.id.None? || And(flags, READ_OR_WRITE) == 0 {
      assert OpenStep(w, st, flags, path, now, later).state == moved;
    } else {
      OpenOnIsSound(w, moved, found.handler.value, allotted.id.value, flags, path, now, later);
    }
  }

  lemma DeleteIsSound(w: World, st: State, path: Text)
    requires Sound(w, st)
    ensures Sound(w, DeleteStep(w, st, path).state)
  {
    FindIsSound(w, st.log, st.handlers, path);
    var found := Find(w, st.log, st.handlers, path);
    if found.handler.Some? && On(st.sessions, path) == {} {
      forall s | s in LiveIn(found.log) ensures LiveIn(found.log)[s].path != path {
        assert s !in On(st.sessions, path);
      }
      Tell(w, found.log, found.handler.value, AskDelete(path));
    }
  }

  lemma StatPathIsSound(w: World, st: State, path: Text)
    requires Sound(w, st)
    ensures Sound(w, StatPathStep(w, st, path).state)
  {
    FindIsSound(w, st.log, st.handlers, path);
    var found := Find(w, st.log, st.handlers, path);
    if found.handler.Some? {
      Tell(w, found.log, found.handler.value, AskStatPath(path));
    }
  }

  lemma StepIsSound(w: World, st: State, op: Op)
    requires Sound(w, st)
    ensures Sound(w, Step(w, st, op).state)
  {
    match op
    case BuildList => ListAllIsSound(w, st.log, st.handlers);
    case Open(flags, path, now, later) => OpenIsSound(w, st, flags, path, now, later);
    case StatPath(path) => StatPathIsSound(w, st, path);
    case Delete(path) => DeleteIsSound(w, st, path);
    case Close(s, now) => CloseIsSound(w, st, s, now);
    case Stat(s, now) => RouteOkIsSound(w, st, s, ANY_FLAG, now, AskStat(s));
    case Read(s, offset, size, now) => RouteOkIsSound(w, st, s, READ, now, AskRead(s, offset, size));
    case Commit(s, data, now) => RouteOkIsSound(w, st, s, ANY_FLAG, now, AskCommit(s, data));
    case Write(s, offset, data, now) => RouteOkIsSound(w, st, s, WRITE, now, AskWrite(s, offset, data));
    case WriteMeta(s, offset, data, now) =>
      RouteOkIsSound(w, st, s, ANY_FLAG, now, AskWriteMeta(s, offset, data));
    case _ =>
  }

  lemma {:induction false} RunIsSound(w: World, st: State, ops: seq<Op>)
    requires Sound(w, st)
    ensures Sound(w, Run(w, st, ops))
    decreases |ops|
  {
    if ops != [] {
      StepIsSound(w, st, ops[0]);
      RunIsSound(w, Step(w, st, ops[0]).state, ops[1..]);
    }
  }

  /** Whatever clients do and whatever handlers answer, a fresh manager honours the contract for ever. */
  lemma ContractHonoured(w: World, seed: word, ops: seq<Op>)
    ensures Sound(w, Run(w, Initial(seed), ops))
    ensures Honoured(Run(w, Initial(seed), ops).log)
  {
    RunIsSound(w, Initial(seed), ops);
  }
}
