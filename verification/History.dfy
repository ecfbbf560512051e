/** What one manager call may add to the history, and what it may change in a live session's entry. */
module History {
  import opened BlobTypes
  import opened SessionIds
  import opened Reference
  import opened Sweeping
  import opened Contract

  /** The handler calls a manager call may lead to. */
  ghost predicate MayAsk(op: Op, c: Call) {
    match op
    case BuildList => c == AskIds
    case Open(flags, path, _, _) =>
      c == AskCanHandle(path) || c.AskExpire? || (c.AskOpen? && c.flags == flags && c.path == path)
    case StatPath(path) => c == AskCanHandle(path) || c == AskStatPath(path)
    case Delete(path) => c == AskCanHandle(path) || c == AskDelete(path)
    case Stat(s, _) => c == AskStat(s)
    case Commit(s, data, _) => c == AskCommit(s, data)
    case Close(s, _) => c == AskClose(s)
    case Read(s, offset, size, _) => c == AskRead(s, offset, size)
    case Write(s, offset, data, _) => c == AskWrite(s, offset, data)
    case WriteMeta(s, offset, data, _) => c == AskWriteMeta(s, offset, data)
    case _ => false
  }

  /** `after` continues `before` with calls `op` may lead to, and no others. */
  ghost predicate Continues(before: Log, after: Log, op: Op) {
    && |before| <= |after| && after[..|before|] == before
    && forall i :: |before| <= i < |after| ==> MayAsk(op, after[i].call)
  }

  lemma ContinuesTwice(a: Log, b: Log, c: Log, op: Op)
    requires Continues(a, b, op) && Continues(b, c, op)
    ensures Continues(a, c, op)
  {
    assert c[..|a|] == c[..|b|][..|a|];
    forall i | |a| <= i < |c| ensures MayAsk(op, c[i].call) {
      if i < |b| {
        assert c[i] == c[..|b|][i] == b[i];
      }
    }
  }

  lemma {:induction false} FindContinues(w: World, log: Log, handlers: seq<HandlerId>, path: Text, op: Op)
    requires MayAsk(op, AskCanHandle(path))
    ensures Continues(log, Find(w, log, handlers, path).log, op)
    decreases |handlers|
  {
    if handlers != [] {
      var told := Told(w, log, handlers[0], AskCanHandle(path));
      FindContinues(w, told, handlers[1..], path, op);
      ContinuesTwice(log, told, Find(w, told, handlers[1..], path).log, op);
    }
  }

  /** These events ask the first of `handlers`, one by one in order, whether they own `path`. */
  ghost predicate AskedInTurn(events: Log, handlers: seq<HandlerId>, path: Text) {
    && |events| <= |handlers|
    && forall i :: 0 <= i < |events| ==> events[i].handler == handlers[i] && events[i].call == AskCanHandle(path)
  }

  /** Of those asked, `owner` was the last and the only one to say yes; without an owner, nobody did. */
  ghost predicate OnlyLastSaidYes(events: Log, owner: Option<HandlerId>) {
    && (forall i :: 0 <= i < |events| ==> (events[i].answer.ok <==> owner.Some? && i == |events| - 1))
    && (owner.Some? ==> events != [] && owner.value == events[|events| - 1].handler)
  }

  /** The handlers are asked one by one, in the order they were registered, until one says yes; that one is
      the result, and nobody is asked after it. */
  lemma {:induction false} FindStopsAtTheFirstYes(w: World, log: Log, handlers: seq<HandlerId>, path: Text)
      returns (events: Log)
    ensures var f := Find(w, log, handlers, path);
            && f.log == log + events
            && AskedInTurn(events, handlers, path) && OnlyLastSaidYes(events, f.handler)
            && (f.handler.None? ==> |events| == |handlers|)
    decreases |handlers|
  {
    if handlers == [] {
      events := [];
    } else {
      var c := AskCanHandle(path);
      var first := Event(handlers[0], c, w.answer(log, handlers[0], c));
      if first.answer.ok {
        events := [first];
      } else {
        var rest := FindStopsAtTheFirstYes(w, Told(w, log, handlers[0], c), handlers[1..], path);
        events := [first] + rest;
        assert log + [first] + rest == log + events;
      }
    }
  }

  lemma {:induction false} ListAllContinues(w: World, log: Log, handlers: seq<HandlerId>)
    ensures Continues(log, ListAll(w, log, handlers).log, BuildList)
    decreases |handlers|
  {
    if handlers != [] {
      var told := Told(w, log, handlers[0], AskIds);
      ListAllContinues(w, told, handlers[1..]);
      ContinuesTwice(log, told, ListAll(w, told, handlers[1..]).log, BuildList);
    }
  }

  lemma SweepContinues(w: World, st: State, h: HandlerId, now: Time, op: Op)
    requires op.Open?
    ensures Continues(st.log, Sweep(w, st, h, now).log, op)
  {
    var after := Sweep(w, st, h, now);
    SweepExact(w, st, h, now);
    forall i | |st.log| <= i < |after.log| ensures after.log[i].call.AskExpire? {
      assert after.log[i] == after.log[|st.log|..][i - |st.log|];
    }
  }

  lemma OpenOnContinues(w: World, st: State, h: HandlerId, s: word, op: Op)
    requires op.Open?
    ensures Continues(st.log, OpenOnStep(w, st, h, s, op.flags, op.path, op.now, op.later).state.log, op)
  {
    var swept := Sweep(w, st, h, op.now);
    SweepContinues(w, st, h, op.now, op);
    ContinuesTwice(st.log, swept.log, Told(w, swept.log, h, AskOpen(s, op.flags, op.path)), op);
  }

  lemma OpenContinues(w: World, st: State, op: Op)
    requires op.Open?
    ensures Continues(st.log, OpenStep(w, st, op.flags, op.path, op.now, op.later).state.log, op)
  {
    var found := Find(w, st.log, st.handlers, op.path);
    FindContinues(w, st.log, st.handlers, op.path, op);
    var allotted := Allot(st.next, st.sessions.Keys);
    var moved := st.(log := found.log, next := allotted.next);
    if found.handler.None? {
      assert OpenStep(w, st, op.flags, op.path, op.now, op.later).state == st.(log := found.log);
    } else if allotted.id.None? || And(op.flags, READ_OR_WRITE) == 0 {
      assert OpenStep(w, st, op.flags, op.path, op.now, op.later).state == moved;
    } else {
      OpenOnContinues(w, moved, found.handler.value, allotted.id.value, op);
      ContinuesTwice(st.log, found.log, OpenStep(w, st, op.flags, op.path, op.now, op.later).state.log, op);
    }
  }

  lemma PathOpContinues(w: World, st: State, op: Op)
    requires op.StatPath? || op.Delete?
    ensures Continues(st.log, Step(w, st, op).state.log, op)
  {
    var found := Find(w, st.log, st.handlers, op.path);
    FindContinues(w, st.log, st.handlers, op.path, op);
    if found.handler.Some? {
      ContinuesTwice(st.log, found.log, Step(w, st, op).state.log, op);
    }
  }

  /** The history is only ever extended, and only with what the call at hand asked for. */
  lemma StepContinues(w: World, st: State, op: Op)
    ensures Continues(st.log, Step(w, st, op).state.log, op)
  {
    match op
    case BuildList => ListAllContinues(w, st.log, st.handlers);
    case Open(_, _, _, _) => OpenContinues(w, st, op);
    case StatPath(_) => PathOpContinues(w, st, op);
    case Delete(_) => PathOpContinues(w, st, op);
    case _ =>
  }

  /** Apart from sessions and history, an open changes only `next`, and only by one allocation. */
  lemma OpenFrame(w: World, st: State, op: Op)
    requires op.Open?
    ensures var after := OpenStep(w, st, op.flags, op.path, op.now, op.later).state;
            && after.handlers == st.handlers && after.ids == st.ids
            && after.next == if Find(w, st.log, st.handlers, op.path).handler.None? then st.next
                             else Allot(st.next, st.sessions.Keys).next
  {
    var found := Find(w, st.log, st.handlers, op.path);
    var allotted := Allot(st.next, st.sessions.Keys);
    var moved := st.(log := found.log, next := allotted.next);
    if found.handler.None? {
      assert OpenStep(w, st, op.flags, op.path, op.now, op.later).state == st.(log := found.log);
    } else if allotted.id.None? || And(op.flags, READ_OR_WRITE) == 0 {
      assert OpenStep(w, st, op.flags, op.path, op.now, op.later).state == moved;
    } else {
      SweepFrame(w, moved, found.handler.value, op.now);
      assert OpenStep(w, st, op.flags, op.path, op.now, op.later)
          == OpenOnStep(w, moved, found.handler.value, allotted.id.value, op.flags, op.path, op.now, op.later);
    }
  }

  // A live session's entry

  lemma OpenOnKeepsEntries(w: World, st: State, h: HandlerId, id: word, flags: word, path: Text, now: Time, later: Time)
    requires id !in st.sessions
    ensures var after := OpenOnStep(w, st, h, id, flags, path, now, later).state.sessions;
            forall s :: s in st.sessions && s in after ==> after[s] == st.sessions[s]
  {
    SweepExact(w, st, h, now);
  }

  lemma OpenKeepsEntries(w: World, st: State, flags: word, path: Text, now: Time, later: Time)
    ensures var after := OpenStep(w, st, flags, path, now, later).state.sessions;
            forall s :: s in st.sessions && s in after ==> after[s] == st.sessions[s]
  {
    var found := Find(w, st.log, st.handlers, path);
    var allotted := Allot(st.next, st.sessions.Keys);
    var moved := st.(log := found.log, next := allotted.next);
    if found.handler.None? {
      assert OpenStep(w, st, flags, path, now, later).state == st.(log := found.log);
    } else if allotted.id.None? || And(flags, READ_OR_WRITE) == 0 {
      assert OpenStep(w, st, flags, path, now, later).state == moved;
    } else {
      OpenOnKeepsEntries(w, moved, found.handler.value, allotted.id.value, flags, path, now, later);
    }
  }

  /** While a session lives its handler, path and flags never change. */
  lemma StepKeepsHolder(w: World, st: State, op: Op, s: word)
    requires s in st.sessions && s in Step(w, st, op).state.sessions
    ensures Holders(Step(w, st, op).state.sessions)[s] == Holders(st.sessions)[s]
  {
    match op
    case Open(flags, path, now, later) => OpenKeepsEntries(w, st, flags, path, now, later);
    case _ =>
  }
}
