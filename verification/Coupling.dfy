/** The manager with an ExampleBlobHandler registered: the two session tables agree in every reachable state. */
module Coupling {
  import opened BlobTypes
  import opened OrderedIds
  import opened SessionIds
  import opened Reference
  import opened Sweeping
  import opened Contract
  import opened Discipline
  import opened ExampleSpec

  // What a new blob's uninitialised buffer happens to hold, by the history when it is opened.
  type Fill = Log -> Buffer

  /** The table of the example handler `e` after the history `log`. */
  ghost function Replay(fill: Fill, log: Log, e: HandlerId): Table {
    if log == [] then map[]
    else
      var earlier := log[..|log| - 1];
      var last := log[|log| - 1];
      if last.handler == e then Next(Replay(fill, earlier, e), last.call, fill(earlier)) else Replay(fill, earlier, e)
  }

  /** Handler `e` of the world is an ExampleBlobHandler; the others are anything. */
  ghost predicate IsExample(w: World, e: HandlerId, fill: Fill) {
    forall log, c :: w.answer(log, e, c) == Reply(Replay(fill, log, e), c)
  }

  lemma ReplayAfter(fill: Fill, log: Log, event: Event, e: HandlerId)
    ensures Replay(fill, log + [event], e) ==
            if event.handler == e then Next(Replay(fill, log, e), event.call, fill(log)) else Replay(fill, log, e)
  {
    assert (log + [event])[..|log|] == log;
  }

  ghost function HeldBy(live: Live, e: HandlerId): set<word> {
    set s | s in live && live[s].handler == e
  }

  /** One permitted, truthfully answered call keeps the example's keys those of its live sessions. */
  lemma KeysStayCoupled(t: Table, live: Live, log: Log, event: Event, fill: Buffer, e: HandlerId)
    requires t.Keys == HeldBy(live, e) && LiveIn(log) == live
    requires Permitted(log, event.handler, event.call)
    requires event.handler == e ==> event.answer == Reply(t, event.call)
    ensures (if event.handler == e then Next(t, event.call, fill) else t).Keys == HeldBy(After(live, event), e)
  {
    var t' := if event.handler == e then Next(t, event.call, fill) else t;
    forall s: word ensures s in t'.Keys <==> s in HeldBy(After(live, event), e) {
    }
  }

  lemma {:induction false} HistoryCouples(w: World, log: Log, e: HandlerId, fill: Fill)
    requires IsExample(w, e, fill) && Genuine(w, log) && Honoured(log)
    ensures Replay(fill, log, e).Keys == HeldBy(LiveIn(log), e)
  {
    if log != [] {
      var earlier := log[..|log| - 1];
      var event := log[|log| - 1];
      assert forall i :: 0 <= i < |earlier| ==> earlier[i] == log[i] && earlier[..i] == log[..i];
      HistoryCouples(w, earlier, e, fill);
      KeysStayCoupled(Replay(fill, earlier, e), LiveIn(earlier), earlier, event, fill(earlier), e);
    }
  }

  /** In every sound state, so in every reachable one, the example's sessions are exactly the manager's. */
  lemma TablesAgree(w: World, st: State, e: HandlerId, fill: Fill)
    requires IsExample(w, e, fill) && Sound(w, st)
    ensures Replay(fill, st.log, e).Keys == Of(st.sessions, e)
  {
    HistoryCouples(w, st.log, e, fill);
    assert HeldBy(Holders(st.sessions), e) == Of(st.sessions, e);
  }

  /** The example never meets a session id it already has. */
  lemma NeverAlreadyActive(w: World, seed: word, ops: seq<Op>, e: HandlerId, fill: Fill, i: nat)
    requires IsExample(w, e, fill)
    requires var log := Run(w, Initial(seed), ops).log;
             i < |log| && log[i].handler == e && log[i].call.AskOpen?
    ensures var log := Run(w, Initial(seed), ops).log;
            && log[i].call.session !in Replay(fill, log[..i], e)
            && log[i].answer.ok == (log[i].call.path == SUPPORTED_PATH)
  {
    ContractHonoured(w, seed, ops);
    var log := Run(w, Initial(seed), ops).log;
    var earlier := log[..i];
    assert forall j :: 0 <= j < |earlier| ==> earlier[j] == log[j] && earlier[..j] == log[..j];
    HistoryCouples(w, earlier, e, fill);
    assert log[i].call.session !in HeldBy(LiveIn(earlier), e);
  }

  lemma CloseSucceeds(w: World, st: State, e: HandlerId, fill: Fill, s: word, now: Time)
    requires IsExample(w, e, fill) && Sound(w, st) && s in Of(st.sessions, e)
    ensures var o := CloseStep(w, st, s, now); o.result == Done(true) && s !in o.state.sessions
  {
    TablesAgree(w, st, e, fill);
    FlagTests(st.sessions[s].flags);
  }

  lemma StatSucceeds(w: World, st: State, e: HandlerId, fill: Fill, s: word, now: Time)
    requires IsExample(w, e, fill) && Sound(w, st) && s in Of(st.sessions, e)
    ensures s in Replay(fill, st.log, e)
    ensures var b := Replay(fill, st.log, e)[s];
            StatStep(w, st, s, now).result == Meta(Some(BlobMeta(b.state, b.length, [])))
  {
    TablesAgree(w, st, e, fill);
    FlagTests(st.sessions[s].flags);
  }

  /** Closing a live example session, or asking for its stat, always succeeds. */
  lemma LiveSessionsRespond(w: World, st: State, e: HandlerId, fill: Fill, s: word, now: Time)
    requires IsExample(w, e, fill) && Sound(w, st) && s in Of(st.sessions, e)
    ensures s in Replay(fill, st.log, e)
    ensures var closed := Step(w, st, Close(s, now)); closed.result == Done(true) && s !in closed.state.sessions
    ensures var b := Replay(fill, st.log, e)[s];
            Step(w, st, Stat(s, now)).result == Meta(Some(BlobMeta(b.state, b.length, [])))
  {
    CloseSucceeds(w, st, e, fill, s, now);
    StatSucceeds(w, st, e, fill, s, now);
  }

  lemma {:induction false} ExampleRefusesToExpire(w: World, st: State, e: HandlerId, fill: Fill, order: seq<word>)
    requires IsExample(w, e, fill)
    ensures ExpireAll(w, st, e, order).sessions == st.sessions
    decreases |order|
  {
    if order != [] {
      ExampleRefusesToExpire(w, ExpireOne(w, st, e, order[0]), e, fill, order[1..]);
    }
  }

  /** No sweep, of the example or of any other handler, ever removes an example session. */
  lemma SweepsSpareTheExample(w: World, st: State, e: HandlerId, fill: Fill, h: HandlerId, now: Time)
    requires IsExample(w, e, fill)
    ensures Of(Sweep(w, st, h, now).sessions, e) == Of(st.sessions, e)
  {
    if h == e {
      ExampleRefusesToExpire(w, st, e, fill, Ascending(Stale(w, st.sessions, e, now)));
    } else {
      SweepExact(w, st, h, now);
    }
  }

  /** Asked at any time, an example handler owns "/dev/fake/command" and nothing else. */
  lemma OwnsExactlyItsPath(w: World, log: Log, path: Text, e: HandlerId, fill: Fill)
    requires IsExample(w, e, fill)
    ensures w.answer(log, e, AskCanHandle(path)).ok <==>
            |path| == |"/dev/fake/command"| && forall i :: 0 <= i < |path| ==> path[i] == "/dev/fake/command"[i] as int
  {
    PathIsDevFakeCommand();
    AcceptsExactly(Replay(fill, log, e), AskCanHandle(path));
  }

  lemma {:induction false} OwnsOnlyItsPath(w: World, log: Log, handlers: seq<HandlerId>, path: Text,
                                           e: HandlerId, fill: Fill)
    requires IsExample(w, e, fill) && Find(w, log, handlers, path).handler == Some(e)
    ensures path == SUPPORTED_PATH
    decreases |handlers|
  {
    if !w.answer(log, handlers[0], AskCanHandle(path)).ok {
      OwnsOnlyItsPath(w, Told(w, log, handlers[0], AskCanHandle(path)), handlers[1..], path, e, fill);
    }
  }

  lemma OfferAccepted(w: World, st: State, e: HandlerId, fill: Fill, s: word, flags: word)
    requires IsExample(w, e, fill) && Sound(w, st) && s !in st.sessions
    ensures w.answer(st.log, e, AskOpen(s, flags, SUPPORTED_PATH)).ok
  {
    TablesAgree(w, st, e, fill);
    assert s !in Replay(fill, st.log, e);
  }

  /** An open whose owner is the example succeeds exactly when there is an id to give and a read or write
      flag. */
  lemma ExampleOpensWhenItCan(w: World, st: State, e: HandlerId, fill: Fill, op: Op)
    requires IsExample(w, e, fill) && Sound(w, st)
    requires op.Open? && Find(w, st.log, st.handlers, op.path).handler == Some(e)
    ensures Step(w, st, op).result == Opened(None) <==> NoIdLeft(st) || op.flags % 4 == 0
  {
    OpenIsTransactional(w, st, op);
    if !NoIdLeft(st) && op.flags % 4 != 0 {
      var found := Find(w, st.log, st.handlers, op.path);
      var allotted := Allot(st.next, st.sessions.Keys);
      var moved := st.(log := found.log, next := allotted.next);
      OwnsOnlyItsPath(w, st.log, st.handlers, op.path, e, fill);
      LookupIsSound(w, st, op.path);
      SweepIsSound(w, moved, e, op.now);
      OfferAccepted(w, Sweep(w, moved, e, op.now), e, fill, allotted.id.value, op.flags);
    }
  }
}
