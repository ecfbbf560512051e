/** How far apart two uses of the same session id are, over whole runs. */
module Reissue {
  import opened BlobTypes
  import opened SessionIds
  import opened Reference
  import opened History
  import opened Discipline

  /** The allocation a call performs, if it gets that far. */
  function Allocation(w: World, st: State, op: Op): Option<Allotted> {
    match op
    case GetSession => Some(Allot(st.next, st.sessions.Keys))
    case Open(_, path, _, _) =>
      if Find(w, st.log, st.handlers, path).handler.None? then None else Some(Allot(st.next, st.sessions.Keys))
    case _ => None
  }

  /** `next` moves only by allocations, and the id a call returns is the one it allocated. */
  lemma OnlyAllocationsMoveNext(w: World, st: State, op: Op)
    ensures var a := Allocation(w, st, op);
            && (a.Some? ==> a.value == Allot(st.next, st.sessions.Keys))
            && Step(w, st, op).state.next == (if a.Some? then a.value.next else st.next)
            && (Step(w, st, op).result.Opened? && Step(w, st, op).result.session.Some? ==>
                  a.Some? && a.value.id == Step(w, st, op).result.session)
  {
    if op.Open? {
      OpenFrame(w, st, op);
      OpenReturnsAllotted(w, st, op);
    }
  }

  lemma OpenReturnsAllotted(w: World, st: State, op: Op)
    requires op.Open?
    ensures var o := Step(w, st, op);
            o.result == Opened(None) ||
            (Allocation(w, st, op).Some? && o.result == Opened(Allocation(w, st, op).value.id))
  {
    OpenGoes(w, st, op);
    var found := Find(w, st.log, st.handlers, op.path);
    var allotted := Allot(st.next, st.sessions.Keys);
    if found.handler.Some? && allotted.id.Some? {
      OfferedOpen(w, st.(log := found.log, next := allotted.next), found.handler.value, allotted.id.value, op);
    }
  }

  /** A successful allocation: the id, and the number of increments of `next` before the probe that found
      it, counted from the run's start and offset by the value `next` started from. */
  datatype Issue = Issue(id: word, index: nat)

  // What the 16-bit counter shows at each position of an unbounded one.
  type Dial = nat -> word

  ghost predicate Wraps(dial: Dial) {
    forall p: nat :: dial(p) == p % 0x1_0000
  }

  /** Each id is what the dial shows at its index, and the indices increase. */
  ghost predicate OnTheDial(dial: Dial, issues: seq<Issue>, from: nat) {
    && (forall i :: 0 <= i < |issues| ==> issues[i].id == dial(issues[i].index) && from <= issues[i].index)
    && (forall i, j :: 0 <= i < j < |issues| ==> issues[i].index < issues[j].index)
  }

  lemma OnTheDialCons(dial: Dial, first: Issue, rest: seq<Issue>, from: nat, later: nat)
    requires OnTheDial(dial, rest, later) && from <= first.index < later && first.id == dial(first.index)
    ensures OnTheDial(dial, [first] + rest, from)
  {
    var all := [first] + rest;
    forall i, j | 0 <= i < j < |all| ensures all[i].index < all[j].index {
      assert all[j] == rest[j - 1];
    }
  }

  function Advanced(position: nat, a: Option<Allotted>): nat {
    if a.Some? then position + a.value.probes else position
  }

  /** An allocation, if there was one, turns the dial by its probes; the id is the last position passed. */
  ghost predicate Turned(dial: Dial, position: nat, a: Option<Allotted>, next: word) {
    && next == dial(Advanced(position, a))
    && (a.Some? ==> a.value.probes >= 1)
    && (a.Some? && a.value.id.Some? ==> a.value.id.value == dial(position + a.value.probes - 1))
  }

  lemma AllocationTurns(dial: Dial, before: word, live: set<word>, position: nat, a: Option<Allotted>, after: word)
    requires Wraps(dial) && before == dial(position) && (a.Some? ==> a.value == Allot(before, live))
    requires after == if a.Some? then a.value.next else before
    ensures Turned(dial, position, a, after)
  {
    AllotTurnsTheDial(position, live);
  }

  lemma StepTurnsTheDial(dial: Dial, w: World, st: State, op: Op, position: nat)
    requires Wraps(dial) && st.next == dial(position)
    ensures Turned(dial, position, Allocation(w, st, op), Step(w, st, op).state.next)
  {
    OnlyAllocationsMoveNext(w, st, op);
    AllocationTurns(dial, st.next, st.sessions.Keys, position, Allocation(w, st, op), Step(w, st, op).state.next);
  }

  /** What one call contributes. */
  function FirstIssue(position: nat, a: Option<Allotted>): seq<Issue> {
    if a.Some? && a.value.id.Some? && a.value.probes >= 1 then [Issue(a.value.id.value, position + a.value.probes - 1)]
    else []
  }

  lemma IssuesPrepend(dial: Dial, position: nat, a: Option<Allotted>, next: word, rest: seq<Issue>)
    requires Turned(dial, position, a, next) && OnTheDial(dial, rest, Advanced(position, a))
    ensures OnTheDial(dial, FirstIssue(position, a) + rest, position)
  {
    if FirstIssue(position, a) == [] {
      assert FirstIssue(position, a) + rest == rest;
    } else {
      OnTheDialCons(dial, FirstIssue(position, a)[0], rest, position, Advanced(position, a));
      assert FirstIssue(position, a) == [FirstIssue(position, a)[0]];
    }
  }

  ghost function Issues(w: World, st: State, ops: seq<Op>, position: nat): seq<Issue>
    decreases |ops|
  {
    if ops == [] then []
    else
      var a := Allocation(w, st, ops[0]);
      FirstIssue(position, a) + Issues(w, Step(w, st, ops[0]).state, ops[1..], Advanced(position, a))
  }

  lemma {:induction false} IssuesFollowTheDial(dial: Dial, w: World, st: State, ops: seq<Op>, position: nat)
    requires Wraps(dial) && st.next == dial(position)
    ensures OnTheDial(dial, Issues(w, st, ops, position), position)
    decreases |ops|
  {
    if ops != [] {
      var a := Allocation(w, st, ops[0]);
      var after := Step(w, st, ops[0]).state;
      var rest := Issues(w, after, ops[1..], Advanced(position, a));
      StepTurnsTheDial(dial, w, st, ops[0], position);
      IssuesFollowTheDial(dial, w, after, ops[1..], Advanced(position, a));
      IssuesPrepend(dial, position, a, after.next, rest);
      assert Issues(w, st, ops, position) == FirstIssue(position, a) + rest;
    }
  }

  /** Over any run, two allocations give the same id exactly when the number of probes between them is a
      multiple of 65536; since it is never zero, an id comes back only after a full turn of the counter. */
  lemma ReissueDistance(w: World, seed: word, ops: seq<Op>, i: nat, j: nat)
    requires i < j < |Issues(w, Initial(seed), ops, seed)|
    ensures var a := Issues(w, Initial(seed), ops, seed)[i];
            var b := Issues(w, Initial(seed), ops, seed)[j];
            && a.index < b.index
            && (a.id == b.id <==> (b.index - a.index) % 0x1_0000 == 0)
            && (a.id == b.id ==> b.index - a.index >= 0x1_0000)
  {
    var dial: Dial := p => p % 0x1_0000;
    IssuesFollowTheDial(dial, w, Initial(seed), ops, seed);
    var issues := Issues(w, Initial(seed), ops, seed);
    SameReading(issues[i].index, issues[j].index);
  }
  // When an id comes back at once

  ghost predicate FailsToAllot(w: World, st: State, op: Op) {
    Allocation(w, st, op).Some? ==> Allocation(w, st, op).value.id.None?
  }

  /** None of these calls allocates successfully. */
  ghost predicate NoneAllotted(w: World, st: State, ops: seq<Op>)
    decreases |ops|
  {
    ops == [] || (FailsToAllot(w, st, ops[0]) && NoneAllotted(w, Step(w, st, ops[0]).state, ops[1..]))
  }

  /** How many of these calls try to allocate. */
  ghost function Attempts(w: World, st: State, ops: seq<Op>): nat
    decreases |ops|
  {
    if ops == [] then 0
    else (if Allocation(w, st, ops[0]).Some? then 1 else 0) + Attempts(w, Step(w, st, ops[0]).state, ops[1..])
  }

  lemma FailedStepTurnsBack(w: World, st: State, op: Op, x: word, failures: nat)
    requires st.next == NextAfter(x, failures)
    requires FailsToAllot(w, st, op)
    ensures Step(w, st, op).state.next
         == NextAfter(x, if Allocation(w, st, op).Some? then failures + 1 else failures)
  {
    OnlyAllocationsMoveNext(w, st, op);
  }

  lemma {:induction false} FailedRunTurnsBack(w: World, st: State, ops: seq<Op>, x: word, failures: nat)
    requires st.next == NextAfter(x, failures) && NoneAllotted(w, st, ops)
    ensures Run(w, st, ops).next == NextAfter(x, failures + Attempts(w, st, ops))
    decreases |ops|
  {
    if ops != [] {
      var after := Step(w, st, ops[0]).state;
      FailedStepTurnsBack(w, st, ops[0], x, failures);
      var sofar := if Allocation(w, st, ops[0]).Some? then failures + 1 else failures;
      FailedRunTurnsBack(w, after, ops[1..], x, sofar);
    }
  }

  /** Two allocations with nothing but failures between them give the same id exactly when, at the second,
      the number of failures is not a multiple of 65536, the id is free, and every id from `next` up to it
      is in use. The calls in between may open, close and expire sessions as they like. */
  lemma RepeatsExactlyWhen(w: World, st: State, first: Op, between: seq<Op>, second: Op, x: word)
    requires Allocation(w, st, first).Some? && Allocation(w, st, first).value.id == Some(x)
    requires NoneAllotted(w, Step(w, st, first).state, between)
    requires Allocation(w, Run(w, Step(w, st, first).state, between), second).Some?
    ensures var start := Step(w, st, first).state;
            var now := Run(w, start, between);
            var f := Attempts(w, start, between) % 0x1_0000;
            && now.next == NextAfter(x, Attempts(w, start, between))
            && (Allocation(w, now, second).value.id == Some(x) <==>
                f != 0 && x !in now.sessions && forall j :: 0 <= j < f - 1 ==> Ahead(now.next, j) in now.sessions)
  {
    var start := Step(w, st, first).state;
    var now := Run(w, start, between);
    OnlyAllocationsMoveNext(w, st, first);
    FirstFreeId(st.next, st.sessions.Keys);
    FailedRunTurnsBack(w, start, between, x, 0);
    OnlyAllocationsMoveNext(w, now, second);
    RepeatsAfterFailures(x, Attempts(w, start, between), now.sessions.Keys);
  }
}
