/** Enumeration: what GetCount promises about the Enumerate commands that follow it. */
module Enumeration {
  import opened BlobTypes
  import opened Reference
  import opened History
  import opened Wire
  import opened WireTheory

  /** The part of a history from the `n`-th event on. */
  function Since(log: Log, n: nat): Log {
    if n <= |log| then log[n..] else []
  }

  /** The id lists handed out in `events`, one after the other. */
  function Concatenated(events: Log): seq<Text> {
    if events == [] then [] else events[0].answer.ids + Concatenated(events[1..])
  }

  /** The list built is what the handlers returned, each asked once in registration order. */
  lemma {:induction false} ListIsConcatenation(w: World, log: Log, handlers: seq<HandlerId>)
    ensures var l := ListAll(w, log, handlers);
            var events := Since(l.log, |log|);
            && |l.log| == |log| + |handlers| && l.log[..|log|] == log
            && |events| == |handlers|
            && (forall i :: 0 <= i < |handlers| ==> events[i].handler == handlers[i] && events[i].call == AskIds)
            && l.ids == Concatenated(events)
    decreases |handlers|
  {
    var l := ListAll(w, log, handlers);
    if handlers == [] {
      assert l.log[|log|..] == [];
    } else {
      var told := Told(w, log, handlers[0], AskIds);
      ListIsConcatenation(w, told, handlers[1..]);
      var rest := l.log[|told|..];
      assert l.log[..|log|] == l.log[..|told|][..|log|];
      assert l.log[|log|] == l.log[..|told|][|log|] == told[|log|];
      assert l.log[|log|..] == [told[|log|]] + rest;
      assert ([told[|log|]] + rest)[1..] == rest;
    }
  }

  lemma OnlyBuildListChangesTheList(w: World, st: State, op: Op)
    requires !op.BuildList?
    ensures Step(w, st, op).state.ids == st.ids
  {
    if op.Open? {
      OpenFrame(w, st, op);
    }
  }

  lemma {:induction false} ListOutlivesRun(w: World, st: State, ops: seq<Op>)
    requires forall op :: op in ops ==> !op.BuildList?
    ensures Run(w, st, ops).ids == st.ids
    decreases |ops|
  {
    if ops != [] {
      assert ops[0] in ops;
      OnlyBuildListChangesTheList(w, st, ops[0]);
      ListOutlivesRun(w, Step(w, st, ops[0]).state, ops[1..]);
    }
  }

  /** After GetCount returned `n`, and until the next one, index i gives the i-th id for every i below n
      and nothing for any other index, whatever else happens in between. */
  lemma EnumerationSnapshot(w: World, st: State, between: seq<Op>, index: dword)
    requires forall op :: op in between ==> !op.BuildList?
    ensures var built := Step(w, st, BuildList);
            var later := Run(w, built.state, between);
            var ids := Concatenated(Since(built.state.log, |st.log|));
            |ids| < 0x1_0000_0000 && [] !in ids ==>
              && built.result == Count(|ids|)
              && Step(w, later, GetId(index)).result == Name(if index < |ids| then ids[index] else [])
              && (Answered(Step(w, later, GetId(index)).result).Success? <==> index < |ids|)
  {
    ListIsConcatenation(w, st.log, st.handlers);
    ListOutlivesRun(w, Step(w, st, BuildList).state, between);
    var ids := Concatenated(Since(Step(w, st, BuildList).state.log, |st.log|));
    if |ids| < 0x1_0000_0000 && [] !in ids && index < |ids| {
      assert ids[index] in ids;
    }
  }

  /** The body of an Enumerate reply decodes to the id it was made from. */
  lemma EnumeratedIdDecodes(crc: Crc, id: Text, maxSize: nat)
    ensures var r := Framed(crc, Answered(Name(id)), maxSize);
            r.Success? ==> id != [] && StringFromBuffer(r.body[2..]) == id
  {
    var r := Framed(crc, Answered(Name(id)), maxSize);
    if r.Success? {
      assert r.body[2..] == ([0, 0] + id + [0])[2..];
      assert ([0, 0] + id + [0])[2..] == id + [0];
      StringRoundTrip(id);
    }
  }
}
