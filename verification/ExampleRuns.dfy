/** The handler as written, over whole histories: it does what the manager's proofs take it to do. */
module ExampleRuns {
  import opened BlobTypes
  import opened ExampleSpec
  import opened Example
  import opened Contract
  import opened Coupling

  /** Uninitialised memory as it turned out: `fills[n]` is what a buffer made by event `n` would hold. */
  function FillOf(fills: seq<Buffer>): Fill {
    log => if |log| < |fills| then fills[|log|] else seq(BUFFER_SIZE, i => 0)
  }

  lemma {:induction false} LaterFillsDoNotMatter(fills: seq<Buffer>, next: Buffer, log: Log, e: HandlerId)
    requires |log| <= |fills|
    ensures Replay(FillOf(fills + [next]), log, e) == Replay(FillOf(fills), log, e)
  {
    if log != [] {
      LaterFillsDoNotMatter(fills, next, log[..|log| - 1], e);
    }
  }

  lemma ReplayGrows(fills: seq<Buffer>, fill: Buffer, log: Log, n: nat, e: HandlerId)
    requires n == |fills| < |log|
    ensures forall i :: 0 <= i <= n ==>
              Replay(FillOf(fills + [fill]), log[..i], e) == Replay(FillOf(fills), log[..i], e)
    ensures Replay(FillOf(fills + [fill]), log[..n + 1], e) ==
            if log[n].handler == e then Next(Replay(FillOf(fills), log[..n], e), log[n].call, fill)
            else Replay(FillOf(fills), log[..n], e)
  {
    forall i | 0 <= i <= n
      ensures Replay(FillOf(fills + [fill]), log[..i], e) == Replay(FillOf(fills), log[..i], e)
    {
      LaterFillsDoNotMatter(fills, fill, log[..i], e);
    }
    assert log[..n + 1] == log[..n] + [log[n]];
    ReplayAfter(FillOf(fills + [fill]), log[..n], log[n], e);
  }

  /** The answers to the calls the history has for `e` are those of the replay. */
  ghost predicate Answered(answers: seq<Answer>, fills: seq<Buffer>, log: Log, e: HandlerId) {
    && |answers| == |fills| <= |log|
    && forall i :: 0 <= i < |answers| && log[i].handler == e ==>
         answers[i] == Reply(Replay(FillOf(fills), log[..i], e), log[i].call)
  }

  lemma AnsweredGrows(answers: seq<Answer>, a: Answer, fills: seq<Buffer>, fill: Buffer, log: Log, e: HandlerId)
    requires Answered(answers, fills, log, e) && |answers| < |log|
    requires var n := |answers|;
             log[n].handler == e ==> a == Reply(Replay(FillOf(fills), log[..n], e), log[n].call)
    ensures Answered(answers + [a], fills + [fill], log, e)
  {
    ReplayGrows(fills, fill, log, |answers|, e);
  }

  /** A new handler, asked in order everything the history `log` has for `e`, answers each call and ends up
      as the replay of that history says. */
  method Relive(handler: ExampleBlobHandler, log: Log, e: HandlerId)
    returns (answers: seq<Answer>, ghost fills: seq<Buffer>)
    requires handler.Valid() && handler.Model() == map[]
    modifies handler, handler.sessions.Values, handler.Buffers()
    ensures handler.Valid() && handler.Model() == Replay(FillOf(fills), log, e)
    ensures |answers| == |log| && Answered(answers, fills, log, e)
  {
    answers, fills := [], [];
    for n := 0 to |log|
      invariant |answers| == n && Answered(answers, fills, log, e)
      invariant handler.Valid() && handler.Model() == Replay(FillOf(fills), log[..n], e)
      invariant fresh(handler.sessions.Values - old(handler.sessions.Values))
      invariant fresh(handler.Buffers() - old(handler.Buffers()))
    {
      ghost var fill: Buffer := seq(BUFFER_SIZE, i => 0);
      var a := Verdict(false);
      if log[n].handler == e {
        a, fill := handler.Invoke(log[n].call);
      }
      AnsweredGrows(answers, a, fills, fill, log, e);
      ReplayGrows(fills, fill, log, n, e);
      answers, fills := answers + [a], fills + [fill];
    }
    assert log[..|log|] == log;
  }

  /** In a world whose handler `e` is an example handler with that memory, a genuine history holds exactly
      the answers the written handler gives. */
  lemma ReliveAgrees(w: World, log: Log, e: HandlerId, fills: seq<Buffer>, answers: seq<Answer>, i: nat)
    requires IsExample(w, e, FillOf(fills)) && Genuine(w, log)
    requires Answered(answers, fills, log, e) && i < |answers| && log[i].handler == e
    ensures answers[i] == log[i].answer
  {
  }
}
