/** Open as a transaction, and which session calls get through to a handler. */
module Discipline {
  import opened BlobTypes
  import opened SessionIds
  import opened OrderedIds
  import opened Reference
  import opened Sweeping
  import opened Contract
  import opened History

  /** `after` holds entries of `before` unchanged, and lacks only stale ones of `h`. */
  ghost predicate OnlyStaleGone(w: World, before: Sessions, after: Sessions, h: HandlerId, now: Time) {
    && (forall t :: t in after ==> t in before && after[t] == before[t])
    && (forall t :: t in before && t !in after ==> t in Stale(w, before, h, now))
  }

  lemma SweepOnlyDropsStale(w: World, st: State, h: HandlerId, now: Time)
    ensures OnlyStaleGone(w, st.sessions, Sweep(w, st, h, now).sessions, h, now)
  {
    SweepExact(w, st, h, now);
  }

  /** The two ends of an open that reached handler `h`: one entry more, or none. */
  ghost predicate OneMoreOrNone(w: World, before: Sessions, o: Outcome, h: HandlerId, op: Op)
    requires op.Open?
  {
    match o.result
    case Opened(None) => OnlyStaleGone(w, before, o.state.sessions, h, op.now)
    case Opened(Some(s)) =>
      && s !in before && s in o.state.sessions
      && o.state.sessions[s] == Session(op.path, h, op.flags, op.later)
      && OnlyStaleGone(w, before, o.state.sessions - {s}, h, op.now)
    case _ => false
  }

  lemma OfferedOpen(w: World, st: State, h: HandlerId, s: word, op: Op)
    requires op.Open? && s !in st.sessions
    ensures var o := OpenOnStep(w, st, h, s, op.flags, op.path, op.now, op.later);
            OneMoreOrNone(w, st.sessions, o, h, op) && (o.result == Opened(None) || o.result == Opened(Some(s)))
  {
    SweepOnlyDropsStale(w, st, h, op.now);
    var swept := Sweep(w, st, h, op.now);
    var entry := Session(op.path, h, op.flags, op.later);
    assert swept.sessions[s := entry] - {s} == swept.sessions;
  }

  /** Allocation has nothing to give. */
  predicate NoIdLeft(st: State) {
    forall id: word :: id in st.sessions || id == Behind(st.next)
  }

  /** Which way an open goes, read off its state and arguments. */
  lemma OpenGoes(w: World, st: State, op: Op)
    requires op.Open?
    ensures NoIdLeft(st) <==> Allot(st.next, st.sessions.Keys).id.None?
    ensures var found := Find(w, st.log, st.handlers, op.path);
            var allotted := Allot(st.next, st.sessions.Keys);
            var moved := st.(log := found.log, next := allotted.next);
            Step(w, st, op) ==
            if found.handler.None? then Outcome(st.(log := found.log), Opened(None))
            else if NoIdLeft(st) || op.flags % 4 == 0 then Outcome(moved, Opened(None))
            else
              OpenOnStep(w, moved, found.handler.value, allotted.id.value, op.flags, op.path, op.now, op.later)
  {
    FlagTests(op.flags);
    FailsExactlyWhen(st.next, st.sessions.Keys);
    assert And(op.flags, READ_OR_WRITE) == 0 <==> op.flags % 4 == 0;
    var found := Find(w, st.log, st.handlers, op.path);
    var allotted := Allot(st.next, st.sessions.Keys);
    var moved := st.(log := found.log, next := allotted.next);
    if found.handler.None? {
      assert OpenStep(w, st, op.flags, op.path, op.now, op.later) == Outcome(st.(log := found.log), Opened(None));
    } else if allotted.id.None? || And(op.flags, READ_OR_WRITE) == 0 {
      assert OpenStep(w, st, op.flags, op.path, op.now, op.later) == Outcome(moved, Opened(None));
    } else {
      assert OpenStep(w, st, op.flags, op.path, op.now, op.later)
          == OpenOnStep(w, moved, found.handler.value, allotted.id.value, op.flags, op.path, op.now, op.later);
    }
  }

  lemma OfferIsLast(w: World, st: State, h: HandlerId, id: word, op: Op)
    requires op.Open?
    ensures var o := OpenOnStep(w, st, h, id, op.flags, op.path, op.now, op.later);
            var earlier := Sweep(w, st, h, op.now).log;
            && o.state.log == Told(w, earlier, h, AskOpen(id, op.flags, op.path))
            && (o.result == Opened(Some(id)) <==> w.answer(earlier, h, AskOpen(id, op.flags, op.path)).ok)
  {
  }

  /** An open that reaches handler `h` with id `s`. Its stale sessions are asked to expire, in ascending
      order, and those it agreed to are gone; then it is offered `s`, and that entry is added exactly if it
      accepts. Everything else is as before. */
  ghost predicate SweptAndOffered(w: World, before: State, swept: State, o: Outcome, h: HandlerId, s: word, op: Op)
    requires op.Open?
  {
    var c := AskOpen(s, op.flags, op.path);
    var told := swept.(log := Told(w, swept.log, h, c));
    && Expired(before, swept, h, Ascending(Stale(w, before.sessions, h, op.now)))
    && s !in before.sessions && s !in swept.sessions
    && var entry := Session(op.path, h, op.flags, op.later);
       o == if w.answer(swept.log, h, c).ok then Outcome(told.(sessions := swept.sessions[s := entry]), Opened(Some(s)))
            else Outcome(told, Opened(None))
  }

  lemma OfferedExactly(w: World, st: State, h: HandlerId, s: word, op: Op)
    requires op.Open? && s !in st.sessions
    ensures SweptAndOffered(w, st, Sweep(w, st, h, op.now),
                            OpenOnStep(w, st, h, s, op.flags, op.path, op.now, op.later), h, s, op)
  {
    SweepExact(w, st, h, op.now);
  }

  /** Open is a transaction with four outcomes, each known exactly. Without an owner the only trace is the
      questions asked; without an id, or without a read or write flag, also one allocation; otherwise the
      owner is swept and offered the first free id, which it refuses or accepts. */
  lemma OpenIsTransactional(w: World, st: State, op: Op)
    requires op.Open?
    ensures var o := Step(w, st, op);
            var found := Find(w, st.log, st.handlers, op.path);
            var allotted := Allot(st.next, st.sessions.Keys);
            var asked := st.(log := found.log);
            var moved := st.(log := found.log, next := allotted.next);
            if found.handler.None? then o == Outcome(asked, Opened(None))
            else if NoIdLeft(st) || op.flags % 4 == 0 then o == Outcome(moved, Opened(None))
            else
              && allotted.id.Some?
              && SweptAndOffered(w, moved, Sweep(w, moved, found.handler.value, op.now), o,
                                 found.handler.value, allotted.id.value, op)
  {
    OpenGoes(w, st, op);
    var found := Find(w, st.log, st.handlers, op.path);
    var allotted := Allot(st.next, st.sessions.Keys);
    if found.handler.Some? && !NoIdLeft(st) && op.flags % 4 != 0 {
      OfferedExactly(w, st.(log := found.log, next := allotted.next), found.handler.value, allotted.id.value, op);
    }
  }

  /** Which sessions an open asks about: none unless it has an owner, an id and a read or write flag, and
      then exactly the owner's sessions that have been idle for the timeout or longer. */
  lemma OpenExpiresTheIdle(w: World, st: State, op: Op, h: HandlerId, s: word)
    requires op.Open?
    ensures AskedToExpire(Step(w, st, op).state.log, |st.log|, h, s) <==>
            && Find(w, st.log, st.handlers, op.path).handler == Some(h)
            && !NoIdLeft(st) && op.flags % 4 != 0
            && s in st.sessions && st.sessions[s].handler == h && op.now - st.sessions[s].lastActionTime >= w.timeout
  {
    OpenIsTransactional(w, st, op);
    LookupAsksNoExpiry(w, st.log, st.handlers, op.path);
    var found := Find(w, st.log, st.handlers, op.path);
    var allotted := Allot(st.next, st.sessions.Keys);
    var moved := st.(log := found.log, next := allotted.next);
    if found.handler.None? || NoIdLeft(st) || op.flags % 4 == 0 {
      assert Step(w, st, op).state.log == found.log;
    } else {
      var owner := found.handler.value;
      var swept := Sweep(w, moved, owner, op.now);
      OfferSays(w, moved, swept, Step(w, st, op), owner, allotted.id.value, op, |st.log|, h, s);
      ExpiryAskedExactly(w, moved, owner, op.now, s);
    }
  }

  lemma LookupAsksNoExpiry(w: World, log: Log, handlers: seq<HandlerId>, path: Text)
    ensures var after := Find(w, log, handlers, path).log;
            |log| <= |after| && forall i :: |log| <= i < |after| ==> !after[i].call.AskExpire?
  {
    FindContinues(w, log, handlers, path, StatPath(path));
  }

  lemma OfferSays(w: World, before: State, swept: State, o: Outcome, owner: HandlerId, id: word, op: Op,
                  from: nat, h: HandlerId, s: word)
    requires op.Open? && SweptAndOffered(w, before, swept, o, owner, id, op)
    requires from <= |before.log| && forall i :: from <= i < |before.log| ==> !before.log[i].call.AskExpire?
    ensures AskedToExpire(o.state.log, from, h, s) <==> h == owner && AskedToExpire(swept.log, |before.log|, h, s)
  {
    SweptSays(before.log, swept.log, o.state.log, from, owner, h, s);
  }

  /** Only the middle stretch of an open's history, the sweep, speaks of expiry. */
  lemma SweptSays(asked: Log, swept: Log, after: Log, from: nat, owner: HandlerId, h: HandlerId, s: word)
    requires from <= |asked| <= |swept| && |after| == |swept| + 1
    requires swept[..|asked|] == asked && after[..|swept|] == swept && after[|swept|].call.AskOpen?
    requires forall i :: from <= i < |asked| ==> !asked[i].call.AskExpire?
    requires forall e :: e in swept[|asked|..] ==> e.handler == owner
    ensures AskedToExpire(after, from, h, s) <==> h == owner && AskedToExpire(swept, |asked|, h, s)
  {
    assert forall i :: 0 <= i < |swept| ==> after[i] == after[..|swept|][i];
    assert forall i :: 0 <= i < |asked| ==> swept[i] == swept[..|asked|][i];
    assert forall i :: |asked| <= i < |swept| ==> swept[i] in swept[|asked|..];
  }

  /** What an open does to the session table: it adds at most its one entry, and what is gone is stale. */
  lemma OpenChangesOneEntry(w: World, st: State, op: Op)
    requires op.Open?
    ensures var o := Step(w, st, op);
            var owner := Find(w, st.log, st.handlers, op.path).handler;
            if owner.None? || NoIdLeft(st) || op.flags % 4 == 0
            then o.result == Opened(None) && o.state.sessions == st.sessions
            else OneMoreOrNone(w, st.sessions, o, owner.value, op)
  {
    OpenGoes(w, st, op);
    var found := Find(w, st.log, st.handlers, op.path);
    var allotted := Allot(st.next, st.sessions.Keys);
    if found.handler.Some? && !NoIdLeft(st) && op.flags % 4 != 0 {
      OfferedOpen(w, st.(log := found.log, next := allotted.next), found.handler.value, allotted.id.value, op);
    }
  }

  /** An open that has an owner, an id and a read or write flag ends by asking the owner to open the first
      free id, with the caller's flags and path, and succeeds exactly when the owner agrees. */
  lemma OpenAsksLast(w: World, st: State, op: Op) returns (earlier: Log)
    requires op.Open? && Find(w, st.log, st.handlers, op.path).handler.Some?
    requires !NoIdLeft(st) && op.flags % 4 != 0
    ensures var h := Find(w, st.log, st.handlers, op.path).handler.value;
            var id := Allot(st.next, st.sessions.Keys).id;
            && id.Some?
            && var c := AskOpen(id.value, op.flags, op.path);
               && Step(w, st, op).state.log == Told(w, earlier, h, c)
               && (Step(w, st, op).result == Opened(id) <==> w.answer(earlier, h, c).ok)
  {
    var found := Find(w, st.log, st.handlers, op.path);
    var allotted := Allot(st.next, st.sessions.Keys);
    var moved := st.(log := found.log, next := allotted.next);
    OpenGoes(w, st, op);
    OfferIsLast(w, moved, found.handler.value, allotted.id.value, op);
    earlier := Sweep(w, moved, found.handler.value, op.now).log;
  }

  /** A delete reaches the path's owner exactly when no live session is on the path, a path stat always
      does; the caller gets the owner's answer, and no session is affected. */
  lemma PathCallsRouted(w: World, st: State, op: Op)
    requires op.Delete? || op.StatPath?
    ensures var o := Step(w, st, op);
            var f := Find(w, st.log, st.handlers, op.path);
            var c := if op.Delete? then AskDelete(op.path) else AskStatPath(op.path);
            var busy := op.Delete? && exists s :: s in st.sessions && st.sessions[s].blobId == op.path;
            && o.state.sessions == st.sessions
            && if f.handler.None? || busy
               then o.state.log == f.log && o.result == (if op.Delete? then Done(false) else Meta(None))
               else
                 var a := w.answer(f.log, f.handler.value, c);
                 && o.state.log == Told(w, f.log, f.handler.value, c)
                 && o.result == (if op.Delete? then Done(a.ok) else Meta(if a.ok then Some(a.meta) else None))
  {
    if s :| s in st.sessions && st.sessions[s].blobId == op.path {
      assert s in On(st.sessions, op.path);
    } else {
      assert On(st.sessions, op.path) == {};
    }
  }

  /** The calls that are about no session: each changes its own part of the state and nothing else. */
  lemma OtherCallsExactly(w: World, st: State, op: Op)
    requires op.Register? || op.BuildList? || op.GetId? || op.GetSession?
    ensures var o := Step(w, st, op);
            && (op.Register? ==>
                  && o.result == Done(op.handler.Some?)
                  && o.state == st.(handlers := st.handlers + if op.handler.Some? then [op.handler.value] else []))
            && (op.BuildList? ==>
                  && o.state == st.(log := o.state.log, ids := o.state.ids)
                  && o.result.Count? && o.result.n <= |o.state.ids|
                  && (|o.state.ids| - o.result.n) % 0x1_0000_0000 == 0)
            && (op.GetId? ==> o.state == st)
            && (op.GetSession? ==>
                  && o.result == Opened(Allot(st.next, st.sessions.Keys).id)
                  && o.state == st.(next := Allot(st.next, st.sessions.Keys).next))
  {
    assert st.handlers + [] == st.handlers;
  }

  /** The handler call a session call forwards to. */
  function Forwarded(op: Op): Option<Call> {
    match op
    case Stat(s, _) => Some(AskStat(s))
    case Commit(s, data, _) => Some(AskCommit(s, data))
    case Close(s, _) => Some(AskClose(s))
    case Read(s, offset, size, _) => Some(AskRead(s, offset, size))
    case Write(s, offset, data, _) => Some(AskWrite(s, offset, data))
    case WriteMeta(s, offset, data, _) => Some(AskWriteMeta(s, offset, data))
    case _ => None
  }

  /** For a live session of a reachable state: close, commit, stat and writeMeta always get through, read
      and write exactly when their own flag bit is set. */
  ghost predicate GetsThrough(st: State, op: Op)
    requires Forwarded(op).Some?
  {
    && op.session in st.sessions
    && (op.Read? ==> st.sessions[op.session].flags % 2 == 1)
    && (op.Write? ==> st.sessions[op.session].flags / 2 % 2 == 1)
  }

  /** What a session call returns when its handler answers `a`, and when it does not get through. */
  function Returned(op: Op, a: Answer): Result {
    if op.Read? then Data(a.bytes)
    else if op.Stat? then Meta(if a.ok then Some(a.meta) else None)
    else Done(a.ok)
  }

  function TurnedAway(op: Op): Result {
    if op.Read? then Data([]) else if op.Stat? then Meta(None) else Done(false)
  }

  lemma AdmittedIffFlagged(w: World, st: State, op: Op)
    requires Sound(w, st) && Forwarded(op).Some?
    ensures GetsThrough(st, op) <==>
            Admits(st.sessions, op.session, if op.Read? then READ else if op.Write? then WRITE else ANY_FLAG)
  {
    if op.session in st.sessions {
      FlagTests(st.sessions[op.session].flags);
    }
  }

  /** A call that gets through reaches the session's own handler, once, returns that handler's answer, and
      refreshes the session's time even when the handler refuses it; a call that does not get through
      changes nothing at all. */
  lemma RoutedExactlyWhen(w: World, st: State, op: Op)
    requires Sound(w, st) && Forwarded(op).Some?
    ensures var after := Step(w, st, op).state;
            if GetsThrough(st, op) then
              && after.log == Told(w, st.log, st.sessions[op.session].handler, Forwarded(op).value)
              && Step(w, st, op).result
              == Returned(op, w.answer(st.log, st.sessions[op.session].handler, Forwarded(op).value))
              && (op.session in after.sessions ==>
                    after.sessions[op.session] == st.sessions[op.session].(lastActionTime := op.now))
              && (op.session !in after.sessions <==> op.Close? && Step(w, st, op).result == Done(true))
              && (forall t :: t != op.session ==>
                    (t in after.sessions <==> t in st.sessions)
                    && (t in st.sessions ==> after.sessions[t] == st.sessions[t]))
            else after == st && Step(w, st, op).result == TurnedAway(op)
  {
    AdmittedIffFlagged(w, st, op);
  }

  // Sessions in use

  /** For the whole of `ops`, session `s` is in use: no close of it succeeds, the calls on it read the clock
      no earlier than `used`, and every open reads it within the timeout of `used`. */
  ghost predicate InUse(w: World, st: State, ops: seq<Op>, s: word, used: Time)
    decreases |ops|
  {
    ops == [] ||
    (&& (ops[0].Open? ==> ops[0].now - used < w.timeout)
     && (Forwarded(ops[0]).Some? && ops[0].session == s ==> used <= ops[0].now)
     && (ops[0].Close? && ops[0].session == s ==> Step(w, st, ops[0]).result == Done(false))
     && InUse(w, Step(w, st, ops[0]).state, ops[1..], s, used))
  }

  lemma UsedSurvivesStep(w: World, st: State, op: Op, s: word, used: Time)
    requires s in st.sessions && used <= st.sessions[s].lastActionTime && InUse(w, st, [op], s, used)
    ensures var after := Step(w, st, op).state.sessions;
            s in after && used <= after[s].lastActionTime
  {
    if op.Open? {
      OpenChangesOneEntry(w, st, op);
      var o := Step(w, st, op);
      if o.result.Opened? && o.result.session.Some? {
        assert s in o.state.sessions - {o.result.session.value};
      }
    }
  }

  /** A session that some call reached at `used` or later outlives every run, with whatever sweeps it has,
      that keeps within the timeout of `used` and does not close it. */
  lemma {:induction false} UsedSurvivesRun(w: World, st: State, ops: seq<Op>, s: word, used: Time)
    requires s in st.sessions && used <= st.sessions[s].lastActionTime && InUse(w, st, ops, s, used)
    ensures var after := Run(w, st, ops).sessions;
            s in after && used <= after[s].lastActionTime
    decreases |ops|
  {
    if ops != [] {
      UsedSurvivesStep(w, st, ops[0], s, used);
      UsedSurvivesRun(w, Step(w, st, ops[0]).state, ops[1..], s, used);
    }
  }
}
