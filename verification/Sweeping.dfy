/** What the stale-session sweep does, said once for the whole sweep instead of call by call. */
module Sweeping {
  import opened BlobTypes
  import opened OrderedIds
  import opened Reference

  /** Among `events`, session `s` was expired with the handler's consent. */
  ghost predicate Consented(events: Log, s: word) {
    exists i :: 0 <= i < |events| && events[i].call == AskExpire(s) && events[i].answer.ok
  }

  /** The calls in `events` are the expiry of each session in `order`, in that order, asked of `h`. */
  ghost predicate Asked(events: Log, h: HandlerId, order: seq<word>) {
    && |events| == |order|
    && forall i :: 0 <= i < |events| ==> events[i].handler == h && events[i].call == AskExpire(order[i])
  }

  /** `after` differs from `before` by the expiry of the sessions in `order`, asked of `h` in that order:
      exactly the sessions whose expiry was consented to are gone and nothing else is different. */
  ghost predicate Expired(before: State, after: State, h: HandlerId, order: seq<word>) {
    var n := |before.log|;
    && after == before.(log := after.log, sessions := after.sessions)
    && |after.log| == n + |order| && after.log[..n] == before.log
    && Asked(after.log[n..], h, order)
    && (forall s: word :: s in after.sessions <==> s in before.sessions && !Consented(after.log[n..], s))
    && (forall s: word :: s in after.sessions ==> after.sessions[s] == before.sessions[s])
  }

  lemma ConsentedFirst(e: Event, rest: Log, s: word)
    ensures Consented([e] + rest, s) <==> (e.call == AskExpire(s) && e.answer.ok) || Consented(rest, s)
  {
    var all := [e] + rest;
    if e.call == AskExpire(s) && e.answer.ok {
      assert all[0] == e;
    }
    if Consented(rest, s) {
      var i :| 0 <= i < |rest| && rest[i].call == AskExpire(s) && rest[i].answer.ok;
      assert all[i + 1] == rest[i];
    }
  }

  lemma {:induction false} ExpireAllExact(w: World, st: State, h: HandlerId, order: seq<word>)
    ensures Expired(st, ExpireAll(w, st, h, order), h, order)
    decreases |order|
  {
    var after := ExpireAll(w, st, h, order);
    if order == [] {
      assert after.log[|st.log|..] == [];
    } else {
      var one := ExpireOne(w, st, h, order[0]);
      ExpireAllExact(w, one, h, order[1..]);
      var n := |st.log|;
      var rest := after.log[n + 1..];
      assert one.log[..n] == st.log;
      assert after.log[..n] == after.log[..n + 1][..n];
      assert after.log[n] == after.log[..n + 1][n] == one.log[n];
      assert after.log[n..] == [one.log[n]] + rest;
      forall s: word ensures Consented(after.log[n..], s) <==>
                             (s == order[0] && one.log[n].answer.ok) || Consented(rest, s)
      {
        ConsentedFirst(one.log[n], rest, s);
      }
      assert Asked(rest, h, order[1..]);
    }
  }

  lemma OnlyAskedConsent(before: State, after: State, h: HandlerId, order: seq<word>, s: word)
    requires Expired(before, after, h, order) && Consented(after.log[|before.log|..], s)
    ensures s in order
  {
    var asked := after.log[|before.log|..];
    var i :| 0 <= i < |asked| && asked[i].call == AskExpire(s) && asked[i].answer.ok;
    assert asked[i].call == AskExpire(order[i]);
  }

  /** The sweep asks `h`, in ascending order, to expire each of its sessions idle for at least the timeout
      and no other; it removes those `h` agreed to and leaves every other entry as it was. */
  lemma SweepExact(w: World, st: State, h: HandlerId, now: Time)
    ensures var after := Sweep(w, st, h, now);
            && Expired(st, after, h, Ascending(Stale(w, st.sessions, h, now)))
            && (forall s: word :: s in st.sessions && s !in Stale(w, st.sessions, h, now) ==>
                  s in after.sessions && after.sessions[s] == st.sessions[s])
  {
    var order := Ascending(Stale(w, st.sessions, h, now));
    var after := Sweep(w, st, h, now);
    ExpireAllExact(w, st, h, order);
    WalkMeetsEach(Stale(w, st.sessions, h, now));
    forall s: word | s in st.sessions && s !in Stale(w, st.sessions, h, now)
      ensures s in after.sessions
    {
      assert Consented(after.log[|st.log|..], s) ==> s in order by {
        if Consented(after.log[|st.log|..], s) { OnlyAskedConsent(st, after, h, order, s); }
      }
    }
  }

  /** From event `from` on, `h` was asked to expire `s`. */
  ghost predicate AskedToExpire(log: Log, from: nat, h: HandlerId, s: word) {
    exists i :: from <= i < |log| && log[i].handler == h && log[i].call == AskExpire(s)
  }

  lemma AskedIffListed(log: Log, from: nat, h: HandlerId, order: seq<word>, s: word)
    requires from <= |log| && Asked(log[from..], h, order)
    ensures AskedToExpire(log, from, h, s) <==> s in order
  {
    var asked := log[from..];
    if AskedToExpire(log, from, h, s) {
      var i :| from <= i < |log| && log[i].handler == h && log[i].call == AskExpire(s);
      assert asked[i - from].call == AskExpire(order[i - from]);
    }
    if s in order {
      var k :| 0 <= k < |order| && order[k] == s;
      assert log[from + k] == asked[k];
    }
  }

  /** A session is asked about exactly when it is the handler's and has been idle for the timeout or longer. */
  lemma ExpiryAskedExactly(w: World, st: State, h: HandlerId, now: Time, s: word)
    ensures AskedToExpire(Sweep(w, st, h, now).log, |st.log|, h, s) <==>
            s in st.sessions && st.sessions[s].handler == h && now - st.sessions[s].lastActionTime >= w.timeout
  {
    var stale := Stale(w, st.sessions, h, now);
    ExpireAllExact(w, st, h, Ascending(stale));
    AskedIffListed(Sweep(w, st, h, now).log, |st.log|, h, Ascending(stale), s);
    WalkMeetsEach(stale);
  }

  lemma SweepShrinks(w: World, st: State, h: HandlerId, now: Time)
    ensures Sweep(w, st, h, now).sessions.Keys <= st.sessions.Keys
  {
    ExpireAllExact(w, st, h, Ascending(Stale(w, st.sessions, h, now)));
  }

  /** A session that some call reached at `used` outlives every sweep until the timeout has passed. */
  lemma RecentlyUsedSurvives(w: World, st: State, h: HandlerId, s: word, used: Time, now: Time, c: Call)
    requires s in st.sessions && now - used < w.timeout
    ensures var after := Sweep(w, Route(w, st, s, used, c).state, h, now);
            s in after.sessions && after.sessions[s] == Touched(st.sessions, s, used)[s]
  {
    var reached := Route(w, st, s, used, c).state;
    assert s !in Stale(w, reached.sessions, h, now);
    SweepExact(w, reached, h, now);
  }

  lemma SweepFrame(w: World, st: State, h: HandlerId, now: Time)
    ensures var after := Sweep(w, st, h, now);
            after == st.(log := after.log, sessions := after.sessions)
  {
    ExpireAllExact(w, st, h, Ascending(Stale(w, st.sessions, h, now)));
  }

  lemma NothingStale(w: World, sessions: Sessions, h: HandlerId, now: Time)
    requires Of(sessions, h) == {}
    ensures Ascending(Stale(w, sessions, h, now)) == []
  {
    var stale := Stale(w, sessions, h, now);
    assert stale <= Of(sessions, h);
    assert stale == {};
    NothingToWalk(0);
  }

  lemma IndexWalk(sessions: Sessions, h: HandlerId)
    ensures forall s: word :: s in Ascending(Of(sessions, h)) <==> s in Of(sessions, h)
  {
    WalkMeetsEach(Of(sessions, h));
  }

  lemma StaleWalk(w: World, sessions: Sessions, h: HandlerId, now: Time)
    ensures Increasing(Ascending(Stale(w, sessions, h, now)))
    ensures forall s: word :: s in Ascending(Stale(w, sessions, h, now)) ==> s in Of(sessions, h)
  {
    WalkMeetsEach(Stale(w, sessions, h, now));
  }
}
