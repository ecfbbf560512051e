/** A run that really hands out the same id twice running: the session table filled up but for one id. */
module Exhaustion {
  import opened BlobTypes
  import opened OrderedIds
  import opened SessionIds
  import opened Reference
  import opened Sweeping

  const PATH: Text := [97]

  /** Handlers that agree to everything, and sessions that never grow stale while the clock stands still. */
  function Willing(crc: seq<byte> -> word): World {
    World((log, h, c) => Answer(true, [], [], BlobMeta(0, 0, [])), 1, crc)
  }

  function OpenIt(): Op {
    Open(READ, PATH, 0, 0)
  }

  /** One handler, the `k` ids from `seed` on in use, none of them stale, and `next` just past them. */
  ghost predicate Filled(st: State, seed: word, k: nat) {
    && st.handlers == [0]
    && k <= MAX_TRIES && st.next == Ahead(seed, k)
    && (forall id: word :: id in st.sessions <==> Distance(seed, id) < k)
    && (forall id: word :: id in st.sessions ==> st.sessions[id].lastActionTime == 0)
  }

  lemma NothingSwept(w: World, st: State)
    requires w.timeout == 1 && forall id: word :: id in st.sessions ==> st.sessions[id].lastActionTime == 0
    ensures Sweep(w, st, 0, 0) == st
  {
    assert Stale(w, st.sessions, 0, 0) == {};
    NothingToWalk(0);
  }

  lemma OneMore(crc: seq<byte> -> word, st: State, seed: word, k: nat)
    requires Filled(st, seed, k) && k < MAX_TRIES
    ensures Filled(Step(Willing(crc), st, OpenIt()).state, seed, k + 1)
  {
    var w := Willing(crc);
    assert Distance(seed, st.next) == k;
    assert Scan(st.next, st.sessions.Keys, 0) == Some(0);
    var moved := st.(log := Find(w, st.log, st.handlers, PATH).log, next := Ahead(st.next, 1));
    NothingSwept(w, moved);
    FlagTests(READ);
    assert Step(w, st, OpenIt()) == OpenOnStep(w, moved, 0, st.next, READ, PATH, 0, 0);
    var after := Step(w, st, OpenIt()).state;
    assert after.sessions == st.sessions[st.next := Session(PATH, 0, READ, 0)];
    forall id: word ensures id in after.sessions <==> Distance(seed, id) < k + 1 {
      assert Distance(seed, id) == k <==> id == st.next;
    }
  }

  lemma {:induction false} Filling(crc: seq<byte> -> word, st: State, ops: seq<Op>, seed: word, k: nat)
    requires Filled(st, seed, k) && k + |ops| <= MAX_TRIES && forall i :: 0 <= i < |ops| ==> ops[i] == OpenIt()
    ensures Filled(Run(Willing(crc), st, ops), seed, k + |ops|)
    decreases |ops|
  {
    if ops != [] {
      OneMore(crc, st, seed, k);
      Filling(crc, Step(Willing(crc), st, ops[0]).state, ops[1..], seed, k + 1);
    }
  }

  /** In any state with one free id, which is `next`: three calls of getSession in a row. */
  lemma ThreeCalls(w: World, full: State)
    requires forall id: word :: id in full.sessions <==> id != full.next
    ensures var one := Step(w, full, GetSession);
            var two := Step(w, one.state, GetSession);
            && one.result == Opened(Some(full.next))
            && two.result == Opened(None)
            && Step(w, two.state, GetSession).result == Opened(Some(full.next))
  {
    OnlyFreeIdRepeats(full.next, full.sessions.Keys);
  }

  /** From a fresh manager, 65535 opens leave one free id, and `next` at it. */
  lemma FillTheTable(crc: seq<byte> -> word, seed: word) returns (ops: seq<Op>)
    ensures Filled(Run(Willing(crc), Initial(seed), ops), seed, MAX_TRIES)
  {
    var n := MAX_TRIES;
    var opens := seq(n, i => OpenIt());
    ops := [Register(Some(0))] + opens;
    var ready := Step(Willing(crc), Initial(seed), ops[0]).state;
    Filling(crc, ready, opens, seed, 0);
    assert ops[1..] == opens;
  }

  /** So there is a run after which getSession gives an id, nothing, and that same id again. */
  lemma AnIdIsRepeated(crc: seq<byte> -> word, seed: word) returns (ops: seq<Op>)
    ensures var w := Willing(crc);
            var full := Run(w, Initial(seed), ops);
            var one := Step(w, full, GetSession);
            var two := Step(w, one.state, GetSession);
            && |full.sessions| == MAX_TRIES
            && one.result == Opened(Some(Ahead(seed, MAX_TRIES)))
            && two.result == Opened(None)
            && Step(w, two.state, GetSession).result == one.result
  {
    ops := FillTheTable(crc, seed);
    var full := Run(Willing(crc), Initial(seed), ops);
    forall id: word ensures id in full.sessions.Keys <==> id != full.next {
      assert Distance(seed, id) == MAX_TRIES <==> id == full.next;
    }
    ThreeCalls(Willing(crc), full);
    AllButOne(full.sessions.Keys, full.next);
  }

  lemma {:induction false} CountOfIds(n: nat) returns (all: set<word>)
    requires n <= 0x1_0000
    ensures |all| == n && forall id: word :: id in all <==> id < n
  {
    if n == 0 {
      all := {};
    } else {
      var fewer := CountOfIds(n - 1);
      all := fewer + {n - 1};
    }
  }

  lemma AllButOne(s: set<word>, missing: word)
    requires forall id: word :: id in s <==> id != missing
    ensures |s| == 0xffff
  {
    var all := CountOfIds(0x1_0000);
    assert s + {missing} == all;
  }
}
