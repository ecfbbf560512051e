/** The wrapping 16-bit id allocator of BlobManager::getSession. */
module SessionIds {
  import opened BlobTypes

  // `tries` runs from 0 and the loop stops at 0xffff: one value of `next` is never probed.
  const MAX_TRIES: nat := 0xffff

  /** `id` advanced `k` times by a 16-bit increment, for less than a full turn. */
  function Ahead(id: word, k: nat): word
    requires k <= MAX_TRIES
  {
    if id + k < 0x1_0000 then id + k else id + k - 0x1_0000
  }

  /** How far from `next` the first id lies that is not in use, looking from distance `k` on. */
  function Scan(next: word, live: set<word>, k: nat): (r: Option<nat>)
    requires k <= MAX_TRIES
    ensures r.Some? ==> k <= r.value < MAX_TRIES && Ahead(next, r.value) !in live
    decreases MAX_TRIES - k
  {
    if k == MAX_TRIES then None
    else if Ahead(next, k) !in live then Some(k)
    else Scan(next, live, k + 1)
  }

  lemma {:induction false} ScanFindsTheFirst(next: word, live: set<word>, k: nat)
    requires k <= MAX_TRIES
    ensures var r := Scan(next, live, k);
            var end := if r.Some? then r.value else MAX_TRIES;
            forall j :: k <= j < end ==> Ahead(next, j) in live
    decreases MAX_TRIES - k
  {
    if k < MAX_TRIES && Ahead(next, k) in live {
      ScanFindsTheFirst(next, live, k + 1);
    }
  }

  /** An allocation: the id found, the new `next`, and how many values were probed. */
  datatype Allotted = Allotted(id: Option<word>, next: word, probes: nat)

  function Allot(next: word, live: set<word>): Allotted {
    match Scan(next, live, 0)
    case Some(k) => Allotted(Some(Ahead(next, k)), Ahead(next, k + 1), k + 1)
    case None => Allotted(None, Ahead(next, MAX_TRIES), MAX_TRIES)
  }

  /** The one id an allocation does not probe: the one just behind `next`. */
  function Behind(next: word): word {
    Ahead(next, MAX_TRIES)
  }

  /** `next` advances by the probes made, and the id handed out is the last one probed: it is free, and
      every id probed before it was in use. */
  lemma FirstFreeId(next: word, live: set<word>)
    ensures var r := Allot(next, live);
            && 1 <= r.probes <= MAX_TRIES && r.next == Ahead(next, r.probes)
            && (r.id.Some? ==> r.id.value !in live && r.id.value == Ahead(next, r.probes - 1))
            && (forall j :: 0 <= j < r.probes - 1 ==> Ahead(next, j) in live)
  {
    ScanFindsTheFirst(next, live, 0);
  }

  lemma FailedScanProbedAll(next: word, live: set<word>, id: word)
    requires Scan(next, live, 0).None?
    ensures id in live || id == Behind(next)
  {
    ScanFindsTheFirst(next, live, 0);
    var k := if id >= next then id - next else id + 0x1_0000 - next;
    assert id == Ahead(next, k);
  }

  /** Allocation fails exactly when every id other than `next` - 1 is in use. */
  lemma FailsExactlyWhen(next: word, live: set<word>)
    ensures Allot(next, live).id.None? <==> forall id: word :: id in live || id == Behind(next)
  {
    var r := Scan(next, live, 0);
    if r.None? {
      forall id: word ensures id in live || id == Behind(next) {
        FailedScanProbedAll(next, live, id);
      }
    } else {
      assert Ahead(next, r.value) != Behind(next);
    }
  }

  lemma TwoFreeIdsSuffice(next: word, live: set<word>, a: word, b: word)
    requires a != b && a !in live && b !in live
    ensures Allot(next, live).id.Some?
  {
    FailsExactlyWhen(next, live);
  }

  /** With one free id left, allocation finds it unless it is `next` - 1. */
  lemma LastFreeId(next: word, live: set<word>, a: word)
    requires a !in live && forall id: word :: id != a ==> id in live
    ensures Allot(next, live).id == if a == Behind(next) then None else Some(a)
  {
    FailsExactlyWhen(next, live);
  }

  /** A second attempt makes up for the unprobed id: two failures in a row mean a full table. */
  lemma TwoFailuresMeanFull(next: word, live: set<word>)
    ensures var first := Allot(next, live);
            (first.id.None? && Allot(first.next, live).id.None?) <==> forall id: word :: id in live
  {
    var first := Allot(next, live);
    FailsExactlyWhen(next, live);
    FailsExactlyWhen(first.next, live);
    assert first.id.None? ==> Behind(first.next) != Behind(next);
  }

  /** Two allocations with no failed one between them differ, whatever closed in the meantime. */
  lemma BackToBackDiffer(next: word, live1: set<word>, live2: set<word>)
    requires Allot(next, live1).id.Some?
    requires Allot(Allot(next, live1).next, live2).id.Some?
    ensures Allot(next, live1).id != Allot(Allot(next, live1).next, live2).id
  {
    FirstFreeId(next, live1);
    FirstFreeId(Allot(next, live1).next, live2);
  }

  /** How many increments lead from one id to another. */
  function Distance(from: word, to: word): nat {
    if to >= from then to - from else to + 0x1_0000 - from
  }

  /** Which id an allocation gives: exactly the free one that has only ids in use between it and `next`,
      provided it is not the one just behind `next`. */
  lemma AllotsExactly(next: word, live: set<word>, x: word)
    ensures Allot(next, live).id == Some(x) <==>
            x != Behind(next) && x !in live && forall j :: 0 <= j < Distance(next, x) ==> Ahead(next, j) in live
  {
    assert Ahead(next, Distance(next, x)) == x;
    FirstFreeId(next, live);
    ScanFindsTheFirst(next, live, 0);
  }

  /** `next` once `x` has been handed out and `failures` allocations have failed since. */
  function NextAfter(x: word, failures: nat): word {
    if failures == 0 then Ahead(x, 1) else Behind(NextAfter(x, failures - 1))
  }

  /** Each failure turns `next` back by one. */
  lemma {:induction false} FailuresTurnBack(x: word, failures: nat)
    ensures failures <= MAX_TRIES ==>
              Distance(NextAfter(x, failures), x) == if failures == 0 then MAX_TRIES else failures - 1
    ensures failures == MAX_TRIES + 1 ==> NextAfter(x, failures) == NextAfter(x, 0)
  {
    if failures > 0 {
      FailuresTurnBack(x, failures - 1);
    }
  }

  /** 65536 failures turn `next` all the way round. */
  lemma {:induction false} FailuresComeRound(x: word, failures: nat)
    ensures NextAfter(x, failures + 0x1_0000) == NextAfter(x, failures)
  {
    if failures == 0 {
      FailuresTurnBack(x, MAX_TRIES + 1);
    } else {
      FailuresComeRound(x, failures - 1);
    }
  }

  lemma {:induction false} FailuresCountModulo(x: word, failures: nat)
    ensures NextAfter(x, failures) == NextAfter(x, failures % 0x1_0000)
  {
    if failures >= 0x1_0000 {
      FailuresCountModulo(x, failures - 0x1_0000);
      FailuresComeRound(x, failures - 0x1_0000);
    }
  }

  /** After `x` and then any number of failures, which count modulo 65536, the next allocation gives `x`
      again exactly when that number is not zero, `x` is free, and the ids from `next` up to `x`, one fewer
      than the failures, are all in use. */
  lemma RepeatsAfterFailures(x: word, failures: nat, live: set<word>)
    ensures var next := NextAfter(x, failures);
            var f := failures % 0x1_0000;
            Allot(next, live).id == Some(x) <==>
            f != 0 && x !in live && forall j :: 0 <= j < f - 1 ==> Ahead(next, j) in live
  {
    var f := failures % 0x1_0000;
    FailuresCountModulo(x, failures);
    FailuresTurnBack(x, f);
    AllotsExactly(NextAfter(x, f), live, x);
  }

  /** The smallest case, with one table throughout: `next` is the only free id, and whoever gets it does
      not record it. The second call fails, and the third gives the same id as the first. */
  lemma OnlyFreeIdRepeats(next: word, others: set<word>)
    requires forall id: word :: id in others <==> id != next
    ensures var first := Allot(next, others);
            var second := Allot(first.next, others);
            && first.id == Some(next)
            && second.id == None
            && Allot(second.next, others).id == Some(next)
  {
    FailsExactlyWhen(Ahead(next, 1), others);
  }

  /** On an unbounded dial read modulo 65536, an allocation moves forward by its probes. */
  lemma AllotTurnsTheDial(position: nat, live: set<word>)
    ensures var r := Allot(position % 0x1_0000, live);
            && r.probes >= 1
            && r.next == (position + r.probes) % 0x1_0000
            && (r.id.Some? ==> r.id.value == (position + r.probes - 1) % 0x1_0000)
  {
    FirstFreeId(position % 0x1_0000, live);
  }

  lemma SameReading(a: nat, b: nat)
    requires a <= b
    ensures a % 0x1_0000 == b % 0x1_0000 <==> (b - a) % 0x1_0000 == 0
  {
  }
}
