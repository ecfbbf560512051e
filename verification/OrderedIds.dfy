/** A std::set<uint16_t> is walked in ascending order; this is that order as a sequence. */
module OrderedIds {
  import opened BlobTypes

  function AscendingFrom(s: set<word>, lo: nat): seq<word>
    decreases 0x1_0000 - lo
  {
    if lo >= 0x1_0000 then [] else (if lo in s then [lo] else []) + AscendingFrom(s, lo + 1)
  }

  function Ascending(s: set<word>): seq<word> {
    AscendingFrom(s, 0)
  }

  ghost predicate Increasing(order: seq<word>) {
    forall i, j :: 0 <= i < j < |order| ==> order[i] < order[j]
  }

  lemma {:induction false} WalksUpFrom(s: set<word>, lo: nat)
    ensures var r := AscendingFrom(s, lo);
            && Increasing(r)
            && (forall id: word :: id in r <==> id in s && lo <= id)
    decreases 0x1_0000 - lo
  {
    if lo < 0x1_0000 {
      WalksUpFrom(s, lo + 1);
      var rest := AscendingFrom(s, lo + 1);
      if lo in s {
        var r := [lo] + rest;
        assert AscendingFrom(s, lo) == r;
        forall i, j | 0 <= i < j < |r| ensures r[i] < r[j] {
          assert r[j] == rest[j - 1] && rest[j - 1] in rest;
        }
      } else {
        assert AscendingFrom(s, lo) == rest;
      }
    }
  }

  /** The walk meets each member of the set once, smallest first. */
  lemma WalkMeetsEach(s: set<word>)
    ensures Increasing(Ascending(s))
    ensures forall id: word :: id in Ascending(s) <==> id in s
  {
    WalksUpFrom(s, 0);
  }

  lemma {:induction false} NothingToWalk(lo: nat)
    ensures AscendingFrom({}, lo) == []
    decreases 0x1_0000 - lo
  {
    if lo < 0x1_0000 {
      NothingToWalk(lo + 1);
    }
  }

  /** A set of 16-bit ids has at most 65536 of them, so a C++ int counts them without overflow. */
  lemma AtMostAllIds(s: set<word>)
    ensures |s| <= 0x1_0000
  {
    BoundedBy(s, 0x1_0000);
  }

  lemma {:induction false} BoundedBy(s: set<word>, n: nat)
    requires forall id :: id in s ==> id < n
    ensures |s| <= n
  {
    if n > 0 {
      var top := n - 1;
      BoundedBy(s - {top}, n - 1);
      assert |s| <= |s - {top}| + 1;
    } else {
      assert s == {};
    }
  }
}
