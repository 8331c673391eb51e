/**
 * The expiry index `timeoutHeap` of lib/qtimers.js: a min-priority structure over
 * bucket keys (the `qheap` library). It is modelled as a strictly increasing sequence
 * of keys: `Put` inserts a key at its ordered place, `peek` reads the head (the
 * minimum) and `get` drops it.
 */
module SortedKeys {

  /** Every key is smaller than the next one, so no key occurs twice. */
  predicate Increasing(s: seq<int>) {
    |s| < 2 || (s[0] < s[1] && Increasing(s[1..]))
  }

  /** The keys of `s` that precede `k`: those smaller than `k` when `s` is increasing. */
  function Below(s: seq<int>, k: int): seq<int> {
    if s == [] || k < s[0] then [] else [s[0]] + Below(s[1..], k)
  }

  /** The keys of `s` from the first one larger than `k` on. */
  function Above(s: seq<int>, k: int): seq<int> {
    if s == [] || k < s[0] then s else Above(s[1..], k)
  }

  /** `timeoutHeap.put(k)` for a key not yet in the heap: `k` goes between its neighbours. */
  function Put(s: seq<int>, k: int): (r: seq<int>)
    requires Increasing(s) && k !in s
    ensures Increasing(r) && |r| == |s| + 1
    ensures s == Below(s, k) + Above(s, k)
    ensures k !in Below(s, k) && k !in Above(s, k)
    ensures r[0] == (if s == [] || k < s[0] then k else s[0])
  {
    PutKeepsOrder(s, k);
    BelowAbove(s, k);
    Below(s, k) + [k] + Above(s, k)
  }

  /** `Below` and `Above` split `s`, and neither part holds a key not in `s`. */
  lemma {:induction false} BelowAbove(s: seq<int>, k: int)
    ensures s == Below(s, k) + Above(s, k)
    ensures forall x :: x in Below(s, k) ==> x in s
    ensures forall x :: x in Above(s, k) ==> x in s
  {
    if s != [] && s[0] <= k {
      BelowAbove(s[1..], k);
      assert s == [s[0]] + s[1..];
    }
  }

  /** Placing `k` between `Below` and `Above` keeps the keys increasing. */
  lemma {:induction false} PutKeepsOrder(s: seq<int>, k: int)
    requires Increasing(s) && k !in s
    ensures Increasing(Below(s, k) + [k] + Above(s, k))
    ensures |Below(s, k) + [k] + Above(s, k)| == |s| + 1
    ensures (Below(s, k) + [k] + Above(s, k))[0] == (if s == [] || k < s[0] then k else s[0])
  {
    BelowAbove(s, k);
    if s == [] || k < s[0] {
      assert ([k] + s)[1..] == s;
    } else {
      HeadIsMinimum(s);
      PutKeepsOrder(s[1..], k);
      var r' := Below(s[1..], k) + [k] + Above(s[1..], k);
      assert Below(s, k) + [k] + Above(s, k) == [s[0]] + r';
      assert ([s[0]] + r')[1..] == r';
    }
  }

  /** The split of `s` at the place where `Put` inserts `k`. */
  lemma PutSplit(s: seq<int>, k: int) returns (before: seq<int>, after: seq<int>)
    requires Increasing(s) && k !in s
    ensures s == before + after && Put(s, k) == before + [k] + after
    ensures k !in before && k !in after
    ensures before == Below(s, k) && after == Above(s, k)
  {
    BelowAbove(s, k);
    before, after := Below(s, k), Above(s, k);
  }

  /** A key of an increasing sequence splits it into the keys before and after it. */
  lemma {:induction false} KeySplit(s: seq<int>, k: int) returns (before: seq<int>, after: seq<int>)
    requires Increasing(s) && k in s
    ensures s == before + [k] + after
    ensures k !in before && k !in after
    ensures before + [k] == Below(s, k) && after == Above(s, k)
  {
    HeadIsMinimum(s);
    assert s == [s[0]] + s[1..];
    if s[0] == k {
      before, after := [], s[1..];
      if after != [] {
        assert k < after[0];
      }
    } else {
      var b, a := KeySplit(s[1..], k);
      before, after := [s[0]] + b, a;
    }
  }

  /** In an increasing sequence the head is the minimum, and the rest is increasing. */
  lemma {:induction false} HeadIsMinimum(s: seq<int>)
    requires Increasing(s) && s != []
    ensures forall x :: x in s[1..] ==> s[0] < x
    ensures s[0] !in s[1..]
    ensures Increasing(s[1..])
  {
    if |s| >= 2 {
      HeadIsMinimum(s[1..]);
      assert s[1..] == [s[1]] + s[1..][1..];
    }
  }
}
