/**
 * Task items of lib/qtimers.js and the bookkeeping functions over lists of them.
 *
 * A JS item is a mutable object that a bucket and the caller's handle share. The
 * scheduler keeps every item in a table indexed by `Handle`; the lists (the immediate
 * list, the timeout buckets, the deferred continuations) hold handles.
 */
module TimerItems {


  /** `setTimeout.MIN_TIMEOUT` and `setTimeout.MAX_TIMEOUT`. */
  const MIN_TIMEOUT: int := 1
  const MAX_TIMEOUT: int := 0x8000_0000 - 1

  /** `setImmediate.maxTickDepth`, the default cap of one immediate drain. */
  const DEFAULT_MAX_TICK_DEPTH: int := 10

  /** A timestamp is refreshed once it has been reused more than this many times. */
  const MAX_TIMESTAMP_USES: nat := 100

  /** Reference to one item object. */
  type Handle = int

  /** Callback of an item: an opaque task id; 0 stands for a cleared callback (`_callback = 0`). */
  type Callback = nat

  /** A callback that is present: `setInterval` always stores its (truthy) wrapper. */
  type TaskId = c: Callback | c != 0 witness 1

  /**
   * `immediateItemTemplate` and `timeoutItemTemplate`. The `_domain` tag and the
   * never-used `_removed` flag are not modelled.
   */
  datatype Item =
    | ImmediateItem(callback: Callback)
    | TimeoutItem(callback: Callback, isref: bool, when: int, interval: int)

  /** The delay `_createTimeoutItem` adds to the timestamp. */
  function ClampDelay(ms: int): (d: int)
    ensures MIN_TIMEOUT <= d <= MAX_TIMEOUT
    ensures d == ms || d == MIN_TIMEOUT
    ensures d == ms <==> MIN_TIMEOUT <= ms <= MAX_TIMEOUT
  {
    if MIN_TIMEOUT <= ms && ms <= MAX_TIMEOUT then ms else MIN_TIMEOUT
  }

  /** A fresh timeout item as `_createTimeoutItem` builds it at timestamp `ts`. */
  function NewTimeoutItem(fn: Callback, ms: int, ts: int): (it: Item)
    ensures it.TimeoutItem? && it.callback == fn && it.isref && it.interval == 0
    ensures ts < it.when <= ts + MAX_TIMEOUT
    ensures MIN_TIMEOUT <= ms <= MAX_TIMEOUT ==> it.when == ts + ms
    ensures !(MIN_TIMEOUT <= ms <= MAX_TIMEOUT) ==> it.when == ts + MIN_TIMEOUT
  {
    TimeoutItem(fn, true, ts + ClampDelay(ms), 0)
  }

  /** The item `setInterval` builds: a timeout item whose `_interval` is the raw `ms`. */
  function NewIntervalItem(fn: Callback, ms: int, ts: int): (it: Item)
    ensures it.TimeoutItem? && it.callback == fn && it.isref && it.interval == ms
    ensures it.when == NewTimeoutItem(fn, ms, ts).when
  {
    TimeoutItem(fn, true, ts + ClampDelay(ms), ms)
  }

  /** An out-of-range delay behaves exactly like the minimum delay. */
  lemma ClampOutOfRange(fn: Callback, ms: int, ts: int)
    requires ms < MIN_TIMEOUT || ms > MAX_TIMEOUT
    ensures NewTimeoutItem(fn, ms, ts) == NewTimeoutItem(fn, MIN_TIMEOUT, ts)
  {
  }

  /** An item the reference counter must account for: a referenced timeout with a callback. */
  predicate Counts(it: Item) {
    it.TimeoutItem? && it.callback != 0 && it.isref
  }

  /** Two views of one item that differ at most in the expiry `_when`. */
  predicate SameExceptWhen(a: Item, b: Item) {
    a.TimeoutItem? && b.TimeoutItem? && a == b.(when := a.when)
  }

  /** No handle occurs twice in `s`. */
  predicate Distinct(s: seq<Handle>) {
    s == [] || (s[0] !in s[1..] && Distinct(s[1..]))
  }

  /** Every handle of `s` names a known timeout item. */
  predicate AllTimeouts(s: seq<Handle>, items: map<Handle, Item>) {
    s == [] || (s[0] in items && items[s[0]].TimeoutItem? && AllTimeouts(s[1..], items))
  }

  /** No handle of `a` occurs in `b`. */
  predicate Disjoint(a: seq<Handle>, b: seq<Handle>) {
    a == [] || (a[0] !in b && Disjoint(a[1..], b))
  }

  /** Number of handles in `s` whose items the counter must account for. */
  function RefsIn(s: seq<Handle>, items: map<Handle, Item>): nat
  {
    if s == [] then 0
    else (if s[0] in items && Counts(items[s[0]]) then 1 else 0) + RefsIn(s[1..], items)
  }

  /** The handles of `s`, in order, whose callbacks are still present: those a drain runs. */
  function Runnable(s: seq<Handle>, items: map<Handle, Item>): seq<Handle>
  {
    if s == [] then []
    else (if s[0] in items && items[s[0]].callback != 0 then [s[0]] else []) + Runnable(s[1..], items)
  }

  /** Whether running the item of `h` re-arms it: an interval whose callback is present and returns. */
  predicate Rearms(h: Handle, items: map<Handle, Item>, fails: set<Handle>) {
    h in items && items[h].TimeoutItem? && items[h].callback != 0 && items[h].interval != 0 && h !in fails
  }

  /** The handles of `s`, in order, whose items re-arm when a drain runs them. */
  function Rearmed(s: seq<Handle>, items: map<Handle, Item>, fails: set<Handle>): seq<Handle>
  {
    if s == [] then []
    else (if Rearms(s[0], items, fails) then [s[0]] else []) + Rearmed(s[1..], items, fails)
  }

  /** An item after `n` re-arms: a timeout item's `_when` has advanced `n` times by its `_interval`. */
  function Advance(it: Item, n: nat): Item {
    if it.TimeoutItem? then it.(when := it.when + n * it.interval) else it
  }

  /**
   * The expiry at which the item of `h` re-arms, `_when + _interval`; 0 for a handle that
   * names no timeout item (such a handle never re-arms).
   */
  function NextWhen(h: Handle, items: map<Handle, Item>): int {
    if h in items && items[h].TimeoutItem? then items[h].when + items[h].interval else 0
  }

  /** How many times `g` occurs in `s`. */
  function Occurrences(s: seq<Handle>, g: Handle): nat
  {
    if s == [] then 0
    else (if s[0] == g then 1 else 0) + Occurrences(s[1..], g)
  }

  /** `Occurrences` is the multiplicity in the multiset of the list. */
  lemma {:induction false} OccurrencesCount(s: seq<Handle>, g: Handle)
    ensures Occurrences(s, g) == multiset(s)[g]
  {
    if s != [] {
      assert s == [s[0]] + s[1..];
      OccurrencesCount(s[1..], g);
    }
  }

  lemma {:induction false} OccurrencesConcat(a: seq<Handle>, b: seq<Handle>, g: Handle)
    ensures Occurrences(a + b, g) == Occurrences(a, g) + Occurrences(b, g)
  {
    if a == [] {
      assert a + b == b;
    } else {
      assert (a + b)[1..] == a[1..] + b;
      OccurrencesConcat(a[1..], b, g);
    }
  }

  /** `p` holds `g` as often as `q` does. */
  ghost predicate SameCount(p: seq<Handle>, q: seq<Handle>, g: Handle) {
    Occurrences(p, g) == Occurrences(q, g)
  }

  /** `p` holds every handle as often as `q` does: the two lists are reorderings of each other. */
  ghost predicate SameCounts(p: seq<Handle>, q: seq<Handle>) {
    forall g {:trigger SameCount(p, q, g)} :: SameCount(p, q, g)
  }

  /** `SameCounts` is equality of the multisets of the two lists. */
  lemma SameCountsMultiset(p: seq<Handle>, q: seq<Handle>)
    ensures SameCounts(p, q) <==> multiset(p) == multiset(q)
  {
    forall g
      ensures SameCount(p, q, g) <==> multiset(p)[g] == multiset(q)[g]
    {
      OccurrencesCount(p, g);
      OccurrencesCount(q, g);
    }
    if SameCounts(p, q) {
      forall g
        ensures multiset(p)[g] == multiset(q)[g]
      {
        assert SameCount(p, q, g);
      }
    }
  }

  /** Appending the same list to both sides keeps the counts equal. */
  lemma SameCountsAppend(p: seq<Handle>, q: seq<Handle>, r: seq<Handle>)
    requires SameCounts(p, q)
    ensures SameCounts(p + r, q + r)
  {
    forall g
      ensures SameCount(p + r, q + r, g)
    {
      OccurrencesConcat(p, r, g);
      OccurrencesConcat(q, r, g);
      assert SameCount(p, q, g);
    }
  }

  /** Every item of `items0` has been re-armed as often as `moved` holds its handle, and nothing else changed. */
  ghost predicate Advanced(items: map<Handle, Item>, items0: map<Handle, Item>, moved: seq<Handle>) {
    items.Keys == items0.Keys && forall g :: g in items0 ==> items[g] == Advance(items0[g], Occurrences(moved, g))
  }

  /** `timeoutHash[k]`, with an absent or drained slot as the empty bucket. */
  function Bucket(hash: map<int, seq<Handle>>, k: int): seq<Handle> {
    if k in hash then hash[k] else []
  }

  /** The buckets of `keys`, concatenated in key order. */
  function AllBuckets(keys: seq<int>, hash: map<int, seq<Handle>>): seq<Handle> {
    if keys == [] then [] else Bucket(hash, keys[0]) + AllBuckets(keys[1..], hash)
  }

  /** The lists of `lists`, concatenated in order. */
  function Flatten(lists: seq<seq<Handle>>): seq<Handle> {
    if lists == [] then [] else lists[0] + Flatten(lists[1..])
  }

  // ---------------------------------------------------------------------------
  // Lemmas about the counting and listing functions

  lemma {:induction false} RefsInConcat(a: seq<Handle>, b: seq<Handle>, items: map<Handle, Item>)
    ensures RefsIn(a + b, items) == RefsIn(a, items) + RefsIn(b, items)
  {
    if a != [] {
      assert (a + b)[1..] == a[1..] + b;
      RefsInConcat(a[1..], b, items);
    } else {
      assert a + b == b;
    }
  }

  lemma {:induction false} RunnableConcat(a: seq<Handle>, b: seq<Handle>, items: map<Handle, Item>)
    ensures Runnable(a + b, items) == Runnable(a, items) + Runnable(b, items)
  {
    if a != [] {
      assert (a + b)[1..] == a[1..] + b;
      RunnableConcat(a[1..], b, items);
    } else {
      assert a + b == b;
    }
  }

  /** The count of a list changes by the change of one item, and only if the list holds it. */
  lemma {:induction false} RefsInUpdate(s: seq<Handle>, items: map<Handle, Item>, h: Handle, it: Item)
    requires Distinct(s)
    ensures RefsIn(s, items[h := it]) ==
      RefsIn(s, items)
      + (if h in s && Counts(it) then 1 else 0)
      - (if h in s && h in items && Counts(items[h]) then 1 else 0)
  {
    if s != [] {
      RefsInUpdate(s[1..], items, h, it);
    }
  }

  /** Changing only an item's expiry changes neither the count nor the runnable list. */
  lemma {:induction false} ListsIgnoreWhen(s: seq<Handle>, items: map<Handle, Item>, h: Handle, it: Item)
    requires h in items && SameExceptWhen(it, items[h])
    ensures RefsIn(s, items[h := it]) == RefsIn(s, items)
    ensures Runnable(s, items[h := it]) == Runnable(s, items)
  {
    if s != [] {
      ListsIgnoreWhen(s[1..], items, h, it);
    }
  }

  /** Appending one handle to the end of a list adds that item's share to both views. */
  lemma RefsInSnoc(s: seq<Handle>, h: Handle, items: map<Handle, Item>)
    ensures RefsIn(s + [h], items) == RefsIn(s, items) + (if h in items && Counts(items[h]) then 1 else 0)
    ensures Runnable(s + [h], items) == Runnable(s, items) + (if h in items && items[h].callback != 0 then [h] else [])
  {
    RefsInConcat(s, [h], items);
    RunnableConcat(s, [h], items);
  }

  lemma {:induction false} AllBucketsConcat(a: seq<int>, b: seq<int>, hash: map<int, seq<Handle>>)
    ensures AllBuckets(a + b, hash) == AllBuckets(a, hash) + AllBuckets(b, hash)
  {
    if a != [] {
      assert (a + b)[1..] == a[1..] + b;
      AllBucketsConcat(a[1..], b, hash);
    } else {
      assert a + b == b;
    }
  }

  lemma AllBucketsCons(k: int, rest: seq<int>, hash: map<int, seq<Handle>>)
    ensures AllBuckets([k] + rest, hash) == Bucket(hash, k) + AllBuckets(rest, hash)
  {
    assert ([k] + rest)[1..] == rest;
  }

  /** Rewriting the slot of a key the index does not hold leaves the concatenation alone. */
  lemma {:induction false} AllBucketsOtherKey(keys: seq<int>, hash: map<int, seq<Handle>>, k: int, b: seq<Handle>)
    requires k !in keys
    ensures AllBuckets(keys, hash[k := b]) == AllBuckets(keys, hash)
  {
    if keys != [] {
      AllBucketsOtherKey(keys[1..], hash, k, b);
    }
  }

  /** Dropping the slot of a key the index does not hold leaves the concatenation alone. */
  lemma {:induction false} AllBucketsDropKey(keys: seq<int>, hash: map<int, seq<Handle>>, k: int)
    requires k !in keys
    ensures AllBuckets(keys, hash - {k}) == AllBuckets(keys, hash)
  {
    if keys != [] {
      AllBucketsDropKey(keys[1..], hash, k);
    }
  }

  lemma {:induction false} FlattenSnoc(lists: seq<seq<Handle>>, l: seq<Handle>)
    ensures Flatten(lists + [l]) == Flatten(lists) + l
  {
    if lists != [] {
      assert (lists + [l])[1..] == lists[1..] + [l];
      FlattenSnoc(lists[1..], l);
    }
  }

  /** Two item tables with the same handles whose items differ at most in their expiries. */
  predicate AgreeExceptWhen(a: map<Handle, Item>, b: map<Handle, Item>) {
    a.Keys == b.Keys && forall g :: g in a ==> a[g] == b[g] || SameExceptWhen(a[g], b[g])
  }

  /** Moving expiries changes neither the count of a list nor its runnable handles. */
  lemma {:induction false} ListsAgreeExceptWhen(s: seq<Handle>, a: map<Handle, Item>, b: map<Handle, Item>)
    requires AgreeExceptWhen(a, b)
    ensures RefsIn(s, a) == RefsIn(s, b)
    ensures Runnable(s, a) == Runnable(s, b)
  {
    if s != [] {
      ListsAgreeExceptWhen(s[1..], a, b);
      var g := s[0];
      assert g in a <==> g in b;
      if g in a {
        assert a[g].callback == b[g].callback && Counts(a[g]) == Counts(b[g]);
      }
    }
  }

  /** Expiry-only differences compose. */
  lemma AgreeTrans(a: map<Handle, Item>, b: map<Handle, Item>, c: map<Handle, Item>)
    requires AgreeExceptWhen(a, b) && AgreeExceptWhen(b, c)
    ensures AgreeExceptWhen(a, c)
  {
  }

  lemma {:induction false} AllTimeoutsIff(s: seq<Handle>, items: map<Handle, Item>)
    ensures AllTimeouts(s, items) <==> forall h :: h in s ==> h in items && items[h].TimeoutItem?
  {
    if s != [] {
      AllTimeoutsIff(s[1..], items);
      assert forall h :: h in s <==> h == s[0] || h in s[1..];
    }
  }

  lemma {:induction false} DisjointIff(a: seq<Handle>, b: seq<Handle>)
    ensures Disjoint(a, b) <==> forall h :: h in a ==> h !in b
  {
    if a != [] {
      DisjointIff(a[1..], b);
      assert forall h :: h in a <==> h == a[0] || h in a[1..];
    }
  }

  /** A list is distinct exactly when its multiset holds every handle at most once. */
  lemma {:induction false} DistinctMultiset(s: seq<Handle>)
    ensures Distinct(s) <==> forall h :: multiset(s)[h] <= 1
  {
    if s != [] {
      var t := s[1..];
      DistinctMultiset(t);
      assert s == [s[0]] + t;
      var m := multiset(s);
      assert m == multiset{s[0]} + multiset(t);
      if s[0] in t {
        var k := s[0];
        assert multiset(t)[k] > 0;
        assert multiset(s)[k] > 1;
      } else {
        assert multiset(t)[s[0]] == 0;
        forall x ensures m[x] == multiset(t)[x] + (if x == s[0] then 1 else 0) {
        }
        assert (forall x :: m[x] <= 1) <==> (forall x :: multiset(t)[x] <= 1);
      }
    }
  }

  /** Inserting a fresh handle into a distinct list keeps it distinct and adds its share. */
  lemma InsertFresh(x: seq<Handle>, y: seq<Handle>, h: Handle, items: map<Handle, Item>)
    requires Distinct(x + y) && h !in x + y
    ensures Distinct(x + [h] + y)
    ensures RefsIn(x + [h] + y, items) == RefsIn(x + y, items) + (if h in items && Counts(items[h]) then 1 else 0)
  {
    assert multiset(x + [h] + y) == multiset(x + y) + multiset{h};
    assert multiset(x + y)[h] == 0;
    DistinctMultiset(x + y);
    DistinctMultiset(x + [h] + y);
    RefsInConcat(x, y, items);
    RefsInConcat(x, [h], items);
    RefsInConcat(x + [h], y, items);
  }

  /** The buckets of keys split at `k` are those before `k`, then `k`'s own, then those after. */
  lemma AllBucketsAt(before: seq<int>, k: int, after: seq<int>, hash: map<int, seq<Handle>>)
    ensures AllBuckets(before + [k] + after, hash) == AllBuckets(before, hash) + Bucket(hash, k) + AllBuckets(after, hash)
  {
    assert before + [k] + after == before + ([k] + after);
    AllBucketsCons(k, after, hash);
    AllBucketsConcat(before, [k] + after, hash);
  }

  /**
   * Appending `h` to the bucket of key `k`, which occurs once in the index, puts `h`
   * right after that bucket's items in the concatenation of all buckets.
   */
  lemma AppendToBucket(before: seq<int>, k: int, after: seq<int>, hash: map<int, seq<Handle>>, h: Handle)
    returns (x: seq<Handle>, y: seq<Handle>)
    requires k !in before && k !in after
    ensures AllBuckets(before + [k] + after, hash) == x + y
    ensures AllBuckets(before + [k] + after, hash[k := Bucket(hash, k) + [h]]) == x + [h] + y
    ensures x == AllBuckets(before, hash) + Bucket(hash, k) && y == AllBuckets(after, hash)
  {
    var hash' := hash[k := Bucket(hash, k) + [h]];
    AllBucketsAt(before, k, after, hash);
    AllBucketsAt(before, k, after, hash');
    AllBucketsOtherKey(before, hash, k, Bucket(hash, k) + [h]);
    AllBucketsOtherKey(after, hash, k, Bucket(hash, k) + [h]);
    x, y := AllBuckets(before, hash) + Bucket(hash, k), AllBuckets(after, hash);
    assert Bucket(hash', k) == Bucket(hash, k) + [h];
  }

  /**
   * Inserting a new key `k` with the one-item bucket `[h]` between the keys `before`
   * and `after` puts `h` between their buckets.
   */
  lemma NewBucket(before: seq<int>, k: int, after: seq<int>, hash: map<int, seq<Handle>>, h: Handle)
    returns (x: seq<Handle>, y: seq<Handle>)
    requires k !in before && k !in after
    ensures AllBuckets(before + after, hash) == x + y
    ensures AllBuckets(before + [k] + after, hash[k := [h]]) == x + [h] + y
    ensures x == AllBuckets(before, hash) && y == AllBuckets(after, hash)
  {
    var hash' := hash[k := [h]];
    AllBucketsAt(before, k, after, hash');
    AllBucketsConcat(before, after, hash);
    AllBucketsOtherKey(before, hash, k, [h]);
    AllBucketsOtherKey(after, hash, k, [h]);
    x, y := AllBuckets(before, hash), AllBuckets(after, hash);
  }

  // ---------------------------------------------------------------------------
  // Lemmas about re-arming

  lemma {:induction false} RearmedConcat(a: seq<Handle>, b: seq<Handle>, items: map<Handle, Item>, fails: set<Handle>)
    ensures Rearmed(a + b, items, fails) == Rearmed(a, items, fails) + Rearmed(b, items, fails)
  {
    if a != [] {
      assert (a + b)[1..] == a[1..] + b;
      RearmedConcat(a[1..], b, items, fails);
    } else {
      assert a + b == b;
    }
  }

  /** Shifting one more item onto a run list re-arms it exactly when it `Rearms`. */
  lemma RearmedSnoc(s: seq<Handle>, h: Handle, items: map<Handle, Item>, fails: set<Handle>)
    ensures Rearmed(s + [h], items, fails) == Rearmed(s, items, fails) + (if Rearms(h, items, fails) then [h] else [])
  {
    RearmedConcat(s, [h], items, fails);
  }

  /** A re-armed handle comes from the list and re-arms. */
  lemma {:induction false} RearmedIn(s: seq<Handle>, items: map<Handle, Item>, fails: set<Handle>, g: Handle)
    ensures g in Rearmed(s, items, fails) ==> g in s && Rearms(g, items, fails)
  {
    if s != [] {
      RearmedIn(s[1..], items, fails, g);
    }
  }

  /** Moving expiries does not change which items re-arm. */
  lemma {:induction false} RearmedAgree(s: seq<Handle>, a: map<Handle, Item>, b: map<Handle, Item>, fails: set<Handle>)
    requires AgreeExceptWhen(a, b)
    ensures Rearmed(s, a, fails) == Rearmed(s, b, fails)
  {
    if s != [] {
      RearmedAgree(s[1..], a, b, fails);
      var g := s[0];
      assert g in a <==> g in b;
    }
  }

  /** Re-arming `a` times and then `b` times is re-arming `a + b` times. */
  lemma AdvanceAdd(it: Item, a: nat, b: nat)
    ensures Advance(Advance(it, a), b) == Advance(it, a + b)
  {
    if it.TimeoutItem? {
      assert (a + b) * it.interval == a * it.interval + b * it.interval;
    }
  }

  /** A table that has only been re-armed differs from the old one at most in expiries. */
  lemma AdvancedAgree(items: map<Handle, Item>, items0: map<Handle, Item>, moved: seq<Handle>)
    requires Advanced(items, items0, moved)
    ensures AgreeExceptWhen(items, items0)
  {
    forall g | g in items
      ensures items[g] == items0[g] || SameExceptWhen(items[g], items0[g])
    {
      assert items[g] == Advance(items0[g], Occurrences(moved, g));
    }
  }

  /** Nothing re-armed: the table is unchanged. */
  lemma AdvancedNone(items: map<Handle, Item>)
    ensures Advanced(items, items, [])
  {
    forall g | g in items
      ensures items[g] == Advance(items[g], Occurrences([], g))
    {
    }
  }

  /** Re-arming one more item of a re-armed table. */
  lemma AdvancedStep(items: map<Handle, Item>, items0: map<Handle, Item>, moved: seq<Handle>, h: Handle)
    requires Advanced(items, items0, moved) && h in items
    ensures Advanced(items[h := Advance(items[h], 1)], items0, moved + [h])
  {
    var items' := items[h := Advance(items[h], 1)];
    forall g | g in items0
      ensures items'[g] == Advance(items0[g], Occurrences(moved + [h], g))
    {
      OccurrencesConcat(moved, [h], g);
      if g == h {
        AdvanceAdd(items0[g], Occurrences(moved, g), 1);
      }
    }
  }

  /** Re-arms compose. */
  lemma AdvancedTrans(items2: map<Handle, Item>, items1: map<Handle, Item>, items0: map<Handle, Item>,
                      m1: seq<Handle>, m2: seq<Handle>)
    requires Advanced(items1, items0, m1) && Advanced(items2, items1, m2)
    ensures Advanced(items2, items0, m1 + m2)
  {
    forall g | g in items0
      ensures items2[g] == Advance(items0[g], Occurrences(m1 + m2, g))
    {
      OccurrencesConcat(m1, m2, g);
      AdvanceAdd(items0[g], Occurrences(m1, g), Occurrences(m2, g));
    }
  }
}
