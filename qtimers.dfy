/**
 * The timer bookkeeping engine of lib/qtimers.js as one scheduler object.
 *
 * The module-level variables of the source become the fields of `Scheduler`:
 * the immediate list and its "drain needed" flag, the timeout index (`timeoutHeap`
 * and `timeoutHash`), the `pendingTimeouts` counter, the timestamp cache and the
 * `_running` flag of the host timer. Item objects live in the table `items`.
 * Wall-clock readings are parameters; whether a callback throws is the oracle set
 * `fails` (a callback whose item is in `fails` throws a truthy value, any other
 * returns; a falsy throw reads as a return in the source).
 */
module QTimers {

  import opened SortedKeys
  import opened TimerItems

  /** An optional value; as an `err` result, the handle of the item whose callback threw. */
  datatype Option<T> = None | Some(value: T)

  /** The heap holds exactly the keys of the live buckets, in increasing order. */
  ghost predicate IndexOk(heap: seq<int>, hash: map<int, seq<Handle>>) {
    Increasing(heap) && forall k :: k in heap <==> k in hash
  }

  /** Creating the bucket of a new key and putting the key in the heap keeps the index whole. */
  lemma NewKeyKeepsIndex(heap: seq<int>, hash: map<int, seq<Handle>>, when: int, b: seq<Handle>)
    requires IndexOk(heap, hash) && when !in hash
    ensures IndexOk(Put(heap, when), hash[when := b])
  {
    var before, after := PutSplit(heap, when);
    assert forall k :: k in Put(heap, when) <==> k in heap || k == when;
  }

  /** Replacing the bucket of a live key keeps the index whole. */
  lemma LiveKeyKeepsIndex(heap: seq<int>, hash: map<int, seq<Handle>>, when: int, b: seq<Handle>)
    requires IndexOk(heap, hash) && when in hash
    ensures IndexOk(heap, hash[when := b])
  {
  }

  /** Every live bucket is non-empty and holds only items that expire at its key. */
  ghost predicate Placed(hash: map<int, seq<Handle>>, items: map<Handle, Item>) {
    forall k {:trigger PlacedAt(hash, items, k)} :: PlacedAt(hash, items, k)
  }

  /** The bucket of `k`, if live, is non-empty and holds only items that expire at `k`. */
  ghost predicate PlacedAt(hash: map<int, seq<Handle>>, items: map<Handle, Item>, k: int) {
    k in hash ==> hash[k] != [] && AllAt(hash[k], items, k)
  }

  /** Pushing an item that expires at `k` onto the bucket of `k` keeps every bucket placed. */
  lemma PlacedPush(hash: map<int, seq<Handle>>, items: map<Handle, Item>, k: int, h: Handle)
    requires Placed(hash, items) && h in items && items[h].TimeoutItem? && items[h].when == k
    ensures Placed(hash[k := Bucket(hash, k) + [h]], items)
  {
    var hash' := hash[k := Bucket(hash, k) + [h]];
    forall k'
      ensures PlacedAt(hash', items, k')
    {
      assert PlacedAt(hash, items, k');
      if k' == k {
        assert forall g :: g in hash'[k] ==> g in Bucket(hash, k) || g == h;
      }
    }
  }

  /** Dropping a key keeps the other buckets placed. */
  lemma PlacedDrop(hash: map<int, seq<Handle>>, items: map<Handle, Item>, k: int)
    requires Placed(hash, items)
    ensures Placed(hash - {k}, items)
  {
    var hash' := hash - {k};
    forall k'
      ensures PlacedAt(hash', items, k')
    {
      assert PlacedAt(hash, items, k');
    }
  }

  /**
   * Changing an item in place keeps every bucket placed when a timeout item keeps its
   * expiry: an item that is not a known timeout item sits in no bucket.
   */
  lemma PlacedUpdate(hash: map<int, seq<Handle>>, items: map<Handle, Item>, h: Handle, it: Item)
    requires Placed(hash, items)
    requires h in items && items[h].TimeoutItem? ==> it.TimeoutItem? && it.when == items[h].when
    ensures Placed(hash, items[h := it])
  {
    var items' := items[h := it];
    forall k
      ensures PlacedAt(hash, items', k)
    {
      assert PlacedAt(hash, items, k);
    }
  }

  /** The bucket at the head of the heap holds only items that expire at the head key. */
  lemma PlacedHead(heap: seq<int>, hash: map<int, seq<Handle>>, items: map<Handle, Item>)
    requires IndexOk(heap, hash) && Placed(hash, items) && heap != []
    ensures AllAt(Bucket(hash, heap[0]), items, heap[0])
  {
    assert PlacedAt(hash, items, heap[0]);
  }

  /** A live bucket's items occur in the concatenation of the buckets. */
  lemma {:induction false} InAllBuckets(keys: seq<int>, hash: map<int, seq<Handle>>, k: int)
    requires k in keys
    ensures forall g :: g in Bucket(hash, k) ==> g in AllBuckets(keys, hash)
  {
    if keys[0] != k {
      InAllBuckets(keys[1..], hash, k);
    }
  }

  /** Changing an item that sits in no bucket keeps every bucket placed. */
  lemma PlacedOutside(heap: seq<int>, hash: map<int, seq<Handle>>, items: map<Handle, Item>, h: Handle, it: Item)
    requires IndexOk(heap, hash) && Placed(hash, items) && h !in AllBuckets(heap, hash)
    ensures Placed(hash, items[h := it])
  {
    var items' := items[h := it];
    forall k
      ensures PlacedAt(hash, items', k)
    {
      assert PlacedAt(hash, items, k);
      if k in hash {
        InAllBuckets(heap, hash, k);
      }
    }
  }

  /** The pending handles are distinct and name known timeout items. */
  ghost predicate PendingOk(p: seq<Handle>, items: map<Handle, Item>) {
    Distinct(p) && AllTimeouts(p, items)
  }

  /** Inserting a fresh timeout item keeps the pending list whole and adds its share. */
  lemma InsertKeepsPending(x: seq<Handle>, y: seq<Handle>, h: Handle, items: map<Handle, Item>)
    requires PendingOk(x + y, items) && h !in x + y && h in items && items[h].TimeoutItem?
    ensures PendingOk(x + [h] + y, items)
    ensures RefsIn(x + [h] + y, items) == RefsIn(x + y, items) + (if Counts(items[h]) then 1 else 0)
  {
    InsertFresh(x, y, h, items);
    AllTimeoutsIff(x + y, items);
    AllTimeoutsIff(x + [h] + y, items);
  }

  /** Updating an item in place keeps the pending list whole if it stays a timeout item. */
  lemma UpdateKeepsPending(p: seq<Handle>, items: map<Handle, Item>, h: Handle, it: Item)
    requires PendingOk(p, items) && (h in items && items[h].TimeoutItem? ==> it.TimeoutItem?)
    ensures PendingOk(p, items[h := it])
  {
    AllTimeoutsIff(p, items);
    AllTimeoutsIff(p, items[h := it]);
  }

  /** A pending handle names a known timeout item. */
  lemma PendingIn(p: seq<Handle>, items: map<Handle, Item>, h: Handle)
    requires PendingOk(p, items)
    ensures h in p ==> h in items && items[h].TimeoutItem?
  {
    AllTimeoutsIff(p, items);
  }

  /**
   * A list taken out of the index (a bucket being drained, a deferred rest) is
   * distinct, shares no handle with the pending list and names timeout items.
   */
  ghost predicate Apart(list: seq<Handle>, p: seq<Handle>, items: map<Handle, Item>) {
    Distinct(list) && AllTimeouts(list, items) && Disjoint(list, p)
  }

  /** Taking the middle part out of a pending list leaves two whole, disjoint lists. */
  lemma TakeOut(a: seq<Handle>, m: seq<Handle>, b: seq<Handle>, items: map<Handle, Item>)
    requires PendingOk(a + m + b, items)
    ensures PendingOk(a + b, items) && Apart(m, a + b, items)
  {
    var whole, kept, out := multiset(a + m + b), multiset(a + b), multiset(m);
    assert whole == kept + out;
    DistinctMultiset(a + m + b);
    forall g ensures kept[g] <= 1 && out[g] <= 1 && (out[g] == 0 || kept[g] == 0) {
      assert whole[g] == kept[g] + out[g];
    }
    DistinctMultiset(a + b);
    DistinctMultiset(m);
    forall g | g in m ensures g !in a + b {
      assert out[g] >= 1;
    }
    DisjointIff(m, a + b);
    AllTimeoutsIff(a + m + b, items);
    AllTimeoutsIff(a + b, items);
    AllTimeoutsIff(m, items);
  }

  /** Appending a detached list to the pending list keeps it whole. */
  lemma PutBack(p: seq<Handle>, rest: seq<Handle>, items: map<Handle, Item>)
    requires PendingOk(p, items) && Apart(rest, p, items)
    ensures PendingOk(p + rest, items)
  {
    assert multiset(p + rest) == multiset(p) + multiset(rest);
    DistinctMultiset(p);
    DistinctMultiset(rest);
    DisjointIff(rest, p);
    AllTimeoutsIff(p, items);
    AllTimeoutsIff(rest, items);
    AllTimeoutsIff(p + rest, items);
    forall g ensures multiset(p + rest)[g] <= 1 {
      if g in rest {
        assert g !in p;
      }
    }
    DistinctMultiset(p + rest);
  }

  /** Deferring a detached list appends it to the pending list, which stays whole. */
  lemma DeferKeepsPending(heap: seq<int>, hash: map<int, seq<Handle>>, deferred: seq<seq<Handle>>,
                          rest: seq<Handle>, items: map<Handle, Item>)
    requires PendingOk(AllBuckets(heap, hash) + Flatten(deferred), items)
    requires Apart(rest, AllBuckets(heap, hash) + Flatten(deferred), items)
    ensures AllBuckets(heap, hash) + Flatten(deferred + [rest]) == AllBuckets(heap, hash) + Flatten(deferred) + rest
    ensures PendingOk(AllBuckets(heap, hash) + Flatten(deferred + [rest]), items)
    ensures RefsIn(AllBuckets(heap, hash) + Flatten(deferred + [rest]), items) ==
      RefsIn(AllBuckets(heap, hash) + Flatten(deferred), items) + RefsIn(rest, items)
  {
    var p := AllBuckets(heap, hash) + Flatten(deferred);
    PutBack(p, rest, items);
    FlattenSnoc(deferred, rest);
    assert AllBuckets(heap, hash) + Flatten(deferred + [rest]) == p + rest;
    RefsInConcat(p, rest, items);
  }

  /** Dropping the earliest key from the heap and its slot from the hash keeps the index whole. */
  lemma PopKeepsIndex(heap: seq<int>, hash: map<int, seq<Handle>>)
    requires IndexOk(heap, hash) && heap != []
    ensures IndexOk(heap[1..], hash - {heap[0]})
    ensures forall k :: k in heap[1..] ==> heap[0] < k
    ensures heap[0] !in heap[1..]
  {
    HeadIsMinimum(heap);
    assert forall k :: k in heap <==> k == heap[0] || k in heap[1..];
  }

  /** `timeoutHeap.get()` with its slot reset: the earliest bucket comes off the front of the live buckets. */
  lemma PopBucket(heap: seq<int>, hash: map<int, seq<Handle>>)
    requires heap != [] && heap[0] !in heap[1..]
    ensures AllBuckets(heap, hash) == Bucket(hash, heap[0]) + AllBuckets(heap[1..], hash - {heap[0]})
  {
    assert heap == [heap[0]] + heap[1..];
    AllBucketsCons(heap[0], heap[1..], hash);
    AllBucketsDropKey(heap[1..], hash, heap[0]);
  }

  /** Taking the front part off a pending list leaves it whole, and the part apart from it. */
  lemma TakeFront(m: seq<Handle>, b: seq<Handle>, items: map<Handle, Item>)
    requires PendingOk(m + b, items)
    ensures PendingOk(b, items) && Apart(m, b, items)
    ensures RefsIn(m + b, items) == RefsIn(m, items) + RefsIn(b, items)
  {
    assert m + b == [] + m + b;
    TakeOut([], m, b, items);
    assert [] + b == b;
    RefsInConcat(m, b, items);
  }

  /**
   * Taking the oldest deferred rest off the queue (the `process.nextTick` continuation
   * starts): it leaves the pending list, which stays whole, and is apart from what remains.
   */
  lemma TakeFirstDeferred(heap: seq<int>, hash: map<int, seq<Handle>>, deferred: seq<seq<Handle>>,
                          items: map<Handle, Item>)
    requires deferred != []
    requires PendingOk(AllBuckets(heap, hash) + Flatten(deferred), items)
    ensures PendingOk(AllBuckets(heap, hash) + Flatten(deferred[1..]), items)
    ensures Apart(deferred[0], AllBuckets(heap, hash) + Flatten(deferred[1..]), items)
    ensures RefsIn(AllBuckets(heap, hash) + Flatten(deferred), items) ==
      RefsIn(deferred[0], items) + RefsIn(AllBuckets(heap, hash) + Flatten(deferred[1..]), items)
    ensures SameCounts(AllBuckets(heap, hash) + Flatten(deferred), deferred[0] + (AllBuckets(heap, hash) + Flatten(deferred[1..])))
  {
    var a, m, b := AllBuckets(heap, hash), deferred[0], Flatten(deferred[1..]);
    assert AllBuckets(heap, hash) + Flatten(deferred) == a + m + b;
    TakeOut(a, m, b, items);
    RefsInConcat(a + m, b, items);
    RefsInConcat(a, m, items);
    RefsInConcat(a, b, items);
    forall g
      ensures SameCount(a + m + b, m + (a + b), g)
    {
      OccurrencesConcat(a + m, b, g);
      OccurrencesConcat(a, m, g);
      OccurrencesConcat(m, a + b, g);
      OccurrencesConcat(a, b, g);
    }
  }

  /** The head of a detached list is apart from it, and so is its tail. */
  lemma ShiftApart(list: seq<Handle>, p: seq<Handle>, items: map<Handle, Item>)
    requires Apart(list, p, items) && list != []
    ensures list[0] !in list[1..] && list[0] !in p && list[0] in items && items[list[0]].TimeoutItem?
    ensures Apart(list[1..], p, items)
  {
  }

  /** A pending list that gains `h`, which a detached list no longer holds, stays apart from it. */
  lemma InsertApart(rest: seq<Handle>, x: seq<Handle>, y: seq<Handle>, h: Handle, items: map<Handle, Item>)
    requires Apart(rest, x + y, items) && h !in rest
    ensures Apart(rest, x + [h] + y, items)
    ensures multiset(x + [h] + y) == multiset(x + y) + multiset{h}
  {
    DisjointIff(rest, x + y);
    DisjointIff(rest, x + [h] + y);
  }

  /** Moving expiries keeps a pending list whole and a detached list apart. */
  lemma AgreeKeepsLists(p: seq<Handle>, rest: seq<Handle>, a: map<Handle, Item>, b: map<Handle, Item>)
    requires AgreeExceptWhen(a, b) && PendingOk(p, b) && Apart(rest, p, b)
    ensures PendingOk(p, a) && Apart(rest, p, a)
  {
    AllTimeoutsIff(p, a);
    AllTimeoutsIff(p, b);
    AllTimeoutsIff(rest, a);
    AllTimeoutsIff(rest, b);
  }

  /** Shifting the head of `rest` onto `done` keeps their concatenation. */
  lemma ShiftStep(done: seq<Handle>, rest: seq<Handle>)
    requires rest != []
    ensures rest == [rest[0]] + rest[1..]
    ensures done + rest == (done + [rest[0]]) + rest[1..]
  {
  }

  /** Each key drained by a timeout pass was at most the clock reading taken before it. */
  ghost predicate Expired(keys: seq<int>, clock: nat -> int) {
    forall i :: 0 <= i < |keys| ==> keys[i] <= clock(i)
  }

  lemma ExpiredSnoc(keys: seq<int>, clock: nat -> int, when: int)
    requires Expired(keys, clock) && when <= clock(|keys|)
    ensures Expired(keys + [when], clock)
  {
  }

  /** Moving the queued rest into the part after the insertion point. */
  lemma Regroup(a: seq<Handle>, b: seq<Handle>, c: seq<Handle>, h: Handle)
    ensures a + b + c == a + (b + c)
    ensures a + [h] + b + c == a + [h] + (b + c)
  {
  }

  /**
   * Scheduling at a key with no live bucket: the new bucket `[h]` lands between the
   * buckets of the smaller keys and those of the larger ones.
   */
  lemma ScheduleAtNewKey(heap: seq<int>, hash: map<int, seq<Handle>>, rest: seq<Handle>, when: int, h: Handle)
    returns (x: seq<Handle>, y: seq<Handle>)
    requires Increasing(heap) && when !in heap
    ensures AllBuckets(heap, hash) + rest == x + y
    ensures AllBuckets(Put(heap, when), hash[when := [h]]) + rest == x + [h] + y
    ensures x == AllBuckets(Below(heap, when), hash) && y == AllBuckets(Above(heap, when), hash) + rest
  {
    var before, after := PutSplit(heap, when);
    var x', y' := NewBucket(before, when, after, hash, h);
    assert AllBuckets(Put(heap, when), hash[when := [h]]) == x' + [h] + y';
    x, y := x', y' + rest;
    Regroup(x', y', rest, h);
  }

  /**
   * Scheduling at the key of a live bucket: `h` lands right after that bucket's items.
   */
  lemma ScheduleAtLiveKey(heap: seq<int>, hash: map<int, seq<Handle>>, rest: seq<Handle>, when: int, h: Handle)
    returns (x: seq<Handle>, y: seq<Handle>)
    requires Increasing(heap) && when in heap
    ensures AllBuckets(heap, hash) + rest == x + y
    ensures AllBuckets(heap, hash[when := Bucket(hash, when) + [h]]) + rest == x + [h] + y
    ensures x == AllBuckets(Below(heap, when), hash) && y == AllBuckets(Above(heap, when), hash) + rest
  {
    var before, after := KeySplit(heap, when);
    var x', y' := AppendToBucket(before, when, after, hash, h);
    AllBucketsConcat(before, [when], hash);
    AllBucketsCons(when, [], hash);
    x, y := x', y' + rest;
    Regroup(x', y', rest, h);
  }

  /** A snapshot of the timeout index: the heap and the hash. */
  datatype Index = Index(heap: seq<int>, hash: map<int, seq<Handle>>)

  /** `timeoutHeap.get()` with its slot reset: the head key and its bucket leave the index. */
  function Pop(ix: Index): Index
    requires ix.heap != []
  {
    Index(ix.heap[1..], ix.hash - {ix.heap[0]})
  }

  /**
   * The index after the bucket part of `_scheduleTimeoutItem(h, k)`: `h` is appended to
   * the bucket of `k`, which is created first, with `k` put in the heap, when there is none.
   */
  ghost function Push(ix: Index, k: int, h: Handle): (r: Index)
    requires IndexOk(ix.heap, ix.hash)
    ensures IndexOk(r.heap, r.hash)
  {
    if k in ix.hash then
      LiveKeyKeepsIndex(ix.heap, ix.hash, k, Bucket(ix.hash, k) + [h]);
      Index(ix.heap, ix.hash[k := Bucket(ix.hash, k) + [h]])
    else
      NewKeyKeepsIndex(ix.heap, ix.hash, k, Bucket(ix.hash, k) + [h]);
      Index(Put(ix.heap, k), ix.hash[k := Bucket(ix.hash, k) + [h]])
  }

  /**
   * Where `_scheduleTimeoutItem` puts `h` among the live buckets followed by `rest`:
   * after the buckets of the keys up to `k`, before those of the larger keys.
   */
  lemma PushPending(ix: Index, rest: seq<Handle>, k: int, h: Handle) returns (x: seq<Handle>, y: seq<Handle>)
    requires IndexOk(ix.heap, ix.hash)
    ensures AllBuckets(ix.heap, ix.hash) + rest == x + y
    ensures AllBuckets(Push(ix, k, h).heap, Push(ix, k, h).hash) + rest == x + [h] + y
    ensures x == AllBuckets(Below(ix.heap, k), ix.hash)
  {
    if k in ix.hash {
      x, y := ScheduleAtLiveKey(ix.heap, ix.hash, rest, k, h);
    } else {
      assert Bucket(ix.hash, k) + [h] == [h];
      x, y := ScheduleAtNewKey(ix.heap, ix.hash, rest, k, h);
    }
  }

  /** The handles of `r`, in order, whose items re-arm at expiry `k` from the table `items`. */
  function LandingAt(r: seq<Handle>, items: map<Handle, Item>, k: int): seq<Handle>
  {
    if r == [] then []
    else LandingAt(r[..|r| - 1], items, k) + (if NextWhen(r[|r| - 1], items) == k then [r[|r| - 1]] else [])
  }

  /**
   * The index after the items `r` have re-armed, in order, from the table `items`: each
   * is scheduled again at its advanced expiry `_when + _interval`.
   */
  ghost function Rescheduled(ix: Index, r: seq<Handle>, items: map<Handle, Item>): (res: Index)
    requires IndexOk(ix.heap, ix.hash)
    ensures IndexOk(res.heap, res.hash)
    decreases |r|
  {
    if r == [] then ix
    else Push(Rescheduled(ix, r[..|r| - 1], items), NextWhen(r[|r| - 1], items), r[|r| - 1])
  }

  /** One more re-arm pushes its item after those re-armed before it. */
  lemma RescheduledSnoc(ix: Index, r: seq<Handle>, h: Handle, items: map<Handle, Item>)
    requires IndexOk(ix.heap, ix.hash)
    ensures Rescheduled(ix, r + [h], items) == Push(Rescheduled(ix, r, items), NextWhen(h, items), h)
  {
    assert (r + [h])[..|r|] == r;
  }

  /**
   * What `_scheduleTimeoutItem` does to the index, key by key: the heap gains `k`, the
   * bucket of `k` gains `h` at its end, and every other bucket stays as it was.
   */
  lemma PushSpec(ix: Index, k: int, h: Handle, k': int)
    requires IndexOk(ix.heap, ix.hash)
    ensures k' in Push(ix, k, h).heap <==> k' in ix.heap || k' == k
    ensures Bucket(Push(ix, k, h).hash, k') == Bucket(ix.hash, k') + (if k' == k then [h] else [])
  {
    if k !in ix.hash {
      var before, after := PutSplit(ix.heap, k);
    }
  }

  /**
   * The index after a run of re-arms, key by key: a key is live exactly when it was
   * before or some re-armed item lands on it, and its bucket is the old one followed by
   * the items that land on it, in the order they re-armed.
   */
  lemma {:induction false} RescheduledSpec(ix: Index, r: seq<Handle>, items: map<Handle, Item>, k: int)
    requires IndexOk(ix.heap, ix.hash)
    ensures k in Rescheduled(ix, r, items).heap <==> k in ix.heap || LandingAt(r, items, k) != []
    ensures Bucket(Rescheduled(ix, r, items).hash, k) == Bucket(ix.hash, k) + LandingAt(r, items, k)
    decreases |r|
  {
    if r != [] {
      var r', h := r[..|r| - 1], r[|r| - 1];
      RescheduledSpec(ix, r', items, k);
      PushSpec(Rescheduled(ix, r', items), NextWhen(h, items), h, k);
    }
  }

  /** From `a` to `b`, key `k` stays in the heap if it was there, and its bucket keeps its items at the front. */
  ghost predicate KeyGrown(a: Index, b: Index, k: int) {
    (k in a.heap ==> k in b.heap) && Bucket(a.hash, k) <= Bucket(b.hash, k)
  }

  /**
   * From `a` to `b`, every key outside `drained` stays in the heap, and its bucket
   * keeps its items at the front (new items are only appended).
   */
  ghost predicate GrownOutside(a: Index, b: Index, drained: seq<int>) {
    forall k {:trigger KeyGrown(a, b, k)} :: k !in drained ==> KeyGrown(a, b, k)
  }

  lemma GrownRefl(a: Index)
    ensures GrownOutside(a, a, [])
  {
    forall k
      ensures KeyGrown(a, a, k)
    {
    }
  }

  lemma GrownTrans(a: Index, b: Index, c: Index, d1: seq<int>, d2: seq<int>)
    requires GrownOutside(a, b, d1) && GrownOutside(b, c, d2)
    ensures GrownOutside(a, c, d1 + d2)
  {
    forall k | k !in d1 + d2
      ensures KeyGrown(a, c, k)
    {
      assert KeyGrown(a, b, k) && KeyGrown(b, c, k);
      var x, y, z := Bucket(a.hash, k), Bucket(b.hash, k), Bucket(c.hash, k);
      assert x == y[..|x|] && y == z[..|y|];
      assert x == z[..|x|];
    }
  }

  /** Growing outside `d`, then growing everywhere, is growing outside `d`. */
  lemma GrownKept(a: Index, b: Index, c: Index, d: seq<int>)
    requires GrownOutside(a, b, d) && GrownOutside(b, c, [])
    ensures GrownOutside(a, c, d)
  {
    GrownTrans(a, b, c, d, []);
    assert d + [] == d;
  }

  /** A run of re-arms only grows the index: no key leaves, and buckets are only appended to. */
  lemma RescheduledGrows(ix: Index, r: seq<Handle>, items: map<Handle, Item>)
    requires IndexOk(ix.heap, ix.hash)
    ensures GrownOutside(ix, Rescheduled(ix, r, items), [])
  {
    forall k
      ensures KeyGrown(ix, Rescheduled(ix, r, items), k)
    {
      RescheduledSpec(ix, r, items, k);
    }
  }

  /** Scheduling one item only grows the index. */
  lemma PushGrows(ix: Index, k: int, h: Handle)
    requires IndexOk(ix.heap, ix.hash)
    ensures GrownOutside(ix, Push(ix, k, h), [])
  {
    forall k'
      ensures KeyGrown(ix, Push(ix, k, h), k')
    {
      PushSpec(ix, k, h, k');
    }
  }

  /** Every item of bucket `b` is a known timeout item whose expiry is `k`. */
  ghost predicate AllAt(b: seq<Handle>, items: map<Handle, Item>, k: int) {
    forall g :: g in b ==> g in items && items[g].TimeoutItem? && items[g].when == k
  }

  /**
   * One bucket of a timeout pass, from index `a` and table `t` to index `b` and table
   * `t'`: `key` is the head of the heap of `a` and `list` its bucket, whose items all
   * expire at `key`; the items `done` at the front of `list` ran; those that re-armed
   * advanced once, and the index is `a` without `key`, with them pushed in run order.
   */
  ghost predicate Step(a: Index, b: Index, t: map<Handle, Item>, t': map<Handle, Item>, key: int,
                       list: seq<Handle>, done: seq<Handle>, fails: set<Handle>) {
    IndexOk(a.heap, a.hash) && a.heap != [] && key == a.heap[0] && list == Bucket(a.hash, key) &&
    AllAt(list, t, key) && done <= list && Advanced(t', t, Rearmed(done, t, fails)) &&
    (PopKeepsIndex(a.heap, a.hash); b == Rescheduled(Pop(a), Rearmed(done, t, fails), t))
  }

  /** One bucket of a pass drains its key and only grows the other buckets. */
  lemma StepGrows(a: Index, b: Index, t: map<Handle, Item>, t': map<Handle, Item>, key: int,
                  list: seq<Handle>, done: seq<Handle>, fails: set<Handle>)
    requires Step(a, b, t, t', key, list, done, fails)
    ensures GrownOutside(a, b, [key])
  {
    PopGrows(a.heap, a.hash);
    PopKeepsIndex(a.heap, a.hash);
    RescheduledGrows(Pop(a), Rearmed(done, t, fails), t);
    GrownKept(a, Pop(a), b, [key]);
  }

  /**
   * A timeout pass as a trace: `snaps[i]` and `tables[i]` are the index and the item
   * table before the `i`-th bucket is taken, `keys[i]` its key, `lists[i]` the bucket
   * and `dones[i]` the part of it that ran, which is all of it for every bucket but the last.
   */
  ghost predicate Chain(snaps: seq<Index>, tables: seq<map<Handle, Item>>, keys: seq<int>,
                        lists: seq<seq<Handle>>, dones: seq<seq<Handle>>, fails: set<Handle>) {
    |snaps| == |keys| + 1 && |tables| == |keys| + 1 && |lists| == |keys| && |dones| == |keys| &&
    (forall i :: 0 <= i < |keys| ==>
       Step(snaps[i], snaps[i + 1], tables[i], tables[i + 1], keys[i], lists[i], dones[i], fails)) &&
    (forall i :: 0 <= i < |keys| - 1 ==> dones[i] == lists[i])
  }

  /** The last bucket of a trace is the part that ran followed by `rest`; no bucket, no rest. */
  ghost predicate LastRest(keys: seq<int>, lists: seq<seq<Handle>>, dones: seq<seq<Handle>>, rest: seq<Handle>) {
    |lists| == |keys| && |dones| == |keys| &&
    (if keys == [] then rest == [] else lists[|keys| - 1] == dones[|keys| - 1] + rest)
  }

  lemma ChainSnoc(snaps: seq<Index>, tables: seq<map<Handle, Item>>, keys: seq<int>, lists: seq<seq<Handle>>,
                  dones: seq<seq<Handle>>, fails: set<Handle>,
                  b: Index, t': map<Handle, Item>, key: int, list: seq<Handle>, done: seq<Handle>)
    requires Chain(snaps, tables, keys, lists, dones, fails)
    requires Step(snaps[|keys|], b, tables[|keys|], t', key, list, done, fails)
    requires LastRest(keys, lists, dones, [])
    ensures Chain(snaps + [b], tables + [t'], keys + [key], lists + [list], dones + [done], fails)
  {
    var snaps', tables', keys', lists', dones' := snaps + [b], tables + [t'], keys + [key], lists + [list], dones + [done];
    forall i | 0 <= i < |keys'|
      ensures Step(snaps'[i], snaps'[i + 1], tables'[i], tables'[i + 1], keys'[i], lists'[i], dones'[i], fails)
    {
      if i < |keys| {
        assert snaps'[i] == snaps[i] && snaps'[i + 1] == snaps[i + 1];
        assert tables'[i] == tables[i] && tables'[i + 1] == tables[i + 1];
      }
    }
    forall i | 0 <= i < |keys'| - 1
      ensures dones'[i] == lists'[i]
    {
      if i == |keys| - 1 {
        assert lists[i] == dones[i] + [];
      }
    }
  }

  /**
   * The pending items after running `done` off a detached list: exactly the items that
   * re-arm came back, each re-armed once more.
   */
  lemma RunStep(items0: map<Handle, Item>, items1: map<Handle, Item>, items2: map<Handle, Item>,
                done: seq<Handle>, h: Handle, fails: set<Handle>, p0: seq<Handle>, p1: seq<Handle>, p2: seq<Handle>)
    requires Advanced(items1, items0, Rearmed(done, items0, fails)) && h in items1
    requires SameCounts(p1, p0 + Rearmed(done, items0, fails))
    requires Rearms(h, items1, fails) ==> items2 == items1[h := Advance(items1[h], 1)] && multiset(p2) == multiset(p1) + multiset{h}
    requires !Rearms(h, items1, fails) ==> items2 == items1 && p2 == p1
    ensures Advanced(items2, items0, Rearmed(done + [h], items0, fails))
    ensures SameCounts(p2, p0 + Rearmed(done + [h], items0, fails))
  {
    var r, r' := Rearmed(done, items0, fails), Rearmed(done + [h], items0, fails);
    AdvancedAgree(items1, items0, r);
    RearmedSnoc(done, h, items0, fails);
    assert Rearms(h, items1, fails) == Rearms(h, items0, fails);
    if Rearms(h, items1, fails) {
      AdvancedStep(items1, items0, r, h);
      assert p0 + r' == (p0 + r) + [h];
      forall g
        ensures SameCount(p2, p0 + r', g)
      {
        OccurrencesCount(p2, g);
        OccurrencesCount(p1, g);
        OccurrencesConcat(p0 + r, [h], g);
        assert SameCount(p1, p0 + r, g);
      }
    } else {
      assert r' == r;
    }
  }

  /**
   * An item that is not pending has not re-armed in the run so far: a handle re-armed
   * once is back in the pending list, so its item is as it was when the run started.
   */
  lemma NotYetRearmed(items0: map<Handle, Item>, items1: map<Handle, Item>, r: seq<Handle>, h: Handle,
                      p0: seq<Handle>, p1: seq<Handle>)
    requires Advanced(items1, items0, r) && h in items1
    requires SameCounts(p1, p0 + r) && h !in p1
    ensures h in items0 && items1[h] == items0[h]
  {
    assert SameCount(p1, p0 + r, h);
    OccurrencesCount(p1, h);
    OccurrencesConcat(p0, r, h);
    var it := items0[h];
    assert items1[h] == Advance(it, 0);
    if it.TimeoutItem? {
      assert it.(when := it.when + 0 * it.interval) == it;
    }
  }

  /**
   * The index after running one more item off a detached list: if it re-arms, it is
   * pushed at its advanced expiry after the items re-armed before it; otherwise the
   * index stays. The item is not pending, so it has not re-armed before in this run.
   */
  lemma RescheduleStep(ix0: Index, ix1: Index, ix2: Index, items0: map<Handle, Item>, items1: map<Handle, Item>,
                       done: seq<Handle>, h: Handle, fails: set<Handle>, p0: seq<Handle>, p1: seq<Handle>)
    requires IndexOk(ix0.heap, ix0.hash) && ix1 == Rescheduled(ix0, Rearmed(done, items0, fails), items0)
    requires Advanced(items1, items0, Rearmed(done, items0, fails)) && h in items1
    requires SameCounts(p1, p0 + Rearmed(done, items0, fails)) && h !in p1
    requires Rearms(h, items1, fails) ==> ix2 == Push(ix1, NextWhen(h, items1), h)
    requires !Rearms(h, items1, fails) ==> ix2 == ix1
    ensures ix2 == Rescheduled(ix0, Rearmed(done + [h], items0, fails), items0)
  {
    NotYetRearmed(items0, items1, Rearmed(done, items0, fails), h, p0, p1);
    assert Rearms(h, items1, fails) == Rearms(h, items0, fails) && NextWhen(h, items1) == NextWhen(h, items0);
    RescheduledAppend(ix0, ix1, ix2, items0, done, h, fails);
  }

  /** The re-arms of `done + [h]` are those of `done`, then `h` itself if it re-arms. */
  lemma RescheduledAppend(ix0: Index, ix1: Index, ix2: Index, items0: map<Handle, Item>,
                          done: seq<Handle>, h: Handle, fails: set<Handle>)
    requires IndexOk(ix0.heap, ix0.hash) && ix1 == Rescheduled(ix0, Rearmed(done, items0, fails), items0)
    requires Rearms(h, items0, fails) ==> ix2 == Push(ix1, NextWhen(h, items0), h)
    requires !Rearms(h, items0, fails) ==> ix2 == ix1
    ensures ix2 == Rescheduled(ix0, Rearmed(done + [h], items0, fails), items0)
  {
    var r := Rearmed(done, items0, fails);
    RearmedSnoc(done, h, items0, fails);
    if Rearms(h, items0, fails) {
      RescheduledSnoc(ix0, r, h, items0);
    } else {
      assert r + [] == r;
    }
  }

  /**
   * One more item run off a detached list, on the index, the table and the pending
   * items at once: `RescheduleStep` and `RunStep` together.
   */
  lemma ShiftedStep(ix0: Index, ix1: Index, ix2: Index, items0: map<Handle, Item>, items1: map<Handle, Item>,
                    items2: map<Handle, Item>, done: seq<Handle>, h: Handle, fails: set<Handle>,
                    p0: seq<Handle>, p1: seq<Handle>, p2: seq<Handle>)
    requires IndexOk(ix0.heap, ix0.hash) && ix1 == Rescheduled(ix0, Rearmed(done, items0, fails), items0)
    requires Advanced(items1, items0, Rearmed(done, items0, fails)) && h in items1
    requires SameCounts(p1, p0 + Rearmed(done, items0, fails)) && h !in p1
    requires Rearms(h, items1, fails) ==>
      items2 == items1[h := Advance(items1[h], 1)] && multiset(p2) == multiset(p1) + multiset{h} &&
      ix2 == Push(ix1, NextWhen(h, items1), h)
    requires !Rearms(h, items1, fails) ==> items2 == items1 && p2 == p1 && ix2 == ix1
    ensures ix2 == Rescheduled(ix0, Rearmed(done + [h], items0, fails), items0)
    ensures Advanced(items2, items0, Rearmed(done + [h], items0, fails))
    ensures SameCounts(p2, p0 + Rearmed(done + [h], items0, fails))
  {
    RescheduleStep(ix0, ix1, ix2, items0, items1, done, h, fails, p0, p1);
    RunStep(items0, items1, items2, done, h, fails, p0, p1, p2);
  }

  /**
   * The state of a `_processTasklist` loop, on values: it started with the table
   * `items0`, the index `ix0` and the pending items `p0`, and has reached the table
   * `items`, the index `ix` and the pending items `p`, with the counter `gap` above the
   * live references. `rest` is detached from the pending items; exactly the items of
   * `done` that re-arm are pending again, each re-armed once, and the index is `ix0` with
   * them pushed at their advanced expiries in run order; the counter is `bias` above
   * the live references, the references of `rest` and those of `done`.
   */
  ghost predicate LoopOk(rest: seq<Handle>, done: seq<Handle>, items0: map<Handle, Item>, ix0: Index,
                         p0: seq<Handle>, bias: int, fails: set<Handle>,
                         items: map<Handle, Item>, ix: Index, p: seq<Handle>, gap: int)
  {
    Apart(rest, p, items) && Advanced(items, items0, Rearmed(done, items0, fails)) &&
    IndexOk(ix0.heap, ix0.hash) && ix == Rescheduled(ix0, Rearmed(done, items0, fails), items0) &&
    SameCounts(p, p0 + Rearmed(done, items0, fails)) &&
    gap == bias + RefsIn(rest, items) + RefsIn(done, items0)
  }

  /**
   * One turn of the loop: `h` is shifted off the detached list and run or skipped; if
   * it re-arms, it is pushed back at its advanced expiry, and the counter keeps its
   * distance to the live references. The loop state moves on by `h`.
   */
  lemma LoopStep(rest: seq<Handle>, done: seq<Handle>, items0: map<Handle, Item>, ix0: Index,
                 p0: seq<Handle>, bias: int, fails: set<Handle>, h: Handle,
                 items1: map<Handle, Item>, ix1: Index, p1: seq<Handle>, gap1: int,
                 items2: map<Handle, Item>, ix2: Index, p2: seq<Handle>, gap2: int)
    requires LoopOk([h] + rest, done, items0, ix0, p0, bias, fails, items1, ix1, p1, gap1)
    requires Apart(rest, p2, items2) && gap2 == gap1 && RefsIn(rest, items2) == RefsIn(rest, items1)
    requires Rearms(h, items1, fails) ==>
      items2 == items1[h := Advance(items1[h], 1)] && ix2 == Push(ix1, NextWhen(h, items1), h) &&
      multiset(p2) == multiset(p1) + multiset{h}
    requires !Rearms(h, items1, fails) ==> items2 == items1 && ix2 == ix1 && p2 == p1
    ensures LoopOk(rest, done + [h], items0, ix0, p0, bias, fails, items2, ix2, p2, gap2)
  {
    ShiftApart([h] + rest, p1, items1);
    assert ([h] + rest)[1..] == rest;
    RefsInSnoc(done, h, items0);
    AdvancedAgree(items1, items0, Rearmed(done, items0, fails));
    assert items1[h] == items0[h] || SameExceptWhen(items1[h], items0[h]);
    ShiftedStep(ix0, ix1, ix2, items0, items1, items2, done, h, fails, p0, p1, p2);
  }

  /**
   * What a finished loop leaves: the table differs from the one it started with in
   * expiries only, the index has grown outside no key, and the pending items together
   * with the list left over are those at the start plus the re-armed ones.
   */
  lemma LoopDone(rest: seq<Handle>, done: seq<Handle>, items0: map<Handle, Item>, ix0: Index,
                 p0: seq<Handle>, bias: int, fails: set<Handle>,
                 items: map<Handle, Item>, ix: Index, p: seq<Handle>, gap: int)
    requires LoopOk(rest, done, items0, ix0, p0, bias, fails, items, ix, p, gap)
    ensures Advanced(items, items0, Rearmed(done, items0, fails)) && AgreeExceptWhen(items, items0)
    ensures ix == Rescheduled(ix0, Rearmed(done, items0, fails), items0) && GrownOutside(ix0, ix, [])
    ensures SameCounts(p + rest, p0 + Rearmed(done, items0, fails) + rest)
    ensures Apart(rest, p, items) && gap == bias + RefsIn(rest, items) + RefsIn(done, items0)
  {
    AdvancedAgree(items, items0, Rearmed(done, items0, fails));
    RescheduledGrows(ix0, Rearmed(done, items0, fails), items0);
    SameCountsAppend(p, p0 + Rearmed(done, items0, fails), rest);
  }

  /** `timeoutHeap.get()` with its slot reset drains the head key; every other key keeps its bucket. */
  lemma PopGrows(heap: seq<int>, hash: map<int, seq<Handle>>)
    requires IndexOk(heap, hash) && heap != []
    ensures GrownOutside(Index(heap, hash), Index(heap[1..], hash - {heap[0]}), [heap[0]])
  {
    var a, b := Index(heap, hash), Index(heap[1..], hash - {heap[0]});
    forall k | k !in [heap[0]]
      ensures KeyGrown(a, b, k)
    {
      assert heap == [heap[0]] + heap[1..];
    }
  }

  /**
   * The counts after one bucket: the bucket `done + rest` left the pending items `p0`,
   * leaving `pmid`; then the re-armed items `r` and the deferred `rest` came back.
   * So the pending items plus those run are the old ones plus the re-armed ones.
   */
  lemma BucketCounts(p0: seq<Handle>, pmid: seq<Handle>, p1: seq<Handle>, list: seq<Handle>, done: seq<Handle>,
                     rest: seq<Handle>, r: seq<Handle>)
    requires p0 == list + pmid && list == done + rest && SameCounts(p1, pmid + r + rest)
    ensures SameCounts(p1 + done, p0 + r)
  {
    forall g
      ensures SameCount(p1 + done, p0 + r, g)
    {
      OccurrencesConcat(p1, done, g);
      OccurrencesConcat(p0, r, g);
      OccurrencesConcat(done + rest, pmid, g);
      OccurrencesConcat(done, rest, g);
      OccurrencesConcat(pmid + r, rest, g);
      OccurrencesConcat(pmid, r, g);
      assert SameCount(p1, pmid + r + rest, g);
    }
  }

  /**
   * The counts after a deferred rest has run: the rest `done + rest` left the pending
   * items `p0`, which hold it as often as `list + pmid` does; then the re-armed items
   * `r` and the rest not run came back. So the pending items plus those run are the
   * old ones plus the re-armed ones.
   */
  lemma DeferredCounts(p0: seq<Handle>, pmid: seq<Handle>, p1: seq<Handle>, list: seq<Handle>, done: seq<Handle>,
                       rest: seq<Handle>, r: seq<Handle>)
    requires SameCounts(p0, list + pmid) && list == done + rest && SameCounts(p1, pmid + r + rest)
    ensures SameCounts(p1 + done, p0 + r)
  {
    forall g
      ensures SameCount(p1 + done, p0 + r, g)
    {
      OccurrencesConcat(p1, done, g);
      OccurrencesConcat(p0, r, g);
      OccurrencesConcat(done + rest, pmid, g);
      OccurrencesConcat(done, rest, g);
      OccurrencesConcat(pmid + r, rest, g);
      OccurrencesConcat(pmid, r, g);
      assert SameCount(p0, list + pmid, g);
      assert SameCount(p1, pmid + r + rest, g);
    }
  }

  /**
   * Two buckets of a pass in a row: the items run so far, `ran`, then `done`, re-arm
   * as the run of `ran + done` from the table at the start of the pass does.
   */
  lemma DrainStep(items0: map<Handle, Item>, items1: map<Handle, Item>, items2: map<Handle, Item>,
                  ran: seq<Handle>, done: seq<Handle>, fails: set<Handle>, p0: seq<Handle>, p1: seq<Handle>, p2: seq<Handle>)
    requires Advanced(items1, items0, Rearmed(ran, items0, fails))
    requires SameCounts(p1 + ran, p0 + Rearmed(ran, items0, fails))
    requires Advanced(items2, items1, Rearmed(done, items1, fails))
    requires SameCounts(p2 + done, p1 + Rearmed(done, items1, fails))
    ensures Advanced(items2, items0, Rearmed(ran + done, items0, fails))
    ensures SameCounts(p2 + (ran + done), p0 + Rearmed(ran + done, items0, fails))
  {
    var r1, r2 := Rearmed(ran, items0, fails), Rearmed(done, items0, fails);
    AdvancedAgree(items1, items0, r1);
    RearmedAgree(done, items1, items0, fails);
    RearmedConcat(ran, done, items0, fails);
    AdvancedTrans(items2, items1, items0, r1, r2);
    forall g
      ensures SameCount(p2 + (ran + done), p0 + (r1 + r2), g)
    {
      OccurrencesConcat(p2, ran + done, g);
      OccurrencesConcat(ran, done, g);
      OccurrencesConcat(p0, r1 + r2, g);
      OccurrencesConcat(r1, r2, g);
      OccurrencesConcat(p1, ran, g);
      OccurrencesConcat(p0, r1, g);
      OccurrencesConcat(p2, done, g);
      OccurrencesConcat(p1, r2, g);
      assert SameCount(p1 + ran, p0 + r1, g);
      assert SameCount(p2 + done, p1 + r2, g);
    }
  }

  /**
   * Where a callback error stops a run over `ran`: no item whose callback is present
   * threw, except `err`, which is then the last item run, in `fails`, with its callback.
   */
  ghost predicate StoppedAt(ran: seq<Handle>, items: map<Handle, Item>, fails: set<Handle>, err: Option<Handle>) {
    var ok := (forall g :: g in Runnable(ran, items) && Some(g) != err ==> g !in fails) &&
      (err.Some? ==>
         ran != [] && err.value == ran[|ran| - 1] && err.value in fails &&
         err.value in items && items[err.value].callback != 0);
    ok
  }

  /** A pass that ended on a callback error: the error is the last item run of its last bucket. */
  ghost predicate LastFailed(keys: seq<int>, dones: seq<seq<Handle>>, err: Option<Handle>) {
    err.Some? ==>
      0 < |keys| <= |dones| && dones[|keys| - 1] != [] &&
      err.value == dones[|keys| - 1][|dones[|keys| - 1]| - 1]
  }

  /**
   * A run that stopped at no error, followed by a run from a table that differs only in
   * expiries (callbacks are untouched within a pass): the two together stop where the
   * second did.
   */
  lemma StoppedAtConcat(ran: seq<Handle>, done: seq<Handle>, items0: map<Handle, Item>, items1: map<Handle, Item>,
                        fails: set<Handle>, err: Option<Handle>)
    requires StoppedAt(ran, items0, fails, None) && StoppedAt(done, items1, fails, err)
    requires AgreeExceptWhen(items1, items0)
    ensures StoppedAt(ran + done, items0, fails, err)
  {
    RunnableConcat(ran, done, items0);
    ListsAgreeExceptWhen(done, items1, items0);
    if err.Some? {
      var h := err.value;
      assert items1[h] == items0[h] || SameExceptWhen(items1[h], items0[h]);
      assert (ran + done)[|ran + done| - 1] == done[|done| - 1];
    }
  }

  /**
   * The facts a timeout pass keeps about its trace, from the state `(ix0, items0, p0)`
   * it started in to the state `(ix, items, p)` it has reached: the keys were due at
   * their clock readings; each step took the head bucket and re-armed exactly what it
   * ran; the other buckets only grew; and the handles `ran` so far were re-armed or retired.
   */
  ghost predicate Traced(clock: nat -> int, fails: set<Handle>, ix0: Index, items0: map<Handle, Item>, p0: seq<Handle>,
                         keys: seq<int>, snaps: seq<Index>, tables: seq<map<Handle, Item>>, lists: seq<seq<Handle>>,
                         dones: seq<seq<Handle>>, ran: seq<Handle>, err: Option<Handle>,
                         ix: Index, items: map<Handle, Item>, p: seq<Handle>)
  {
    var ok := Expired(keys, clock) && Chain(snaps, tables, keys, lists, dones, fails) &&
      StoppedAt(ran, items0, fails, err) && LastFailed(keys, dones, err) &&
      snaps[0] == ix0 && snaps[|keys|] == ix && tables[0] == items0 && tables[|keys|] == items &&
      GrownOutside(ix0, ix, keys) && ran == Flatten(dones) &&
      Advanced(items, items0, Rearmed(ran, items0, fails)) &&
      SameCounts(p + ran, p0 + Rearmed(ran, items0, fails));
    ok
  }

  /**
   * A timeout pass's trace extended by one more bucket, drained at a clock reading not
   * before its key: the keys, snapshots, tables, buckets and handles run each grow by one entry.
   */
  lemma TraceStep(clock: nat -> int, fails: set<Handle>, ix0: Index, items0: map<Handle, Item>, p0: seq<Handle>,
                  keys: seq<int>, snaps: seq<Index>, tables: seq<map<Handle, Item>>, lists: seq<seq<Handle>>,
                  dones: seq<seq<Handle>>, ran: seq<Handle>,
                  ix1: Index, items1: map<Handle, Item>, p1: seq<Handle>,
                  ix2: Index, items2: map<Handle, Item>, p2: seq<Handle>,
                  when: int, list: seq<Handle>, done: seq<Handle>, rest: seq<Handle>, err: Option<Handle>)
    returns (keys': seq<int>, snaps': seq<Index>, tables': seq<map<Handle, Item>>, lists': seq<seq<Handle>>,
             dones': seq<seq<Handle>>, ran': seq<Handle>)
    requires Traced(clock, fails, ix0, items0, p0, keys, snaps, tables, lists, dones, ran, None, ix1, items1, p1)
    requires LastRest(keys, lists, dones, [])
    requires when <= clock(|keys|) && Step(ix1, ix2, items1, items2, when, list, done, fails) && list == done + rest
    requires SameCounts(p2 + done, p1 + Rearmed(done, items1, fails))
    requires StoppedAt(done, items1, fails, err)
    ensures keys' == keys + [when] && snaps' == snaps + [ix2] && tables' == tables + [items2]
    ensures lists' == lists + [list] && dones' == dones + [done] && ran' == ran + done
    ensures Traced(clock, fails, ix0, items0, p0, keys', snaps', tables', lists', dones', ran', err, ix2, items2, p2)
    ensures LastRest(keys', lists', dones', rest)
  {
    keys', snaps', tables', lists', dones', ran' :=
      keys + [when], snaps + [ix2], tables + [items2], lists + [list], dones + [done], ran + done;
    DrainStep(items0, items1, items2, ran, done, fails, p0, p1, p2);
    StepGrows(ix1, ix2, items1, items2, when, list, done, fails);
    GrownTrans(ix0, ix1, ix2, keys, [when]);
    ChainSnoc(snaps, tables, keys, lists, dones, fails, ix2, items2, when, list, done);
    ExpiredSnoc(keys, clock, when);
    FlattenSnoc(dones, done);
    AdvancedAgree(items1, items0, Rearmed(ran, items0, fails));
    StoppedAtConcat(ran, done, items0, items1, fails, err);
  }

  /** A pass that has drained nothing yet: its trace is the starting state alone. */
  lemma TraceStart(clock: nat -> int, fails: set<Handle>, ix0: Index, items0: map<Handle, Item>, p0: seq<Handle>)
    requires IndexOk(ix0.heap, ix0.hash)
    ensures Traced(clock, fails, ix0, items0, p0, [], [ix0], [items0], [], [], [], None, ix0, items0, p0)
    ensures LastRest([], [], [], [])
  {
    AdvancedNone(items0);
    GrownRefl(ix0);
    assert p0 + [] == p0;
  }

  /**
   * No timer of a pass fires early: every item of the `i`-th bucket drained expires at
   * that bucket's key, which was at most the clock reading taken before it.
   */
  lemma NeverEarly(clock: nat -> int, fails: set<Handle>, ix0: Index, items0: map<Handle, Item>, p0: seq<Handle>,
                   keys: seq<int>, snaps: seq<Index>, tables: seq<map<Handle, Item>>, lists: seq<seq<Handle>>,
                   dones: seq<seq<Handle>>, ran: seq<Handle>, err: Option<Handle>,
                   ix: Index, items: map<Handle, Item>, p: seq<Handle>, i: nat, g: Handle)
    requires Traced(clock, fails, ix0, items0, p0, keys, snaps, tables, lists, dones, ran, err, ix, items, p)
    requires i < |keys| && g in lists[i]
    ensures g in tables[i] && tables[i][g].TimeoutItem? && tables[i][g].when == keys[i] <= clock(i)
  {
    assert Step(snaps[i], snaps[i + 1], tables[i], tables[i + 1], keys[i], lists[i], dones[i], fails);
  }

  /**
   * One more handle shifted off a list whose runnable prefix has no failing callback:
   * the longer prefix has none either, except `skip`, the one that failed.
   */
  lemma RunnableExtend(list: seq<Handle>, n: nat, items: map<Handle, Item>, fails: set<Handle>, skip: Option<Handle>)
    requires n < |list|
    requires forall g :: g in Runnable(list[..n], items) ==> g !in fails
    requires skip.None? ==> !(list[n] in items && items[list[n]].callback != 0 && list[n] in fails)
    requires skip.Some? ==> skip.value == list[n]
    ensures forall g :: g in Runnable(list[..n + 1], items) && Some(g) != skip ==> g !in fails
  {
    assert list[..n + 1] == list[..n] + [list[n]];
    RefsInSnoc(list[..n], list[n], items);
  }

  class Scheduler {
    /** Every item object created so far, by handle. */
    var items: map<Handle, Item>
    /** The next handle to allocate. */
    var nextHandle: int

    /** `immediateList`, in FIFO order. */
    var immediateList: seq<Handle>
    /** `process._needImmediateCallback`. */
    var needImmediateCallback: bool
    /** `setImmediate.maxTickDepth`. */
    var maxTickDepth: int

    /** `timeoutHeap`: the keys of the live buckets, smallest first. */
    var timeoutHeap: seq<int>
    /** `timeoutHash`: the bucket of each live expiry; a slot reset to 0 is an absent key. */
    var timeoutHash: map<int, seq<Handle>>
    /** `pendingTimeouts`. */
    var pendingTimeouts: int

    /** `timeoutTimer._running`. */
    var running: bool
    /** `timestamp` and `timestampUses`. */
    var timestamp: int
    var timestampUses: nat

    /** Rests of failed tasklists waiting for their `process.nextTick` continuation. */
    var deferred: seq<seq<Handle>>
    /** Catch-up timers started by a backlogged timeout pass (`immediateTimer.start(0, 0)`). */
    var catchUpTimers: nat

    /** The object invariant: the index is consistent and every queued item is known. */
    ghost predicate Valid()
      reads this`items, this`nextHandle, this`immediateList, this`timeoutHeap, this`timeoutHash, this`deferred
    {
      var ok := TimeoutsOk() && ImmediatesOk() && HandlesOk();
      ok
    }

    /**
     * The heap and the hash agree, every live bucket is non-empty and holds only items
     * that expire at its key, and the pending handles are distinct timeout items.
     */
    ghost predicate TimeoutsOk()
      reads this`items, this`timeoutHeap, this`timeoutHash, this`deferred
    {
      IndexOk(timeoutHeap, timeoutHash) && Placed(timeoutHash, items) && PendingOk(Pending(), items)
    }

    /** The immediate list holds immediate items. */
    ghost predicate ImmediatesOk()
      reads this`items, this`immediateList
    {
      forall h :: h in immediateList ==> h in items && items[h].ImmediateItem?
    }

    /** Every handle handed out so far is below `nextHandle`. */
    ghost predicate HandlesOk()
      reads this`items, this`nextHandle
    {
      forall h :: h in items ==> h < nextHandle
    }

    /**
     * The timeout items scheduled and not yet drained: the live buckets in key order,
     * then the deferred rests of failed tasklists.
     */
    function Pending(): seq<Handle>
      reads this`timeoutHeap, this`timeoutHash, this`deferred
    {
      AllBuckets(timeoutHeap, timeoutHash) + Flatten(deferred)
    }

    /** How many pending items are referenced and still have their callback. */
    function LiveRefs(): nat
      reads this`items, this`timeoutHeap, this`timeoutHash, this`deferred
    {
      RefsIn(Pending(), items)
    }

    /** The reference-counting invariant: `pendingTimeouts` counts exactly the live references. */
    predicate Counted()
      reads this
    {
      pendingTimeouts == LiveRefs()
    }

    /** Module initialisation: empty queues, a stopped timer, `timestamp = Date.now()`. */
    constructor (now: int)
      ensures Valid() && Counted()
      ensures items == map[] && immediateList == [] && !needImmediateCallback
      ensures maxTickDepth == DEFAULT_MAX_TICK_DEPTH
      ensures timeoutHeap == [] && timeoutHash == map[] && pendingTimeouts == 0
      ensures !running && timestamp == now && timestampUses == 0
      ensures deferred == [] && catchUpTimers == 0
    {
      items, nextHandle := map[], 0;
      immediateList, needImmediateCallback, maxTickDepth := [], false, DEFAULT_MAX_TICK_DEPTH;
      timeoutHeap, timeoutHash, pendingTimeouts := [], map[], 0;
      running, timestamp, timestampUses := false, now, 0;
      deferred, catchUpTimers := [], 0;
    }

    // -------------------------------------------------------------------------
    // Timestamp cache and host timer

    /** `setTimestamp`: read the clock and restart the use count. */
    method SetTimestamp(now: int) returns (t: int)
      modifies this`timestamp, this`timestampUses
      ensures t == now && timestamp == now && timestampUses == 0
    {
      timestamp, timestampUses := now, 0;
      t := now;
    }

    /**
     * `getTimestamp`: the cached time, unless the timer is stopped or the cached value
     * has been used more than 100 times; every call counts one use.
     */
    method GetTimestamp(now: int) returns (t: int)
      modifies this`timestamp, this`timestampUses
      ensures !old(running) || old(timestampUses) > MAX_TIMESTAMP_USES ==> t == now && timestampUses == 1
      ensures old(running) && old(timestampUses) <= MAX_TIMESTAMP_USES ==>
        t == old(timestamp) && timestampUses == old(timestampUses) + 1
      ensures timestamp == t
    {
      if !running || timestampUses > MAX_TIMESTAMP_USES {
        t := SetTimestamp(now);
      }
      timestampUses := timestampUses + 1;
      t := timestamp;
    }

    /** `startTimeoutTimer`. */
    method StartTimeoutTimer(now: int)
      modifies this`running, this`timestamp, this`timestampUses
      ensures running && timestamp == now && timestampUses == 0
    {
      running := true;
      var _ := SetTimestamp(now);
    }

    /**
     * A fresh item object: `it` is stored under the next handle, which no queue holds
     * yet, so the pending items and their count of live references stay as they were.
     */
    method NewHandle(it: Item) returns (h: Handle)
      requires Valid()
      modifies this`items, this`nextHandle
      ensures Valid()
      ensures h == old(nextHandle) && h !in old(items) && nextHandle == h + 1
      ensures items == old(items)[h := it]
      ensures h !in Pending() && h !in immediateList
      ensures LiveRefs() == old(LiveRefs())
    {
      h := nextHandle;
      PendingIn(Pending(), items, h);
      RefsInUpdate(Pending(), items, h, it);
      UpdateKeepsPending(Pending(), items, h, it);
      PlacedUpdate(timeoutHash, items, h, it);
      items := items[h := it];
      nextHandle := nextHandle + 1;
    }

    // -------------------------------------------------------------------------
    // Immediates

    /** `setImmediate`: append a new item and raise the "drain needed" flag. */
    method SetImmediate(fn: Callback) returns (h: Handle)
      requires Valid()
      modifies this`items, this`nextHandle, this`immediateList, this`needImmediateCallback
      ensures Valid()
      ensures h == old(nextHandle) && h !in old(items) && nextHandle == h + 1
      ensures items == old(items)[h := ImmediateItem(fn)]
      ensures immediateList == old(immediateList) + [h]
      ensures needImmediateCallback
      ensures Pending() == old(Pending()) && LiveRefs() == old(LiveRefs())
    {
      h := NewHandle(ImmediateItem(fn));
      assert TimeoutsOk() && HandlesOk();
      immediateList := immediateList + [h];
      assert ImmediatesOk();
      if !needImmediateCallback {
        needImmediateCallback := true;
      }
    }

    /**
     * `clearImmediate`: blank the callback of a known item that still has one. Applied
     * to a pending referenced timeout, it leaves the counter one too high.
     */
    method ClearImmediate(h: Handle)
      requires Valid()
      modifies this`items
      ensures Valid()
      ensures h in old(items) && old(items)[h].callback != 0 ==>
        items == old(items)[h := old(items)[h].(callback := 0)]
      ensures !(h in old(items) && old(items)[h].callback != 0) ==> items == old(items)
      ensures LiveRefs() == old(LiveRefs()) - (if h in old(items) && h in Pending() && Counts(old(items)[h]) then 1 else 0)
    {
      if h in items && items[h].callback != 0 {
        RefsInUpdate(Pending(), items, h, items[h].(callback := 0));
        UpdateKeepsPending(Pending(), items, h, items[h].(callback := 0));
        PlacedUpdate(timeoutHash, items, h, items[h].(callback := 0));
        items := items[h := items[h].(callback := 0)];
      }
    }

    // -------------------------------------------------------------------------
    // Timeouts and intervals

    /**
     * `_createTimeoutItem`: the item expires at the timestamp `getTimestamp` gives plus
     * the clamped delay; that call counts one use of the cached timestamp.
     */
    method CreateTimeoutItem(fn: Callback, ms: int, now: int) returns (it: Item)
      modifies this`timestamp, this`timestampUses
      ensures it == NewTimeoutItem(fn, ms, timestamp)
      ensures old(running) && old(timestampUses) <= MAX_TIMESTAMP_USES ==>
        timestamp == old(timestamp) && timestampUses == old(timestampUses) + 1
      ensures !(old(running) && old(timestampUses) <= MAX_TIMESTAMP_USES) ==> timestamp == now && timestampUses == 1
    {
      var ts := GetTimestamp(now);
      it := NewTimeoutItem(fn, ms, ts);
    }

    /**
     * The index half of `_scheduleTimeoutItem`: append the item to the bucket of `when`,
     * creating the bucket and putting its key in the heap when there is none. Every
     * caller passes the item's own `_when`. `x` and `y` are the pending items before and
     * after the place where the item lands.
     */
    method InsertTimeoutItem(h: Handle, when: int) returns (ghost x: seq<Handle>, ghost y: seq<Handle>)
      requires Valid()
      requires h in items && items[h].TimeoutItem? && items[h].when == when && h !in Pending()
      modifies this`timeoutHash, this`timeoutHeap
      ensures Valid()
      ensures Index(timeoutHeap, timeoutHash) == Push(Index(old(timeoutHeap), old(timeoutHash)), when, h)
      ensures old(Pending()) == x + y && Pending() == x + [h] + y
      ensures x == AllBuckets(Below(old(timeoutHeap), when), old(timeoutHash))
      ensures LiveRefs() == old(LiveRefs()) + (if Counts(items[h]) then 1 else 0)
    {
      x, y := PushPending(Index(timeoutHeap, timeoutHash), Flatten(deferred), when, h);
      InsertKeepsPending(x, y, h, items);
      PlacedPush(timeoutHash, items, when, h);
      if when !in timeoutHash {
        assert Bucket(timeoutHash, when) + [h] == [h];
        timeoutHeap, timeoutHash := Put(timeoutHeap, when), timeoutHash[when := [h]];
      } else {
        timeoutHash := timeoutHash[when := Bucket(timeoutHash, when) + [h]];
      }
    }

    /**
     * `_scheduleTimeoutItem`: insert the item in the index, count the item if it is
     * referenced, and start the timer if it is stopped, which takes the reading `now`.
     */
    method ScheduleTimeoutItem(h: Handle, when: int, now: int) returns (ghost x: seq<Handle>, ghost y: seq<Handle>)
      requires Valid()
      requires h in items && items[h].TimeoutItem? && items[h].when == when && h !in Pending()
      modifies this`timeoutHash, this`timeoutHeap, this`pendingTimeouts,
        this`running, this`timestamp, this`timestampUses
      ensures Valid()
      ensures Index(timeoutHeap, timeoutHash) == Push(Index(old(timeoutHeap), old(timeoutHash)), when, h)
      ensures old(Pending()) == x + y && Pending() == x + [h] + y
      ensures x == AllBuckets(Below(old(timeoutHeap), when), old(timeoutHash))
      ensures LiveRefs() == old(LiveRefs()) + (if Counts(items[h]) then 1 else 0)
      ensures pendingTimeouts == old(pendingTimeouts) + (if items[h].isref then 1 else 0)
      ensures running
      ensures old(running) ==> timestamp == old(timestamp) && timestampUses == old(timestampUses)
      ensures !old(running) ==> timestamp == now && timestampUses == 0
    {
      x, y := InsertTimeoutItem(h, when);
      CountScheduled(items[h].isref, now);
    }

    /** The tail of `_scheduleTimeoutItem`: count a referenced item, start a stopped timer. */
    method CountScheduled(isref: bool, now: int)
      modifies this`pendingTimeouts, this`running, this`timestamp, this`timestampUses
      ensures pendingTimeouts == old(pendingTimeouts) + (if isref then 1 else 0)
      ensures running
      ensures old(running) ==> timestamp == old(timestamp) && timestampUses == old(timestampUses)
      ensures !old(running) ==> timestamp == now && timestampUses == 0
    {
      if isref {
        pendingTimeouts := pendingTimeouts + 1;
      }
      if !running {
        StartTimeoutTimer(now);
      }
    }

    /**
     * The part `setTimeout` and `setInterval` share: give a created item a fresh
     * handle and schedule it at its own expiry; a stopped timer starts with the reading
     * `later`. A referenced item is counted even when it has no callback, which leaves
     * the counter one above the live references.
     */
    method AddTimeoutItem(it: Item, later: int) returns (h: Handle, ghost x: seq<Handle>, ghost y: seq<Handle>)
      requires Valid()
      requires it.TimeoutItem?
      modifies this`items, this`nextHandle, this`timeoutHash, this`timeoutHeap,
        this`pendingTimeouts, this`running, this`timestamp, this`timestampUses
      ensures Valid()
      ensures h == old(nextHandle) && h !in old(items) && nextHandle == h + 1
      ensures items == old(items)[h := it]
      ensures running
      ensures old(running) ==> timestamp == old(timestamp) && timestampUses == old(timestampUses)
      ensures !old(running) ==> timestamp == later && timestampUses == 0
      ensures Index(timeoutHeap, timeoutHash) == Push(Index(old(timeoutHeap), old(timeoutHash)), it.when, h)
      ensures old(Pending()) == x + y && Pending() == x + [h] + y
      ensures x == AllBuckets(Below(old(timeoutHeap), it.when), old(timeoutHash))
      ensures pendingTimeouts == old(pendingTimeouts) + (if it.isref then 1 else 0)
      ensures pendingTimeouts - LiveRefs() ==
        old(pendingTimeouts - LiveRefs()) + (if it.isref && it.callback == 0 then 1 else 0)
    {
      h := NewHandle(it);
      assert items[h] == it;
      x, y := ScheduleTimeoutItem(h, it.when, later);
    }

    /**
     * `setTimeout`: create a referenced one-shot item and schedule it at its expiry.
     * `now` is the reading `getTimestamp` takes when its cache is stale, `later` the one
     * `startTimeoutTimer` takes when the timer is stopped. A missing callback (`fn == 0`,
     * as for `setTimeout(null, ms)`) is counted all the same, but no drain ever runs or
     * uncounts it.
     */
    method SetTimeout(fn: Callback, ms: int, now: int, later: int)
      returns (h: Handle, ghost x: seq<Handle>, ghost y: seq<Handle>)
      requires Valid()
      modifies this`items, this`nextHandle, this`timeoutHash, this`timeoutHeap,
        this`pendingTimeouts, this`running, this`timestamp, this`timestampUses
      ensures Valid()
      ensures h == old(nextHandle) && h !in old(items) && nextHandle == h + 1
      ensures items == old(items)[h := NewTimeoutItem(fn, ms,
        if old(running) && old(timestampUses) <= MAX_TIMESTAMP_USES then old(timestamp) else now)]
      ensures running
      ensures old(running) && old(timestampUses) <= MAX_TIMESTAMP_USES ==>
        timestamp == old(timestamp) && timestampUses == old(timestampUses) + 1
      ensures old(running) && old(timestampUses) > MAX_TIMESTAMP_USES ==> timestamp == now && timestampUses == 1
      ensures !old(running) ==> timestamp == later && timestampUses == 0
      ensures Index(timeoutHeap, timeoutHash) == Push(Index(old(timeoutHeap), old(timeoutHash)), items[h].when, h)
      ensures old(Pending()) == x + y && Pending() == x + [h] + y
      ensures x == AllBuckets(Below(old(timeoutHeap), items[h].when), old(timeoutHash))
      ensures pendingTimeouts == old(pendingTimeouts) + 1
      ensures pendingTimeouts - LiveRefs() == old(pendingTimeouts - LiveRefs()) + (if fn == 0 then 1 else 0)
      ensures old(Counted()) && fn != 0 ==> Counted()
    {
      var it := CreateTimeoutItem(fn, ms, now);
      h, x, y := AddTimeoutItem(it, later);
    }

    /**
     * `setTimeout` as evidently intended: an item without a callback is never run, so
     * it is created unreferenced and not counted; the reference-counting invariant
     * survives every call.
     */
    method SetTimeoutChecked(fn: Callback, ms: int, now: int, later: int)
      returns (h: Handle, ghost x: seq<Handle>, ghost y: seq<Handle>)
      requires Valid()
      modifies this`items, this`nextHandle, this`timeoutHash, this`timeoutHeap,
        this`pendingTimeouts, this`running, this`timestamp, this`timestampUses
      ensures Valid()
      ensures h == old(nextHandle) && h !in old(items) && nextHandle == h + 1
      ensures var it := NewTimeoutItem(fn, ms,
        if old(running) && old(timestampUses) <= MAX_TIMESTAMP_USES then old(timestamp) else now);
        items == old(items)[h := it.(isref := fn != 0)]
      ensures running
      ensures old(running) && old(timestampUses) <= MAX_TIMESTAMP_USES ==>
        timestamp == old(timestamp) && timestampUses == old(timestampUses) + 1
      ensures old(running) && old(timestampUses) > MAX_TIMESTAMP_USES ==> timestamp == now && timestampUses == 1
      ensures !old(running) ==> timestamp == later && timestampUses == 0
      ensures Index(timeoutHeap, timeoutHash) == Push(Index(old(timeoutHeap), old(timeoutHash)), items[h].when, h)
      ensures old(Pending()) == x + y && Pending() == x + [h] + y
      ensures x == AllBuckets(Below(old(timeoutHeap), items[h].when), old(timeoutHash))
      ensures pendingTimeouts == old(pendingTimeouts) + (if fn != 0 then 1 else 0)
      ensures old(Counted()) ==> Counted()
    {
      var it := CreateTimeoutItem(fn, ms, now);
      it := it.(isref := fn != 0);
      h, x, y := AddTimeoutItem(it, later);
    }

    /**
     * `setInterval`: like `setTimeout`, with `_interval` set to the raw `ms`; the item's
     * callback is wrapped so that it re-arms after it returns (see `InvokeTimeoutCallback`).
     */
    method SetInterval(fn: TaskId, ms: int, now: int, later: int)
      returns (h: Handle, ghost x: seq<Handle>, ghost y: seq<Handle>)
      requires Valid()
      modifies this`items, this`nextHandle, this`timeoutHash, this`timeoutHeap,
        this`pendingTimeouts, this`running, this`timestamp, this`timestampUses
      ensures Valid()
      ensures h == old(nextHandle) && h !in old(items) && nextHandle == h + 1
      ensures items == old(items)[h := NewIntervalItem(fn, ms,
        if old(running) && old(timestampUses) <= MAX_TIMESTAMP_USES then old(timestamp) else now)]
      ensures running
      ensures old(running) && old(timestampUses) <= MAX_TIMESTAMP_USES ==>
        timestamp == old(timestamp) && timestampUses == old(timestampUses) + 1
      ensures old(running) && old(timestampUses) > MAX_TIMESTAMP_USES ==> timestamp == now && timestampUses == 1
      ensures !old(running) ==> timestamp == later && timestampUses == 0
      ensures Index(timeoutHeap, timeoutHash) == Push(Index(old(timeoutHeap), old(timeoutHash)), items[h].when, h)
      ensures old(Pending()) == x + y && Pending() == x + [h] + y
      ensures x == AllBuckets(Below(old(timeoutHeap), items[h].when), old(timeoutHash))
      ensures pendingTimeouts == old(pendingTimeouts) + 1
      ensures old(Counted()) ==> Counted()
    {
      var it := CreateTimeoutItem(fn, ms, now);
      it := it.(interval := ms);
      h, x, y := AddTimeoutItem(it, later);
    }

    /**
     * `refItem`: mark a timeout item referenced and count it, unless it already is or
     * its callback is cleared. The counter moves whether or not the item is still pending.
     */
    method RefItem(h: Handle)
      requires Valid()
      requires h in items && items[h].TimeoutItem?
      modifies this`items, this`pendingTimeouts
      ensures Valid()
      ensures h in items && items[h].TimeoutItem? && items[h].isref == (old(items)[h].isref || old(items)[h].callback != 0)
      ensures items == old(items)[h := old(items)[h].(isref := items[h].isref)]
      ensures pendingTimeouts == old(pendingTimeouts) + (if items[h].isref != old(items)[h].isref then 1 else 0)
      ensures h in Pending() && old(Counted()) ==> Counted()
      ensures h !in Pending() ==> LiveRefs() == old(LiveRefs())
    {
      if !items[h].isref && items[h].callback != 0 {
        RefsInUpdate(Pending(), items, h, items[h].(isref := true));
        UpdateKeepsPending(Pending(), items, h, items[h].(isref := true));
        PlacedUpdate(timeoutHash, items, h, items[h].(isref := true));
        items := items[h := items[h].(isref := true)];
        pendingTimeouts := pendingTimeouts + 1;
      }
    }

    /**
     * `unrefItem`: mark a timeout item unreferenced and uncount it, unless it already is
     * or its callback is cleared. The counter moves whether or not the item is still pending.
     */
    method UnrefItem(h: Handle)
      requires Valid()
      requires h in items && items[h].TimeoutItem?
      modifies this`items, this`pendingTimeouts
      ensures Valid()
      ensures h in items && items[h].TimeoutItem? && items[h].isref == (old(items)[h].isref && old(items)[h].callback == 0)
      ensures items == old(items)[h := old(items)[h].(isref := items[h].isref)]
      ensures pendingTimeouts == old(pendingTimeouts) - (if items[h].isref != old(items)[h].isref then 1 else 0)
      ensures h in Pending() && old(Counted()) ==> Counted()
      ensures h !in Pending() ==> LiveRefs() == old(LiveRefs())
    {
      if items[h].isref && items[h].callback != 0 {
        RefsInUpdate(Pending(), items, h, items[h].(isref := false));
        UpdateKeepsPending(Pending(), items, h, items[h].(isref := false));
        PlacedUpdate(timeoutHash, items, h, items[h].(isref := false));
        items := items[h := items[h].(isref := false)];
        pendingTimeouts := pendingTimeouts - 1;
      }
    }

    /**
     * `refItem` as evidently intended: a no-op once the item has been drained, so the
     * reference-counting invariant survives every call.
     */
    method RefItemChecked(h: Handle)
      requires Valid()
      requires h in items && items[h].TimeoutItem?
      modifies this`items, this`pendingTimeouts
      ensures Valid()
      ensures h in old(Pending()) ==>
        items == old(items)[h := old(items)[h].(isref := old(items)[h].isref || old(items)[h].callback != 0)]
      ensures h !in old(Pending()) ==> items == old(items) && pendingTimeouts == old(pendingTimeouts)
      ensures old(Counted()) ==> Counted()
    {
      if h in Pending() {
        RefItem(h);
      }
    }

    /**
     * `unrefItem` as evidently intended: a no-op once the item has been drained, so the
     * reference-counting invariant survives every call.
     */
    method UnrefItemChecked(h: Handle)
      requires Valid()
      requires h in items && items[h].TimeoutItem?
      modifies this`items, this`pendingTimeouts
      ensures Valid()
      ensures h in old(Pending()) ==>
        items == old(items)[h := old(items)[h].(isref := old(items)[h].isref && old(items)[h].callback == 0)]
      ensures h !in old(Pending()) ==> items == old(items) && pendingTimeouts == old(pendingTimeouts)
      ensures old(Counted()) ==> Counted()
    {
      if h in Pending() {
        UnrefItem(h);
      }
    }

    /**
     * `clearTimeout` (and `clearInterval`): for a known item that still has its callback,
     * unref it, then blank the callback. An immediate item has no `unref`, so the call
     * throws a `TypeError` before anything changes. Applied to a timeout item that has
     * already been drained, it still uncounts the item: the counter drops below the live
     * references.
     */
    method ClearTimeout(h: Handle) returns (typeError: bool)
      requires Valid()
      modifies this`items, this`pendingTimeouts
      ensures Valid()
      ensures typeError <==> h in old(items) && old(items)[h].callback != 0 && old(items)[h].ImmediateItem?
      ensures h in old(items) && old(items)[h].callback != 0 && old(items)[h].TimeoutItem? ==>
        items == old(items)[h := old(items)[h].(callback := 0, isref := false)]
      ensures !(h in old(items) && old(items)[h].callback != 0 && old(items)[h].TimeoutItem?) ==> items == old(items)
      ensures pendingTimeouts == old(pendingTimeouts) - (if h in old(items) && Counts(old(items)[h]) then 1 else 0)
      ensures h in Pending() && old(Counted()) ==> Counted()
      ensures h !in Pending() ==> LiveRefs() == old(LiveRefs())
    {
      typeError := false;
      if h in items && items[h].callback != 0 {
        if items[h].ImmediateItem? {
          typeError := true;
          return;
        }
        UnrefItem(h);
        RefsInUpdate(Pending(), items, h, items[h].(callback := 0));
        UpdateKeepsPending(Pending(), items, h, items[h].(callback := 0));
        PlacedUpdate(timeoutHash, items, h, items[h].(callback := 0));
        items := items[h := items[h].(callback := 0)];
      }
    }

    /** `clearInterval`: the same as `clearTimeout`. */
    method ClearInterval(h: Handle) returns (typeError: bool)
      requires Valid()
      modifies this`items, this`pendingTimeouts
      ensures Valid()
      ensures typeError <==> h in old(items) && old(items)[h].callback != 0 && old(items)[h].ImmediateItem?
      ensures h in old(items) && old(items)[h].callback != 0 && old(items)[h].TimeoutItem? ==>
        items == old(items)[h := old(items)[h].(callback := 0, isref := false)]
      ensures !(h in old(items) && old(items)[h].callback != 0 && old(items)[h].TimeoutItem?) ==> items == old(items)
      ensures pendingTimeouts == old(pendingTimeouts) - (if h in old(items) && Counts(old(items)[h]) then 1 else 0)
      ensures h in Pending() && old(Counted()) ==> Counted()
    {
      typeError := ClearTimeout(h);
    }

    /**
     * `clearTimeout` as evidently intended: a no-op once the item has been drained, so
     * the reference-counting invariant survives every call.
     */
    method ClearTimeoutChecked(h: Handle) returns (typeError: bool)
      requires Valid()
      modifies this`items, this`pendingTimeouts
      ensures Valid()
      ensures typeError <==> h in old(items) && old(items)[h].callback != 0 && old(items)[h].ImmediateItem?
      ensures h in old(Pending()) && h in old(items) && old(items)[h].callback != 0 ==>
        old(items)[h].TimeoutItem? && items == old(items)[h := old(items)[h].(callback := 0, isref := false)]
      ensures !(h in old(Pending()) && h in old(items) && old(items)[h].callback != 0) ==>
        items == old(items) && pendingTimeouts == old(pendingTimeouts)
      ensures old(Counted()) ==> Counted()
    {
      typeError := false;
      PendingIn(Pending(), items, h);
      if h in Pending() && h in items && items[h].callback != 0 {
        typeError := ClearTimeout(h);
      } else if h in items && items[h].callback != 0 && items[h].ImmediateItem? {
        typeError := true;
      }
    }

    // -------------------------------------------------------------------------
    // Draining

    /** `item._when += item._interval`: only the item's expiry moves, which no count reads. */
    method AdvanceItem(h: Handle, ghost rest: seq<Handle>)
      requires Valid() && Apart(rest, Pending(), items)
      requires h in items && items[h].TimeoutItem? && h !in Pending()
      modifies this`items
      ensures Valid() && Apart(rest, Pending(), items)
      ensures items == old(items)[h := Advance(old(items)[h], 1)]
      ensures AgreeExceptWhen(items, old(items))
      ensures LiveRefs() == old(LiveRefs()) && RefsIn(rest, items) == RefsIn(rest, old(items))
    {
      var it := items[h].(when := items[h].when + items[h].interval);
      ListsIgnoreWhen(Pending(), items, h, it);
      ListsIgnoreWhen(rest, items, h, it);
      AgreeKeepsLists(Pending(), rest, items[h := it], items);
      assert h !in AllBuckets(timeoutHeap, timeoutHash);
      PlacedOutside(timeoutHeap, timeoutHash, items, h, it);
      items := items[h := it];
    }

    /**
     * The clock cache across a stretch that may re-arm items: a running timer stays
     * running; the cache is as it was, unless the timer was stopped and a re-arm started
     * it, which took the reading `now`.
     */
    ghost predicate CacheKept(wasRunning: bool, ts: int, uses: int, now: int)
      reads this`running, this`timestamp, this`timestampUses
    {
      (wasRunning ==> running) &&
      ((timestamp == ts && timestampUses == uses) || (!wasRunning && running && timestamp == now && timestampUses == 0))
    }

    /**
     * The tail of the `recurringCallback` wrapper of `setInterval`: advance `_when` by
     * `_interval` and schedule the same item again, in the bucket of its new expiry.
     * `x` and `y` are the pending items around the place where it lands.
     */
    method RearmInterval(h: Handle, ghost rest: seq<Handle>, now: int) returns (ghost x: seq<Handle>, ghost y: seq<Handle>)
      requires Valid() && Apart(rest, Pending(), items)
      requires h in items && items[h].TimeoutItem? && items[h].callback != 0 && h !in Pending() && h !in rest
      modifies this`items, this`timeoutHash, this`timeoutHeap, this`pendingTimeouts,
        this`running, this`timestamp, this`timestampUses
      ensures Valid()
      ensures items == old(items)[h := Advance(old(items)[h], 1)] && items[h].when == NextWhen(h, old(items))
      ensures Index(timeoutHeap, timeoutHash) == Push(Index(old(timeoutHeap), old(timeoutHash)), items[h].when, h)
      ensures old(Pending()) == x + y && Pending() == x + [h] + y
      ensures multiset(Pending()) == multiset(old(Pending())) + multiset{h}
      ensures running
      ensures old(running) ==> timestamp == old(timestamp) && timestampUses == old(timestampUses)
      ensures !old(running) ==> timestamp == now && timestampUses == 0
      ensures AgreeExceptWhen(items, old(items))
      ensures pendingTimeouts - LiveRefs() == old(pendingTimeouts - LiveRefs())
      ensures Apart(rest, Pending(), items) && RefsIn(rest, items) == RefsIn(rest, old(items))
    {
      AdvanceItem(h, rest);
      x, y := ScheduleTimeoutItem(h, items[h].when, now);
      InsertApart(rest, x, y, h, items);
    }

    /**
     * Running the callback of a timeout item that has been shifted off its list: it
     * throws (a truthy value) exactly when the item is in `fails`. An interval item whose
     * callback returns re-arms (the `recurringCallback` wrapper of `setInterval`) at
     * `_when + _interval`; nothing else changes.
     */
    method InvokeTimeoutCallback(h: Handle, ghost rest: seq<Handle>, fails: set<Handle>, now: int)
      returns (threw: bool)
      requires Valid() && Apart(rest, Pending(), items)
      requires h in items && items[h].TimeoutItem? && items[h].callback != 0 && h !in Pending() && h !in rest
      modifies this`items, this`timeoutHash, this`timeoutHeap, this`pendingTimeouts,
        this`running, this`timestamp, this`timestampUses
      ensures Valid()
      ensures threw <==> h in fails
      ensures !Rearms(h, old(items), fails) ==>
        items == old(items) && timeoutHeap == old(timeoutHeap) && timeoutHash == old(timeoutHash) &&
        pendingTimeouts == old(pendingTimeouts) && running == old(running) &&
        timestamp == old(timestamp) && timestampUses == old(timestampUses)
      ensures Rearms(h, old(items), fails) ==>
        items == old(items)[h := Advance(old(items)[h], 1)] &&
        Index(timeoutHeap, timeoutHash) == Push(Index(old(timeoutHeap), old(timeoutHash)), NextWhen(h, old(items)), h) &&
        multiset(Pending()) == multiset(old(Pending())) + multiset{h} && running &&
        (old(running) ==> timestamp == old(timestamp) && timestampUses == old(timestampUses)) &&
        (!old(running) ==> timestamp == now && timestampUses == 0)
      ensures GrownOutside(Index(old(timeoutHeap), old(timeoutHash)), Index(timeoutHeap, timeoutHash), [])
      ensures CacheKept(old(running), old(timestamp), old(timestampUses), now)
      ensures AgreeExceptWhen(items, old(items))
      ensures pendingTimeouts - LiveRefs() == old(pendingTimeouts - LiveRefs())
      ensures Apart(rest, Pending(), items) && RefsIn(rest, items) == RefsIn(rest, old(items))
    {
      threw := h in fails;
      if !threw && items[h].interval != 0 {
        PushGrows(Index(timeoutHeap, timeoutHash), NextWhen(h, items), h);
        ghost var x, y := RearmInterval(h, rest, now);
      } else {
        GrownRefl(Index(timeoutHeap, timeoutHash));
      }
    }

    /**
     * The error exit of `_processTasklist`: uncount the references already run, and
     * queue the rest of the list for a later tick (`process.nextTick`).
     */
    method DeferRest(rest: seq<Handle>, drop: int)
      requires Valid() && Apart(rest, Pending(), items)
      modifies this`pendingTimeouts, this`deferred
      ensures Valid()
      ensures deferred == old(deferred) + [rest] && Pending() == old(Pending()) + rest
      ensures pendingTimeouts == old(pendingTimeouts) - drop
      ensures LiveRefs() == old(LiveRefs()) + RefsIn(rest, items)
    {
      DeferKeepsPending(timeoutHeap, timeoutHash, deferred, rest, items);
      pendingTimeouts := pendingTimeouts - drop;
      deferred := deferred + [rest];
    }

    /**
     * The state of a `_processTasklist` loop that started with the table `items0`, the
     * index `ix0` and the pending items `p0`: `rest` is detached from the pending items;
     * exactly the items of `done` that re-arm are pending again, each re-armed once, and
     * the index is `ix0` with them pushed at their advanced expiries in run order; and
     * the counter is `bias` above the live references, the references of `rest` and
     * those of `done`.
     */
    ghost predicate TasksOk(rest: seq<Handle>, done: seq<Handle>, items0: map<Handle, Item>, ix0: Index,
                            p0: seq<Handle>, bias: int, fails: set<Handle>)
      reads this
    {
      Valid() &&
      LoopOk(rest, done, items0, ix0, p0, bias, fails, items, Index(timeoutHeap, timeoutHash), Pending(),
             pendingTimeouts - LiveRefs())
    }

    /**
     * One turn of the `_processTasklist` loop once `h` has been shifted off the list:
     * skip an item whose callback is cleared, leaving everything as it was, else run
     * it. The counter minus the live and detached references moves by the item's own
     * reference, which the caller either adds to `refCount` or uncounts.
     */
    method RunShifted(h: Handle, ghost rest: seq<Handle>, ghost done: seq<Handle>, ghost items0: map<Handle, Item>,
                      ghost ix0: Index, ghost p0: seq<Handle>,
                      ghost bias: int, fails: set<Handle>, now: int, refCount: nat)
      returns (threw: bool, refCount': nat)
      requires TasksOk([h] + rest, done, items0, ix0, p0, bias, fails)
      requires refCount == RefsIn(done, items0)
      requires forall g :: g in Runnable(done, items0) ==> g !in fails
      modifies this`items, this`timeoutHash, this`timeoutHeap, this`pendingTimeouts,
        this`running, this`timestamp, this`timestampUses
      ensures TasksOk(rest, done + [h], items0, ix0, p0, bias, fails)
      ensures CacheKept(old(running), old(timestamp), old(timestampUses), now)
      ensures h in old(items) && (old(items)[h].callback == 0 ==>
        !threw && refCount' == refCount && items == old(items) &&
        timeoutHeap == old(timeoutHeap) && timeoutHash == old(timeoutHash))
      ensures threw ==>
        h in fails && h in items0 && items0[h].TimeoutItem? && items0[h].callback != 0
      ensures refCount' + (if threw && items0[h].isref then 1 else 0) == RefsIn(done + [h], items0)
      ensures forall g :: g in Runnable(done + [h], items0) && !(threw && g == h) ==> g !in fails
    {
      ShiftApart([h] + rest, Pending(), items);
      if items[h].callback != 0 {
        threw, refCount' := RunLive(h, rest, done, items0, ix0, p0, bias, fails, now, refCount);
      } else {
        ghost var ix1, gap1 := Index(timeoutHeap, timeoutHash), pendingTimeouts - LiveRefs();
        LoopStep(rest, done, items0, ix0, p0, bias, fails, h, items, ix1, Pending(), gap1, items, ix1, Pending(), gap1);
        RefsInSnoc(done, h, items0);
        threw, refCount' := false, refCount;
      }
    }

    /** `RunShifted` for an item whose callback is present: run it. */
    method RunLive(h: Handle, ghost rest: seq<Handle>, ghost done: seq<Handle>, ghost items0: map<Handle, Item>,
                   ghost ix0: Index, ghost p0: seq<Handle>,
                   ghost bias: int, fails: set<Handle>, now: int, refCount: nat)
      returns (threw: bool, refCount': nat)
      requires TasksOk([h] + rest, done, items0, ix0, p0, bias, fails)
      requires h in items && items[h].callback != 0
      requires refCount == RefsIn(done, items0)
      requires forall g :: g in Runnable(done, items0) ==> g !in fails
      modifies this`items, this`timeoutHash, this`timeoutHeap, this`pendingTimeouts,
        this`running, this`timestamp, this`timestampUses
      ensures TasksOk(rest, done + [h], items0, ix0, p0, bias, fails)
      ensures CacheKept(old(running), old(timestamp), old(timestampUses), now)
      ensures threw <==> h in fails
      ensures h in items0 && items0[h].TimeoutItem? && items0[h].callback != 0
      ensures refCount' + (if threw && items0[h].isref then 1 else 0) == RefsIn(done + [h], items0)
      ensures forall g :: g in Runnable(done + [h], items0) && !(threw && g == h) ==> g !in fails
    {
      ShiftApart([h] + rest, Pending(), items);
      RefsInSnoc(done, h, items0);
      AdvancedAgree(items, items0, Rearmed(done, items0, fails));
      ghost var items1, p1, ix1, gap1 := items, Pending(), Index(timeoutHeap, timeoutHash), pendingTimeouts - LiveRefs();
      threw := InvokeTimeoutCallback(h, rest, fails, now);
      AgreeTrans(items, items1, items0);
      refCount' := refCount + if !threw && items[h].isref then 1 else 0;
      LoopStep(rest, done, items0, ix0, p0, bias, fails, h, items1, ix1, p1, gap1,
               items, Index(timeoutHeap, timeoutHash), Pending(), pendingTimeouts - LiveRefs());
    }

    /**
     * The loop of `_processTasklist`: shift the items off a detached list one by one
     * and run those whose callback is present, until the list is empty or a callback
     * throws. `done` are the items shifted, `rest` those left, `h` the last one shifted;
     * `refCount` counts the referenced items whose callbacks returned. Exactly the
     * interval items of `done` whose callbacks returned are pending again, re-armed
     * once, and pushed onto the index in that order.
     */
    method RunTasks(list: seq<Handle>, fails: set<Handle>, now: int)
      returns (refCount: nat, threw: bool, h: Handle, rest: seq<Handle>, ghost done: seq<Handle>)
      requires Valid() && Apart(list, Pending(), items)
      modifies this`items, this`timeoutHash, this`timeoutHeap, this`pendingTimeouts,
        this`running, this`timestamp, this`timestampUses
      ensures TasksOk(rest, done, old(items), Index(old(timeoutHeap), old(timeoutHash)), old(Pending()),
                      old(pendingTimeouts - LiveRefs() - RefsIn(list, items)), fails)
      ensures CacheKept(old(running), old(timestamp), old(timestampUses), now)
      ensures list == done + rest && (!threw ==> rest == [])
      ensures threw ==>
        done != [] && h == done[|done| - 1] && h in fails &&
        h in old(items) && old(items)[h].TimeoutItem? && old(items)[h].callback != 0
      ensures forall g :: g in Runnable(done, old(items)) && !(threw && g == h) ==> g !in fails
      ensures refCount + (if threw && old(items)[h].isref then 1 else 0) == RefsIn(done, old(items))
    {
      ghost var items0, ix0, p0 := items, Index(timeoutHeap, timeoutHash), Pending();
      ghost var running0, ts0, uses0 := running, timestamp, timestampUses;
      ghost var bias := pendingTimeouts - LiveRefs() - RefsIn(list, items);
      rest, threw, h := list, false, 0;
      refCount, done := 0, [];
      AdvancedNone(items);
      assert p0 + Rearmed(done, items0, fails) == p0;
      while rest != [] && !threw
        invariant TasksOk(rest, done, items0, ix0, p0, bias, fails)
        invariant CacheKept(running0, ts0, uses0, now)
        invariant list == done + rest
        invariant threw ==>
          done != [] && h == done[|done| - 1] && h in fails &&
          h in items0 && items0[h].TimeoutItem? && items0[h].callback != 0
        invariant refCount + (if threw && items0[h].isref then 1 else 0) == RefsIn(done, items0)
        invariant forall g :: g in Runnable(done, items0) && !(threw && g == h) ==> g !in fails
        decreases |rest|
      {
        h := rest[0];
        ShiftStep(done, rest);
        threw, refCount := RunShifted(h, rest[1..], done, items0, ix0, p0, bias, fails, now, refCount);
        rest, done := rest[1..], done + [h];
      }
    }

    /**
     * `_processTasklist`: run the list. On the first callback that throws, the counter
     * drops by the references already run plus the failing item's own, the rest of the
     * list is deferred to a later tick, and the error is returned; otherwise `refCount`
     * is the number of referenced items run, for the caller to uncount. The items that
     * re-armed are pushed onto the index at their advanced expiries, in run order.
     */
    method ProcessTasklist(list: seq<Handle>, fails: set<Handle>, now: int)
      returns (refCount: nat, err: Option<Handle>, rest: seq<Handle>, ghost done: seq<Handle>)
      requires Valid() && Apart(list, Pending(), items)
      modifies this`items, this`timeoutHash, this`timeoutHeap, this`pendingTimeouts,
        this`running, this`timestamp, this`timestampUses, this`deferred
      ensures Valid()
      ensures Advanced(items, old(items), Rearmed(done, old(items), fails)) && AgreeExceptWhen(items, old(items))
      ensures Index(timeoutHeap, timeoutHash) ==
        Rescheduled(Index(old(timeoutHeap), old(timeoutHash)), Rearmed(done, old(items), fails), old(items))
      ensures GrownOutside(Index(old(timeoutHeap), old(timeoutHash)), Index(timeoutHeap, timeoutHash), [])
      ensures CacheKept(old(running), old(timestamp), old(timestampUses), now)
      ensures list == done + rest && StoppedAt(done, old(items), fails, err)
      ensures SameCounts(Pending(), old(Pending()) + Rearmed(done, old(items), fails) + rest)
      ensures err.None? ==>
        rest == [] && deferred == old(deferred) && refCount == RefsIn(list, old(items)) &&
        pendingTimeouts - LiveRefs() == old(pendingTimeouts - LiveRefs() - RefsIn(list, items)) + refCount
      ensures err.Some? ==>
        deferred == old(deferred) + [rest] &&
        pendingTimeouts - LiveRefs() == old(pendingTimeouts - LiveRefs() - RefsIn(list, items))
    {
      ghost var items0, ix0, p0 := items, Index(timeoutHeap, timeoutHash), Pending();
      ghost var bias := pendingTimeouts - LiveRefs() - RefsIn(list, items);
      var threw, h;
      refCount, threw, h, rest, done := RunTasks(list, fails, now);
      LoopDone(rest, done, items0, ix0, p0, bias, fails, items, Index(timeoutHeap, timeoutHash), Pending(),
               pendingTimeouts - LiveRefs());
      if threw {
        DeferRest(rest, refCount + if items[h].isref then 1 else 0);
        err := Some(h);
      } else {
        err := None;
        assert list == done;
        ListsAgreeExceptWhen(list, items, items0);
        assert Pending() + [] == Pending();
        assert p0 + Rearmed(done, items0, fails) + [] == p0 + Rearmed(done, items0, fails);
      }
    }


    /**
     * The head of a `_processTimeoutTasks` pass: take the earliest key off the heap
     * (`timeoutHeap.get()`) and reset its slot (`timeoutHash[when] = 0`). Its bucket
     * leaves the pending items.
     */
    method TakeNextBucket() returns (when: int, list: seq<Handle>)
      requires Valid() && timeoutHeap != []
      modifies this`timeoutHeap, this`timeoutHash
      ensures Valid() && Apart(list, Pending(), items)
      ensures when == old(timeoutHeap)[0] && list == Bucket(old(timeoutHash), when)
      ensures forall k :: k in timeoutHeap ==> when < k
      ensures timeoutHeap == old(timeoutHeap)[1..] && timeoutHash == old(timeoutHash) - {when}
      ensures old(Pending()) == list + Pending()
      ensures LiveRefs() == old(LiveRefs()) - RefsIn(list, items)
    {
      when := timeoutHeap[0];
      list := Bucket(timeoutHash, when);
      PopKeepsIndex(timeoutHeap, timeoutHash);
      PopBucket(timeoutHeap, timeoutHash);
      ghost var others := AllBuckets(timeoutHeap[1..], timeoutHash - {when}) + Flatten(deferred);
      assert Pending() == list + others;
      TakeFront(list, others, items);
      PlacedDrop(timeoutHash, items, when);
      timeoutHeap, timeoutHash := timeoutHeap[1..], timeoutHash - {when};
    }

    /** `pendingTimeouts -= n`: nothing the object invariant or the live references read. */
    method Uncount(n: int)
      requires Valid()
      modifies this`pendingTimeouts
      ensures Valid() && LiveRefs() == old(LiveRefs())
      ensures pendingTimeouts == old(pendingTimeouts) - n
    {
      pendingTimeouts := pendingTimeouts - n;
    }

    /**
     * The body of the `_processTimeoutTasks` loop up to the next clock reading: take the
     * earliest bucket, run it as a tasklist and uncount the referenced items it ran. The
     * counter keeps its distance to the live references, error or not; the index loses
     * the key and gains the re-armed items (`Step`).
     */
    method DrainNextBucket(fails: set<Handle>, now: int)
      returns (when: int, err: Option<Handle>, ghost list: seq<Handle>, ghost done: seq<Handle>, ghost rest: seq<Handle>)
      requires Valid() && timeoutHeap != []
      modifies this`items, this`timeoutHash, this`timeoutHeap, this`pendingTimeouts, this`running,
        this`timestamp, this`timestampUses, this`deferred
      ensures Valid()
      ensures pendingTimeouts - LiveRefs() == old(pendingTimeouts - LiveRefs())
      ensures Step(Index(old(timeoutHeap), old(timeoutHash)), Index(timeoutHeap, timeoutHash), old(items), items,
                   when, list, done, fails)
      ensures list == done + rest && (err.None? ==> rest == [])
      ensures StoppedAt(done, old(items), fails, err)
      ensures deferred == old(deferred) + (if err.Some? then [rest] else [])
      ensures SameCounts(Pending() + done, old(Pending()) + Rearmed(done, old(items), fails))
      ensures CacheKept(old(running), old(timestamp), old(timestampUses), now)
    {
      ghost var ix0, p0 := Index(timeoutHeap, timeoutHash), Pending();
      PopKeepsIndex(timeoutHeap, timeoutHash);
      PlacedHead(timeoutHeap, timeoutHash, items);
      var bucket;
      when, bucket := TakeNextBucket();
      list := bucket;
      ghost var p1 := Pending();
      assert Index(timeoutHeap, timeoutHash) == Pop(ix0);
      err, done, rest := RunBucket(bucket, fails, now);
      BucketCounts(p0, p1, Pending(), list, done, rest, Rearmed(done, old(items), fails));
    }

    /**
     * `refCount = _processTasklist(list); pendingTimeouts -= refCount`: run a bucket taken
     * off the index. A callback that throws skips the subtraction, the tasklist having
     * dropped its count itself; either way the counter ends as far above the live
     * references as it was before the bucket left them.
     */
    method RunBucket(list: seq<Handle>, fails: set<Handle>, now: int)
      returns (err: Option<Handle>, ghost done: seq<Handle>, ghost rest: seq<Handle>)
      requires Valid() && Apart(list, Pending(), items)
      modifies this`items, this`timeoutHash, this`timeoutHeap, this`pendingTimeouts, this`running,
        this`timestamp, this`timestampUses, this`deferred
      ensures Valid()
      ensures pendingTimeouts - LiveRefs() == old(pendingTimeouts - LiveRefs() - RefsIn(list, items))
      ensures Advanced(items, old(items), Rearmed(done, old(items), fails))
      ensures Index(timeoutHeap, timeoutHash) ==
        Rescheduled(Index(old(timeoutHeap), old(timeoutHash)), Rearmed(done, old(items), fails), old(items))
      ensures list == done + rest && (err.None? ==> rest == [])
      ensures StoppedAt(done, old(items), fails, err)
      ensures deferred == old(deferred) + (if err.Some? then [rest] else [])
      ensures SameCounts(Pending(), old(Pending()) + Rearmed(done, old(items), fails) + rest)
      ensures CacheKept(old(running), old(timestamp), old(timestampUses), now)
    {
      var refCount, rest';
      refCount, err, rest', done := ProcessTasklist(list, fails, now);
      rest := rest';
      if err.None? {
        Uncount(refCount);
      }
    }

    /** `timestamp = setTimestamp()` inside the pass: only the clock cache changes. */
    method RereadClock(now: int) returns (t: int)
      requires Valid()
      modifies this`timestamp, this`timestampUses
      ensures Valid() && LiveRefs() == old(LiveRefs())
      ensures t == now && timestamp == now && timestampUses == 0
    {
      t := SetTimestamp(now);
    }

    /**
     * One round of the `_processTimeoutTasks` loop: drain the bucket at the head of the
     * heap, which is due at `last`, and extend the pass's trace by it.
     */
    method DrainTraced(clock: nat -> int, fails: set<Handle>, last: int, ghost ix0: Index,
                       ghost items0: map<Handle, Item>, ghost p0: seq<Handle>, ghost keys: seq<int>,
                       ghost snaps: seq<Index>, ghost tables: seq<map<Handle, Item>>, ghost lists: seq<seq<Handle>>,
                       ghost dones: seq<seq<Handle>>, ghost ran: seq<Handle>)
      returns (err: Option<Handle>, ghost keys': seq<int>, ghost snaps': seq<Index>, ghost tables': seq<map<Handle, Item>>,
               ghost lists': seq<seq<Handle>>, ghost dones': seq<seq<Handle>>, ghost ran': seq<Handle>,
               ghost rest: seq<Handle>)
      requires Valid() && timeoutHeap != [] && timeoutHeap[0] <= last && last == clock(|keys|)
      requires Traced(clock, fails, ix0, items0, p0, keys, snaps, tables, lists, dones, ran, None,
                      Index(timeoutHeap, timeoutHash), items, Pending())
      requires LastRest(keys, lists, dones, [])
      modifies this`items, this`timeoutHash, this`timeoutHeap, this`pendingTimeouts, this`running,
        this`timestamp, this`timestampUses, this`deferred
      ensures Valid()
      ensures pendingTimeouts - LiveRefs() == old(pendingTimeouts - LiveRefs())
      ensures |keys'| == |keys| + 1
      ensures Traced(clock, fails, ix0, items0, p0, keys', snaps', tables', lists', dones', ran', err,
                     Index(timeoutHeap, timeoutHash), items, Pending())
      ensures LastRest(keys', lists', dones', rest) && (err.None? ==> rest == [])
      ensures deferred == old(deferred) + (if err.Some? then [rest] else [])
      ensures CacheKept(old(running), old(timestamp), old(timestampUses), last)
    {
      ghost var ix1, items1, p1 := Index(timeoutHeap, timeoutHash), items, Pending();
      var when;
      ghost var list, done;
      when, err, list, done, rest := DrainNextBucket(fails, last);
      keys', snaps', tables', lists', dones', ran' :=
        TraceStep(clock, fails, ix0, items0, p0, keys, snaps, tables, lists, dones, ran, ix1, items1, p1,
                  Index(timeoutHeap, timeoutHash), items, Pending(), when, list, done, rest, err);
    }

    /**
     * The loop of `_processTimeoutTasks`: read the clock, then drain the buckets whose
     * key is at most the last reading, earliest first, reading the clock again after
     * each, and stop after the third. A callback error ends the loop at once. `clock(i)`
     * is the `i`-th reading of the pass, `last` the final one, which the cache holds
     * fresh at the end. As a trace, `snaps[i]` and `tables[i]` are the index and the item
     * table before the `i`-th bucket, `keys[i]` its key (then the head of the heap),
     * `lists[i]` the bucket and `dones[i]` the part of it that ran; `ran` are the items
     * run and `rest` the part of the last bucket deferred after an error.
     */
    method DrainExpired(clock: nat -> int, fails: set<Handle>)
      returns (err: Option<Handle>, nbuckets: nat, last: int, ghost keys: seq<int>, ghost snaps: seq<Index>,
               ghost tables: seq<map<Handle, Item>>, ghost lists: seq<seq<Handle>>, ghost dones: seq<seq<Handle>>,
               ghost ran: seq<Handle>, ghost rest: seq<Handle>)
      requires Valid()
      modifies this`items, this`timeoutHash, this`timeoutHeap, this`pendingTimeouts, this`running,
        this`timestamp, this`timestampUses, this`deferred
      ensures Valid()
      ensures pendingTimeouts - LiveRefs() == old(pendingTimeouts - LiveRefs())
      ensures nbuckets <= 3 && last == clock(nbuckets)
      ensures timestamp == last && timestampUses == 0 && (old(running) ==> running)
      ensures err.Some? ==> nbuckets < 3 && err.value in fails
      ensures err.None? && nbuckets < 3 ==> timeoutHeap == [] || last < timeoutHeap[0]
      ensures |keys| == nbuckets + (if err.Some? then 1 else 0)
      ensures Traced(clock, fails, Index(old(timeoutHeap), old(timeoutHash)), old(items), old(Pending()),
                     keys, snaps, tables, lists, dones, ran, err, Index(timeoutHeap, timeoutHash), items, Pending())
      ensures LastRest(keys, lists, dones, rest) && (err.None? ==> rest == [])
      ensures deferred == old(deferred) + (if err.Some? then [rest] else [])
    {
      ghost var ix0, items0, p0 := Index(timeoutHeap, timeoutHash), items, Pending();
      ghost var running0 := running;
      err, nbuckets, keys := None, 0, [];
      snaps, tables, lists, dones, ran, rest := [ix0], [items0], [], [], [], [];
      last := SetTimestamp(clock(0));
      ghost var bias := pendingTimeouts - LiveRefs();
      TraceStart(clock, fails, ix0, items0, p0);
      while err.None? && nbuckets < 3 && timeoutHeap != [] && timeoutHeap[0] <= last
        invariant Valid() && pendingTimeouts - LiveRefs() == bias
        invariant nbuckets <= 3 && last == clock(nbuckets) && (err.Some? ==> nbuckets < 3 && err.value in fails)
        invariant timestamp == last && timestampUses == 0 && (running0 ==> running)
        invariant |keys| == nbuckets + (if err.Some? then 1 else 0)
        invariant Traced(clock, fails, ix0, items0, p0, keys, snaps, tables, lists, dones, ran, err,
                         Index(timeoutHeap, timeoutHash), items, Pending())
        invariant LastRest(keys, lists, dones, rest) && (err.None? ==> rest == [])
        invariant deferred == old(deferred) + (if err.Some? then [rest] else [])
        decreases 3 - nbuckets, if err.None? then 1 else 0
      {
        err, keys, snaps, tables, lists, dones, ran, rest :=
          DrainTraced(clock, fails, last, ix0, items0, p0, keys, snaps, tables, lists, dones, ran);
        if err.None? {
          // the source's `++nbuckets > 2` break is the loop guard's `nbuckets < 3`
          last := RereadClock(clock(nbuckets + 1));
          nbuckets := nbuckets + 1;
        }
      }
    }

    /**
     * `_processTimeoutTasks`: drain the expired buckets (`DrainExpired`, whose trace
     * outputs it passes on). After a pass cut short at the third bucket, start a
     * catch-up timer. Unless a callback error ended the pass, stop the timer when no
     * referenced timeout and no immediate is left; `drained` is whether the timer ran
     * when the drain ended. The pass keeps the counter's distance to the live references.
     */
    method ProcessTimeoutTasks(clock: nat -> int, fails: set<Handle>)
      returns (err: Option<Handle>, nbuckets: nat, last: int, ghost drained: bool, ghost keys: seq<int>,
               ghost snaps: seq<Index>, ghost tables: seq<map<Handle, Item>>, ghost lists: seq<seq<Handle>>,
               ghost dones: seq<seq<Handle>>, ghost ran: seq<Handle>, ghost rest: seq<Handle>)
      requires Valid()
      modifies this`items, this`timeoutHash, this`timeoutHeap, this`pendingTimeouts, this`running,
        this`timestamp, this`timestampUses, this`deferred, this`catchUpTimers
      ensures Valid()
      ensures pendingTimeouts - LiveRefs() == old(pendingTimeouts - LiveRefs())
      ensures nbuckets <= 3 && last == clock(nbuckets)
      ensures timestamp == last && timestampUses == 0
      ensures catchUpTimers == old(catchUpTimers) + (if nbuckets == 3 then 1 else 0)
      ensures err.Some? ==> nbuckets < 3 && err.value in fails
      ensures err.None? && nbuckets < 3 ==> timeoutHeap == [] || last < timeoutHeap[0]
      ensures err.None? && pendingTimeouts == 0 && immediateList == [] ==> !running
      ensures !(err.None? && pendingTimeouts == 0 && immediateList == []) ==> running == drained
      ensures old(running) ==> drained
      ensures |keys| == nbuckets + (if err.Some? then 1 else 0)
      ensures Traced(clock, fails, Index(old(timeoutHeap), old(timeoutHash)), old(items), old(Pending()),
                     keys, snaps, tables, lists, dones, ran, err, Index(timeoutHeap, timeoutHash), items, Pending())
      ensures LastRest(keys, lists, dones, rest) && (err.None? ==> rest == [])
      ensures deferred == old(deferred) + (if err.Some? then [rest] else [])
    {
      err, nbuckets, last, keys, snaps, tables, lists, dones, ran, rest := DrainExpired(clock, fails);
      drained := running;
      SettleTimer(err, nbuckets);
    }

    /**
     * The tail of `_processTimeoutTasks`: a pass cut short at the third bucket starts a
     * one-shot catch-up timer; unless a callback error ended the pass, `stopTimeoutTimer()`
     * once no referenced timeout and no immediate is left.
     */
    method SettleTimer(err: Option<Handle>, nbuckets: nat)
      requires Valid()
      modifies this`catchUpTimers, this`running
      ensures Valid() && Pending() == old(Pending()) && LiveRefs() == old(LiveRefs())
      ensures catchUpTimers == old(catchUpTimers) + (if err.None? && nbuckets > 2 then 1 else 0)
      ensures err.None? && pendingTimeouts == 0 && immediateList == [] ==> !running
      ensures !(err.None? && pendingTimeouts == 0 && immediateList == []) ==> running == old(running)
    {
      label start:
      catchUpTimers := catchUpTimers + (if err.None? && nbuckets > 2 then 1 else 0);
      running := if err.None? && pendingTimeouts == 0 && immediateList == [] then false else running;
      TimersKeepValid@start();
    }

    /** Changing only the timer fields keeps the object invariant, the pending items and the live references. */
    twostate lemma TimersKeepValid()
      requires old(Valid())
      requires unchanged(this`items, this`nextHandle, this`immediateList, this`timeoutHeap, this`timeoutHash, this`deferred)
      ensures Valid() && Pending() == old(Pending()) && LiveRefs() == old(LiveRefs())
    {
    }

    /** The `process.nextTick` continuation starts: the oldest deferred rest leaves the queue. */
    method TakeDeferred() returns (list: seq<Handle>)
      requires Valid() && deferred != []
      modifies this`deferred
      ensures Valid() && Apart(list, Pending(), items)
      ensures list == old(deferred)[0] && deferred == old(deferred)[1..]
      ensures LiveRefs() == old(LiveRefs()) - RefsIn(list, items)
      ensures SameCounts(old(Pending()), list + Pending())
    {
      list := deferred[0];
      TakeFirstDeferred(timeoutHeap, timeoutHash, deferred, items);
      deferred := deferred[1..];
    }

    /**
     * The continuation `function(){ _processTasklist(list) }` queued by a failed tasklist,
     * as written: it runs the rest but drops the returned `refCount`, so the referenced
     * items it runs stay counted in `pendingTimeouts`.
     */
    method RunDeferred(fails: set<Handle>, now: int)
      returns (err: Option<Handle>, refCount: nat, rest: seq<Handle>, ghost done: seq<Handle>)
      requires Valid() && deferred != []
      modifies this`items, this`timeoutHash, this`timeoutHeap, this`pendingTimeouts, this`running,
        this`timestamp, this`timestampUses, this`deferred
      ensures Valid()
      ensures old(deferred)[0] == done + rest
      ensures Advanced(items, old(items), Rearmed(done, old(items), fails))
      ensures Index(timeoutHeap, timeoutHash) ==
        Rescheduled(Index(old(timeoutHeap), old(timeoutHash)), Rearmed(done, old(items), fails), old(items))
      ensures GrownOutside(Index(old(timeoutHeap), old(timeoutHash)), Index(timeoutHeap, timeoutHash), [])
      ensures CacheKept(old(running), old(timestamp), old(timestampUses), now)
      ensures SameCounts(Pending() + done, old(Pending()) + Rearmed(done, old(items), fails))
      ensures StoppedAt(done, old(items), fails, err)
      ensures err.None? ==>
        rest == [] && deferred == old(deferred)[1..] &&
        refCount == RefsIn(old(deferred)[0], old(items)) &&
        pendingTimeouts - LiveRefs() == old(pendingTimeouts - LiveRefs()) + refCount
      ensures err.Some? ==>
        deferred == old(deferred)[1..] + [rest] &&
        pendingTimeouts - LiveRefs() == old(pendingTimeouts - LiveRefs())
    {
      ghost var p0 := Pending();
      var list := TakeDeferred();
      ghost var p1 := Pending();
      refCount, err, rest, done := ProcessTasklist(list, fails, now);
      DeferredCounts(p0, p1, Pending(), list, done, rest, Rearmed(done, old(items), fails));
    }

    /**
     * The continuation as evidently intended: it uncounts the referenced items it ran,
     * as `_processTimeoutTasks` does, so the counter keeps tracking the live references.
     */
    method RunDeferredSettled(fails: set<Handle>, now: int)
      returns (err: Option<Handle>, rest: seq<Handle>, ghost done: seq<Handle>)
      requires Valid() && deferred != []
      modifies this`items, this`timeoutHash, this`timeoutHeap, this`pendingTimeouts, this`running,
        this`timestamp, this`timestampUses, this`deferred
      ensures Valid()
      ensures pendingTimeouts - LiveRefs() == old(pendingTimeouts - LiveRefs())
      ensures old(Counted()) ==> Counted()
      ensures old(deferred)[0] == done + rest
      ensures Advanced(items, old(items), Rearmed(done, old(items), fails))
      ensures Index(timeoutHeap, timeoutHash) ==
        Rescheduled(Index(old(timeoutHeap), old(timeoutHash)), Rearmed(done, old(items), fails), old(items))
      ensures GrownOutside(Index(old(timeoutHeap), old(timeoutHash)), Index(timeoutHeap, timeoutHash), [])
      ensures CacheKept(old(running), old(timestamp), old(timestampUses), now)
      ensures SameCounts(Pending() + done, old(Pending()) + Rearmed(done, old(items), fails))
      ensures StoppedAt(done, old(items), fails, err)
      ensures err.None? ==> rest == [] && deferred == old(deferred)[1..]
      ensures err.Some? ==> deferred == old(deferred)[1..] + [rest]
    {
      var refCount;
      err, refCount, rest, done := RunDeferred(fails, now);
      if err.None? {
        Uncount(refCount);
      }
    }

    /** `immediateList.shift()` on a non-empty list: the head leaves the queue. */
    method ShiftImmediate() returns (h: Handle)
      requires Valid() && immediateList != []
      modifies this`immediateList
      ensures Valid()
      ensures old(immediateList) == [h] + immediateList
      ensures h in items && items[h].ImmediateItem?
    {
      h := immediateList[0];
      immediateList := immediateList[1..];
    }

    /**
     * The loop of `_processImmediateTasks`: shift at most `maxTickDepth` items off the
     * immediate list and run those whose callback is present, stopping at the first
     * callback that throws. `item` is what the last loop guard left in `item`: the
     * failing item, the last item shifted when the depth ran out, or nothing when the
     * list ran dry first or the depth is below one.
     */
    method RunImmediates(fails: set<Handle>) returns (err: Option<Handle>, consumed: nat, item: Option<Handle>)
      requires Valid()
      modifies this`immediateList
      ensures Valid()
      ensures consumed <= |old(immediateList)| && immediateList == old(immediateList)[consumed..]
      ensures forall g :: g in Runnable(old(immediateList)[..consumed], items) && Some(g) != err ==> g !in fails
      ensures err.None? ==>
        consumed == (if maxTickDepth < 1 then 0
                     else if |old(immediateList)| < maxTickDepth then |old(immediateList)| else maxTickDepth) &&
        (item.Some? <==> 1 <= maxTickDepth <= |old(immediateList)|)
      ensures err.Some? ==>
        0 < consumed <= maxTickDepth && err.value == old(immediateList)[consumed - 1] &&
        err.value in fails && items[err.value].callback != 0 && item == err
    {
      ghost var list0 := immediateList;
      var n := 1;
      item, err, consumed := None, None, 0;
      while err.None? && n <= maxTickDepth && immediateList != []
        invariant consumed <= |list0| && immediateList == list0[consumed..]
        invariant err.None? ==> consumed == n - 1 && (consumed == 0 || consumed <= maxTickDepth)
        invariant err.Some? ==>
          0 < consumed <= maxTickDepth && err.value == list0[consumed - 1] &&
          err.value in fails && items[err.value].callback != 0
        invariant item == (if consumed == 0 then None else Some(list0[consumed - 1]))
        invariant forall g :: g in Runnable(list0[..consumed], items) && Some(g) != err ==> g !in fails
        invariant Valid()
        modifies this`immediateList
        decreases |immediateList|, if err.None? then 1 else 0
      {
        var h := ShiftImmediate();
        var threw := items[h].callback != 0 && h in fails;
        RunnableExtend(list0, consumed, items, fails, if threw then Some(h) else None);
        item, consumed := Some(h), consumed + 1;
        if threw {
          // the callback's error is rethrown at once
          err := Some(h);
        } else {
          n := n + 1;
        }
      }
      if err.None? && n <= maxTickDepth {
        // the loop ended on an empty list: `list.shift()` gave no item
        item := None;
      }
    }

    /**
     * `_processImmediateTasks`: run the loop, then clear the "drain needed" flag when
     * the last guard found no item. A callback error is rethrown at once, with the flag
     * untouched.
     */
    method ProcessImmediateTasks(fails: set<Handle>) returns (err: Option<Handle>, consumed: nat)
      requires Valid()
      modifies this`immediateList, this`needImmediateCallback
      ensures Valid()
      ensures consumed <= |old(immediateList)| && immediateList == old(immediateList)[consumed..]
      ensures forall g :: g in Runnable(old(immediateList)[..consumed], items) && Some(g) != err ==> g !in fails
      ensures err.None? ==>
        consumed == (if maxTickDepth < 1 then 0
                     else if |old(immediateList)| < maxTickDepth then |old(immediateList)| else maxTickDepth) &&
        needImmediateCallback == (old(needImmediateCallback) && 1 <= maxTickDepth <= |old(immediateList)|)
      ensures err.Some? ==>
        0 < consumed <= maxTickDepth && err.value == old(immediateList)[consumed - 1] &&
        err.value in fails && items[err.value].callback != 0 &&
        needImmediateCallback == old(needImmediateCallback)
    {
      var item;
      err, consumed, item := RunImmediates(fails);
      if err.Some? {
        return;
      }
      if item.None? {
        needImmediateCallback := false;
      }
    }
  }

  /**
   * `clearTimeout` on a one-shot timer that has already fired: the item was drained with
   * its callback and its reference intact, so the call uncounts it a second time and the
   * counter ends one below the live references.
   */
  method ClearAfterFiringUndercounts(s: Scheduler, h: Handle)
    requires s.Valid() && s.Counted()
    requires h in s.items && Counts(s.items[h]) && h !in s.Pending()
    modifies s
    ensures s.Valid() && s.pendingTimeouts == s.LiveRefs() - 1
  {
    var _ := s.ClearTimeout(h);
  }

  /**
   * `t.unref()` on a one-shot timer that has already fired: the drain uncounted the item
   * when it ran it, and `unref` uncounts it again.
   */
  method UnrefAfterFiringUndercounts(s: Scheduler, h: Handle)
    requires s.Valid() && s.Counted()
    requires h in s.items && Counts(s.items[h]) && h !in s.Pending()
    modifies s
    ensures s.Valid() && s.pendingTimeouts == s.LiveRefs() - 1
  {
    s.UnrefItem(h);
  }

  /**
   * `t.ref()` on an unreferenced one-shot timer that has already fired: the item is
   * counted again although no drain will ever uncount it.
   */
  method RefAfterFiringOvercounts(s: Scheduler, h: Handle)
    requires s.Valid() && s.Counted()
    requires h in s.items && s.items[h].TimeoutItem? && s.items[h].callback != 0 && !s.items[h].isref
    requires h !in s.Pending()
    modifies s
    ensures s.Valid() && s.pendingTimeouts == s.LiveRefs() + 1
  {
    s.RefItem(h);
  }

  /**
   * `setTimeout(null, ms)`: the item is counted but has no callback, so every drain
   * skips it without uncounting it. After a timeout pass in which no callback throws,
   * the counter is still one above the live references, so it cannot reach 0 and the
   * pass never stops the timer on its account.
   */
  method NullCallbackLeaks(s: Scheduler, ms: int, now: int, later: int, clock: nat -> int)
    requires s.Valid() && s.Counted()
    modifies s
    ensures s.Valid() && s.pendingTimeouts == s.LiveRefs() + 1 && s.pendingTimeouts > 0
  {
    var h, x, y := s.SetTimeout(0, ms, now, later);
    var err, nbuckets, last, drained, keys, snaps, tables, lists, dones, ran, rest := s.ProcessTimeoutTasks(clock, {});
  }

  /**
   * The `process.nextTick` continuation of a failed tasklist, as written: once it has run
   * a rest holding a referenced item, the counter stays above the live references.
   */
  method DeferredRunOvercounts(s: Scheduler, now: int) returns (refCount: nat)
    requires s.Valid() && s.Counted() && s.deferred != [] && RefsIn(s.deferred[0], s.items) > 0
    modifies s
    ensures s.Valid() && refCount > 0 && s.pendingTimeouts == s.LiveRefs() + refCount
  {
    var err, rest;
    ghost var done;
    err, refCount, rest, done := s.RunDeferred({}, now);
  }
}
