# qtimers in Dafny

A model of the timer bookkeeping engine of `lib/qtimers.js`, the `qtimers` work-alike
of Node's `timers` module, with proofs about it.

The module-level state of the JS file becomes the fields of one class,
`QTimers.Scheduler`:

- the immediate list and the "drain needed" flag;
- the timeout index, made of `timeoutHeap` (the keys of the live buckets) and
  `timeoutHash` (the bucket of each key);
- the `pendingTimeouts` counter;
- the timestamp cache;
- the `_running` flag of the host timer;
- the rests of failed tasklists waiting for their `process.nextTick` continuation;
- a count of the catch-up timers that a backlogged pass starts.

Item objects are shared between the queues and the caller's handle, and are mutated in
place (`_callback = 0`, `_isref`, `_when +=`). They live in the table `items`, keyed by
`Handle`, and the queues hold handles. Callbacks are opaque task ids, with 0 standing for
a cleared callback.

Three files make up the project:

- `sorted_keys.dfy` (`SortedKeys`): the `qheap` min-heap of bucket keys, modelled as a
  strictly increasing sequence.
- `timer_items.dfy` (`TimerItems`): items, the delay clamp, and the counting and listing
  functions over handle lists.
- `qtimers.dfy` (`QTimers`): the scheduler and its operations. Each operation is a method
  over the class state.

The object invariant `Valid()` has five parts:

- the heap holds exactly the keys of the hash, strictly increasing;
- every live bucket is non-empty and holds only items whose `_when` is its key;
- the pending timeout items (the live buckets in key order, then the deferred rests) are
  distinct, known timeout items;
- the immediate list holds immediate items;
- every known handle is below `nextHandle` (`HandlesOk`), so a fresh handle names no
  existing item.

The reference-counting invariant `Counted()` is not part of `Valid()`. It says that
`pendingTimeouts` equals `LiveRefs()`, the number of pending items that are referenced
and still have a callback. These operations of the source break it:

- `clearTimeout`, `t.unref()` and `t.ref()` on a one-shot timer that has already fired
  (see Findings);
- `setTimeout(null, ms)`, which counts an item that no drain will uncount (see Findings);
- the `process.nextTick` continuation of a failed tasklist (see Findings);
- `clearImmediate` applied to a pending referenced timeout item: it blanks the callback
  without uncounting the item, so `LiveRefs()` drops and the counter does not.

Every other operation keeps the distance `pendingTimeouts - LiveRefs()` unchanged, and so
preserves `Counted()`.

Whether a callback throws is an oracle input, `fails`: the callback of an item in
`fails` throws a truthy value, and any other returns. Wall-clock readings (`Date.now()`) are
parameters: `now`, or the function `clock` whose `i`-th value is the `i`-th reading
taken in a timeout pass.

A drained key's slot is set to 0 by `timeoutHash[when] = 0`. The model removes the key
from the map instead, and `Bucket` reads an absent key as the empty bucket. Both forms
are falsy to `_scheduleTimeoutItem`, so a later schedule at that key makes a fresh bucket
in both.

The index after a run of re-arms is given in closed form. `Push(ix, k, h)` is the index
after `_scheduleTimeoutItem(h, k)`: `h` is appended to the bucket of `k`, and `k` is put
in the heap when it had no live bucket. `Rescheduled(ix, r, items)` pushes the items of
`r`, in order, each at its advanced expiry `_when + _interval`. Key by key, a bucket
afterwards is the old bucket followed by the items of `r` that land on its key
(`RescheduledSpec`).

A timeout pass is stated as a trace. `keys[i]` is the key of the `i`-th bucket drained,
and `snaps[i]` and `tables[i]` are the index and the item table just before it was taken.
The first snapshot is the index at the start of the pass and the last one is the index at
its end. Each step is exact (`Step`): `keys[i]` is the head of the heap of `snaps[i]`, and
`lists[i]` is its bucket, whose items all expire at `keys[i]`. `dones[i]` is the part of
that bucket that ran. Every bucket but the last ran whole; the last is its `dones` entry
followed by `rest`, and `rest` is empty unless a callback error ended the pass
(`LastRest`). Where a callback error stops a run is stated by `StoppedAt`: no item run
whose callback was present threw, except the error itself. The error is then the last
item run, it is in `fails`, and its callback was present. In a pass (`LastFailed`) that
item is the last entry of the last bucket's `dones`. `snaps[i + 1]` is
`snaps[i]` without `keys[i]`, with the items of `dones[i]` that re-armed pushed in run
order. Each key was due at the clock reading taken before it. The items that re-arm are
exactly the interval items in `ran` whose callbacks returned, each advanced once per run.
The pending items plus those run equal the old pending items plus those re-armed, counted
as multisets.

## Model

| member | source | states |
|---|---|---|
| SortedKeys.Put | lib/qtimers.js:124-127 | `timeoutHeap.put` of a key not in the heap keeps the keys strictly increasing, adds exactly one key, and the new head is the smaller of the old head and the key |
| SortedKeys.PutKeepsOrder | lib/qtimers.js:126 | inserting a new key between the smaller and the larger keys keeps the sequence increasing, one longer, with the minimum in front |
| SortedKeys.BelowAbove | lib/qtimers.js:126 | the keys before and after the insertion point split the heap exactly, and neither part holds a key the heap lacks |
| SortedKeys.PutSplit | lib/qtimers.js:124-127 | the heap after `put` is the old heap with the new key inserted at one place, and that key occurs at no other place |
| SortedKeys.KeySplit | lib/qtimers.js:123-128 | a live key occurs exactly once in the heap, which splits around it |
| SortedKeys.HeadIsMinimum | lib/qtimers.js:268-269 | `peek` reads the smallest key: the head of an increasing heap is below every other key, and `get` leaves an increasing heap |
| TimerItems.ClampDelay | lib/qtimers.js:106-107 | the delay is `ms` exactly when `MIN_TIMEOUT <= ms <= MAX_TIMEOUT`, and `MIN_TIMEOUT` otherwise; it always lies in that range |
| TimerItems.NewTimeoutItem | lib/qtimers.js:103-120 | a fresh item is referenced, has the caller's callback, no interval, and expires strictly after the timestamp: at `ts + ms` in range, else at `ts + 1` |
| TimerItems.NewIntervalItem | lib/qtimers.js:158-162 | an interval item expires when the same timeout item would, and its `_interval` is the raw `ms` |
| TimerItems.ClampOutOfRange | lib/qtimers.js:107 | any out-of-range delay builds the same item as the minimum delay |
| TimerItems.RefsInConcat | lib/qtimers.js:228 | the count of referenced live items of two lists in a row is the sum of their counts |
| TimerItems.RunnableConcat | lib/qtimers.js:215-216 | the items a drain runs from two lists in a row are those of the first, then those of the second |
| TimerItems.RefsInUpdate | lib/qtimers.js:57-60 | changing one item changes the count of a distinct list by that item's own change, and only if the list holds it |
| TimerItems.ListsIgnoreWhen | lib/qtimers.js:168 | advancing an item's `_when` changes neither the count of a list nor the items a drain runs from it |
| TimerItems.ListsAgreeExceptWhen | lib/qtimers.js:166-170 | item tables that differ only in expiries give every list the same count and the same runnable items |
| TimerItems.RefsInSnoc | lib/qtimers.js:214-228 | shifting one more item onto a list adds that item's reference and, if its callback is present, its run |
| TimerItems.AllBucketsDropKey | lib/qtimers.js:272 | resetting the slot of a key no longer in the heap leaves the concatenation of the live buckets unchanged |
| TimerItems.AllTimeoutsIff | lib/qtimers.js:122-135 | the recursive "all known timeout items" predicate agrees with its quantified form, both ways |
| TimerItems.DisjointIff | lib/qtimers.js:269-273 | the recursive disjointness predicate agrees with its quantified form, both ways |
| TimerItems.DistinctMultiset | lib/qtimers.js:128 | a handle list is duplicate-free exactly when its multiset holds each handle at most once |
| TimerItems.InsertFresh | lib/qtimers.js:128 | inserting a handle the list does not hold keeps it duplicate-free and adds that item's reference to the count |
| TimerItems.AppendToBucket | lib/qtimers.js:123-128 | `bucket.push(item)` on a live bucket puts the item right after that bucket's items: before it are the buckets of the smaller keys and that bucket, after it the buckets of the larger keys |
| TimerItems.NewBucket | lib/qtimers.js:124-128 | a new one-item bucket at a new key lands after the buckets of the smaller keys and before those of the larger keys |
| TimerItems.SameCountsMultiset | lib/qtimers.js:214-229 | two handle lists hold every handle equally often exactly when their multisets are equal, both ways |
| TimerItems.SameCountsAppend | lib/qtimers.js:225 | appending the same list to two lists with equal counts keeps the counts equal |
| TimerItems.RearmedSnoc | lib/qtimers.js:165-170 | running one more item re-arms it exactly when it is an interval whose callback is present and returns |
| TimerItems.RearmedAgree | lib/qtimers.js:168 | moving expiries does not change which items re-arm |
| TimerItems.AdvancedStep | lib/qtimers.js:168 | re-arming one more item of a re-armed table advances that item once more and leaves the others |
| TimerItems.AdvancedTrans | lib/qtimers.js:168 | two rounds of re-arming compose: each item advances by its re-arms in both rounds |
| TimerItems.FlattenSnoc | lib/qtimers.js:225 | queuing one more deferred rest appends its items to the flattened queue |
| QTimers.NewKeyKeepsIndex | lib/qtimers.js:124-127 | creating the bucket of a new key and putting the key in the heap keeps heap and hash in agreement |
| QTimers.LiveKeyKeepsIndex | lib/qtimers.js:128 | pushing onto a live bucket keeps heap and hash in agreement |
| QTimers.PlacedPush | lib/qtimers.js:122-128 | pushing an item onto the bucket of its own expiry keeps every live bucket non-empty and holding only items that expire at its key |
| QTimers.PlacedDrop | lib/qtimers.js:272 | resetting the slot of a key keeps every other bucket placed |
| QTimers.PlacedUpdate | lib/qtimers.js:57-60 | mutating an item in place (`_isref`, `_callback`) keeps every bucket placed when a timeout item keeps its expiry |
| QTimers.PlacedHead | lib/qtimers.js:269-270 | every item of the bucket at the head of the heap expires at the head key |
| QTimers.PlacedOutside | lib/qtimers.js:168 | advancing the `_when` of an item that sits in no bucket keeps every bucket placed |
| QTimers.InsertKeepsPending | lib/qtimers.js:122-135 | scheduling a timeout item that is not pending keeps the pending items distinct and adds its reference to the count |
| QTimers.UpdateKeepsPending | lib/qtimers.js:147-155 | mutating an item in place keeps the pending list whole while it stays a timeout item |
| QTimers.TakeOut | lib/qtimers.js:269-273 | taking a part out of the pending items leaves the rest whole and the part disjoint from it |
| QTimers.PutBack | lib/qtimers.js:225 | appending a detached rest to the pending items keeps them distinct |
| QTimers.DeferKeepsPending | lib/qtimers.js:225 | queuing a failed list's rest for `nextTick` appends it to the pending items and adds its references |
| QTimers.PopKeepsIndex | lib/qtimers.js:269-272 | `timeoutHeap.get()` with the slot reset keeps heap and hash in agreement; the key taken is below every remaining key |
| QTimers.PopBucket | lib/qtimers.js:269-272 | the earliest bucket comes off the front of the live buckets, and the rest stay in key order |
| QTimers.PopGrows | lib/qtimers.js:269-272 | `timeoutHeap.get()` with the slot reset drains only the head key: every other key stays in the heap with its bucket |
| QTimers.TakeFront | lib/qtimers.js:269-273 | the bucket taken is apart from the pending items left, and the count splits between them |
| QTimers.TakeFirstDeferred | lib/qtimers.js:225 | the continuation's list leaves the pending items, apart from what remains; it takes its references with it, and the old pending items hold each handle as often as the list followed by the rest |
| QTimers.ScheduleAtNewKey | lib/qtimers.js:124-128 | at a key with no live bucket, the item lands after the pending items of the smaller keys and before those of the larger keys and the deferred rests |
| QTimers.ScheduleAtLiveKey | lib/qtimers.js:128 | at a live key, the item lands right after that bucket's pending items: before it the buckets of smaller keys and that bucket, after it those of larger keys and the deferred rests |
| QTimers.PushPending | lib/qtimers.js:122-128 | `_scheduleTimeoutItem` inserts the item into the pending items right after the buckets of the keys up to and including its own, and before those of the larger keys and the deferred rests |
| QTimers.PushSpec | lib/qtimers.js:122-128 | key by key: the heap gains the item's key and keeps every other key; the bucket of that key gains the item at its end; every other bucket is unchanged |
| QTimers.RescheduledSpec | lib/qtimers.js:165-170 | after a run of re-arms, a key is live exactly when it was before or some re-armed item lands on it, and its bucket is the old one followed by the items that land on it, in re-arm order |
| QTimers.RescheduledGrows | lib/qtimers.js:165-170 | a run of re-arms removes no key and only appends to buckets |
| QTimers.PushGrows | lib/qtimers.js:122-128 | `_scheduleTimeoutItem` removes no key and only appends to one bucket |
| QTimers.GrownTrans | lib/qtimers.js:268-285 | a key that keeps its bucket from one index to the next, and again to a third, keeps it from the first to the third |
| QTimers.GrownKept | lib/qtimers.js:273-274 | buckets that grew outside the drained key, then grew everywhere, grew outside the drained key |
| QTimers.StepGrows | lib/qtimers.js:269-274 | one bucket of a pass drains its own key and only appends to the buckets of the other keys |
| QTimers.ChainSnoc | lib/qtimers.js:268-273 | a pass's trace extended by one step that takes the head bucket of the last index is still a trace |
| QTimers.LoopStep | lib/qtimers.js:215-228 | one turn of the tasklist loop: the item shifted is skipped or run; if it re-arms it is pushed at its advanced expiry after the items re-armed before it, and the counter keeps its distance to the live and detached references |
| QTimers.LoopDone | lib/qtimers.js:215-229 | a finished tasklist loop leaves the table changed in expiries only, the index equal to the start index with the re-armed items pushed in run order, and the pending items plus the list left equal to the old ones plus the re-armed ones |
| QTimers.RunStep | lib/qtimers.js:214-228 | one item run off a detached list: it re-arms exactly when `Rearms` holds, advancing once and becoming pending once more, and otherwise table and pending items are unchanged |
| QTimers.BucketCounts | lib/qtimers.js:269-274 | after a bucket is taken and run, the pending items plus those run are the old pending items plus the re-armed ones |
| QTimers.DeferredCounts | lib/qtimers.js:225 | after a deferred rest is run, the pending items plus those run are the old pending items plus the re-armed ones |
| QTimers.DrainStep | lib/qtimers.js:268-285 | two buckets of a pass in a row re-arm exactly as the run of both from the table at the start of the pass does |
| QTimers.TraceStep | lib/qtimers.js:268-285 | a pass's trace extended by one bucket drained at a due reading keeps every trace fact: due keys, head buckets, other buckets only growing, re-arms and counts, and where the pass stops: a bucket run that stopped at an error makes the pass stop there, at the last item of its `dones` entry |
| QTimers.StoppedAtConcat | lib/qtimers.js:215-227 | a run with no error, followed by a run from a table that differs only in expiries, stops where the second run did: no item before the error threw, and the error is the last item of the two runs |
| QTimers.TraceStart | lib/qtimers.js:266-267 | a pass that has drained nothing has the starting index, table and pending items as its whole trace |
| QTimers.NeverEarly | lib/qtimers.js:268-273 | no timer of a pass fires early: every item of a drained bucket expires at that bucket's key, which was at most the clock reading taken before it |
| QTimers.RunnableExtend | lib/qtimers.js:246-249 | one more item shifted whose callback is absent or returns keeps "no run item failed" for the longer prefix, except the one that failed |
| QTimers.Scheduler.constructor | lib/qtimers.js:23-49 | the module starts with empty queues, a zero counter, a stopped timer and the first clock reading; both invariants hold |
| QTimers.Scheduler.SetTimestamp | lib/qtimers.js:48 | `setTimestamp` caches the reading, restarts the use count and returns the reading |
| QTimers.Scheduler.GetTimestamp | lib/qtimers.js:49 | the cached time is reused while the timer runs and has been used at most 100 times, else refreshed; every call counts one use |
| QTimers.Scheduler.StartTimeoutTimer | lib/qtimers.js:39 | the timer runs and the timestamp is fresh |
| QTimers.Scheduler.NewHandle | lib/qtimers.js:53-56 | a new item object gets a handle no queue holds yet; the pending items and their live references stay as they were |
| QTimers.Scheduler.SetImmediate | lib/qtimers.js:63-90 | a new immediate item, with any callback including none, is appended to the FIFO list and the drain flag is raised; the timeout state is untouched |
| QTimers.Scheduler.ClearImmediate | lib/qtimers.js:94-100 | a known item with a callback loses its callback, else nothing changes; the live references drop by its own, without unref |
| QTimers.Scheduler.CreateTimeoutItem | lib/qtimers.js:103-120 | the item is built with the clamped delay at the timestamp `getTimestamp` gives: the cached one while the timer runs and has been used at most 100 times, else the fresh reading; the call counts one use |
| QTimers.Scheduler.InsertTimeoutItem | lib/qtimers.js:122-128 | the item is appended to the bucket of its key, the key enters the heap only when it had no live bucket, the item lands right after the buckets of the keys up to its own, and no bucket loses an item |
| QTimers.Scheduler.CountScheduled | lib/qtimers.js:130-132 | the counter grows by one exactly for a referenced item, and a stopped timer is started with a fresh timestamp while a running one keeps its cache |
| QTimers.Scheduler.ScheduleTimeoutItem | lib/qtimers.js:122-135 | the item is appended to its bucket; the key enters the heap only when it had no live bucket; only a referenced item is counted; the timer is started if stopped |
| QTimers.Scheduler.AddTimeoutItem | lib/qtimers.js:140-141 | a created item gets a fresh handle; the index becomes `Push` of the old one at the item's expiry, so only that bucket changes, by the item at its end; the item lands right after the pending items of the keys up to its own; only a referenced item is counted; a stopped timer starts with the reading `later` |
| QTimers.Scheduler.SetTimeout | lib/qtimers.js:137-142 | a new referenced one-shot item expiring at the cached or fresh timestamp plus the clamped delay; the index becomes `Push` of the old one at that expiry, so no other bucket changes; the counter grows by one; the timer runs, started with its own reading `later` when it was stopped, and the cache counts one use otherwise; `Counted()` is preserved when there is a callback, and a missing callback leaves the counter one above the live references |
| QTimers.Scheduler.SetTimeoutChecked | lib/qtimers.js:137-142 | `setTimeout` that does not reference an item without a callback: the same item, index, timer and cache as `setTimeout`, counted only with a callback, and `Counted()` is preserved on every call |
| QTimers.Scheduler.SetInterval | lib/qtimers.js:158-175 | as `setTimeout`, with `_interval` set to the raw `ms`: the same index, counter, timer and cache; `Counted()` is preserved |
| QTimers.Scheduler.RefItem | lib/qtimers.js:57-58 | `ref` marks the item referenced and counts it, unless it already is or its callback is cleared (then it is a no-op, so a second call is too) |
| QTimers.Scheduler.UnrefItem | lib/qtimers.js:59-60 | `unref` marks the item unreferenced and uncounts it, unless it already is or its callback is cleared |
| QTimers.Scheduler.RefItemChecked | lib/qtimers.js:57-58 | `ref` that leaves a drained item alone preserves `Counted()` on every call |
| QTimers.Scheduler.UnrefItemChecked | lib/qtimers.js:59-60 | `unref` that leaves a drained item alone preserves `Counted()` on every call |
| QTimers.Scheduler.ClearTimeout | lib/qtimers.js:147-155 | a known timeout item with a callback is unref'd and loses its callback, and the counter drops by its reference; an immediate item with a callback throws a `TypeError` and nothing changes; a second clear is a no-op; it keeps `Counted()` only for a pending item |
| QTimers.Scheduler.ClearInterval | lib/qtimers.js:177-179 | the same as `clearTimeout` |
| QTimers.Scheduler.ClearTimeoutChecked | lib/qtimers.js:147-155 | `clearTimeout` that only acts on a pending item keeps `Counted()` on every call, with the same `TypeError` on an immediate item |
| QTimers.Scheduler.AdvanceItem | lib/qtimers.js:168 | `item._when += item._interval` advances that item once and changes no count and no pending list |
| QTimers.Scheduler.RearmInterval | lib/qtimers.js:167-170 | the interval item is advanced once and becomes pending again in the bucket of its new expiry; no other bucket loses an item; the counter's distance to the live references is kept |
| QTimers.Scheduler.InvokeTimeoutCallback | lib/qtimers.js:165-172 | the callback throws exactly when the item is in `fails`; a returning interval re-arms as the same item at `_when + _interval` in its new bucket, and otherwise nothing changes; the counter's distance to the live references is kept |
| QTimers.Scheduler.DeferRest | lib/qtimers.js:217-225 | on a throw, the counter drops by the given amount and the rest of the list joins the pending items for a later tick |
| QTimers.Scheduler.RunShifted | lib/qtimers.js:214-228 | one loop turn: an item whose callback is cleared is skipped, with the table and the index unchanged; a run item re-arms exactly when `Rearms` holds and is pushed at its advanced expiry after the items re-armed before it; it adds its reference to `refCount` unless it throws |
| QTimers.Scheduler.RunLive | lib/qtimers.js:217-228 | a shifted item whose callback is present runs: it throws exactly when it is in `fails`; if it returns it adds its reference to `refCount`; the loop state moves on by it |
| QTimers.Scheduler.RunTasks | lib/qtimers.js:214-229 | items are shifted in order until the list is empty or a callback throws; exactly the returning interval items run are re-armed, each once, pending again, and the index is the old one with them pushed at their new expiries in run order; `refCount` counts the referenced items that ran; every run item before the failing one returned |
| QTimers.Scheduler.ProcessTasklist | lib/qtimers.js:207-233 | the index becomes the old one with the re-armed items pushed at their new expiries in run order; the pending items become the old ones plus the re-armed ones plus the rest not run, as multisets; without error `refCount` is the count of the whole list and nothing is deferred; on a throw the counter settles the prefix and the failing item, the rest is queued as the last deferred entry, and the error is the failing item; every item run before the error had no callback or one that returned; the error is the last item run, in `fails`, with its callback present (`StoppedAt`) |
| QTimers.Scheduler.TakeNextBucket | lib/qtimers.js:269-272 | the earliest key leaves the heap, its slot is reset, and its bucket leaves the pending items; the key is below every remaining key |
| QTimers.Scheduler.Uncount | lib/qtimers.js:274 | `pendingTimeouts -= refCount` changes only the counter |
| QTimers.Scheduler.DrainNextBucket | lib/qtimers.js:269-274 | one exact `Step`: the bucket taken is the one of the head key and its items all expire there; the new index is the old one without that key, with the re-armed items pushed in run order; the pending items plus those run are the old ones plus the re-armed ones; the rest is deferred only on error; the counter keeps its distance to the live references; every item run before the error had no callback or one that returned; the error is the last item run, in `fails`, with its callback present (`StoppedAt`) |
| QTimers.Scheduler.RunBucket | lib/qtimers.js:273-274 | a bucket taken off the index is run; `refCount` is uncounted unless a callback threw, so the counter ends as far above the live references as before the bucket left them; the index is the old one with the re-armed items pushed in run order; every item run before the error had no callback or one that returned; the error is the last item run, in `fails`, with its callback present (`StoppedAt`) |
| QTimers.Scheduler.RereadClock | lib/qtimers.js:275 | re-reading the clock inside the pass changes only the timestamp cache |
| QTimers.Scheduler.DrainTraced | lib/qtimers.js:269-275 | one loop round extends the pass's trace by the head bucket, due at the last reading, and keeps the counter's distance; the trace keeps where the pass stopped: no item run in the pass threw except the error, which is the last item run of the new bucket (`StoppedAt`, `LastFailed`) |
| QTimers.Scheduler.DrainExpired | lib/qtimers.js:266-285 | the pass's trace from the index at the start to the index at the end: each step takes the head bucket, due at the clock reading before it, and yields the next snapshot exactly; at most three buckets; a pass that ends early without error leaves no expired key; the cache ends with the last reading and no use; the deferred queue grows only by the rest of a failed bucket; in the trace, every bucket before the last ran whole, no item run threw except the error, and the error is the last item run of the last bucket, whose rest is deferred (`LastRest`, `StoppedAt`, `LastFailed`) |
| QTimers.Scheduler.ProcessTimeoutTasks | lib/qtimers.js:265-289 | the same trace and cache as `DrainExpired`; a pass that reached the third bucket starts a catch-up timer; without error the timer stops when no referenced timeout and no immediate is left; the counter keeps its distance to the live references; the same stopping facts as `DrainExpired`: no item run threw except the error, which is the last item run of the last bucket |
| QTimers.Scheduler.SettleTimer | lib/qtimers.js:278-288 | a pass that reached the third bucket without error starts one catch-up timer; without error the timer stops when no referenced timeout and no immediate is left, and otherwise keeps its state |
| QTimers.Scheduler.TakeDeferred | lib/qtimers.js:225 | the continuation's list leaves the front of the deferred queue and the pending items, which held it as often as the list and the rest together |
| QTimers.Scheduler.RunDeferred | lib/qtimers.js:225 | the continuation as written: the deferred queue loses its head and gains the rest only on error; the index is the old one with the re-armed items pushed in run order; pending items as for a tasklist; without error the counter ends `refCount` above its old distance to the live references; every item run before the error had no callback or one that returned; the error is the last item run, in `fails`, with its callback present (`StoppedAt`) |
| QTimers.Scheduler.RunDeferredSettled | lib/qtimers.js:225 | the continuation that uncounts what it ran: the same queue, index and pending items as `RunDeferred`, and it keeps `Counted()`; every item run before the error had no callback or one that returned; the error is the last item run, in `fails`, with its callback present (`StoppedAt`) |
| QTimers.Scheduler.ShiftImmediate | lib/qtimers.js:246 | `list.shift()` removes the head of the immediate list |
| QTimers.Scheduler.RunImmediates | lib/qtimers.js:242-250 | at most `maxTickDepth` items leave the front of the list in FIFO order, cleared ones included; every run item before a failing one returned; a callback error stops the loop at once |
| QTimers.Scheduler.ProcessImmediateTasks | lib/qtimers.js:237-259 | the drain flag is cleared exactly when the last guard found no item: the list ran dry before the cap, or the cap is below one |
| QTimers.ClearAfterFiringUndercounts | lib/qtimers.js:147-155 | `clearTimeout` on a one-shot timer that has fired leaves the counter one below the live references |
| QTimers.UnrefAfterFiringUndercounts | lib/qtimers.js:59-60 | `unref` on a one-shot timer that has fired leaves the counter one below the live references |
| QTimers.RefAfterFiringOvercounts | lib/qtimers.js:57-58 | `ref` on an unreferenced one-shot timer that has fired leaves the counter one above the live references |
| QTimers.NullCallbackLeaks | lib/qtimers.js:109-131 | after `setTimeout(null, ms)` and a timeout pass with no error, the counter is one above the live references and cannot reach 0 |
| QTimers.DeferredRunOvercounts | lib/qtimers.js:225 | after the continuation runs a rest holding a referenced item, the counter stays above the live references |

## Left out

- Domains (`_domain`, `process.domain`, `enter`/`exit`, `_disposed`) are not modelled. They only carry the execution context and do not affect the bookkeeping.
- Argument binding through closures and `fn.apply` is not modelled. A callback is an opaque task id.
- Callbacks are not modelled as code. Whether a callback throws comes from the oracle set `fails`. A callback that calls back into the scheduler (re-entrancy) is not modelled.
- The host `Timer` (`timer_wrap`) is not modelled: `start`/`stop` become the `running` flag, and the catch-up `immediateTimer` becomes the `catchUpTimers` count.
- `Date.now()` is not modelled. Clock readings are parameters.
- `process.nextTick` is modelled as the `deferred` queue. Its continuations run only when `RunDeferred` or `RunDeferredSettled` is called.
- `process._immediateCallback` is not modelled. `process._needImmediateCallback` is a field.
- The internals of `qheap` and `qlist` are not part of this model. The heap is a strictly increasing sequence of keys, and a list is a sequence with push and shift.
- JS numeric coercion of `ms` is not modelled: NaN, strings and fractions. Delays are integers. A delay out of range falls back to `MIN_TIMEOUT`, as a NaN delay does in the source.
- The `maxTickDepth` setter is not modelled. `maxTickDepth` is a field set to 10 by the constructor and never changed.
- `index.js` (`install`/`uninstall`) is not part of this model. It only patches global functions.
- The re-arm of an interval inside a pass starts a stopped timer with the reading `now` passed to the pass's tasklist, not with a fresh clock reading.
- QTimers.Scheduler.InvokeTimeoutCallback: a callback that throws a falsy value (`throw 0`, `null`, `undefined`) is not modelled. The source reads such a throw as a return (lib/qtimers.js:217), but a thrown interval callback still skips its re-arm. `fails` stands only for truthy throws.
- QTimers.Scheduler.RunImmediates: the same falsy throw is not modelled; the source reads it as a return and goes on with the loop (lib/qtimers.js:248).
- QTimers.Scheduler.SetInterval: it takes a present callback only. `setInterval(null, ms)` stores a truthy wrapper (lib/qtimers.js:165) whose call of `null` throws a `TypeError` at the first firing; the model expresses that item by putting it in `fails`.
- QTimers.Scheduler.ProcessTimeoutTasks: when the timer is not stopped, the contract says it is left as the drain left it. It does not state what the drain did to it.
- QTimers.Scheduler.DrainExpired: it does not state that keys are drained in increasing order across the pass, because an interval with a negative `_interval` re-arms at an earlier key. Each key is stated to be the head of the heap at the moment it was taken.

## Findings

| source | as written | input that shows it | evidently intended | confidence | as-written member | corrected member |
|---|---|---|---|---|---|---|
| lib/qtimers.js:147-155 | `clearTimeout` calls `unref` on any item with a callback, including a one-shot timer that has already fired; the tasklist already uncounted that item when it ran, so `pendingTimeouts` drops a second time | `t = setTimeout(f, 1)`, let it fire, then `clearTimeout(t)`: the counter ends one below the live references, so the timer can stop while referenced timeouts are still pending | clearing an item that is no longer pending leaves the counter alone | not executed | QTimers.ClearAfterFiringUndercounts | QTimers.Scheduler.ClearTimeoutChecked |
| lib/qtimers.js:59-60 | `unrefItem` uncounts any referenced item with a callback, including a one-shot timer that has already fired and was uncounted by the drain | `t = setTimeout(f, 1)`, let it fire, then `t.unref()`: the counter ends one below the live references | `unref` on an item that is no longer pending leaves the counter alone | not executed | QTimers.UnrefAfterFiringUndercounts | QTimers.Scheduler.UnrefItemChecked |
| lib/qtimers.js:57-58 | `refItem` counts any unreferenced item with a callback, including a one-shot timer that has already fired, which no drain will uncount again | `t = setTimeout(f, 1); t.unref()`, let it fire, then `t.ref()`: the counter stays one above the live references, so the timer never stops | `ref` on an item that is no longer pending leaves the counter alone | not executed | QTimers.RefAfterFiringOvercounts | QTimers.Scheduler.RefItemChecked |
| lib/qtimers.js:109-131 | `setTimeout(null, ms)` stores a null `_callback` in a referenced item and counts it; the drain skips it without uncounting it, and `clearTimeout` and `unref` ignore it | `setTimeout(null, 5)`: after the pass that drains it, the counter is one above the live references and never reaches 0, so the timer never stops | an item without a callback is not counted | not executed | QTimers.NullCallbackLeaks | QTimers.Scheduler.SetTimeoutChecked |
| lib/qtimers.js:225 | the `process.nextTick` continuation `function(){ _processTasklist(list) }` discards the returned `refCount`, so the referenced items it runs stay counted | a bucket `[a, b]` of referenced one-shot timers where `a` throws: `b` runs in the continuation and the counter stays one too high, so the timer keeps running with no referenced timeout left | the continuation subtracts its `refCount`, as `_processTimeoutTasks` does at line 274 | not executed | QTimers.DeferredRunOvercounts | QTimers.Scheduler.RunDeferredSettled |
