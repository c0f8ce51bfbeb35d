# Session state of the voice-agent completion server, in Dafny

This project models the session-state layer of the completion server as four
small state machines. Each is a set of pure transitions over immutable data,
with proofs about it:

- **SessionStore** (`session_store.dfy`, facts in `session_store_facts.dfy`)
  models the per-call store of `completion-server/session-store/index.ts`. It
  covers:
  - the two-slot parking lot for out-of-band system and human turns, and how
    it is drained;
  - `setContext`, a shallow merge that reports exactly the changed top-level
    keys, does nothing when nothing changed, and can forward the keys to the
    publisher;
  - the handlers that apply remote context changes while ignoring local echoes;
  - the constructor's wiring from turn events to publisher tasks.

  A transition returns the new store, the events emitted, the calls into the
  turn store, and the keys handed to the publisher.
- **SyncQueue** (`sync_queue.dfy`, facts in `sync_queue_facts.dfy`) models the
  per-entity publisher `SyncQueueService`. There are two implementations:
  - `Current`, in `completion-server/session-store/sync-queue.ts`;
  - `Legacy`, the older class in `completion-server/session-store/sync.ts`.

  The publisher keeps a registry of single-concurrency priority queues, keyed
  by `callSid:context:key` and `callSid:turn:id`, plus a per-key coalescing
  counter. An explicit `Step` runs the task in flight against a remote map.
  It takes the local state as it stood when the task started and the remote's answer.
  It also runs the submitter's continuation: error logging and `cleanupQueue`.
- **SyncClient** (`sync_client.dfy`, facts in `sync_client_facts.dfy`) models
  two parts of `completion-server/session-store/sync.ts`:
  - The handoff cache, whose entries are claimed once by `getSyncClient` or
    evicted by their timer. The timer is an explicit event.
  - The connection promise of a new client, which settles at most once.
- **Versioned** (`versioned.dfy`, facts in `versioned_facts.dfy`) models the
  proxy built by `createVersionedObject` in `lib/events.ts`. It is an
  operation `Handle` on an immutable tree. The operation takes one trap
  invocation, addressed by its path from the root:
  - a read;
  - a write;
  - a deletion;
  - a call of one of the seven array mutators.

  It returns the new root, the number of updates emitted and the reply.
  `versioned_as_written.dfy` models two behaviours of the same file as the
  code is written (see Findings). It relates each to the corrected model.

`values.dfy` holds the shared JavaScript value type: `undefined` and `null`
are distinct, and numbers are integers.

Two properties are stated about the code as written rather than fixed:

- The coalescing counter `queueCounts` is read, decremented and deleted, but
  nothing in either implementation ever increments it.
  `SyncQueueFacts.CountersStayEmpty` and `SyncQueueFacts.BurstWritesEveryTime`
  state the consequence: every update task writes. The comment on the counter
  (sync-queue.ts:30) says that all queued updates but the last are skipped,
  which would need the counter to be raised once per submission. The model
  follows the code. `SyncQueueFacts.SeededCounterCoalesces` shows what that
  intended mechanism would give.
- In sync-queue.ts, `updateContext` returns before `cleanupQueue` after a
  not-found error, so an idle queue can stay registered
  (`SyncQueueFacts.NotFoundLeavesIdleQueueRegistered`).

## Model

| member | source | states |
|---|---|---|
| SessionStore.NewStore | completion-server/session-store/index.ts:31-55 | The store starts with the given context (or `{}`) and an empty parking lot. Every key of the initial context is handed to the publisher. |
| SessionStore.TurnEventTask | completion-server/session-store/index.ts:47-50 | `turnAdded` becomes an add task for the same turn, `turnDeleted` a delete and `turnUpdated` an update, each carrying the same turn id. |
| SessionStore.AddParkingLotItem | completion-server/session-store/index.ts:83-91 | A supplied item replaces the pending item of its kind; the other slot and the context are untouched. `tryCompletion` is emitted exactly once, even when nothing was supplied. |
| SessionStore.InsertParkingLot | completion-server/session-store/index.ts:94-106 | Both slots end empty. The turn store receives one call per filled slot, with that slot's item. Every system call comes before every human call. |
| SessionStore.ChangedKeys | completion-server/session-store/index.ts:116-121 | The reported keys lie within the two contexts' keys. They are empty exactly when the contexts are equal. |
| SessionStore.SetContext | completion-server/session-store/index.ts:111-124 | The new context is the old one overridden by the update's keys. Nothing is emitted exactly when that equals the old context. Otherwise one `contextUpdated` carries the new context, the old one and the changed keys, and those keys go to the publisher only when `sendToSync` holds. |
| SessionStore.OnContextMapEvent | completion-server/session-store/index.ts:60-76 | Local echoes change nothing. A remote add or update sets the key to the remote data and a remote removal sets it to `undefined`. Nothing is sent back to the publisher. |
| SessionStoreFacts.ParkThenInsertOrder | completion-server/session-store/index.ts:83-106 | Parking a system item and a human item, then draining, hands the turn store exactly the system item and then the human item. |
| SessionStoreFacts.ParkingIsLastWriteWins | completion-server/session-store/index.ts:87-88 | Only the last parked system item reaches the turn store. |
| SessionStoreFacts.SecondInsertAddsNothing | completion-server/session-store/index.ts:95-102 | A drain right after a drain adds no turns and changes nothing. |
| SessionStoreFacts.EmptyParkStillRequestsCompletion | completion-server/session-store/index.ts:90 | A park with neither item still asks for a completion, and the next drain adds only what was pending before. |
| SessionStoreFacts.MergeChangesOnlyUpdatedKeys | completion-server/session-store/index.ts:114-121 | The keys a merge changes are exactly the update's keys whose value is new. |
| SessionStoreFacts.SetContextNoOpIff | completion-server/session-store/index.ts:116-117 | `setContext` is a no-op if and only if every key of the update already holds the update's value. |
| SessionStoreFacts.SetContextIdempotent | completion-server/session-store/index.ts:111-124 | Applying the same update a second time changes and emits nothing. |
| SessionStoreFacts.PublishedKeys | completion-server/session-store/index.ts:121-123 | The keys sent to the publisher are exactly the update's keys with a new value when `sendToSync` holds, and none otherwise. |
| SessionStoreFacts.EchoIsQuiet | completion-server/session-store/index.ts:60-76 | A remote change carrying the value already held changes and emits nothing. This breaks the publish and echo loop. |
| SessionStoreFacts.RemoteChangeNotifiesListeners | completion-server/session-store/index.ts:71-75 | A remote update with a new value is reported locally with exactly its key and is not published back. |
| SyncQueue.InsertIndex | completion-server/session-store/sync-queue.ts:169-177 | A task of priority p is inserted after every waiting task of priority at least p and before the first of lower priority. |
| SyncQueue.InsertByPriority | completion-server/session-store/sync-queue.ts:169-177 | Insertion keeps every waiting task and adds exactly the new one. |
| SyncQueue.Advance | completion-server/session-store/sync-queue.ts:215-219 | A queue runs one task at a time. When the task in flight completes, p-queue starts the head of the waiting list at once: the run order loses exactly its first task and keeps the rest in place. A queue with nothing in flight has nothing waiting. |
| SyncQueue.NewService | completion-server/session-store/sync-queue.ts:29-31 | A new publisher has no queues and no counters. |
| SyncQueue.GetQueue | completion-server/session-store/sync-queue.ts:215-249 | A registered key gets its queue with nothing changed. A new key gets exactly one new idle queue, registered under it. |
| SyncQueue.CleanupQueue | completion-server/session-store/sync-queue.ts:251-256 | The entry is removed if and only if its queue is idle; otherwise the registry is unchanged. |
| SyncQueue.Submit | completion-server/session-store/sync-queue.ts:92-99 | A submission touches only the queue of its own key and leaves the counters alone. That queue becomes the old one, or a new idle one when none is registered, with the task added as `queue.add` adds it. |
| SyncQueue.Execute | completion-server/session-store/sync-queue.ts:99-118 | Additions and deletions of turns never touch the counter and always write. Only context updates can warn about a non-object value. |
| SyncQueue.Step | completion-server/session-store/sync-queue.ts:92-135 | With nothing in flight nothing happens. Otherwise the key's queue has one task less, even after a failure, and other queues are untouched. No counter grows. The remote changes only by the attempted write and only on success. A failure is reported exactly when a write was attempted and failed. |
| SyncQueueFacts.SameQueueIffSameEntity | completion-server/session-store/sync-queue.ts:137-166 | Two tasks of a call share a queue if and only if they publish the same context field or the same turn. |
| SyncQueueFacts.InsertKeepsSorted | completion-server/session-store/sync-queue.ts:169-177 | Insertion keeps the waiting tasks ordered by non-increasing priority. |
| SyncQueueFacts.EnqueueKeepsWellFormed | completion-server/session-store/sync-queue.ts:215-224 | A submission keeps each queue sorted, and nothing waits while nothing runs. |
| SyncQueueFacts.SubmitRunsInArrivalOrder | completion-server/session-store/sync-queue.ts:92-99 | An update or deletion is run after every task its key's queue already holds, and the order of those tasks is unchanged. |
| SyncQueueFacts.StepRunsNextInLine | completion-server/session-store/sync-queue.ts:215-219 | A step runs the task at the head of the queue's order, and the queue left behind runs the rest of that order. |
| SyncQueueFacts.StepKeepsOnlyContextUpdates | completion-server/session-store/sync-queue.ts:92-135 | A queue holding only updates of one context field still holds only those after one of them runs. |
| SyncQueueFacts.DefaultPriorityIsFifo | completion-server/session-store/sync-queue.ts:195-198 | An update or deletion starts at once on an idle queue, otherwise it joins the end. |
| SyncQueueFacts.AddTurnOvertakesDefault | completion-server/session-store/sync-queue.ts:169-177 | A new turn overtakes every waiting update and deletion, but neither earlier additions nor the task in flight. |
| SyncQueueFacts.UpdateSkipsWhileCountAboveOne | completion-server/session-store/sync-queue.ts:100-101 | An update task that finds the counter above 1 decrements it and does no remote work. |
| SyncQueueFacts.ContextUpdatePublishesCurrentValue | completion-server/session-store/sync-queue.ts:103-117 | Otherwise the counter is deleted and the value current when the task starts is published: removed if null or undefined, set otherwise. On success the remote mirrors the local key. A warning comes exactly when the value is not an object. |
| SyncQueueFacts.TurnUpdatePublishesCurrentTurn | completion-server/session-store/sync-queue.ts:143-151 | A turn update deletes the counter and writes the turn current when the task starts. If the turn is gone locally there is no write. |
| SyncQueueFacts.AddAndDeleteAlwaysWrite | completion-server/session-store/sync-queue.ts:164-198 | An addition always stores the turn given at submission. A deletion always removes it. Neither touches the counter. |
| SyncQueueFacts.CountersStayEmpty | completion-server/session-store/sync-queue.ts:100-104 | Starting from no counters, no submission and no step ever creates one. |
| SyncQueueFacts.DrainWrites | completion-server/session-store/sync-queue.ts:100-117 | For n queued updates of one field and a counter c, exactly n - min(n, c - 1) writes are made. The last write leaves the remote mirroring the local value. |
| SyncQueueFacts.SubmitContextUpdate | completion-server/session-store/sync-queue.ts:92-99 | One more update of a field joins that field's queue, which then has one more task. |
| SyncQueueFacts.BurstQueuesAll | completion-server/session-store/sync-queue.ts:92-99 | n updates of one field all queue under that field's key. |
| SyncQueueFacts.BurstWritesEveryTime | completion-server/session-store/sync-queue.ts:100-104 | As written, n updates of one field submitted to a new publisher make n remote writes, and the remote ends up mirroring the local value. |
| SyncQueueFacts.SeededCounterCoalesces | completion-server/session-store/sync-queue.ts:30 | Had the counter stood at n for n queued updates, exactly one write would be made, carrying the current value. |
| SyncQueueFacts.ClassifiersMatchTheirCodes | completion-server/session-store/sync-queue.ts:259-277 | "Not found" holds exactly for status 404 with code 54201, and "rate limited" exactly for 429 with 54009. A value that is not an object, or lacks either field, is neither, and no error is both. |
| SyncQueueFacts.FailureSeverity | completion-server/session-store/sync-queue.ts:226-243 | In sync-queue.ts a not-found failure of a context update or turn deletion is only warned about, and a rate limit is logged as a rate-limit error. sync.ts logs every failure as an error twice. |
| SyncQueueFacts.SubmitKeepsNoIdleQueues | completion-server/session-store/sync-queue.ts:215-249 | Submissions never leave an idle queue in the registry. |
| SyncQueueFacts.StepKeepsNoIdleQueues | completion-server/session-store/sync-queue.ts:251-256 | A step leaves no idle queue registered unless the submitter returned before `cleanupQueue`. |
| SyncQueueFacts.LegacyNeverKeepsIdleQueues | completion-server/session-store/sync.ts:210-218 | In sync.ts every submitter reaches `cleanupQueue`, so no idle queue stays registered. |
| SyncQueueFacts.NotFoundLeavesIdleQueueRegistered | completion-server/session-store/sync-queue.ts:119-134 | In sync-queue.ts the last context update failing as not found leaves its idle queue registered. sync.ts removes it. |
| SyncClient.EmptyCache | completion-server/session-store/sync.ts:24-27 | The cache starts empty and consistent with its timers. |
| SyncClient.GetSyncClient | completion-server/session-store/sync.ts:35-48 | Without an entry the claim fails and the cache is unchanged. With one, its client is returned, and the entry and its timer are removed. |
| SyncClient.TimerFires | completion-server/session-store/sync.ts:68-82 | A cleared timer does nothing. A fired timer shuts down the client currently cached for its call, if any, and removes that entry. |
| SyncClient.Register | completion-server/session-store/sync.ts:68-84 | The client is cached under its call with a fresh timer. An earlier entry is overwritten without its timer being cleared. |
| SyncClient.Settle | completion-server/session-store/sync.ts:107 | A pending promise takes the outcome, and a settled one keeps its own. |
| SyncClient.OnClientEvent | completion-server/session-store/sync.ts:112-154 | `connected` sets the flag and resolves. A failure state or connection error rejects only while the flag is unset. `connecting` and token events change nothing. A settled promise never changes. |
| SyncClient.SetupSyncSession | completion-server/session-store/sync.ts:59-87 | The set-up is ready if and only if the connection resolved and both maps were created. Only then is the client cached; otherwise the cache is untouched. |
| SyncClientFacts.ClaimOnce | completion-server/session-store/sync.ts:35-48 | A second claim of the same call fails. |
| SyncClientFacts.RegisterThenClaim | completion-server/session-store/sync.ts:44-45 | A claim right after set-up returns the client and disarms its timer. |
| SyncClientFacts.UnclaimedEntryExpires | completion-server/session-store/sync.ts:68-82 | An unclaimed client is shut down when its timer fires, and a later claim fails. |
| SyncClientFacts.ExpiryStaysWithinItsCall | completion-server/session-store/sync.ts:70-78 | A fired timer only ever shuts down a client of its own call. |
| SyncClientFacts.StaleTimerEvictsNewerClient | completion-server/session-store/sync.ts:68-84 | After two set-ups of one call, the first timer shuts down the second client. |
| SyncClientFacts.SettledStaysSettled | completion-server/session-store/sync.ts:107-155 | Once settled, no later event changes the promise. |
| SyncClientFacts.SettlesAtMostOnce | completion-server/session-store/sync.ts:107-155 | Whatever a prefix of the events settled the promise to is its final state. |
| SyncClientFacts.QuietEventsLeavePending | completion-server/session-store/sync.ts:124-133 | `connecting` and token events alone never settle the promise. |
| SyncClientFacts.ConnectedThenFailureStaysResolved | completion-server/session-store/sync.ts:134-152 | After `connected`, no failure can reject the promise. |
| SyncClientFacts.FailureThenConnectedStaysRejected | completion-server/session-store/sync.ts:140-152 | A failure before `connected` rejects for good. A later `connected` sets the flag but cannot resolve the promise. |
| Versioned.SetElem | lib/events.ts:77-79 | Writing index i gives the array that value at i and keeps every other element. A write past the end lengthens the array. JavaScript leaves holes in between that read as `undefined`; the model stores them as `undefined` values. |
| Versioned.Pushed | lib/events.ts:103-108 | The items follow the old elements, and the new length is returned. |
| Versioned.Popped | lib/events.ts:109-114 | The returned element followed by what is left is the old array. An empty array stays empty and gives `undefined`. |
| Versioned.Shifted | lib/events.ts:115-120 | The returned element before what is left is the old array. An empty array stays empty and gives `undefined`. |
| Versioned.Unshifted | lib/events.ts:121-126 | The items precede the old elements, and the new length is returned. |
| Versioned.Spliced | lib/events.ts:127-134 | The clamped range is returned, and the array is the old prefix, the items, and the old suffix. |
| Versioned.Sorted | lib/events.ts:135-140 | The elements are rearranged in the comparator's order, and the array itself is returned. |
| Versioned.Reversed | lib/events.ts:141-146 | The elements are in reverse order, and the array itself is returned. |
| Versioned.SpliceStart | lib/events.ts:130 | The start lies within the array and is kept when already in range. A negative start counts from the end, down to 0 at most; a start past the end becomes the length. |
| Versioned.SpliceCount | lib/events.ts:130 | The deleted range ends within the array, and an in-range count is kept. A negative count deletes nothing; a count past the end deletes everything from the start on. |
| Versioned.Assign | lib/events.ts:67-79 | The written property takes the value. Every other property of the object keeps its value, and no key is lost. On an array it is the element write of `Versioned.SetElem`. |
| Versioned.Remove | lib/events.ts:87-88 | An object loses exactly the deleted key. An array keeps its length, the slot reads as `undefined`, and every other element is kept. |
| Versioned.ReadProp | lib/events.ts:34-57 | An object property is read as stored, wrapped when structured. On an array exactly the seven mutator names give an intercepting method. `length` reads the array's length. Exactly the eight members an array inherits from `Object.prototype` unchanged read as those. Every other name reads the array's own member. |
| Versioned.Handle | lib/events.ts:29-94 | A read changes nothing and emits nothing. A write of the root's `version` stores the number as given and emits once. Deleting it leaves NaN. Every other write, deletion or mutator call, at any depth, has its effect at its path, bumps the version by one and emits exactly once. |
| VersionedFacts.PutAtFrame | lib/events.ts:34-57 | Replacing the node at one path leaves the node at every path apart from it as it was, present or absent. |
| VersionedFacts.MutationLeavesOtherPathsAlone | lib/events.ts:59-92 | A write, deletion or mutator call changes nothing outside the object it acts on. |
| VersionedFacts.SiblingsKeepTheirValues | lib/events.ts:77-88 | In the object a write or deletion acts on, every other property it already had keeps its value. |
| VersionedFacts.NestedWriteKeepsOtherBranch | lib/events.ts:59-84 | Writing `a.x = 2` on `{a: {x: 1}, b: 7}` gives `a.x` the value 2 and leaves `b` at 7. |
| VersionedFacts.SetThenGet | lib/events.ts:59-84 | A written value reads back as itself, wrapped when it is an object or array. |
| VersionedFacts.DeleteThenGet | lib/events.ts:87-92 | A deleted property reads back as `undefined`. |
| VersionedFacts.PushThenPop | lib/events.ts:103-114 | `push(x)` then `pop()` returns x and restores the data. The version has moved on by two with two updates. |
| VersionedFacts.UnshiftThenShift | lib/events.ts:115-126 | `unshift(x)` then `shift()` returns x and restores the data. |
| VersionedFacts.ReverseTwice | lib/events.ts:141-146 | Reversing twice restores the data. |
| VersionedFacts.SpliceRoundTrip | lib/events.ts:127-134 | Splicing the removed elements back over the inserted ones restores the data, and each call returns what the other inserted. |
| VersionedFacts.SpliceFromEndTakesTail | lib/events.ts:127-134 | `splice(-k, k)` removes and returns the last k elements, or the whole array when it is shorter than k. |
| VersionedFacts.PopOnEmptyStillCounts | lib/events.ts:109-114 | `pop()` on an empty array returns `undefined` and keeps the data, yet still bumps the version and emits once. |
| VersionedFacts.PermutedKeepsMultiset | lib/events.ts:135-140 | Rearranging by a permutation keeps exactly the same elements. |
| VersionedFacts.SortKeepsElements | lib/events.ts:135-140 | Sorting keeps the array's elements; only their order changes. |
| VersionedFacts.ReverseKeepsElements | lib/events.ts:141-146 | Reversing keeps the array's elements. |
| VersionedFacts.VersionCountsMutations | lib/events.ts:81-92 | With the root's `version` left alone, it rises by exactly the number of mutations, and exactly one update is emitted per mutation. |
| VersionedFacts.NaNIsSticky | lib/events.ts:87-89 | A NaN version stays NaN under every trap except a write of the root's `version`. |
| VersionedFacts.DeletedVersionStaysNaN | lib/events.ts:87-92 | After the root's `version` is deleted it stays NaN until a number is written to it. |
| VersionedAsWritten.ReadPropAsWritten | lib/events.ts:102-149 | As written, an array read of a mutator name or of an `Object.prototype` name is answered from the method table. Every other read agrees with `Versioned.ReadProp`. |
| VersionedAsWritten.ReadsDifferExactlyOnOverriddenNames | lib/events.ts:38-45 | The written and corrected reads differ if and only if one of the four names `Array.prototype` overrides (`constructor`, `toString`, `toLocaleString`, `__proto__`) is read on an array. |
| VersionedAsWritten.ToStringOnArrayReadsTheTable | lib/events.ts:38-45 | Reading `toString` on the array `[1, 2]` gives the table's inherited member, not the array's own. |
| VersionedAsWritten.Stored | lib/events.ts:68-76 | An assigned object is stored as a copy that is a proxy of its own; anything else is stored as given. |
| VersionedAsWritten.SetAsWritten | lib/events.ts:59-84 | A write passes through one proxy per stored proxy on its path plus the root's. The version rises once per layer with one update per layer, and the stored node is the assigned value. |
| VersionedAsWritten.DeleteAsWritten | lib/events.ts:87-92 | A deletion likewise counts once per layer, and the property is gone. |
| VersionedAsWritten.RawIsFaithful | lib/events.ts:68-72 | A stored copy holds exactly the assigned data. |
| VersionedAsWritten.StoredIsFaithful | lib/events.ts:68-76 | What the `set` trap stores holds exactly the assigned data. |
| VersionedAsWritten.SetSameDataOtherCount | lib/events.ts:59-84 | The written write stores the same data as `Versioned.Handle`. It counts one extra version step and update for each stored proxy on the path. |
| VersionedAsWritten.DeleteSameDataOtherCount | lib/events.ts:87-92 | The written deletion removes the same property as `Versioned.Handle`, with the same extra count. |
| VersionedAsWritten.AssignedObjectCountsTwice | lib/events.ts:73-76 | After `root.a = {x: 1}`, the write `root.a.x = 2` counts twice, so two mutations move the version by three. |

## Left out

- The turn store (`turn-store.ts`) is not part of this model. Its `addSystem` and `addHumanText` calls are recorded, not performed, and `getTurn` is the `turns` map of `SyncQueue.Local`.
- Remote calls are left out because they are network I/O: `sendNewCallStreamMsg`, `initialize`, `updateCallStatus`, the stream creation, and token creation and refresh (`updateToken`). The token events are kept only as events that leave the connection promise alone.
- p-queue's rate cap of 100 tasks per 1000 ms and its 10 s task timeout are left out because they depend on the clock. Tasks of different queues run independently, and each queue is stepped explicitly.
- Log text and logger calls are left out; a log line is reduced to a severity and what it reports.
- Timers are explicit: a timer firing is the event `SyncClient.TimerFires`, and the 5-minute delay is not modelled.
- Shutting down and unsubscribing a client is reported in `SyncClient.Expiry`, not performed.
- Numbers are integers. Floating point is not modelled, beyond NaN for the version.
- SessionStore.ChangedKeys: the changed keys form a set. deep-diff lists a key once per nested difference and in its own order; its path format is not modelled.
- SessionStore.SetContext: the source hands `updateContext` the top-level key of each deep-diff entry. A key with several nested differences is thus listed several times in `contextUpdated`'s `keys` and published several times, each time a separate remote write because the counter is never raised. The model lists and publishes each changed key once.
- SessionStore.NewStore: the constructor also claims the call's client with `getSyncClient`, which throws when there is none. That claim is modelled separately as `SyncClient.GetSyncClient`.
- SyncQueue.Execute: an addition writes the turn as submitted. The source holds the live turn record, so changes made to it before the write is made would also be written. Values here are immutable.
- SyncQueue.IsNotFound: a thrown `null` passes the `typeof` test, after which the `in` test itself throws a `TypeError`. In sync-queue.ts that happens inside the queue's error listener and inside the `catch` blocks of `updateContext` and `deleteTurn`. Those submitters then neither log nor reach `cleanupQueue`, and their promise rejects. The model treats such an error as neither class: it logs it as an error twice and cleans up.
- SyncQueue.Step: the remote maps are taken as already created. The wait for `ctxMapPromise` and `turnMapPromise`, and its failure, are not modelled.
- SyncQueue.Step: start and finish of a task are one step. `local` stands for the local state when the task started, which for a task submitted to an idle queue is the moment of submission. In the source the counter and the value are read then, before the first `await`, and the warning is logged then, so changes made while the write is in flight are not in that write. The model does not tie `local` to that moment: a caller may pass any state.
- Versioned.Handle: only names are written on objects and only indices on arrays. Writing an array's `length` or a named property of an array, symbols, and numeric-string keys are not modelled.
- Versioned.ReadProp: an object property missing from the record reads as `undefined`. Members inherited by plain objects (such as `toString`) are not modelled.
- Versioned.Spliced: `splice` always has a start and a delete count. The one-argument form (delete to the end) is not modelled.
- Versioned.Sorted: the caller's comparator is given as the order it produces, so its consistency is not modelled.
- Aliasing is not modelled; values are immutable trees. The source copies an assigned object or array one level deep only (`{...value}`, `[...value]`), so nested objects stay shared with the caller. After `v = {inner: {x: 1}}; root.a = v; v.inner.x = 2`, the stored `root.a.inner.x` reads 2, with no version bump and no update emitted. The model has no such sharing: a later change to the caller's value never reaches the store.
- VersionedAsWritten.SetAsWritten: an object or array is assigned only directly under the root's own proxy. Through several layers, each layer copies and wraps again, and that interleaving is not modelled.
- VersionedAsWritten.SetAsWritten: arrays are leaves in the layered tree, so mutator calls through stacked proxies are not modelled. There each element write of an inner layer would count too.

## Findings

| source | as written | input that shows it | evidently intended | confidence | as-written member | corrected member |
|---|---|---|---|---|---|---|
| lib/events.ts:73-76 | The `set` trap stores an assigned object as a copy wrapped in a proxy of its own. Every `get` wraps the value again, so writes below it pass through two layers, and each layer increments the version and emits. | `root.a = {x: 1}` then `root.a.x = 2`: the version rises by 3 with 3 updates for 2 mutations. | Store the plain copy; the `get` trap already wraps on read. Then each mutation counts once. | not executed; high | VersionedAsWritten.AssignedObjectCountsTwice | VersionedFacts.VersionCountsMutations |
| lib/events.ts:102-149 | The array method table is an object literal, so looking up `constructor`, `toString`, `toLocaleString` or `__proto__` finds `Object.prototype`'s members instead of those `Array.prototype` overrides them with. | `root.list = [1, 2]` then `String(root.list)` calls `Object.prototype.toString`, giving "[object Array]" instead of "1,2". | Only the seven own mutator names are intercepted; every other name reads what the array itself holds or inherits. | not executed; high | VersionedAsWritten.ToStringOnArrayReadsTheTable | Versioned.ReadProp |
