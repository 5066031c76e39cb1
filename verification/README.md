# springsteel core: impulse streams and the glib idle-loop executor

This project is a Dafny model of the two runtime components of springsteel, a
library for writing GTK user interfaces as futures and streams. The model
proves properties of both components.

- **`ImpulseStream`** (`impulse_stream.dfy`). This is an infinite, payload-free
  stream. `trigger` counts one more impulse and wakes the waker parked in the
  stream, if there is one. `poll_next` hands out one pending impulse, or parks
  the caller's waker and pends. `triggerer` wraps `trigger` in a callback that
  ignores its argument. The shared `ImpulseStreamInner` is modelled as an
  immutable record `Inner(pending, waker)`, and each operation is a pure
  transition function. The lemmas in this module run over traces of
  trigger/poll calls.
- **The glib executor** (`main_loop.dfy`, `glib_future.dfy`,
  `glib_future_traces.dfy`). `glib_run_future` wraps a future in an
  `Arc<Mutex<GlibWaker>>` and calls `glib_waker_schedule`. That registers at
  most one idle source per task with the glib main loop. Each idle invocation
  runs `glib_waker_step`, which polls the future once with a freshly built
  waker and returns a `Continue` flag.
  - The main loop is a map from live source ids to the task whose step they
    run (`MainLoop.Host`). `idle_add_local` hands out a fresh id. The loop
    keeps a source or removes it according to the returned flag.
  - A task cell (`GlibFuture.Cell`) holds:
    - the recorded source id (`pending_idle_opt`);
    - the `Arc` strong count as an integer;
    - the mutex as a `locked` flag;
    - the number of waker handles held outside the executor;
    - the future's own state, reduced to `completed` and a poll count.
  - The future is an oracle. Each main-loop invocation names a `PollOutcome`:
    Ready or Pending, how many clones of the context waker the future keeps,
    and whether it wakes its own waker during the poll.
  - The waker vtable becomes four functions on the world: `CloneWaker`,
    `Wake`, `WakeByRef` and `DropWaker`. Each states its exact strong-count
    effect.
  - Two faults are explicit `Failure` results:
    - `LockReentry`: `glib_waker_schedule` locks the non-reentrant mutex that
      the step holds during its poll.
    - `PolledAfterCompletion`: a future that has returned `Ready` is polled
      again.

The central invariant is `GlibFutureTraces.Inv`. Every event preserves it, and
it states the following:
- A cell's strong count is exactly its outstanding waker handles plus one for
  the step closure of its live idle source.
- Every live source runs a live task that records that source, so a task has
  at most one source.
- Ids are handed out fresh.
- A recorded source that is no longer live belongs to a completed future.

The trace lemmas build on this invariant: wakes coalesce into at most one
registration, wakes are never lost, and the corrected executor never faults
unless a future wakes itself mid-poll.

The step hands the loop `Continue(cont)` with `cont` true exactly on `Ready`
(src/glib_future.rs:95-99):
- A pending poll clears `pending_idle_opt` and returns `Continue(false)`. The
  source is removed, and the next wake registers a new one.
- A ready poll returns `Continue(true)`. The source stays live and the marker
  stays set.

`GlibFuture.Rule` selects between the step as written and a corrected step.
The difference is recorded under Findings below.

## Model

| member | source | states |
|---|---|---|
| ImpulseStream.New | src/impulse_stream.rs:46-53 | a fresh stream has nothing pending and no waker parked (so, by `Trigger`, its first trigger wakes no one); it is valid, and any first poll pends and parks the poller's waker |
| ImpulseStream.Trigger | src/impulse_stream.rs:55-62 | pending grows by exactly one; the parked waker (if any) is taken out and woken once, leaving the slot empty; the next poll, by any consumer, delivers an item |
| ImpulseStream.Triggerer | src/impulse_stream.rs:64-70 | the callback has exactly the effect of `trigger` on the stream, whatever argument it is called with |
| ImpulseStream.PollStream | src/impulse_stream.rs:76-85 | ready with `Some(())` exactly when an impulse is pending (one is consumed, waker slot untouched); otherwise `Pending` with the caller's waker parked (replacing any other) and pending still 0; never `Ready(None)`; keeps the parked-waker-implies-idle invariant |
| ImpulseStream.Conservation | src/impulse_stream.rs:56-62 | over any trace, items delivered plus impulses still pending equal the impulses initially pending plus the triggers issued: nothing lost, nothing duplicated |
| ImpulseStream.RunKeepsValid | src/impulse_stream.rs:57-61 | every state a trace reaches keeps "a parked waker implies pending == 0" |
| ImpulseStream.NeverEnds | src/impulse_stream.rs:37-38 | no poll in any trace is answered `Ready(None)`: the stream is infinite |
| ImpulseStream.WakesNeverExceedParks | src/impulse_stream.rs:59-61 | wakes plus the waker still parked never exceed the pending polls that parked wakers: each wake uses up one earlier park |
| ImpulseStream.PollReadyIffOwed | src/impulse_stream.rs:78-84 | on a stream made by `new`, a poll is ready iff earlier triggers outnumber earlier deliveries, and pends iff they are equal |
| ImpulseStream.WakeThenDeliver | src/impulse_stream.rs:59-61 | a poll that pends parks its waker; the next trigger wakes exactly that waker; the poll after it is ready and leaves a fresh-stream state |
| MainLoop.IdleAdd | src/glib_future.rs:111 | the registered source gets an id no live source has, runs the given step, and nothing else in the loop changes |
| MainLoop.AfterInvoke | src/glib_future.rs:99 | `Continue(true)` keeps the source; `Continue(false)` removes exactly that source |
| GlibFuture.Schedule | src/glib_future.rs:105-112 | no-op when a source is recorded; otherwise registers exactly one source for this task, records its id and adds the closure's strong reference; a fault exactly when the cell's mutex is already held |
| GlibFuture.ScheduleIdempotent | src/glib_future.rs:107-109 | scheduling right after a schedule changes nothing |
| GlibFuture.RunFuture | src/glib_future.rs:27-35 | adds one new task, with no other task touched, exactly one fresh idle source registered for it, strong count 1 (the step closure's), not yet polled |
| GlibFuture.CloneWaker | src/glib_future.rs:69-86 | strong count +1 for one more handle to the same task; every other field of the cell, every other task and the loop are untouched |
| GlibFuture.DropWaker | src/glib_future.rs:149-158 | strong count −1, one handle fewer, no scheduling, every other field of the cell and every other task untouched; the last reference frees the cell |
| GlibFuture.Wake | src/glib_future.rs:116-129 | schedules, then gives up the handle: strong count −1 plus the reference of a registration, if one was made; with no source recorded it registers exactly one new source for this task, records exactly the id the loop handed out; with one recorded the loop and the marker are untouched; the cell is freed iff no reference remains; mutex, completion and poll count of the cell, and every other task, are unchanged; a fault exactly when the mutex is held |
| GlibFuture.WakeByRef | src/glib_future.rs:133-146 | schedules keeping the handle: strong count unchanged except for a new registration's reference; with no source recorded it registers exactly one new source for this task and records exactly that id, with one recorded nothing changes; handles, mutex, completion and poll count of the cell, and every other task, are unchanged; afterwards a source is recorded |
| GlibFuture.Step | src/glib_future.rs:90-101 | polls exactly once, with a fresh waker of the same task (clones it keeps count as handles of this task); a pending poll clears the recorded source, a ready one keeps it; a self-wake during the poll is a lock re-entry fault; polling a completed future is a fault |
| GlibFuture.Dispatch | src/glib_future.rs:90-101 | after the step, the source stays live iff the step runs as written and the poll was ready; no registration happens and every other source and task is unchanged; the task's strong count gains the kept clones and, when the source is removed, loses the step closure's reference, the cell being freed iff nothing else holds it; the task was polled once, its mutex is released, and its marker is cleared iff the poll pended |
| GlibFutureTraces.DispatchKeepsInv | src/glib_future.rs:92-99 | a dispatch keeps refcount balance and source bookkeeping; corrected, it faults iff the future wakes itself mid-poll |
| GlibFutureTraces.ScheduleKeepsInv | src/glib_future.rs:105-112 | scheduling between steps never faults and keeps the invariant |
| GlibFutureTraces.WakeKeepsInv | src/glib_future.rs:126-128 | a wake between steps never faults and keeps refcount balance |
| GlibFutureTraces.DropKeepsInv | src/glib_future.rs:156-157 | dropping a handle keeps refcount balance; a freed cell leaves no live source behind |
| GlibFutureTraces.RunKeepsInv | src/glib_future.rs:105-157 | every world any trace reaches keeps refcount balance (strong = handles + live step closure), at most one live source per task, and fresh ids |
| GlibFutureTraces.WakesRegisterAtMostOnce | src/glib_future.rs:105-111 | any number of clone/wake/wake_by_ref/drop calls between two steps register at most one idle source, and none when one is recorded |
| GlibFutureTraces.WakeLeavesLiveSource | src/glib_future.rs:107-111 | after either kind of wake (`wake` or `wake_by_ref`) of an unfinished task, the task is still alive and a live idle source runs its step: no lost wake-up |
| GlibFutureTraces.PendingStepThenWakeRegistersAgain | src/glib_future.rs:95-99 | a pending step clears the marker and its source is removed; the next wake registers a different source for the task |
| GlibFutureTraces.AsWrittenReadyKeepsSource | src/glib_future.rs:95-99 | as written, a ready step keeps its source and marker; later wakes register nothing, and the loop's next invocation polls the completed future (fault) |
| GlibFutureTraces.AsWrittenPollsCompletedFuture | src/glib_future.rs:95-99 | submit, ready poll, next invocation: the as-written executor polls the completed future |
| GlibFutureTraces.CorrectedReadyRetiresSource | src/glib_future.rs:95-99 | corrected, a ready step removes its source and keeps the marker, so later wakes register nothing; the cell is freed iff no handle remains |
| GlibFutureTraces.CorrectedRetiresCompletedFuture | src/glib_future.rs:95-99 | the same trace on the corrected executor ends with no source and the cell freed |
| GlibFutureTraces.CorrectedNeverFaults | src/glib_future.rs:90-112 | corrected, a trace whose futures never wake themselves mid-poll never faults |
| GlibFutureTraces.CorrectedCompletedStaysUnpolled | src/glib_future.rs:23 | corrected, a completed future is never polled again |

## Left out

- ImpulseStream.Trigger: `pending` is a `usize` in the source. The model uses an unbounded `nat` and does not model overflow after 2^64−1 undelivered impulses.
- The `RefCell` borrow of the impulse stream is not modelled. `trigger` wakes the parked waker while holding the borrow, so a waker that polled the same stream synchronously would panic. Wakers are identities here and do nothing when woken.
- The raw-pointer mechanics (`glib_raw_waker`, `glib_waker`, `RawWakerVTable`, `Arc::into_raw`/`from_raw`) are left out. Only their strong-count effects are modelled.
- Threads are left out. The `Arc`'s atomicity and the mutex are modelled sequentially: the mutex is a `locked` flag, and re-entry is the `LockReentry` fault. Concurrent wakes from other threads while a step runs are not interleaved.
- The concrete future is an oracle (`PollOutcome`), chosen per invocation. A future that wakes a *different* task during its poll is expressed as separate wake events. `keptClones` is a `nat`, so a poll never drops handles of its own task it already held (as `poll_next` does when it replaces a parked waker, or a completing future does with its sub-futures' wakers); such drops are expressed as `DropOf` events next to the `Fire`.
- The loop's choice of which live source to invoke next, and its priorities, are left out. Any live source may be invoked at any event.
- A synchronous self-wake during a poll (`wake_by_ref` on the context waker before returning) ends the trace with `LockReentry`. The source's `std::sync::Mutex` may panic or deadlock there. The model does not distinguish the two.
- `src/constraint_macros.rs`, `src/constraint_view.rs`, `src/bin/springsteel-workbench.rs` and `src/lib.rs` are not part of this model. They are GTK widget plumbing, a compile-time macro producing foreign constructor calls, application wiring, and re-exports.

## Findings

| source | as written | input that shows it | evidently intended | confidence | as-written member | corrected member |
|---|---|---|---|---|---|---|
| src/glib_future.rs:95-99 | `cont` is true exactly when the poll is `Ready`, and the step returns `Continue(cont)`. The main loop therefore keeps a completed task's idle source and invokes the step again, which polls a future that already returned `Ready`. That breaks the `Future` contract, and many futures panic when this happens. | `glib_run_future` of a future that is ready on its first poll; the loop invokes the source, then invokes it again | "run the future until it becomes Ready" (line 23): stop invoking the step once the poll is `Ready`, i.e. return `Continue(false)`, keeping the recorded id so stale wakes register nothing | high, not executed | GlibFutureTraces.AsWrittenPollsCompletedFuture | GlibFutureTraces.CorrectedCompletedStaysUnpolled |
