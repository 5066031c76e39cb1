/**
  The glib idle-loop executor. `glib_run_future` puts a future into a shared,
  mutex-guarded, reference-counted cell and schedules an idle step for it; each
  step polls the future once with a waker that refers back to the cell; the
  waker's clone / wake / wake_by_ref / drop functions adjust the cell's strong
  count and re-schedule.

  The future itself is an oracle: each step is told what its one poll does
  (`PollOutcome`). The `Arc` is its strong count, the `Mutex` a `locked` flag
  whose re-entry is a fault, and the main loop is `MainLoop.Host`.
 */
module GlibFuture {
  import opened Wrappers
  import opened MainLoop

  /** Identity of one submitted future's cell (one `Arc<Mutex<GlibWaker>>`). */
  type TaskId = nat

  /**
    One task's shared cell. `pendingIdle` is `GlibWaker::pending_idle_opt`;
    `completed` and `polls` stand for the state of the boxed future; `locked`
    is the mutex; `strong` is the `Arc` strong count; `handles` counts the
    wakers for this task held outside the executor (each owns one strong
    reference).
   */
  datatype Cell = Cell(
    pendingIdle: Option<SourceId>,
    completed: bool,
    polls: nat,
    locked: bool,
    strong: nat,
    handles: nat)

  /**
    What one poll of the future does: whether it returns `Ready`, how many
    clones of the context waker it keeps (for instance parked in an
    `ImpulseStream`), and whether it wakes the context waker before returning.
   */
  datatype PollOutcome = PollOutcome(ready: bool, keptClones: nat, selfWake: bool)

  /**
    Faults the executor can run into: locking the cell's mutex on the thread
    that already holds it (`std::sync::Mutex` is not re-entrant), and polling
    a future that has already returned `Ready`.
   */
  datatype Fault = LockReentry | PolledAfterCompletion

  /**
    Which step to run: the step as the source writes it (`Continue(true)` on
    `Ready`), or the corrected step (`Continue(false)` always).
   */
  datatype Rule = AsWritten | Corrected

  /** All live task cells, the main loop, and the id the next submitted task receives. */
  datatype World = World(tasks: map<TaskId, Cell>, host: Host<TaskId>, nextTask: TaskId)

  /** What a step leaves behind: the world and the flag it hands back to the loop. */
  datatype Stepped = Stepped(world: World, cont: Continue)

  /** The initial world: no tasks, no idle sources. */
  function Start(): (w: World)
    ensures |w.tasks| == 0 && |w.host.sources| == 0
    ensures MainLoop.Valid(w.host)
  {
    World(map[], Empty(), 0)
  }

  // ---------------------------------------------------------------------------
  // Scheduling

  /**
    `glib_waker_schedule` found no recorded source: register the task's step
    with the loop (the step closure holds one more strong reference) and record
    the source id it received.
   */
  function Register(w: World, t: TaskId): (r: World)
    requires t in w.tasks
    ensures t in r.tasks && r.tasks[t].pendingIdle.Some?
    ensures MainLoop.Valid(w.host) ==> r.tasks[t].pendingIdle.value !in w.host.sources && MainLoop.Valid(r.host)
    ensures r.host.sources == w.host.sources[r.tasks[t].pendingIdle.value := t]
    ensures r.host.next == w.host.next + 1
    ensures r.tasks == w.tasks[t := w.tasks[t].(pendingIdle := r.tasks[t].pendingIdle, strong := w.tasks[t].strong + 1)]
    ensures r.nextTask == w.nextTask
  {
    var c := w.tasks[t];
    var added := IdleAdd(w.host, t);
    w.(host := added.host, tasks := w.tasks[t := c.(pendingIdle := Some(added.id), strong := c.strong + 1)])
  }

  /**
    `glib_waker_schedule`: lock the cell; if a source is already recorded do
    nothing, otherwise register exactly one. Locking a cell whose mutex is
    already held (by the step polling this task) is a fault.
   */
  function Schedule(w: World, t: TaskId): (r: Result<World, Fault>)
    requires t in w.tasks
    ensures r.Failure? <==> w.tasks[t].locked
    ensures r.Failure? ==> r.error == LockReentry
    ensures !w.tasks[t].locked && w.tasks[t].pendingIdle.Some? ==> r == Success(w)
    ensures !w.tasks[t].locked && w.tasks[t].pendingIdle.None? ==> r == Success(Register(w, t))
  {
    var c := w.tasks[t];
    if c.locked then Failure(LockReentry)
    else if c.pendingIdle.Some? then Success(w)
    else Success(Register(w, t))
  }

  /** Scheduling is idempotent: scheduling again right after a schedule changes nothing. */
  lemma ScheduleIdempotent(w: World, t: TaskId)
    requires t in w.tasks
    ensures Schedule(w, t).Success? ==> t in Schedule(w, t).value.tasks
    ensures Schedule(w, t).Success? ==> Schedule(Schedule(w, t).value, t) == Schedule(w, t)
  {
  }

  /**
    Drop one strong reference to the cell; the last one frees it (the future
    and the cell go away with it).
   */
  function Release(w: World, t: TaskId): (r: World)
    requires t in w.tasks
    ensures w.tasks[t].strong > 1 ==> r.tasks == w.tasks[t := w.tasks[t].(strong := w.tasks[t].strong - 1)]
    ensures w.tasks[t].strong <= 1 ==> r.tasks == w.tasks - {t}
    ensures r.host == w.host && r.nextTask == w.nextTask
  {
    var c := w.tasks[t];
    if c.strong > 1 then w.(tasks := w.tasks[t := c.(strong := c.strong - 1)])
    else w.(tasks := w.tasks - {t})
  }

  /**
    `glib_run_future`: a new cell with no recorded source, scheduled at once,
    after which the temporary `Arc` is dropped. Exactly one idle source is
    registered, and the only strong reference left is the one its step holds.
   */
  function RunFuture(w: World): (r: World)
    requires w.nextTask !in w.tasks
    ensures var t := w.nextTask;
            && t in r.tasks
            && r.tasks.Keys == w.tasks.Keys + {t}
            && (forall u :: u in w.tasks ==> r.tasks[u] == w.tasks[u])
            && r.tasks[t].pendingIdle.Some?
            && r.host.sources == w.host.sources[r.tasks[t].pendingIdle.value := t]
            && (MainLoop.Valid(w.host) ==> r.tasks[t].pendingIdle.value !in w.host.sources)
            && r.host.next == w.host.next + 1
            && r.tasks[t] == Cell(r.tasks[t].pendingIdle, false, 0, false, 1, 0)
    ensures r.nextTask == w.nextTask + 1
  {
    var t := w.nextTask;
    var created := w.(tasks := w.tasks[t := Cell(None, false, 0, false, 1, 0)], nextTask := t + 1);
    var scheduled := Schedule(created, t).value;
    Release(scheduled, t)
  }

  // ---------------------------------------------------------------------------
  // The waker vtable. A waker function can only be called through a waker
  // that exists, so each requires the task to have an outstanding handle.

  /** `glib_waker_clone`: one more handle, one more strong reference. */
  function CloneWaker(w: World, t: TaskId): (r: World)
    requires t in w.tasks && w.tasks[t].handles > 0
    ensures t in r.tasks
    ensures r.tasks[t].strong == w.tasks[t].strong + 1
    ensures r.tasks[t].handles == w.tasks[t].handles + 1
    ensures r.tasks[t].pendingIdle == w.tasks[t].pendingIdle
    ensures r.tasks[t].(strong := w.tasks[t].strong, handles := w.tasks[t].handles) == w.tasks[t]
    ensures r.host == w.host && r.nextTask == w.nextTask
    ensures forall u :: u in w.tasks && u != t ==> u in r.tasks && r.tasks[u] == w.tasks[u]
    ensures r.tasks.Keys == w.tasks.Keys
  {
    var c := w.tasks[t];
    w.(tasks := w.tasks[t := c.(strong := c.strong + 1, handles := c.handles + 1)])
  }

  /** `glib_waker_drop`: the handle goes away with its strong reference; nothing is scheduled. */
  function DropWaker(w: World, t: TaskId): (r: World)
    requires t in w.tasks && w.tasks[t].handles > 0
    ensures w.tasks[t].strong > 1 ==> t in r.tasks && r.tasks[t].strong == w.tasks[t].strong - 1
    ensures w.tasks[t].strong > 1 ==> r.tasks[t].handles == w.tasks[t].handles - 1
    ensures w.tasks[t].strong > 1 ==> r.tasks[t].pendingIdle == w.tasks[t].pendingIdle
    ensures w.tasks[t].strong > 1 ==> r.tasks[t].(strong := w.tasks[t].strong, handles := w.tasks[t].handles) == w.tasks[t]
    ensures w.tasks[t].strong <= 1 ==> t !in r.tasks
    ensures r.host == w.host && r.nextTask == w.nextTask
    ensures forall u :: u in w.tasks && u != t ==> u in r.tasks && r.tasks[u] == w.tasks[u]
    ensures r.tasks.Keys <= w.tasks.Keys
  {
    var c := w.tasks[t];
    Release(w.(tasks := w.tasks[t := c.(handles := c.handles - 1)]), t)
  }

  /**
    `glib_waker_wake_by_ref`: schedule without giving up the handle. The
    strong count changes only by the reference a new registration holds.
   */
  function WakeByRef(w: World, t: TaskId): (r: Result<World, Fault>)
    requires t in w.tasks && w.tasks[t].handles > 0
    ensures r.Failure? <==> w.tasks[t].locked
    ensures r.Success? ==> t in r.value.tasks
    ensures r.Success? ==> r.value.tasks[t].handles == w.tasks[t].handles
    ensures r.Success? ==> r.value.tasks[t].strong == w.tasks[t].strong + (r.value.host.next - w.host.next)
    ensures r.Success? ==> r.value.tasks[t].pendingIdle.Some?
    ensures r.Success? ==>
              r.value.tasks[t].(strong := w.tasks[t].strong, pendingIdle := w.tasks[t].pendingIdle) == w.tasks[t]
    ensures r.Success? && w.tasks[t].pendingIdle.Some? ==> r.value == w
    ensures !w.tasks[t].locked && w.tasks[t].pendingIdle.None? ==>
              && r.value.host.sources == w.host.sources[w.host.next := t]
              && r.value.host.next == w.host.next + 1
              && r.value.tasks[t].pendingIdle == Some(w.host.next)
    ensures r.Success? ==> r.value.nextTask == w.nextTask && r.value.tasks.Keys == w.tasks.Keys
    ensures r.Success? ==> forall u :: u in w.tasks && u != t ==> u in r.value.tasks && r.value.tasks[u] == w.tasks[u]
  {
    Schedule(w, t)
  }

  /**
    `glib_waker_wake`: schedule, then give up the handle and its strong
    reference. Net strong-count change: one less, plus the reference a new
    registration holds.
   */
  function Wake(w: World, t: TaskId): (r: Result<World, Fault>)
    requires t in w.tasks && w.tasks[t].handles > 0
    ensures r.Failure? <==> w.tasks[t].locked
    ensures r.Success? && t in r.value.tasks ==> r.value.tasks[t].handles == w.tasks[t].handles - 1
    ensures r.Success? && t in r.value.tasks ==>
              r.value.tasks[t].strong + 1 == w.tasks[t].strong + (r.value.host.next - w.host.next)
    ensures r.Success? ==> (t in r.value.tasks <==> w.tasks[t].strong + (r.value.host.next - w.host.next) > 1)
    ensures r.Success? && t in r.value.tasks ==> r.value.tasks[t].pendingIdle.Some?
    ensures r.Success? && t in r.value.tasks ==>
              var c := w.tasks[t];
              r.value.tasks[t].(strong := c.strong, handles := c.handles, pendingIdle := c.pendingIdle) == c
    ensures r.Success? && w.tasks[t].pendingIdle.Some? ==> r.value.host == w.host
    ensures r.Success? && w.tasks[t].pendingIdle.Some? && t in r.value.tasks ==>
              r.value.tasks[t].pendingIdle == w.tasks[t].pendingIdle
    ensures !w.tasks[t].locked && w.tasks[t].pendingIdle.None? ==>
              && r.value.host.sources == w.host.sources[w.host.next := t]
              && r.value.host.next == w.host.next + 1
              && (t in r.value.tasks ==> r.value.tasks[t].pendingIdle == Some(w.host.next))
    ensures r.Success? ==> r.value.nextTask == w.nextTask && r.value.tasks.Keys <= w.tasks.Keys
    ensures r.Success? ==> forall u :: u in w.tasks && u != t ==> u in r.value.tasks && r.value.tasks[u] == w.tasks[u]
  {
    var scheduled :- Schedule(w, t);
    var c := scheduled.tasks[t];
    Success(Release(scheduled.(tasks := scheduled.tasks[t := c.(handles := c.handles - 1)]), t))
  }

  // ---------------------------------------------------------------------------
  // The idle step

  /**
    `glib_waker_step`'s closure: lock the cell, build a fresh waker for the
    same task (one more strong reference), poll the future exactly once, clear
    the recorded source if the poll pended, drop the waker and unlock.

    A future that wakes its own task during the poll calls schedule on the
    cell this step holds locked, which is a fault; so is polling a future
    that already returned `Ready`.
   */
  function Step(rule: Rule, w: World, t: TaskId, o: PollOutcome): (r: Result<Stepped, Fault>)
    requires t in w.tasks
    ensures w.tasks[t].locked ==> r == Failure(LockReentry)
    ensures !w.tasks[t].locked && w.tasks[t].completed ==> r == Failure(PolledAfterCompletion)
    ensures !w.tasks[t].locked && !w.tasks[t].completed ==> (r.Failure? <==> o.selfWake)
    ensures !w.tasks[t].locked && !w.tasks[t].completed && o.selfWake ==> r == Failure(LockReentry)
    ensures r.Success? ==>
              var c := w.tasks[t];
              var s := r.value.world;
              && t in s.tasks
              && s.tasks[t].polls == c.polls + 1
              && s.tasks[t].completed == o.ready
              && !s.tasks[t].locked
              && s.tasks[t].strong == c.strong + o.keptClones
              && s.tasks[t].handles == c.handles + o.keptClones
              && (o.ready ==> s.tasks[t].pendingIdle == c.pendingIdle)
              && (!o.ready ==> s.tasks[t].pendingIdle == None)
              && s.host == w.host
              && s.nextTask == w.nextTask
              && s.tasks.Keys == w.tasks.Keys
              && (forall u :: u in w.tasks && u != t ==> s.tasks[u] == w.tasks[u])
    ensures r.Success? ==> (r.value.cont.keep <==> rule == AsWritten && o.ready)
  {
    var c := w.tasks[t];
    if c.locked then Failure(LockReentry)
    else if c.completed then Failure(PolledAfterCompletion)
    else
      var polling := c.(locked := true, polls := c.polls + 1, completed := o.ready,
                        strong := c.strong + 1 + o.keptClones, handles := c.handles + o.keptClones);
      var mid := w.(tasks := w.tasks[t := polling]);
      if o.selfWake then Failure(Schedule(mid, t).error)
      else
        // as written the flag is `matches!(poll, Ready)`; corrected it is always false
        var cont := Continue(rule == AsWritten && o.ready);
        var done := polling.(pendingIdle := if o.ready then c.pendingIdle else None,
                             strong := polling.strong - 1, locked := false);
        Success(Stepped(w.(tasks := w.tasks[t := done]), cont))
  }

  /**
    The main loop invokes live source `id`: run the step of the task it
    belongs to, then keep the source or remove it (dropping the step closure
    and its strong reference) as the returned flag says.
   */
  function Dispatch(rule: Rule, w: World, id: SourceId, o: PollOutcome): (r: Result<World, Fault>)
    requires id in w.host.sources && w.host.sources[id] in w.tasks
    ensures r.Failure? <==> Step(rule, w, w.host.sources[id], o).Failure?
    ensures r.Success? ==> (id in r.value.host.sources <==> rule == AsWritten && o.ready)
    ensures r.Success? ==> r.value.host.next == w.host.next
    ensures r.Success? ==> forall i :: i in r.value.host.sources ==> i in w.host.sources && r.value.host.sources[i] == w.host.sources[i]
    ensures r.Success? ==> forall i :: i in w.host.sources && i != id ==> i in r.value.host.sources
    ensures r.Success? ==> r.value.nextTask == w.nextTask && r.value.tasks.Keys <= w.tasks.Keys
    ensures r.Success? ==> forall u :: u in w.tasks && u != w.host.sources[id] ==> u in r.value.tasks && r.value.tasks[u] == w.tasks[u]
    ensures var t := w.host.sources[id];
            var c := w.tasks[t];
            r.Success? && rule == AsWritten && o.ready ==>
              t in r.value.tasks && r.value.tasks[t].strong == c.strong + o.keptClones
    ensures var t := w.host.sources[id];
            var c := w.tasks[t];
            r.Success? && !(rule == AsWritten && o.ready) ==>
              && (t in r.value.tasks <==> c.strong + o.keptClones > 1)
              && (t in r.value.tasks ==> r.value.tasks[t].strong == c.strong + o.keptClones - 1)
    ensures var t := w.host.sources[id];
            var c := w.tasks[t];
            r.Success? && t in r.value.tasks ==>
              && r.value.tasks[t].polls == c.polls + 1
              && r.value.tasks[t].completed == o.ready
              && !r.value.tasks[t].locked
              && r.value.tasks[t].handles == c.handles + o.keptClones
              && r.value.tasks[t].pendingIdle == (if o.ready then c.pendingIdle else None)
  {
    var t := w.host.sources[id];
    var s :- Step(rule, w, t, o);
    var after := s.world.(host := AfterInvoke(s.world.host, id, s.cont));
    if s.cont.keep then Success(after) else Success(Release(after, t))
  }
}
