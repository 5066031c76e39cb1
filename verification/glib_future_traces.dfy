/**
  Traces of the glib executor: submissions, main-loop dispatches of idle
  sources, and calls on waker handles, with the invariant every reachable
  world keeps and the scheduling and reference-count properties that follow.
 */
module GlibFutureTraces {
  import opened Wrappers
  import opened MainLoop
  import opened GlibFuture

  /** One thing that can happen to the executor. */
  datatype Event =
    | Submit                                        // glib_run_future
    | Fire(source: SourceId, outcome: PollOutcome)  // the loop invokes an idle source
    | CloneOf(task: TaskId)                         // a holder clones a waker
    | WakeOf(task: TaskId)                          // a holder wakes (and gives up) a waker
    | WakeByRefOf(task: TaskId)                     // a holder wakes a waker it keeps
    | DropOf(task: TaskId)                          // a holder drops a waker

  /**
    Apply one event. The loop only invokes live sources and only holders of a
    waker can use it, so an event naming something that does not exist
    changes nothing.
   */
  function Apply(rule: Rule, w: World, e: Event): Result<World, Fault> {
    match e
    case Submit =>
      if w.nextTask in w.tasks then Success(w) else Success(RunFuture(w))
    case Fire(id, o) =>
      if id in w.host.sources && w.host.sources[id] in w.tasks then Dispatch(rule, w, id, o) else Success(w)
    case CloneOf(t) =>
      if t in w.tasks && w.tasks[t].handles > 0 then Success(CloneWaker(w, t)) else Success(w)
    case WakeOf(t) =>
      if t in w.tasks && w.tasks[t].handles > 0 then Wake(w, t) else Success(w)
    case WakeByRefOf(t) =>
      if t in w.tasks && w.tasks[t].handles > 0 then WakeByRef(w, t) else Success(w)
    case DropOf(t) =>
      if t in w.tasks && w.tasks[t].handles > 0 then Success(DropWaker(w, t)) else Success(w)
  }

  /** Apply events in order; the first fault ends the trace. */
  function Run(rule: Rule, w: World, evs: seq<Event>): Result<World, Fault>
    decreases |evs|
  {
    if |evs| == 0 then Success(w)
    else
      var w' :- Apply(rule, w, evs[0]);
      Run(rule, w', evs[1..])
  }

  // ---------------------------------------------------------------------------
  // The invariant

  /** 1 when the source recorded for task `t` is live in the loop, else 0. */
  function Live(w: World, t: TaskId): nat
    requires t in w.tasks
  {
    var p := w.tasks[t].pendingIdle;
    if p.Some? && p.value in w.host.sources then 1 else 0
  }

  /**
    One cell between steps: unlocked; its strong count is exactly its waker
    handles plus the step closure of its live source; a recorded source is
    either live and runs this task, or (only once the future completed) gone.
   */
  ghost predicate CellInv(w: World, t: TaskId)
    requires t in w.tasks
  {
    var c := w.tasks[t];
    && !c.locked
    && c.strong == c.handles + Live(w, t)
    && c.strong > 0
    && (c.pendingIdle.Some? ==> c.pendingIdle.value < w.host.next)
    && (c.pendingIdle.Some? && c.pendingIdle.value in w.host.sources ==> w.host.sources[c.pendingIdle.value] == t)
    && (c.pendingIdle.Some? && c.pendingIdle.value !in w.host.sources ==> c.completed)
    && (c.completed ==> c.pendingIdle.Some?)
  }

  /**
    Every reachable world: source ids are fresh-allocated, task ids too, every
    live source runs a live task that records it (so a task has at most one
    live source), and every cell keeps `CellInv`. With the corrected step no
    live source belongs to a completed future.
   */
  ghost predicate Inv(rule: Rule, w: World) {
    && MainLoop.Valid(w.host)
    && (forall t :: t in w.tasks ==> t < w.nextTask)
    && (forall id :: id in w.host.sources ==>
          w.host.sources[id] in w.tasks && w.tasks[w.host.sources[id]].pendingIdle == Some(id))
    && (forall t :: t in w.tasks ==> CellInv(w, t))
    && (rule == Corrected ==> forall id :: id in w.host.sources ==> !w.tasks[w.host.sources[id]].completed)
  }

  /** The empty world, before any submission, satisfies the invariant. */
  lemma StartInv(rule: Rule)
    ensures Inv(rule, Start())
  {
  }

  /** Submitting a future keeps the invariant: its one source and strong reference are accounted for. */
  lemma RunFutureKeepsInv(rule: Rule, w: World)
    requires Inv(rule, w) && w.nextTask !in w.tasks
    ensures Inv(rule, RunFuture(w))
  {
  }

  /** Cloning a waker keeps strong count and handles in step. */
  lemma CloneKeepsInv(rule: Rule, w: World, t: TaskId)
    requires Inv(rule, w) && t in w.tasks && w.tasks[t].handles > 0
    ensures Inv(rule, CloneWaker(w, t))
  {
  }

  /** Dropping a waker keeps the balance; when the cell is freed no live source refers to it. */
  lemma DropKeepsInv(rule: Rule, w: World, t: TaskId)
    requires Inv(rule, w) && t in w.tasks && w.tasks[t].handles > 0
    ensures Inv(rule, DropWaker(w, t))
  {
  }

  /** Scheduling a task between steps keeps the invariant. */
  lemma ScheduleKeepsInv(rule: Rule, w: World, t: TaskId)
    requires Inv(rule, w) && t in w.tasks
    ensures Schedule(w, t).Success?
    ensures Inv(rule, Schedule(w, t).value)
  {
  }

  /** A wake that keeps its handle never faults between steps and keeps the invariant. */
  lemma WakeByRefKeepsInv(rule: Rule, w: World, t: TaskId)
    requires Inv(rule, w) && t in w.tasks && w.tasks[t].handles > 0
    ensures WakeByRef(w, t).Success?
    ensures Inv(rule, WakeByRef(w, t).value)
  {
  }

  /** A consuming wake never faults between steps and keeps the invariant. */
  lemma WakeKeepsInv(rule: Rule, w: World, t: TaskId)
    requires Inv(rule, w) && t in w.tasks && w.tasks[t].handles > 0
    ensures Wake(w, t).Success?
    ensures Inv(rule, Wake(w, t).value)
  {
  }

  /**
    A dispatch between steps keeps the invariant; with the corrected step it
    never faults unless the future wakes itself during its poll.
   */
  lemma DispatchKeepsInv(rule: Rule, w: World, id: SourceId, o: PollOutcome)
    requires Inv(rule, w) && id in w.host.sources
    ensures w.host.sources[id] in w.tasks
    ensures rule == Corrected ==> (Dispatch(rule, w, id, o).Failure? <==> o.selfWake)
    ensures Dispatch(rule, w, id, o).Success? ==> Inv(rule, Dispatch(rule, w, id, o).value)
  {
    var t := w.host.sources[id];
    var r := Dispatch(rule, w, id, o);
    if r.Success? {
      var v := r.value;
      forall u | u in v.tasks
        ensures CellInv(v, u)
      {
        if u != t {
          assert v.tasks[u] == w.tasks[u] && CellInv(w, u);
        }
      }
    }
  }

  /** Every event keeps the invariant; the corrected executor faults only on a self-wake. */
  lemma ApplyKeepsInv(rule: Rule, w: World, e: Event)
    requires Inv(rule, w)
    ensures Apply(rule, w, e).Success? ==> Inv(rule, Apply(rule, w, e).value)
    ensures rule == Corrected && Apply(rule, w, e).Failure? ==> e.Fire? && e.outcome.selfWake
  {
    match e
    case Submit =>
      if w.nextTask !in w.tasks { RunFutureKeepsInv(rule, w); }
    case Fire(id, o) =>
      if id in w.host.sources { DispatchKeepsInv(rule, w, id, o); }
    case CloneOf(t) =>
      if t in w.tasks && w.tasks[t].handles > 0 { CloneKeepsInv(rule, w, t); }
    case WakeOf(t) =>
      if t in w.tasks && w.tasks[t].handles > 0 { WakeKeepsInv(rule, w, t); }
    case WakeByRefOf(t) =>
      if t in w.tasks && w.tasks[t].handles > 0 { WakeByRefKeepsInv(rule, w, t); }
    case DropOf(t) =>
      if t in w.tasks && w.tasks[t].handles > 0 { DropKeepsInv(rule, w, t); }
  }

  /**
    Reference-count balance, one source per task, fresh ids: every world a
    trace reaches keeps the invariant.
   */
  lemma {:induction false} RunKeepsInv(rule: Rule, w: World, evs: seq<Event>)
    requires Inv(rule, w)
    ensures Run(rule, w, evs).Success? ==> Inv(rule, Run(rule, w, evs).value)
    decreases |evs|
  {
    if |evs| > 0 {
      ApplyKeepsInv(rule, w, evs[0]);
      if Apply(rule, w, evs[0]).Success? {
        RunKeepsInv(rule, Apply(rule, w, evs[0]).value, evs[1..]);
      }
    }
  }

  /** No poll in the trace wakes its own task. */
  predicate NoSelfWake(evs: seq<Event>) {
    forall i :: 0 <= i < |evs| ==> !(evs[i].Fire? && evs[i].outcome.selfWake)
  }

  /**
    With the corrected step, a trace whose futures never wake themselves
    mid-poll never faults: in particular no completed future is polled again.
   */
  lemma {:induction false} CorrectedNeverFaults(w: World, evs: seq<Event>)
    requires Inv(Corrected, w) && NoSelfWake(evs)
    ensures Run(Corrected, w, evs).Success?
    decreases |evs|
  {
    if |evs| > 0 {
      ApplyKeepsInv(Corrected, w, evs[0]);
      assert !(evs[0].Fire? && evs[0].outcome.selfWake);
      assert NoSelfWake(evs[1..]) by {
        forall i | 0 <= i < |evs[1..]|
          ensures !(evs[1..][i].Fire? && evs[1..][i].outcome.selfWake)
        {
          assert evs[1..][i] == evs[i + 1];
        }
      }
      CorrectedNeverFaults(Apply(Corrected, w, evs[0]).value, evs[1..]);
    }
  }

  /**
    With the corrected step a completed future is never polled again: its
    poll count is frozen for the rest of any trace (or its cell is freed).
   */
  lemma {:induction false} CorrectedCompletedStaysUnpolled(w: World, evs: seq<Event>, t: TaskId)
    requires Inv(Corrected, w) && t in w.tasks && w.tasks[t].completed
    requires Run(Corrected, w, evs).Success?
    ensures t in Run(Corrected, w, evs).value.tasks ==>
              Run(Corrected, w, evs).value.tasks[t].polls == w.tasks[t].polls
              && Run(Corrected, w, evs).value.tasks[t].completed
    decreases |evs|
  {
    if |evs| > 0 {
      ApplyKeepsInv(Corrected, w, evs[0]);
      var w' := Apply(Corrected, w, evs[0]).value;
      ApplyKeepsCompleted(w, evs[0], t);
      if t in w'.tasks {
        CorrectedCompletedStaysUnpolled(w', evs[1..], t);
      } else {
        FreedStaysFreed(Corrected, w', evs[1..], t);
      }
    }
  }

  /** One event leaves a completed task's poll count alone under the corrected step. */
  lemma ApplyKeepsCompleted(w: World, e: Event, t: TaskId)
    requires Inv(Corrected, w) && t in w.tasks && w.tasks[t].completed
    requires Apply(Corrected, w, e).Success?
    ensures var w' := Apply(Corrected, w, e).value;
            t in w'.tasks ==> w'.tasks[t].polls == w.tasks[t].polls && w'.tasks[t].completed
  {
  }

  /** A freed task id never comes back: task ids are handed out fresh. */
  lemma {:induction false} FreedStaysFreed(rule: Rule, w: World, evs: seq<Event>, t: TaskId)
    requires Inv(rule, w) && t !in w.tasks && t < w.nextTask
    requires Run(rule, w, evs).Success?
    ensures t !in Run(rule, w, evs).value.tasks
    decreases |evs|
  {
    if |evs| > 0 {
      ApplyKeepsInv(rule, w, evs[0]);
      var w' := Apply(rule, w, evs[0]).value;
      assert t !in w'.tasks && t < w'.nextTask;
      FreedStaysFreed(rule, w', evs[1..], t);
    }
  }

  // ---------------------------------------------------------------------------
  // Scheduling properties

  /** Every event of `evs` is a call on one of task `t`'s wakers. */
  predicate OnlyWakerCalls(evs: seq<Event>, t: TaskId) {
    forall i :: 0 <= i < |evs| ==>
      evs[i] in {CloneOf(t), WakeOf(t), WakeByRefOf(t), DropOf(t)}
  }

  /** The task has a recorded source or is gone: no waker call can register anything. */
  predicate Settled(w: World, t: TaskId) {
    t !in w.tasks || w.tasks[t].pendingIdle.Some?
  }

  lemma ApplyWakerCall(rule: Rule, w: World, e: Event, t: TaskId)
    requires Inv(rule, w)
    requires e in {CloneOf(t), WakeOf(t), WakeByRefOf(t), DropOf(t)}
    ensures Apply(rule, w, e).Success?
    ensures var w' := Apply(rule, w, e).value;
            && w'.host.next <= w.host.next + 1
            && (Settled(w, t) ==> w'.host.next == w.host.next && Settled(w', t))
            && (w'.host.next == w.host.next + 1 ==> e in {WakeOf(t), WakeByRefOf(t)} && Settled(w', t))
            && w'.nextTask == w.nextTask
  {
  }

  /**
    Wakes coalesce: any number of clone / wake / wake_by_ref / drop calls on a
    task's wakers between two steps register at most one idle source, and none
    at all if a source is already recorded.
   */
  lemma {:induction false} WakesRegisterAtMostOnce(rule: Rule, w: World, evs: seq<Event>, t: TaskId)
    requires Inv(rule, w) && OnlyWakerCalls(evs, t)
    ensures Run(rule, w, evs).Success?
    ensures Run(rule, w, evs).value.host.next <= w.host.next + 1
    ensures Settled(w, t) ==> Run(rule, w, evs).value.host.next == w.host.next
    decreases |evs|
  {
    if |evs| > 0 {
      assert evs[0] in {CloneOf(t), WakeOf(t), WakeByRefOf(t), DropOf(t)};
      ApplyWakerCall(rule, w, evs[0], t);
      ApplyKeepsInv(rule, w, evs[0]);
      var w' := Apply(rule, w, evs[0]).value;
      assert OnlyWakerCalls(evs[1..], t) by {
        forall i | 0 <= i < |evs[1..]|
          ensures evs[1..][i] in {CloneOf(t), WakeOf(t), WakeByRefOf(t), DropOf(t)}
        {
          assert evs[1..][i] == evs[i + 1];
        }
      }
      WakesRegisterAtMostOnce(rule, w', evs[1..], t);
    }
  }

  /**
    No lost wake-up between steps: after a wake of a task whose future has not
    completed, the task has a live idle source that runs its step.
   */
  lemma WakeLeavesLiveSource(rule: Rule, w: World, t: TaskId)
    requires Inv(rule, w) && t in w.tasks && w.tasks[t].handles > 0 && !w.tasks[t].completed
    ensures WakeByRef(w, t).Success?
    ensures var r := WakeByRef(w, t).value;
            && t in r.tasks
            && r.tasks[t].pendingIdle.Some?
            && r.tasks[t].pendingIdle.value in r.host.sources
            && r.host.sources[r.tasks[t].pendingIdle.value] == t
    ensures Wake(w, t).Success?
    ensures var r := Wake(w, t).value;
            && t in r.tasks
            && r.tasks[t].pendingIdle.Some?
            && r.tasks[t].pendingIdle.value in r.host.sources
            && r.host.sources[r.tasks[t].pendingIdle.value] == t
  {
  }

  /**
    A step whose poll pends clears the recorded source and makes the loop drop
    it; the next wake then registers a new, different source for the task.
   */
  lemma PendingStepThenWakeRegistersAgain(rule: Rule, w: World, id: SourceId, clones: nat)
    requires Inv(rule, w) && id in w.host.sources && !w.tasks[w.host.sources[id]].completed
    requires w.tasks[w.host.sources[id]].handles + clones > 0
    ensures var t := w.host.sources[id];
            var d := Dispatch(rule, w, id, PollOutcome(false, clones, false));
            && (d.Success? && id !in d.value.host.sources)
            && t in d.value.tasks
            && d.value.tasks[t].pendingIdle == None
            && d.value.tasks[t].handles > 0
            && var woke := WakeByRef(d.value, t);
               && woke.Success?
               && woke.value.tasks[t].pendingIdle.Some?
               && woke.value.tasks[t].pendingIdle.value != id
               && woke.value.host.sources == d.value.host.sources[woke.value.tasks[t].pendingIdle.value := t]
  {
  }

  /**
    As written, a step whose poll is `Ready` keeps its source live and its
    recorded id set: a later wake registers nothing, and the loop's next
    invocation of that same source polls the completed future again.
   */
  lemma AsWrittenReadyKeepsSource(w: World, id: SourceId, clones: nat, later: PollOutcome)
    requires Inv(AsWritten, w) && id in w.host.sources && !w.tasks[w.host.sources[id]].completed
    ensures var t := w.host.sources[id];
            var d := Dispatch(AsWritten, w, id, PollOutcome(true, clones, false));
            && d.Success?
            && id in d.value.host.sources && d.value.host.sources[id] == t
            && t in d.value.tasks
            && d.value.tasks[t].pendingIdle == Some(id)
            && d.value.tasks[t].completed
            && (d.value.tasks[t].handles > 0 ==> WakeByRef(d.value, t) == Success(d.value))
            && Dispatch(AsWritten, d.value, id, later) == Failure(PolledAfterCompletion)
  {
  }

  /** With the corrected step a `Ready` poll removes the source; later wakes register nothing. */
  lemma CorrectedReadyRetiresSource(w: World, id: SourceId, clones: nat)
    requires Inv(Corrected, w) && id in w.host.sources
    ensures var t := w.host.sources[id];
            var d := Dispatch(Corrected, w, id, PollOutcome(true, clones, false));
            && d.Success?
            && id !in d.value.host.sources
            && (t in d.value.tasks ==>
                  d.value.tasks[t].completed
                  && d.value.tasks[t].pendingIdle == Some(id)
                  && (d.value.tasks[t].handles > 0 ==> WakeByRef(d.value, t) == Success(d.value)))
            && (t in d.value.tasks <==> clones + w.tasks[t].handles > 0)
  {
  }

  /** The smallest trace that shows the difference: submit, a `Ready` poll, then the loop's next invocation. */
  const ReadyThenRedispatch: seq<Event> :=
    [Submit, Fire(0, PollOutcome(true, 0, false)), Fire(0, PollOutcome(false, 0, false))]

  /** As written, a future that completes on its first poll is polled a second time. */
  lemma AsWrittenPollsCompletedFuture()
    ensures Run(AsWritten, Start(), ReadyThenRedispatch) == Failure(PolledAfterCompletion)
  {
  }

  /** Corrected, the same trace ends with the task freed and no idle source left. */
  lemma CorrectedRetiresCompletedFuture()
    ensures Run(Corrected, Start(), ReadyThenRedispatch).Success?
    ensures |Run(Corrected, Start(), ReadyThenRedispatch).value.host.sources| == 0
    ensures |Run(Corrected, Start(), ReadyThenRedispatch).value.tasks| == 0
  {
  }
}
