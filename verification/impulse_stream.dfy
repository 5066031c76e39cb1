/**
  The impulse stream: an infinite, payload-free event stream. All clones of one
  stream share a counter of impulses not yet delivered and at most one stored
  waker of the consumer that last polled while nothing was pending.
 */
module ImpulseStream {
  import opened Wrappers

  /** Identity of the task waker handed to `poll_next` through its context. */
  type WakerId = nat

  /** The shared `ImpulseStreamInner`: pending impulses and the stored waker slot. */
  datatype Inner = Inner(pending: nat, waker: Option<WakerId>)

  /** `Poll<Option<()>>`, what `Stream::poll_next` returns. */
  datatype PollNext = Ready(item: Option<()>) | Pending

  /** The state after `trigger`, and the waker it woke (at most one). */
  datatype Triggered = Triggered(inner: Inner, woken: Option<WakerId>)

  /** The state after `poll_next`, and what the consumer was told. */
  datatype Polled = Polled(inner: Inner, result: PollNext)

  /** The stream hands the consumer one `()` per delivered impulse. */
  const Item: PollNext := Ready(Some(()))

  /**
    The state every reachable stream is in: a waker is only ever parked while
    no impulse is pending, because `trigger` takes it as soon as one arrives.
   */
  predicate Valid(s: Inner) {
    s.waker.Some? ==> s.pending == 0
  }

  /**
    `ImpulseStream::new`: nothing pending and no waker parked, so the first
    trigger wakes no one and any poll pends until a trigger.
   */
  function New(): (s: Inner)
    ensures s.pending == 0 && s.waker == None
    ensures Valid(s)
    ensures forall w: WakerId :: PollStream(s, w).result == Pending
    ensures forall w: WakerId :: PollStream(s, w).inner.waker == Some(w)
  {
    Inner(0, None)
  }

  /**
    `ImpulseStream::trigger`: count one more impulse, then take the stored
    waker out of its slot and wake it. Whatever the consumer polls next is
    ready.
   */
  function Trigger(s: Inner): (r: Triggered)
    ensures r.inner.pending == s.pending + 1
    ensures r.inner.waker == None
    ensures r.woken == s.waker
    ensures Valid(r.inner)
    ensures forall w: WakerId :: PollStream(r.inner, w) == Polled(s.(waker := None), Item)
  {
    Triggered(Inner(s.pending + 1, None), s.waker)
  }

  /**
    `ImpulseStream::triggerer`: a one-argument callback whose argument is never
    looked at and whose only effect is `trigger` on the stream it was made from.
   */
  function Triggerer<A(!new)>(): (callback: (Inner, A) -> Triggered)
    ensures forall s: Inner, a: A :: callback(s, a) == Trigger(s)
  {
    (s: Inner, _: A) => Trigger(s)
  }

  /**
    `Stream::poll_next`: deliver one pending impulse, or park the caller's
    waker (replacing any parked one) and pend. The stream never ends.
   */
  function PollStream(s: Inner, w: WakerId): (r: Polled)
    ensures r.result != Ready(None)
    ensures r.result == Item <==> s.pending > 0
    ensures r.result == Item ==> r.inner.pending == s.pending - 1 && r.inner.waker == s.waker
    ensures r.result == Pending ==> r.inner.pending == 0 && r.inner.waker == Some(w)
    ensures Valid(s) ==> Valid(r.inner)
  {
    if s.pending > 0 then
      Polled(s.(pending := s.pending - 1), Item)
    else
      Polled(s.(waker := Some(w)), Pending)
  }

  // ---------------------------------------------------------------------------
  // Traces of trigger and poll calls on one stream

  /** One call on the stream: `trigger` (directly or through a triggerer) or `poll_next`. */
  datatype Op = TriggerOp | PollOp(waker: WakerId)

  /** What one call made observable: the waker a trigger woke, or a poll result. */
  datatype Obs = Woke(woken: Option<WakerId>) | Answered(result: PollNext)

  /** The final state of a trace and the observations of its calls, in order. */
  datatype Trace = Trace(last: Inner, obs: seq<Obs>)

  function Apply(s: Inner, op: Op): Trace {
    match op
    case TriggerOp =>
      var t := Trigger(s);
      Trace(t.inner, [Woke(t.woken)])
    case PollOp(w) =>
      var p := PollStream(s, w);
      Trace(p.inner, [Answered(p.result)])
  }

  /** Run the calls of `ops` in order from state `s`; observations line up with calls. */
  function Run(s: Inner, ops: seq<Op>): (r: Trace)
    ensures |r.obs| == |ops|
    decreases |ops|
  {
    if |ops| == 0 then Trace(s, [])
    else
      var before := Run(s, ops[..|ops| - 1]);
      var step := Apply(before.last, ops[|ops| - 1]);
      Trace(step.last, before.obs + step.obs)
  }

  /** Number of `trigger` calls in a trace. */
  function Triggers(ops: seq<Op>): nat {
    if |ops| == 0 then 0
    else Triggers(ops[..|ops| - 1]) + (if ops[|ops| - 1].TriggerOp? then 1 else 0)
  }

  /** Number of polls answered with an item. */
  function Readies(obs: seq<Obs>): nat {
    if |obs| == 0 then 0
    else Readies(obs[..|obs| - 1]) + (if obs[|obs| - 1] == Answered(Item) then 1 else 0)
  }

  /** Number of polls answered `Pending` (each parks a waker). */
  function Pendings(obs: seq<Obs>): nat {
    if |obs| == 0 then 0
    else Pendings(obs[..|obs| - 1]) + (if obs[|obs| - 1] == Answered(Pending) then 1 else 0)
  }

  /** Number of wakers woken by triggers. */
  function Wakes(obs: seq<Obs>): nat {
    if |obs| == 0 then 0
    else Wakes(obs[..|obs| - 1]) + (if obs[|obs| - 1].Woke? && obs[|obs| - 1].woken.Some? then 1 else 0)
  }

  function Parked(s: Inner): nat {
    if s.waker.Some? then 1 else 0
  }

  lemma LastOfAppend(obs: seq<Obs>, o: Obs)
    ensures (obs + [o])[..|obs|] == obs
    ensures (obs + [o])[|obs|] == o
  {
  }

  /**
    No loss and no duplication: every impulse triggered is either delivered by
    exactly one ready poll or still pending.
   */
  lemma {:induction false} Conservation(s: Inner, ops: seq<Op>)
    ensures Readies(Run(s, ops).obs) + Run(s, ops).last.pending == s.pending + Triggers(ops)
    decreases |ops|
  {
    if |ops| > 0 {
      var before := Run(s, ops[..|ops| - 1]);
      Conservation(s, ops[..|ops| - 1]);
      var step := Apply(before.last, ops[|ops| - 1]);
      LastOfAppend(before.obs, step.obs[0]);
    }
  }

  /** A parked waker implies nothing is pending, in every state a trace reaches. */
  lemma {:induction false} RunKeepsValid(s: Inner, ops: seq<Op>)
    requires Valid(s)
    ensures Valid(Run(s, ops).last)
    decreases |ops|
  {
    if |ops| > 0 {
      RunKeepsValid(s, ops[..|ops| - 1]);
    }
  }

  /** The stream is infinite: no poll in any trace is answered `Ready(None)`. */
  lemma {:induction false} NeverEnds(s: Inner, ops: seq<Op>)
    ensures forall i :: 0 <= i < |Run(s, ops).obs| ==> Run(s, ops).obs[i] != Answered(Ready(None))
    decreases |ops|
  {
    if |ops| > 0 {
      NeverEnds(s, ops[..|ops| - 1]);
      var before := Run(s, ops[..|ops| - 1]);
      var step := Apply(before.last, ops[|ops| - 1]);
      assert Run(s, ops).obs == before.obs + step.obs;
    }
  }

  /**
    Each wake uses up one earlier park: wakes plus the waker still parked
    never exceed the pending polls (plus a waker parked before the trace
    began).
   */
  lemma {:induction false} WakesNeverExceedParks(s: Inner, ops: seq<Op>)
    ensures Wakes(Run(s, ops).obs) + Parked(Run(s, ops).last) <= Pendings(Run(s, ops).obs) + Parked(s)
    decreases |ops|
  {
    if |ops| > 0 {
      var before := Run(s, ops[..|ops| - 1]);
      WakesNeverExceedParks(s, ops[..|ops| - 1]);
      var step := Apply(before.last, ops[|ops| - 1]);
      LastOfAppend(before.obs, step.obs[0]);
    }
  }

  /**
    Every poll in a trace from a fresh stream is ready exactly when some
    earlier trigger has not yet been delivered; otherwise it pends.
   */
  lemma PollReadyIffOwed(ops: seq<Op>)
    requires |ops| > 0 && ops[|ops| - 1].PollOp?
    ensures var n := |ops| - 1;
            Run(New(), ops).obs[n] == Answered(Item)
            <==> Readies(Run(New(), ops[..n]).obs) < Triggers(ops[..n])
    ensures var n := |ops| - 1;
            Run(New(), ops).obs[n] == Answered(Pending)
            <==> Readies(Run(New(), ops[..n]).obs) == Triggers(ops[..n])
  {
    var n := |ops| - 1;
    var before := Run(New(), ops[..n]);
    Conservation(New(), ops[..n]);
    var step := Apply(before.last, ops[n]);
    LastOfAppend(before.obs, step.obs[0]);
  }

  /** Triggering a stream whose consumer is parked wakes that consumer, whose next poll is ready. */
  lemma WakeThenDeliver(s: Inner, w: WakerId, w': WakerId)
    requires Valid(s) && s.pending == 0
    ensures var parked := PollStream(s, w);
            var t := Trigger(parked.inner);
            && parked.result == Pending
            && t.woken == Some(w)
            && PollStream(t.inner, w').result == Item
            && PollStream(t.inner, w').inner == New()
  {
  }
}
