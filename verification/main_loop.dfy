/**
  The part of the glib main loop the executor relies on: `idle_add_local`
  registers a callback under a fresh `SourceId`, and the loop keeps invoking
  a live source until the callback returns `Continue(false)`, at which point
  the source is removed and its callback dropped.
 */
module MainLoop {

  /** glib's `SourceId`: the handle of one registered idle source. */
  type SourceId = nat

  /** `glib::Continue`: whether the loop keeps the source after this invocation. */
  datatype Continue = Continue(keep: bool)

  /**
    The live idle sources, each mapped to the step it runs, and the id the
    next registration receives.
   */
  datatype Host<S> = Host(sources: map<SourceId, S>, next: SourceId)

  /** Every live source id was handed out earlier, so `next` is fresh. */
  predicate Valid<S>(h: Host<S>) {
    forall id :: id in h.sources ==> id < h.next
  }

  /** A main loop with no idle sources. */
  function Empty<S>(): (h: Host<S>)
    ensures Valid(h)
    ensures |h.sources| == 0
  {
    Host(map[], 0)
  }

  /** The loop after a registration, and the id that registration received. */
  datatype Added<S> = Added(host: Host<S>, id: SourceId)

  /**
    `idle_add_local`: register `step` as a new idle source. The id it returns
    is not the id of any live source, and nothing else about the loop changes.
   */
  function IdleAdd<S>(h: Host<S>, step: S): (r: Added<S>)
    ensures Valid(h) ==> r.id !in h.sources && Valid(r.host)
    ensures r.host.sources == h.sources[r.id := step]
    ensures r.host.next == h.next + 1
  {
    Added(Host(h.sources[h.next := step], h.next + 1), h.next)
  }

  /**
    What the loop does with source `id` once its callback returned `c`: keep it
    for another invocation, or remove it (dropping the callback).
   */
  function AfterInvoke<S>(h: Host<S>, id: SourceId, c: Continue): (r: Host<S>)
    ensures c.keep ==> r == h
    ensures !c.keep ==> id !in r.sources && r.next == h.next
    ensures !c.keep ==> forall other :: other in h.sources && other != id ==> other in r.sources && r.sources[other] == h.sources[other]
    ensures forall other :: other in r.sources ==> other in h.sources && r.sources[other] == h.sources[other]
    ensures Valid(h) ==> Valid(r)
  {
    if c.keep then h else Host(h.sources - {id}, h.next)
  }
}
