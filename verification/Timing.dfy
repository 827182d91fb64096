/** internal/timing/timing.go: timestamps and the clamping of child ranges. */
module Timing {
  import opened Int64
  import opened Wrappers

  /** Epoch milliseconds. Nothing forces start <= stop: callers build ranges freely. */
  datatype Range = Range(start: int64, stop: int64)

  /** A Go time.Time as far as timing.go looks at it. */
  datatype Instant = ZeroTime | At(millis: int64)

  /** Resolve once the RFC 3339 text has been parsed (None: it did not parse). */
  function Resolve(parsed: Option<Instant>, durationMS: int64, fallback: Instant): (r: Range)
    ensures r.start <= r.stop
    ensures r.stop == if r.start + Max(durationMS, 0) <= MAX_INT64 then r.start + Max(durationMS, 0) else r.start
    ensures forall t :: parsed == Some(At(t)) ==> r.start == t
    ensures forall t :: parsed.None? && fallback == At(t) ==> r.start == t
    ensures parsed == Some(ZeroTime) || (parsed.None? && fallback == ZeroTime) ==> r.start == 0
  {
    var start := if parsed.Some? then parsed.value else fallback;
    var startMS := if start.ZeroTime? then 0 else start.millis;
    var stopMS := Add(startMS, Max(durationMS, 0));
    Range(startMS, if stopMS < startMS then startMS else stopMS)
  }

  /** The child runs forward, and inside the bounds the parent has. */
  predicate Admits(parent: Range, child: Range) {
    && child.start <= child.stop
    && (parent.start != 0 ==> parent.start <= child.start)
    && (parent.stop != 0 ==> child.stop <= parent.stop)
  }

  /** Clamp: a zero start or stop of the parent counts as missing and does not bound the child. */
  function Clamp(child: Range, parent: Range): (r: Range)
    ensures r.start <= r.stop
    ensures parent.start != 0 ==> parent.start <= r.start
    ensures parent.stop != 0 ==> r.stop <= Max(parent.stop, r.start)
    ensures Admits(parent, child) ==> r == child
    ensures r.start == child.start || (child.start < parent.start && r.start == parent.start != 0)
    ensures r.stop == child.stop || (child.stop > parent.stop == r.stop && parent.stop != 0) || r.stop == r.start
  {
    var start := if parent.start != 0 && child.start < parent.start then parent.start else child.start;
    var stop := if parent.stop != 0 && child.stop > parent.stop then parent.stop else child.stop;
    Range(start, if stop < start then start else stop)
  }
}
