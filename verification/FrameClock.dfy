/** The clock that predicts an output's next presentation time, in nanoseconds. */
module FrameClock {
  import opened Wrappers

  const SECOND: nat := 1_000_000_000

  /** The value behind a clock. The last presentation time is empty until a frame is presented. */
  datatype Timing = Timing(last: Option<nat>, interval: Option<nat>, vrr: bool) {
    predicate Valid() {
      interval.Some? ==> 0 < interval.value < SECOND
    }

    function SetVrr(vrr: bool): Timing {
      if vrr == this.vrr then this else this.(vrr := vrr, last := None)
    }

    function Presented(time: nat): Timing {
      if time == 0 then this else this.(last := Some(time))
    }

    /** The number of refreshes from the last presentation to the predicted one. */
    function Refreshes(now: nat): nat
      requires Valid() && interval.Some? && last.Some?
    {
      var i, l := interval.value, last.value;
      if now > l then (now - l) / i + 1
      else if now < l <= now + i then 1
      else 2
    }

    /** The next presentation time, in closed form. */
    function Next(now: nat): nat
      requires Valid()
    {
      if interval.None? || last.None? then now
      else if vrr then if now >= last.value + interval.value then now else last.value + interval.value
      else last.value + Refreshes(now) * interval.value
    }
  }

  class FrameClock {
    var lastPresentationTime: Option<nat>
    const refreshIntervalNs: Option<nat>
    var vrr: bool

    ghost function View(): Timing
      reads this
    {
      Timing(lastPresentationTime, refreshIntervalNs, vrr)
    }

    ghost predicate Valid()
      reads this
    {
      View().Valid()
    }

    constructor (refreshInterval: Option<nat>, vrr: bool)
      requires refreshInterval.Some? ==> 0 < refreshInterval.value < SECOND
      ensures Valid() && View() == Timing(None, refreshInterval, vrr)
    {
      lastPresentationTime := None;
      refreshIntervalNs := refreshInterval;
      this.vrr := vrr;
    }

    method SetVrr(vrr: bool)
      requires Valid()
      modifies this
      ensures Valid() && View() == old(View()).SetVrr(vrr)
    {
      if this.vrr == vrr {
        return;
      }
      this.vrr := vrr;
      lastPresentationTime := None;
    }

    method Presented(presentationTime: nat)
      requires Valid()
      modifies this
      ensures Valid() && View() == old(View()).Presented(presentationTime)
    {
      if presentationTime == 0 {
        return;
      }
      lastPresentationTime := Some(presentationTime);
    }

    /** The prediction, as the clock works it out from the time read at the start of the call. */
    method NextPresentationTime(monotonicTime: nat) returns (time: nat)
      requires Valid()
      ensures time == View().Next(monotonicTime)
    {
      var now := monotonicTime;
      if refreshIntervalNs.None? || lastPresentationTime.None? {
        return now;
      }
      var interval, last := refreshIntervalNs.value, lastPresentationTime.value;
      if now <= last {
        // An early VBlank.
        now := now + interval;
        if now < last {
          now := last + interval;
        }
      }
      var toNext := ToNext(now - last, interval);
      NextIs(View(), monotonicTime, now);
      if vrr && toNext > interval {
        return now;
      }
      return last + toNext;
    }
  }

  /** The time from the last presentation to the first refresh after `sinceLast` has passed. */
  function ToNext(sinceLast: nat, interval: nat): nat
    requires 0 < interval
  {
    QuotientBounds(sinceLast, interval);
    (sinceLast / interval + 1) * interval
  }

  /** Division by the interval: one step exactly below it, and exactly two at it. */
  lemma QuotientBounds(n: nat, d: nat)
    requires 0 < d
    ensures var k := n / d + 1; (k == 1 <==> n < d) && (n == d ==> k == 2) && (k > 1 ==> k * d >= 2 * d) && k * d > n >= (k - 1) * d
  {
  }

  lemma StepsAre(n: nat, d: nat)
    requires 0 < d
    ensures var k := n / d + 1; (k == 1 <==> n < d) && (n == d ==> k == 2) && (k * d > d <==> n >= d) && (k == 1 ==> k * d == d)
  {
  }

  lemma AtLeast(k: nat, m: nat, d: nat)
    requires k >= m
    ensures k * d >= m * d
  {
  }

  /** The steps from a time that has been moved past an early VBlank. */
  lemma NextIs(t: Timing, monotonicTime: nat, now: nat)
    requires t.Valid() && t.last.Some? && t.interval.Some?
    requires var l, i := t.last.value, t.interval.value;
      && now == (if monotonicTime > l then monotonicTime else if monotonicTime + i < l then l + i else monotonicTime + i)
    ensures var toNext := ToNext(now - t.last.value, t.interval.value);
      t.Next(monotonicTime) == if t.vrr && toNext > t.interval.value then now else t.last.value + toNext
  {
    var l, i := t.last.value, t.interval.value;
    var k := (now - l) / i + 1;
    StepsAre(now - l, i);
    if t.vrr {
      assert k * i > i || k == 1;
    } else {
      assert k == t.Refreshes(monotonicTime);
    }
  }

  /** Without variable refresh, a late clock predicts the first refresh after now, and an early one
      the next refresh but for the two exceptional cases that skip one. */
  lemma FixedRefreshTarget(t: Timing, now: nat)
    requires t.Valid() && !t.vrr && t.last.Some? && t.interval.Some?
    ensures var l, i := t.last.value, t.interval.value;
      && t.Next(now) > now && t.Next(now) >= l + i
      && (exists k: nat :: k >= 1 && t.Next(now) == l + k * i)
      && (now > l ==> forall k: nat :: l + k * i > now ==> l + k * i >= t.Next(now))
      && (t.Next(now) == l + i <==> now < l + i && now != l && l <= now + i)
      && (now <= l ==> t.Next(now) <= l + 2 * i)
  {
    var l, i, k := t.last.value, t.interval.value, t.Refreshes(now);
    assert k >= 1 && t.Next(now) == l + k * i;
    AtLeast(k, 1, i);
    if now > l {
      QuotientBounds(now - l, i);
      forall j: nat | l + j * i > now
        ensures l + j * i >= t.Next(now)
      {
        if j < k {
          AtLeast(k - 1, j, i);
          assert false;
        } else {
          AtLeast(j, k, i);
        }
      }
    }
  }

  /** With variable refresh the prediction is one interval after the last frame, or now if later. */
  lemma VariableRefreshTarget(t: Timing, now: nat)
    requires t.Valid() && t.vrr && t.last.Some? && t.interval.Some?
    ensures var l, i := t.last.value, t.interval.value;
      && t.Next(now) >= now && t.Next(now) >= l + i
      && (t.Next(now) == now || t.Next(now) == l + i)
  {
  }

  // ---- Presenting at every predicted time ----

  /** What can happen to a clock between two frames, and a frame presented as predicted. */
  datatype Event = Frame(now: nat) | EmptyPresentation | VrrChange(vrr: bool)

  function After(t: Timing, e: Event): (r: Timing)
    requires t.Valid()
    ensures r.Valid() && r.interval == t.interval
  {
    match e
    case Frame(now) => t.Presented(t.Next(now))
    case EmptyPresentation => t.Presented(0)
    case VrrChange(vrr) => t.SetVrr(vrr)
  }

  /** The presentation times of a run. */
  function Times(t: Timing, events: seq<Event>): seq<nat>
    requires t.Valid()
    decreases events
  {
    if events == [] then []
    else (if events[0].Frame? then [t.Next(events[0].now)] else []) + Times(After(t, events[0]), events[1..])
  }

  /** Each time is at least `gap` after the one before it, and the first after `start`. */
  predicate Spaced(start: nat, times: seq<nat>, gap: nat)
    decreases times
  {
    times != [] ==> times[0] >= start + gap && Spaced(times[0], times[1..], gap)
  }

  predicate KeepsMode(t: Timing, events: seq<Event>) {
    forall e <- events :: e.VrrChange? ==> e.vrr == t.vrr
  }

  /** While the mode does not change, frames presented as predicted are at least one interval apart,
      whatever the times the predictions were made at. */
  lemma {:induction false} FramesAreSpaced(t: Timing, events: seq<Event>)
    requires t.Valid() && t.last.Some? && t.interval.Some? && KeepsMode(t, events)
    ensures Spaced(t.last.value, Times(t, events), t.interval.value)
    decreases events
  {
    if events != [] {
      var t' := FirstEvent(t, events);
      FramesAreSpaced(t', events[1..]);
    }
  }

  /** Without variable refresh they also stay on the grid of refreshes. */
  lemma {:induction false} FramesAreOnGrid(t: Timing, events: seq<Event>)
    requires t.Valid() && !t.vrr && t.last.Some? && t.interval.Some? && KeepsMode(t, events)
    ensures forall time <- Times(t, events) :: (time - t.last.value) % t.interval.value == 0
    decreases events
  {
    if events != [] {
      var t' := FirstEvent(t, events);
      FramesAreOnGrid(t', events[1..]);
      if events[0].Frame? {
        OnGrid(t.last.value, t.Refreshes(events[0].now), t.interval.value, Times(t', events[1..]));
      }
    }
  }

  lemma FirstEvent(t: Timing, events: seq<Event>) returns (t': Timing)
    requires t.Valid() && t.last.Some? && t.interval.Some? && KeepsMode(t, events) && events != []
    ensures t' == After(t, events[0]) && t'.Valid() && t'.last.Some? && t'.interval == t.interval && t'.vrr == t.vrr
    ensures KeepsMode(t', events[1..])
    ensures events[0].Frame? ==>
              && t'.last.value >= t.last.value + t.interval.value
              && Times(t, events) == [t'.last.value] + Times(t', events[1..])
              && (!t.vrr ==> t'.last.value == t.last.value + t.Refreshes(events[0].now) * t.interval.value)
    ensures !events[0].Frame? ==> t' == t && Times(t, events) == Times(t', events[1..])
  {
    t' := After(t, events[0]);
    if events[0].Frame? {
      OneFrame(t, events[0].now);
    } else {
      assert Times(t, events) == [] + Times(t', events[1..]);
    }
  }

  lemma OneFrame(t: Timing, now: nat)
    requires t.Valid() && t.last.Some? && t.interval.Some?
    ensures t.Next(now) >= t.last.value + t.interval.value
    ensures After(t, Frame(now)) == t.(last := Some(t.Next(now)))
    ensures !t.vrr ==> t.Next(now) == t.last.value + t.Refreshes(now) * t.interval.value
  {
    if t.vrr {
      VariableRefreshTarget(t, now);
    } else {
      FixedRefreshTarget(t, now);
    }
  }

  lemma OnGrid(start: nat, k: nat, d: nat, times: seq<nat>)
    requires 0 < d && forall time <- times :: (time - (start + k * d)) % d == 0
    ensures k * d % d == 0 && forall time <- times :: (time - start) % d == 0
  {
    Multiple(k, d);
    forall time | time in times
      ensures (time - start) % d == 0
    {
      var n := time - (start + k * d);
      assert n == n / d * d;
      assert time - start == (n / d + k) * d;
      Multiple(n / d + k, d);
    }
  }

  lemma Multiple(k: int, d: nat)
    requires 0 < d
    ensures k * d % d == 0
  {
    var q, r := k * d / d, k * d % d;
    assert k * d == q * d + r;
    assert (k - q) * d == r;
    FarFromZero(k - q, d);
  }

  lemma FarFromZero(n: int, d: nat)
    ensures n >= 1 ==> n * d >= d
    ensures n <= -1 ==> n * d + d <= 0
  {
  }

  /** A change of mode forgets the last frame, so the next prediction may be before it. */
  lemma ModeChangeForgetsLastFrame(t: Timing, vrr: bool, now: nat)
    requires t.Valid() && t.last.Some?
    ensures t.SetVrr(vrr).Next(now) == (if vrr == t.vrr then t.Next(now) else now)
    ensures t.interval.Some? ==> (t.SetVrr(vrr).Next(now) <= t.last.value <==> vrr != t.vrr && now <= t.last.value)
  {
  }
}
