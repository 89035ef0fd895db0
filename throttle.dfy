/**
 * The trailing-edge throttle that rate-limits cursor and connection
 * publishing (src/lib/useThrottle.ts).  A call goes through at once when
 * at least `delay` ms have passed since the last publish; otherwise it
 * (re)arms a single timer for `lastUpdateTime + delay` that publishes the
 * latest arguments.  The clock and the timer are inputs: `Call(now, v)` is
 * a call at time `now`, `Fire(now)` is the timer going off at `now`.
 */
module Throttle {
  import opened Wrappers

  /** One invocation of the wrapped callback: when, and with what. */
  datatype Publish<V> = Publish(time: int, args: V)

  /** Consecutive publishes are at least `delay` apart. */
  ghost predicate Spaced<V>(ps: seq<Publish<V>>, delay: int) {
    forall i :: 0 <= i < |ps| - 1 ==> ps[i + 1].time - ps[i].time >= delay
  }

  /** Spacing accumulates: `j - i` gaps span at least `(j - i) * delay`. */
  lemma {:induction false} SpacedSpan<V>(ps: seq<Publish<V>>, delay: int, i: int, j: int)
    requires Spaced(ps, delay)
    requires 0 <= i <= j < |ps|
    ensures ps[j].time - ps[i].time >= (j - i) * delay
  {
    if i < j {
      SpacedSpan(ps, delay, i, j - 1);
      assert ps[j].time - ps[j - 1].time >= delay;
      assert (j - i) * delay == (j - 1 - i) * delay + delay;
    }
  }

  /**
   * The rate bound: the publishes between positions `i` and `j` that fall
   * in a window of `w` ms number `j - i + 1`, and `(j - i) * delay <= w`,
   * i.e. at most one publish per `delay` plus one.
   */
  lemma WindowBound<V>(ps: seq<Publish<V>>, delay: int, i: int, j: int, t0: int, w: int)
    requires Spaced(ps, delay)
    requires 0 <= i <= j < |ps|
    requires t0 <= ps[i].time && ps[j].time <= t0 + w
    ensures (j - i) * delay <= w
  {
    SpacedSpan(ps, delay, i, j);
  }

  class Throttle<V> {
    const delay: int
    /** `lastUpdateTimeRef`: the time of the last publish, 0 before any. */
    var lastUpdateTime: int
    /** `timeoutRef`: the time the pending timer is due, if one is armed. */
    var timer: Option<int>
    /** `lastArgsRef`: the arguments of the latest call. */
    var lastArgs: Option<V>
    /** Every invocation of the wrapped callback, in order. */
    var published: seq<Publish<V>>

    ghost predicate Valid()
      reads this
    {
      && (timer.Some? ==> timer.value == lastUpdateTime + delay && lastArgs.Some?)
      && (published == [] ==> lastUpdateTime == 0)
      && (published != [] ==> published[|published| - 1].time == lastUpdateTime)
      && Spaced(published, delay)
    }

    constructor (delay: int)
      ensures Valid()
      ensures this.delay == delay && lastUpdateTime == 0 && timer == None && lastArgs == None && published == []
    {
      this.delay := delay;
      lastUpdateTime := 0;
      timer := None;
      lastArgs := None;
      published := [];
    }

    /** The throttled callback, called at time `now` (useThrottle.ts:24-57). */
    method Call(now: int, args: V)
      requires Valid()
      modifies this
      ensures Valid()
      ensures lastArgs == Some(args)
      ensures now - old(lastUpdateTime) >= delay ==>
        && published == old(published) + [Publish(now, args)]
        && lastUpdateTime == now && timer == None
      ensures now - old(lastUpdateTime) < delay ==>
        && published == old(published)
        && lastUpdateTime == old(lastUpdateTime)
        && timer == Some(old(lastUpdateTime) + delay)
    {
      lastArgs := Some(args);
      if now - lastUpdateTime >= delay {
        published := published + [Publish(now, args)];
        lastUpdateTime := now;
        timer := None;
      } else {
        timer := Some(now + (delay - (now - lastUpdateTime)));
      }
    }

    /**
     * The armed timer going off at `now` (useThrottle.ts:47-53): it
     * publishes the latest arguments.  A timer never fires before it is due.
     */
    method Fire(now: int)
      requires Valid()
      requires timer.Some? && now >= timer.value
      modifies this
      ensures Valid()
      ensures published == old(published) + [Publish(now, old(lastArgs).value)]
      ensures lastUpdateTime == now && timer == None && lastArgs == old(lastArgs)
    {
      published := published + [Publish(now, lastArgs.value)];
      lastUpdateTime := now;
      timer := None;
    }

    /** Unmount (useThrottle.ts:60-67): a pending call is dropped. */
    method Dispose()
      requires Valid()
      modifies this
      ensures Valid()
      ensures timer == None
      ensures published == old(published) && lastUpdateTime == old(lastUpdateTime) && lastArgs == old(lastArgs)
    {
      timer := None;
    }
  }

  /**
   * A burst of calls inside one delay period after a publish publishes
   * nothing until the timer fires, and then exactly once, with the last
   * call's arguments.
   */
  method Burst<V>(t: Throttle<V>, times: seq<int>, args: seq<V>, fireAt: int)
    requires t.Valid() && |times| == |args| > 0
    requires forall k :: 0 <= k < |times| ==> times[k] - t.lastUpdateTime < t.delay
    requires fireAt >= t.lastUpdateTime + t.delay
    modifies t
    ensures t.Valid()
    ensures t.published == old(t.published) + [Publish(fireAt, args[|args| - 1])]
  {
    var k := 0;
    while k < |times|
      invariant 0 <= k <= |times|
      invariant t.Valid()
      invariant t.published == old(t.published) && t.lastUpdateTime == old(t.lastUpdateTime)
      invariant k > 0 ==> t.timer == Some(t.lastUpdateTime + t.delay) && t.lastArgs == Some(args[k - 1])
    {
      t.Call(times[k], args[k]);
      k := k + 1;
    }
    t.Fire(fireAt);
  }
}
