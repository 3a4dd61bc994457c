/** Underscore's `throttle` and `debounce` over a clock that never runs backwards.

    The host keeps the live timers, each with the time it is due; it may run a timer late but not
    early. The wrapped function does not call the wrapper back. `log` records its invocations.
 */
module Timing {
  import opened Wrappers

  /** The host's timers. */
  datatype Timers = Timers(live: map<nat, int>, next: nat) {
    ghost predicate Valid() {
      forall h :: h in live ==> h < next
    }

    function Set(due: int): (Timers, nat) {
      (Timers(live[next := due], next + 1), next)
    }

    function Clear(h: nat): Timers {
      Timers(live - {h}, next)
    }
  }

  /** At most one timer is live, and it is the one the closure remembers. */
  ghost predicate OnlyTimer(timers: Timers, timeout: Option<nat>) {
    timers.Valid() && timers.live.Keys == match timeout case None => {} case Some(h) => {h}
  }

  datatype Invocation<A> = Invocation(time: int, args: A)

  ghost predicate Spaced<A>(log: seq<Invocation<A>>, wait: int) {
    forall i, j :: 0 <= i < j < |log| ==> log[i].time + wait <= log[j].time
  }

  ghost predicate EndsBy<A>(log: seq<Invocation<A>>, time: int) {
    forall i :: 0 <= i < |log| ==> log[i].time <= time
  }

  lemma SpacedSnoc<A>(log: seq<Invocation<A>>, wait: int, time: int, args: A)
    requires Spaced(log, wait) && EndsBy(log, time - wait)
    ensures Spaced(log + [Invocation(time, args)], wait)
  {
  }

  class Throttle<A> {
    const wait: int
    const leading: bool
    const trailing: bool
    var timeout: Option<nat>
    var previous: int
    var args: Option<A>
    var timers: Timers
    var clock: int
    ghost var log: seq<Invocation<A>>
    /** The latest call, unless its arguments have been delivered. */
    ghost var undelivered: Option<A>

    constructor (wait: int, leading: bool, trailing: bool)
      ensures Valid() && log == [] && clock == 0
      ensures this.wait == wait && this.leading == leading && this.trailing == trailing
    {
      this.wait, this.leading, this.trailing := wait, leading, trailing;
      timeout, previous, args := None, 0, None;
      timers, clock := Timers(map[], 0), 0;
      log, undelivered := [], None;
    }

    ghost predicate Valid()
      reads this
    {
      && OnlyTimer(timers, timeout)
      && 0 <= previous <= clock
      && Spaced(log, wait) && EndsBy(log, clock)
      && (previous != 0 || leading ==> EndsBy(log, previous))
      && (leading ==> previous == if log == [] then 0 else log[|log| - 1].time)
      && (timeout.Some? ==> timers.live[timeout.value] == previous + wait && (previous != 0 || leading))
      && (trailing ==> (timeout.Some? <==> undelivered.Some?))
      && (!trailing ==> timeout.None?)
      && (undelivered.Some? ==> args == undelivered)
    }

    /** Whether the window that a call at time `now` falls in has lasted `wait`: it began with the last
        leading invocation, or, without those, with the first call that found no window. */
    ghost predicate WindowOver(now: int)
      reads this
    {
      now - (if previous == 0 && !leading then now else previous) >= wait
    }

    /** A call at time `now`. It is delivered at once exactly if the window is over; otherwise, if
        trailing calls are wanted, a timer is pending for the end of the window, which will deliver it
        unless a later call is delivered first. */
    method Call(now: int, a: A)
      requires Valid() && now >= clock && now > 0
      modifies this
      ensures Valid() && clock == now
      ensures if old(WindowOver(now)) then log == old(log) + [Invocation(now, a)] && undelivered == None
              else log == old(log) && undelivered == Some(a)
    {
      clock, undelivered := now, Some(a);
      if previous == 0 && !leading {
        previous := now;
      }
      var remaining := wait - (now - previous);
      args := Some(a);
      if remaining <= 0 || remaining > wait {
        if timeout.Some? {
          timers := timers.Clear(timeout.value);
          timeout := None;
        }
        SpacedSnoc(log, wait, now, a);
        previous := now;
        log, undelivered := log + [Invocation(now, a)], None;
        args := None;
      } else if timeout.None? && trailing {
        var (t, h) := timers.Set(now + remaining);
        timers, timeout := t, Some(h);
      }
    }

    /** The timer runs: the latest call is delivered. */
    method Later(h: nat, now: int)
      requires Valid() && h in timers.live && now >= timers.live[h] && now >= clock && now > 0
      modifies this
      ensures Valid() && clock == now && timeout == None
      ensures old(undelivered).Some? && undelivered == None
      ensures log == old(log) + [Invocation(now, old(undelivered).value)]
    {
      SpacedSnoc(log, wait, now, args.value);
      clock := now;
      timers := timers.Clear(h);
      previous := if leading then now else 0;
      timeout := None;
      log, undelivered := log + [Invocation(now, args.value)], None;
      args := None;
    }
  }

  // ---------- Debounce ----------

  datatype Call<A> = Call(time: int, args: A)

  /** An invocation of the wrapped function, made for the call with the given number. */
  datatype Delivery<A> = Delivery(time: int, args: A, call: nat)

  /** The call with this number came at least `wait` after the one before it, if any. */
  ghost predicate QuietBefore<A>(calls: seq<Call<A>>, wait: int, k: nat)
    requires k < |calls|
  {
    k > 0 ==> calls[k - 1].time + wait <= calls[k].time
  }

  /** In trailing mode a delivery comes at least `wait` after its call and before the next call. */
  ghost predicate Settled<A>(calls: seq<Call<A>>, wait: int, d: Delivery<A>) {
    && d.call < |calls| && d.args == calls[d.call].args
    && calls[d.call].time + wait <= d.time
    && forall k :: d.call < k < |calls| ==> d.time <= calls[k].time
  }

  /** In immediate mode a delivery is made by a call after a quiet gap. */
  ghost predicate AtOnce<A>(calls: seq<Call<A>>, wait: int, d: Delivery<A>) {
    d.call < |calls| && d.args == calls[d.call].args && d.time == calls[d.call].time && QuietBefore(calls, wait, d.call)
  }

  lemma CallsSnoc<A>(calls: seq<Call<A>>, c: Call<A>, wait: int, d: Delivery<A>)
    ensures AtOnce(calls, wait, d) ==> AtOnce(calls + [c], wait, d)
    ensures Settled(calls, wait, d) && d.time <= c.time ==> Settled(calls + [c], wait, d)
  {
    var longer := calls + [c];
    assert forall k :: 0 <= k < |calls| ==> longer[k] == calls[k];
    if AtOnce(calls, wait, d) && d.call > 0 {
      assert longer[d.call - 1] == calls[d.call - 1];
    }
  }

  ghost predicate CalledBy<A>(calls: seq<Call<A>>, time: int) {
    forall k :: 0 <= k < |calls| ==> calls[k].time <= time
  }

  /** Every delivery is for a later call than the one before it, and made by `time`. */
  ghost predicate InOrder<A>(log: seq<Delivery<A>>, time: int) {
    && (forall i, j :: 0 <= i < j < |log| ==> log[i].call < log[j].call)
    && forall i :: 0 <= i < |log| ==> log[i].time <= time
  }

  ghost predicate Before<A>(log: seq<Delivery<A>>, call: nat) {
    forall i :: 0 <= i < |log| ==> log[i].call < call
  }

  ghost predicate Justified<A>(calls: seq<Call<A>>, wait: int, immediate: bool, log: seq<Delivery<A>>) {
    forall i :: 0 <= i < |log| ==> if immediate then AtOnce(calls, wait, log[i]) else Settled(calls, wait, log[i])
  }

  /** A further call takes nothing away from the deliveries made before it. */
  lemma JustifiedCall<A>(calls: seq<Call<A>>, c: Call<A>, wait: int, immediate: bool, log: seq<Delivery<A>>)
    requires Justified(calls, wait, immediate, log) && InOrder(log, c.time)
    ensures Justified(calls + [c], wait, immediate, log)
  {
    forall i | 0 <= i < |log|
      ensures if immediate then AtOnce(calls + [c], wait, log[i]) else Settled(calls + [c], wait, log[i])
    {
      CallsSnoc(calls, c, wait, log[i]);
    }
  }

  lemma JustifiedLog<A>(calls: seq<Call<A>>, wait: int, immediate: bool, log: seq<Delivery<A>>, d: Delivery<A>)
    requires Justified(calls, wait, immediate, log)
    requires if immediate then AtOnce(calls, wait, d) else Settled(calls, wait, d)
    ensures Justified(calls, wait, immediate, log + [d])
  {
  }

  lemma InOrderAppend<A>(log: seq<Delivery<A>>, time: int, d: Delivery<A>)
    requires InOrder(log, time) && Before(log, d.call) && time <= d.time
    ensures InOrder(log + [d], d.time)
  {
  }

  lemma InOrderSnoc<A>(calls: seq<Call<A>>, wait: int, immediate: bool, log: seq<Delivery<A>>, time: int, d: Delivery<A>)
    requires InOrder(log, time) && Justified(calls, wait, immediate, log) && d.call == |calls| && time <= d.time
    ensures Before(log, d.call) && InOrder(log + [d], d.time)
  {
    forall i | 0 <= i < |log| ensures log[i].call < d.call {
      assert if immediate then AtOnce(calls, wait, log[i]) else Settled(calls, wait, log[i]);
    }
  }

  class Debounce<A> {
    const wait: int
    const immediate: bool
    var timeout: Option<nat>
    var previous: int
    var args: Option<A>
    var timers: Timers
    var clock: int
    ghost var calls: seq<Call<A>>
    ghost var log: seq<Delivery<A>>

    constructor (wait: int, immediate: bool)
      ensures Valid() && calls == [] && log == [] && clock == 0
      ensures this.wait == wait && this.immediate == immediate
    {
      this.wait, this.immediate := wait, immediate;
      timeout, previous, args := None, 0, None;
      timers, clock := Timers(map[], 0), 0;
      calls, log := [], [];
    }

    ghost predicate Valid()
      reads this
    {
      && OnlyTimer(timers, timeout)
      && CalledBy(calls, clock)
      && (calls != [] ==> previous == calls[|calls| - 1].time)
      && (timeout.Some? ==> calls != [] && args == Some(calls[|calls| - 1].args) && timers.live[timeout.value] <= previous + wait)
      && InOrder(log, clock) && Justified(calls, wait, immediate, log)
      && (immediate && timeout.None? && calls != [] ==> previous + wait <= clock)
      && (!immediate && timeout.None? && calls != [] ==> Delivered(|calls| - 1))
      && (!immediate && timeout.Some? ==> Before(log, |calls| - 1))
    }

    ghost predicate Delivered(k: nat)
      reads this
    {
      log != [] && log[|log| - 1].call == k
    }

    /** In immediate mode a call is delivered exactly when no timer is pending. */
    method Called(now: int, a: A)
      requires Valid() && now >= clock
      modifies this
      ensures Valid() && clock == now && timeout.Some? && calls == old(calls) + [Call(now, a)]
      ensures log == if immediate && old(timeout).None? then old(log) + [Delivery(now, a, |old(calls)|)] else old(log)
    {
      JustifiedCall(calls, Call(now, a), wait, immediate, log);
      ghost var d := Delivery(now, a, |calls|);
      if immediate && timeout.None? {
        JustifiedLog(calls + [Call(now, a)], wait, immediate, log, d);
      }
      InOrderSnoc(calls, wait, immediate, log, clock, d);
      clock, calls := now, calls + [Call(now, a)];
      args, previous := Some(a), now;
      if timeout.None? {
        var (t, h) := timers.Set(now + wait);
        timers, timeout := t, Some(h);
        if immediate {
          log := log + [d];
        }
      }
    }

    /** The timer runs: it is set again if a call has come less than `wait` ago; otherwise, in
        trailing mode, the last call is delivered. */
    method Later(h: nat, now: int)
      requires Valid() && h in timers.live && now >= timers.live[h] && now >= clock
      modifies this
      ensures Valid() && clock == now && calls == old(calls)
      ensures timeout.Some? <==> calls[|calls| - 1].time + wait > now
      ensures log == if immediate || timeout.Some? then old(log) else old(log) + [Delivery(now, calls[|calls| - 1].args, |calls| - 1)]
    {
      ghost var d := Delivery(now, calls[|calls| - 1].args, |calls| - 1);
      if !immediate && wait <= now - previous {
        InOrderAppend(log, clock, d);
        assert Settled(calls, wait, d);
        JustifiedLog(calls, wait, immediate, log, d);
      }
      clock := now;
      timers := timers.Clear(h);
      var passed := now - previous;
      if wait > passed {
        var (t, h') := timers.Set(now + (wait - passed));
        timers, timeout := t, Some(h');
      } else {
        timeout := None;
        if !immediate {
          log := log + [Delivery(now, args.value, |calls| - 1)];
        }
        args := None;
      }
    }
  }
}
