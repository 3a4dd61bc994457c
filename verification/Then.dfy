/** Deferred `then`: which of the calls made by a thenable settles the derived deferred.

    Every thenable that turns up is handed a pair of resolvers one level deeper than the last, and
    misbehaving ones may call them again and again, at once or later, and throw besides. A call of a
    resolver, or a throw out of a thenable's `then`, is an event at the level of the resolvers
    concerned. Calls made while `then` is still running come after the call that led to it, so a
    sequence of events is any interleaving the thenables choose.

    The reference is section 2.3.3.3 of Promises/A+: at each level only the first event counts.
 */
module Then {
  import opened Wrappers

  datatype Reason<V> = Thrown(value: V) | SelfResolution

  datatype Outcome<V> = Fulfilled(value: V) | Rejected(reason: Reason<V>)

  /** What the handler of a resolver comes to: a value, a thenable, the derived promise itself, or an
      exception. A rejecting resolver is one whose handler throws its argument. */
  datatype Result<V> = Plain(value: V) | Thenable | Itself | Throws(error: V)

  /** `Notify` is a call of a resolver that only reports progress. */
  datatype Event<V> = Call(level: nat, result: Result<V>) | Throw(level: nat, error: V) | Notify(level: nat, result: Result<V>)

  // ---------- The reference ----------

  predicate Counts<V>(e: Event<V>, level: nat) {
    !e.Notify? && e.level == level
  }

  /** The first event at a level. */
  ghost function First<V>(trace: seq<Event<V>>, level: nat): (first: Option<Event<V>>)
    ensures first.Some? <==> exists i :: 0 <= i < |trace| && Counts(trace[i], level)
    ensures first.Some? ==> Counts(first.value, level) && level < Depth(trace)
  {
    if trace == [] then None
    else
      var init, last := trace[..|trace| - 1], trace[|trace| - 1];
      var before := First(init, level);
      assert trace == init + [last];
      if before.Some? then
        assert forall i :: 0 <= i < |init| ==> trace[i] == init[i];
        before
      else if Counts(last, level) then Some(last)
      else None
  }

  ghost function Depth<V>(trace: seq<Event<V>>): nat {
    if trace == [] then 0
    else
      var d := Depth(trace[..|trace| - 1]);
      if trace[|trace| - 1].level < d then d else trace[|trace| - 1].level + 1
  }

  /** A thenable hands the decision to the next level; anything else decides. */
  ghost function Decision<V>(trace: seq<Event<V>>, level: nat): Option<Outcome<V>>
    decreases Depth(trace) - level
  {
    match First(trace, level)
    case None => None
    case Some(Call(_, Plain(v))) => Some(Fulfilled(v))
    case Some(Call(_, Itself)) => Some(Rejected(SelfResolution))
    case Some(Call(_, Throws(e))) => Some(Rejected(Thrown(e)))
    case Some(Call(_, Thenable)) => Decision(trace, level + 1)
    case Some(Throw(_, e)) => Some(Rejected(Thrown(e)))
  }

  // ---------- The code ----------

  class Derived<V(!new)> {
    var maxDepth: nat
    var outcome: Option<Outcome<V>>
    var notified: seq<V>
    ghost var trace: seq<Event<V>>

    constructor ()
      ensures Valid() && trace == [] && maxDepth == 0
    {
      maxDepth, outcome, notified, trace := 0, None, [], [];
    }

    /** The derived deferred is settled as the first events say; while it is not, no event has
        happened at the deepest level, and every level above it led to a thenable. */
    ghost predicate Valid()
      reads this
    {
      && outcome == Decision(trace, 0)
      && (outcome.None? ==> Open(trace, maxDepth))
    }

    /** The deferred's own resolve and reject take only the first settlement. */
    method Settle(o: Outcome<V>)
      modifies this`outcome
      ensures outcome == if old(outcome).None? then Some(o) else old(outcome)
    {
      if outcome.None? {
        outcome := Some(o);
      }
    }

    /** A resolver of the given level is called. */
    method Resolve(level: nat, result: Result<V>)
      requires Valid() && level <= maxDepth
      modifies this
      ensures Valid() && trace == old(trace) + [Call(level, result)]
      ensures notified == old(notified)
      ensures old(outcome).Some? ==> outcome == old(outcome)
      ensures level < old(maxDepth) ==> outcome == old(outcome) && maxDepth == old(maxDepth)
    {
      OneMore(trace, maxDepth, Call(level, result));
      trace := trace + [Call(level, result)];
      if level < maxDepth {
        return;
      }
      match result {
        case Plain(v) => Settle(Fulfilled(v));
        case Thenable => maxDepth := maxDepth + 1;
        case Itself => Caught(level, SelfResolution);
        case Throws(e) => Caught(level, Thrown(e));
      }
    }

    /** The `catch` around a resolver of the given level. */
    method Caught(level: nat, reason: Reason<V>)
      modifies this`outcome
      ensures outcome == if old(outcome).None? && level + 1 >= maxDepth then Some(Rejected(reason)) else old(outcome)
    {
      if level + 1 >= maxDepth {
        Settle(Rejected(reason));
      }
    }

    /** The `then` of a thenable, which was handed resolvers of the given level, throws. */
    method ThenThrows(level: nat, error: V)
      requires Valid() && 1 <= level <= maxDepth
      modifies this
      ensures Valid() && trace == old(trace) + [Throw(level, error)]
      ensures maxDepth == old(maxDepth) && notified == old(notified)
      ensures old(outcome).Some? || level < maxDepth ==> outcome == old(outcome)
    {
      OneMore(trace, maxDepth, Throw(level, error));
      trace := trace + [Throw(level, error)];
      Caught(level - 1, Thrown(error));
    }

    /** A progress resolver is called. A plain value is passed on. A thenable is handed more progress
        resolvers of the deepest level, and what a handler throws is caught by nobody. */
    method Report(level: nat, result: Result<V>) returns (escaped: Option<Reason<V>>)
      requires Valid() && level <= maxDepth
      modifies this
      ensures Valid() && trace == old(trace) + [Notify(level, result)]
      ensures outcome == old(outcome) && maxDepth == old(maxDepth)
      ensures notified == if result.Plain? && outcome.None? && level == maxDepth then old(notified) + [result.value] else old(notified)
      ensures escaped == if level < maxDepth then None
                         else match result
                           case Itself => Some(SelfResolution)
                           case Throws(e) => Some(Thrown(e))
                           case _ => None
    {
      OneMore(trace, maxDepth, Notify(level, result));
      trace := trace + [Notify(level, result)];
      escaped := None;
      if level < maxDepth {
        return;
      }
      match result {
        case Plain(v) =>
          if outcome.None? {
            notified := notified + [v];
          }
        case Thenable =>
        case Itself => escaped := Some(SelfResolution);
        case Throws(e) => escaped := Some(Thrown(e));
      }
    }
  }

  ghost predicate Open<V>(trace: seq<Event<V>>, depth: nat) {
    && (forall i :: 0 <= i < |trace| && !trace[i].Notify? ==> trace[i].level < depth)
    && forall l :: 0 <= l < depth ==> First(trace, l).Some? && IsThenable(First(trace, l).value)
  }

  predicate IsThenable<V>(e: Event<V>) {
    e.Call? && e.result.Thenable?
  }

  // ---------- Why ----------

  lemma FirstSnoc<V>(trace: seq<Event<V>>, e: Event<V>, level: nat)
    ensures First(trace + [e], level) ==
            if First(trace, level).Some? then First(trace, level) else if Counts(e, level) then Some(e) else None
  {
    assert (trace + [e])[..|trace|] == trace;
  }

  /** Later events never change a decision. */
  lemma {:induction false} DecisionStays<V>(trace: seq<Event<V>>, e: Event<V>, level: nat)
    requires Decision(trace, level).Some?
    ensures Decision(trace + [e], level) == Decision(trace, level)
    decreases Depth(trace) - level
  {
    FirstSnoc(trace, e, level);
    if IsThenable(First(trace, level).value) {
      DecisionStays(trace, e, level + 1);
    }
  }

  /** While every level so far led to a thenable, the deepest level decides. */
  lemma {:induction false} DecisionBelow<V>(trace: seq<Event<V>>, level: nat, depth: nat)
    requires level <= depth
    requires forall l :: level <= l < depth ==> First(trace, l).Some? && IsThenable(First(trace, l).value)
    ensures Decision(trace, level) == Decision(trace, depth)
    decreases depth - level
  {
    if level < depth {
      DecisionBelow(trace, level + 1, depth);
    }
  }

  /** What one more event, at a level already handed out, does to the decision. */
  lemma OneMore<V>(trace: seq<Event<V>>, depth: nat, e: Event<V>)
    requires Decision(trace, 0).None? ==> Open(trace, depth)
    requires e.level <= depth
    ensures
      var longer := trace + [e];
      if Decision(trace, 0).Some? then Decision(longer, 0) == Decision(trace, 0)
      else if e.Notify? || e.level < depth then Decision(longer, 0) == None && Open(longer, depth)
      else match e
        case Call(_, Plain(v)) => Decision(longer, 0) == Some(Fulfilled(v))
        case Call(_, Itself) => Decision(longer, 0) == Some(Rejected(SelfResolution))
        case Call(_, Throws(r)) => Decision(longer, 0) == Some(Rejected(Thrown(r)))
        case Call(_, Thenable) => Decision(longer, 0) == None && Open(longer, depth + 1)
        case Throw(_, r) => Decision(longer, 0) == Some(Rejected(Thrown(r)))
  {
    var longer := trace + [e];
    if Decision(trace, 0).Some? {
      DecisionStays(trace, e, 0);
    } else {
      forall l ensures First(longer, l) == if First(trace, l).Some? then First(trace, l) else if Counts(e, l) then Some(e) else None {
        FirstSnoc(trace, e, l);
      }
      DecisionBelow(longer, 0, depth);
      if First(longer, depth).Some? && IsThenable(First(longer, depth).value) {
        DecisionBelow(longer, depth, depth + 1);
      }
    }
  }
}
