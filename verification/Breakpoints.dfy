/** gdb's DAP server: setting the breakpoints of one kind to a requested list.

    A breakpoint that the previous request of the kind left under the same key is reused, whatever
    its condition; others are created, and what is left of the previous request is deleted. Creating
    and setting attributes may fail; the failures are given with each item of the request.
 */
module Breakpoints {
  import opened Wrappers

  type Number = nat

  /** An item of the request: the key is the specification without its condition and hit count. */
  datatype Spec<K> = Spec(key: K, condition: Option<string>, hitCondition: Option<string>)

  /** What gdb does with the item: creation may fail, so may the condition, and the hit count may
      fail to evaluate. */
  datatype Behaviour = Behaviour(createFails: bool, conditionFails: bool, ignoreCount: Option<int>)

  datatype Item<K> = Item(spec: Spec<K>, gdb: Behaviour)

  datatype Attributes = Attributes(condition: Option<string>, ignoreCount: int)

  datatype Descriptor = Set(number: Number) | Failed

  predicate Accepts<K>(item: Item<K>) {
    !item.gdb.conditionFails && (item.spec.hitCondition.None? || item.gdb.ignoreCount.Some?)
  }

  function AttributesOf<K>(item: Item<K>): Attributes
    requires Accepts(item)
  {
    Attributes(item.spec.condition, if item.spec.hitCondition.None? then 0 else item.gdb.ignoreCount.value)
  }

  ghost predicate Mentioned<K>(items: seq<Item<K>>, n: nat, k: K)
    requires n <= |items|
  {
    exists j :: 0 <= j < n && items[j].spec.key == k
  }

  /** Item `i` takes over a saved breakpoint: it is the first one with its key. */
  ghost predicate Reuses<K>(saved: map<K, Number>, items: seq<Item<K>>, i: nat)
    requires i < |items|
  {
    items[i].spec.key in saved && !Mentioned(items, i, items[i].spec.key)
  }

  ghost predicate Succeeds<K>(saved: map<K, Number>, items: seq<Item<K>>, i: nat)
    requires i < |items|
  {
    Accepts(items[i]) && (Reuses(saved, items, i) || !items[i].gdb.createFails)
  }

  ghost predicate Injective<K>(m: map<K, Number>) {
    forall k, l :: k in m && l in m && k != l ==> m[k] != m[l]
  }

  /** The breakpoints that the results name. */
  ghost function Numbers(results: seq<Descriptor>): set<Number> {
    set j | 0 <= j < |results| && results[j].Set? :: results[j].number
  }

  /** Results answer the items by position: a reused breakpoint, a new one, or a failure, and no
      breakpoint twice. */
  ghost predicate Answers<K>(saved: map<K, Number>, items: seq<Item<K>>, results: seq<Descriptor>, first: Number, next: Number) {
    && |results| <= |items|
    && (forall j :: 0 <= j < |results| ==> (results[j].Set? <==> Succeeds(saved, items, j)))
    && (forall j :: 0 <= j < |results| && results[j].Set? ==>
        if Reuses(saved, items, j) then results[j].number == saved[items[j].spec.key] else first <= results[j].number < next)
    && forall j, l :: 0 <= j < l < |results| && results[j].Set? && results[l].Set? ==> results[j].number != results[l].number
  }

  /** The new map holds, for each key, the breakpoint of the last success with that key. */
  ghost predicate Records<K>(items: seq<Item<K>>, results: seq<Descriptor>, made: map<K, Number>)
    requires |results| <= |items|
  {
    && (forall k :: k in made ==> exists j: nat :: LastSuccess(items, results, k, j) && made[k] == results[j].number)
    && (forall j :: 0 <= j < |results| && results[j].Set? ==> items[j].spec.key in made)
  }

  ghost predicate LastSuccess<K>(items: seq<Item<K>>, results: seq<Descriptor>, k: K, j: nat)
    requires |results| <= |items|
  {
    && j < |results| && results[j].Set? && items[j].spec.key == k
    && forall l :: j < l < |results| && results[l].Set? ==> items[l].spec.key != k
  }

  /** What the loop starts from. */
  datatype Start<K(!new)> = Start(saved: map<K, Number>, live: set<Number>, next: Number, deleted: set<Number>, attributes: map<Number, Attributes>) {
    ghost predicate Valid() {
      Injective(saved) && saved.Values <= live && live !! deleted && (forall b :: b in live ==> b < next) && forall b :: b in deleted ==> b < next
    }

    /** Nothing changes on a breakpoint that is not one of the saved ones. */
    ghost predicate Untouched(attributes': map<Number, Attributes>) {
      forall b :: b in attributes && b < next && b !in saved.Values ==> b in attributes' && attributes'[b] == attributes[b]
    }
  }

  /** gdb's side: what exists, the next number, what was deleted, and what is set on each. */
  datatype Gdb = Gdb(live: set<Number>, next: Number, deleted: set<Number>, attributes: map<Number, Attributes>)

  ghost predicate NoneCreated<K>(saved: map<K, Number>, items: seq<Item<K>>, n: nat)
    requires n <= |items|
  {
    forall j :: 0 <= j < n ==> Reuses(saved, items, j) || items[j].gdb.createFails
  }

  /** What one item does. */
  ghost predicate Treated<K>(item: Item<K>, saved: map<K, Number>, made: map<K, Number>, g: Gdb,
                             saved': map<K, Number>, made': map<K, Number>, d: Descriptor, g': Gdb) {
    var reuse := item.spec.key in saved;
    var b := if reuse then saved[item.spec.key] else g.next;
    var success := Accepts(item) && (reuse || !item.gdb.createFails);
    && saved' == saved - {item.spec.key}
    && d == (if success then Set(b) else Failed)
    && made' == (if success then made[item.spec.key := b] else made)
    && g'.next == (if reuse || item.gdb.createFails then g.next else g.next + 1)
    && g'.live == (if success then g.live + {b} else g.live - {b})
    && g'.deleted == g.deleted + (if success || (!reuse && item.gdb.createFails) then {} else {b})
    && (success ==> g'.attributes == g.attributes[b := AttributesOf(item)])
    && (forall x :: x in g.attributes && x != b ==> x in g'.attributes && g'.attributes[x] == g.attributes[x])
  }

  /** Where the first loop stands after some results, having started from the given values. */
  ghost predicate Round<K(!new)>(items: seq<Item<K>>, results: seq<Descriptor>, saved: map<K, Number>, made: map<K, Number>, start: Start<K>, g: Gdb)
  {
    && start.Valid() && start.next <= g.next && |results| <= |items|
    && (NoneCreated(start.saved, items, |results|) ==> g.next == start.next)
    && Answers(start.saved, items, results, start.next, g.next) && Records(items, results, made)
    && Left(start.saved, items, |results|, saved)
    && g.live == start.live - (start.saved.Values - saved.Values) + Numbers(results)
    && Conserved(start.live, start.next, start.deleted, g.live, g.next, g.deleted)
    && Tuned(items, results, g.attributes) && start.Untouched(g.attributes)
  }

  /** Every breakpoint is recorded once at most. It need not exist any more. */
  ghost predicate Owned<K>(kinds: map<string, map<K, Number>>, next: Number) {
    && (forall kind :: kind in kinds ==> Injective(kinds[kind]) && Below(kinds[kind], next))
    && forall kind, other :: kind in kinds && other in kinds && kind != other ==> kinds[kind].Values !! kinds[other].Values
  }

  ghost predicate Below<K>(m: map<K, Number>, next: Number) {
    forall k :: k in m ==> m[k] < next
  }

  /** All breakpoints of the previous request still exist. */
  ghost predicate Intact<K(!new)>(start: Start<K>) {
    start.saved.Values <= start.live
  }

  /** What is left to take over is as it was saved, and what has been taken over existed. */
  ghost predicate Remaining<K(!new)>(start: Start<K>, saved: map<K, Number>) {
    && Injective(start.saved) && Below(start.saved, start.next)
    && (forall k :: k in saved ==> k in start.saved && saved[k] == start.saved[k])
    && forall k :: k in start.saved && k !in saved ==> start.saved[k] in start.live
  }

  /** What is recorded exists, is recorded once, and is new or taken over. */
  ghost predicate Recorded<K(!new)>(start: Start<K>, saved: map<K, Number>, made: map<K, Number>, g: Gdb) {
    && Injective(made) && (forall k :: k in made ==> made[k] in g.live)
    && (forall k :: k in made ==> made[k] in start.saved.Values || start.next <= made[k] < g.next)
    && forall k, l :: k in made && l in saved ==> made[k] != saved[l]
  }

  /** Nothing has gone but what was saved and taken over, and nothing come but what was created. */
  ghost predicate Spared<K(!new)>(start: Start<K>, saved: map<K, Number>, g: Gdb) {
    && start.next <= g.next && start.live - start.saved.Values <= g.live
    && (forall b :: b in g.live ==> b in start.live || start.next <= b < g.next)
    && forall k :: k in saved && saved[k] in start.live ==> saved[k] in g.live
  }

  /** Where a request stands, whether or not all breakpoints of the previous one still exist. */
  ghost predicate Loose<K(!new)>(start: Start<K>, saved: map<K, Number>, made: map<K, Number>, g: Gdb) {
    Remaining(start, saved) && Recorded(start, saved, made, g) && Spared(start, saved, g)
  }

  ghost predicate Standing<K(!new)>(items: seq<Item<K>>, results: seq<Descriptor>, saved: map<K, Number>, made: map<K, Number>, start: Start<K>, g: Gdb) {
    Loose(start, saved, made, g) && (Intact(start) ==> Round(items, results, saved, made, start, g))
  }

  class Session<K(==, !new)> {
    var breakpointMap: map<string, map<K, Number>>
    /** gdb's own state: the breakpoints that exist, what is set on them, and the next number. */
    var live: set<Number>
    var attributes: map<Number, Attributes>
    var next: Number
    ghost var deleted: set<Number>

    constructor ()
      ensures Valid() && live == {} && breakpointMap == map[]
    {
      breakpointMap, live, attributes, next, deleted := map[], {}, map[], 0, {};
    }

    ghost predicate Valid()
      reads this
    {
      Numbered() && Owned(breakpointMap, next)
    }

    /** gdb's numbers are in order, and nothing that was deleted exists. */
    ghost predicate Numbered()
      reads this
    {
      deleted !! live && (forall b :: b in live ==> b < next) && forall b :: b in deleted ==> b < next
    }

    /** gdb refuses to delete what does not exist, so nothing is ever deleted twice. */
    method Delete(b: Number)
      requires b in live
      modifies this`live, this`deleted
      ensures live == old(live) - {b} && deleted == old(deleted) + {b}
    {
      live := live - {b};
      deleted := deleted + {b};
    }

    /** The user deletes a breakpoint by other means, and the map is none the wiser. */
    method UserDeletes(b: Number)
      requires Valid() && b in live
      modifies this`live, this`deleted
      ensures Valid() && live == old(live) - {b} && deleted == old(deleted) + {b}
    {
      Delete(b);
    }

    /** The body of the loop: one item is reused, created, or found to fail. If what is to be reused no
        longer exists, setting its condition raises, and so does deleting it in the handler: the
        exception leaves the request. */
    method Treat(item: Item<K>, saved: map<K, Number>, made: map<K, Number>)
      returns (ok: bool, saved': map<K, Number>, made': map<K, Number>, d: Descriptor)
      requires Numbered()
      modifies this`live, this`attributes, this`next, this`deleted
      ensures Numbered() && (ok <==> item.spec.key in saved ==> saved[item.spec.key] in old(live))
      ensures if ok then Treated(item, saved, made, old(State()), saved', made', d, State()) else State() == old(State())
    {
      var key := item.spec.key;
      var bp: Option<Number> := None;
      ok, saved', made', d := true, saved - {key}, made, Failed;
      if key in saved {
        bp := Some(saved[key]);
        if bp.value !in live {
          ok := false;
          return;
        }
      } else if item.gdb.createFails {
        return;
      } else {
        bp := Some(next);
        live, next := live + {next}, next + 1;
      }
      var b := bp.value;
      if item.gdb.conditionFails {
        Delete(b);
        return;
      }
      attributes := attributes[b := Attributes(item.spec.condition, 0)];
      if item.spec.hitCondition.Some? {
        if item.gdb.ignoreCount.None? {
          Delete(b);
          return;
        }
        attributes := attributes[b := Attributes(item.spec.condition, item.gdb.ignoreCount.value)];
      }
      made' := made[key := b];
      d := Set(b);
    }

    /** The second loop: deletes what was not reused, up to the first that no longer exists. */
    method DeleteLeft(values: set<Number>) returns (ok: bool)
      requires Numbered()
      modifies this`live, this`deleted
      ensures Numbered() && (ok <==> values <= old(live))
      ensures ok ==> live == old(live) - values && deleted == old(deleted) + values
      ensures old(live) - values <= live <= old(live)
    {
      var left := values;
      while left != {}
        invariant Numbered() && left <= values && live == old(live) - (values - left) && deleted == old(deleted) + (values - left)
        invariant values - left <= old(live)
      {
        var b :| b in left;
        if b !in live {
          return false;
        }
        Delete(b);
        left := left - {b};
      }
      ok := true;
    }

    ghost function State(): Gdb
      reads this
    {
      Gdb(live, next, deleted, attributes)
    }

    method NextItem(items: seq<Item<K>>, results: seq<Descriptor>, saved: map<K, Number>, made: map<K, Number>, ghost start: Start<K>)
      returns (ok: bool, results': seq<Descriptor>, saved': map<K, Number>, made': map<K, Number>)
      requires |results| < |items| && Numbered() && Standing(items, results, saved, made, start, State())
      modifies this`live, this`attributes, this`next, this`deleted
      ensures Numbered()
      ensures ok ==> |results'| == |results| + 1 && Standing(items, results', saved', made', start, State())
      ensures !ok ==> !Intact(start) && State() == old(State())
    {
      LeftIntact(start, saved, made, State());
      var d;
      ok, saved', made', d := Treat(items[|results|], saved, made);
      results' := results + [d];
      if ok {
        StandingStep(items, results, saved, made, start, old(State()), saved', made', d, State());
      } else {
        assert saved[items[|results|].spec.key] in saved.Values;
      }
    }

    /** Sets the breakpoints of one kind. This comes to an end exactly if all breakpoints of the previous
        request of the kind still exist. Then exactly those named by the results exist of this kind,
        each earlier one having been reused or deleted, and every other breakpoint is as it was. If an
        exception ends it, the map holds what was set by then. */
    method SetBreakpoints(kind: string, items: seq<Item<K>>) returns (outcome: Option<seq<Descriptor>>)
      requires Valid()
      modifies this
      ensures Valid()
      ensures outcome.Some? <==> old(Saved(kind)).Values <= old(live)
      ensures outcome.Some? ==> Completed(items, outcome.value, old(Before(kind)), Saved(kind), State())
      ensures outcome.Some? ==>
                (live == old(live) - old(Saved(kind)).Values + Saved(kind).Values <==> NoKeyTwice(old(Saved(kind)), items))
      ensures kind in breakpointMap && Saved(kind).Values <= live
      ensures OthersKept(kind, old(breakpointMap), breakpointMap)
      ensures old(next) <= next && old(live) - old(Saved(kind)).Values <= live
    {
      var saved0 := if kind in breakpointMap then breakpointMap[kind] else map[];
      var saved, made: map<K, Number> := saved0, map[];
      ghost var start := Before(kind);
      var results: seq<Descriptor> := [];
      StandingStarts(items, start, State());
      while |results| < |items|
        invariant |results| <= |items| && breakpointMap == old(breakpointMap) && Numbered()
        invariant Standing(items, results, saved, made, start, State())
      {
        var ok, results', saved', made' := NextItem(items, results, saved, made, start);
        if !ok {
          Raised(kind, saved, made, start);
          OthersKeep(old(breakpointMap), kind, made);
          return None;
        }
        results, saved, made := results', saved', made';
      }
      var ok := Finish(kind, items, results, saved, made, start);
      OthersKeep(old(breakpointMap), kind, made);
      if ok {
        LiveIsRecorded(items, results, start, made, State());
      }
      outcome := if ok then Some(results) else None;
    }

    /** An exception leaves the request in the middle. */
    method Raised(kind: string, ghost saved: map<K, Number>, made: map<K, Number>, ghost start: Start<K>)
      requires Numbered() && Loose(start, saved, made, State()) && Owned(breakpointMap, start.next) && start.saved == Saved(kind)
      modifies this`breakpointMap
      ensures Valid() && breakpointMap == old(breakpointMap)[kind := made]
      ensures made.Values <= live && start.live - start.saved.Values <= live && start.next <= next
    {
      OwnedAfter(breakpointMap, kind, start, saved, made, State());
      breakpointMap := breakpointMap[kind := made];
    }

    method Finish(kind: string, ghost items: seq<Item<K>>, ghost results: seq<Descriptor>, saved: map<K, Number>, made: map<K, Number>, ghost start: Start<K>)
      returns (ok: bool)
      requires Numbered() && Standing(items, results, saved, made, start, State()) && |results| == |items|
      requires Owned(breakpointMap, start.next) && start.saved == Saved(kind)
      modifies this`live, this`deleted, this`breakpointMap
      ensures Valid() && breakpointMap == old(breakpointMap)[kind := made] && (ok <==> Intact(start))
      ensures made.Values <= live && start.live - start.saved.Values <= live && start.next <= next
      ensures ok ==> Completed(items, results, start, made, State())
    {
      OwnedAfter(breakpointMap, kind, start, saved, made, State());
      LeftIntact(start, saved, made, State());
      StandingEnds(items, results, saved, made, start, State());
      ok := DeleteLeft(saved.Values);
      breakpointMap := breakpointMap[kind := made];
    }

    /** What a request of the kind starts from. */
    ghost function Before(kind: string): Start<K>
      reads this
    {
      Start(Saved(kind), live, next, deleted, attributes)
    }

    ghost function Saved(kind: string): map<K, Number>
      reads this
    {
      if kind in breakpointMap then breakpointMap[kind] else map[]
    }

    /** Asking again for what was set, by the same keys, makes and deletes nothing and answers the same. */
    method SetTwice(kind: string, items: seq<Item<K>>, again: seq<Item<K>>)
      returns (outcome: Option<seq<Descriptor>>, outcome': Option<seq<Descriptor>>, ghost between: Gdb)
      requires Valid() && Saved(kind).Values <= live && DistinctKeys(items) && SameKeys(items, again)
      requires forall j :: 0 <= j < |items| ==> Accepts(items[j]) && !items[j].gdb.createFails && Accepts(again[j])
      modifies this
      ensures Valid() && outcome.Some? && outcome' == outcome
      ensures between.live == live && between.next == next && between.deleted == deleted
    {
      ghost var start := Before(kind);
      outcome := SetBreakpoints(kind, items);
      between := State();
      ghost var second := Before(kind);
      outcome' := SetBreakpoints(kind, again);
      CompletedTwice(items, again, outcome.value, outcome'.value, start, between, second, Saved(kind), State());
    }

    /** After the user has deleted a recorded breakpoint the next request of its kind raises, and the one
        after that is answered again. */
    method SetAfterDeletion(kind: string, b: Number, items: seq<Item<K>>) returns (outcome: Option<seq<Descriptor>>, outcome': Option<seq<Descriptor>>)
      requires Valid() && b in live && b in Saved(kind).Values
      modifies this
      ensures Valid() && outcome.None? && outcome'.Some?
    {
      UserDeletes(b);
      outcome := SetBreakpoints(kind, items);
      outcome' := SetBreakpoints(kind, items);
    }
  }

  /** What a completed request has done. */
  ghost predicate Completed<K(!new)>(items: seq<Item<K>>, results: seq<Descriptor>, start: Start<K>, made: map<K, Number>, g: Gdb) {
    && |results| == |items| && Answers(start.saved, items, results, start.next, g.next) && Records(items, results, made)
    && g.live == start.live - start.saved.Values + Numbers(results)
    && Conserved(start.live, start.next, start.deleted, g.live, g.next, g.deleted)
    && (NoneCreated(start.saved, items, |items|) ==> g.next == start.next)
    && Tuned(items, results, g.attributes) && start.Untouched(g.attributes)
  }

  lemma AnswersTwice<K(!new)>(items: seq<Item<K>>, again: seq<Item<K>>, results: seq<Descriptor>, results': seq<Descriptor>,
                              saved: map<K, Number>, first: Number, next: Number, made: map<K, Number>, next': Number)
    requires DistinctKeys(items) && SameKeys(items, again)
    requires forall j :: 0 <= j < |items| ==> Accepts(items[j]) && !items[j].gdb.createFails && Accepts(again[j])
    requires |results| == |items| && Answers(saved, items, results, first, next) && Records(items, results, made)
    requires |results'| == |again| && Answers(made, again, results', next, next')
    ensures results' == results && NoneCreated(made, again, |again|)
  {
    SameAnswers(items, again, saved, results, first, next, made);
    forall j | 0 <= j < |again| ensures results'[j] == results[j] {
      assert Succeeds(made, again, j);
    }
  }

  lemma OthersKeep<K>(kinds: map<string, map<K, Number>>, kind: string, made: map<K, Number>)
    ensures OthersKept(kind, kinds, kinds[kind := made])
  {
  }

  lemma SameLive<K>(live: set<Number>, made: map<K, Number>, results: seq<Descriptor>)
    requires made.Values == Numbers(results) && Numbers(results) <= live
    ensures live - made.Values + Numbers(results) == live
  {
  }

  lemma NoneDeleted(live: set<Number>, next: Number, deleted: set<Number>, deleted': set<Number>)
    requires Conserved(live, next, deleted, live, next, deleted') && live !! deleted'
    ensures deleted' == deleted
  {
    forall b ensures b in deleted' <==> b in deleted {
      assert b in deleted' - deleted ==> b in live;
    }
  }

  lemma CompletedTwice<K(!new)>(items: seq<Item<K>>, again: seq<Item<K>>, results: seq<Descriptor>, results': seq<Descriptor>,
                               start: Start<K>, g: Gdb, second: Start<K>, made': map<K, Number>, g': Gdb)
    requires DistinctKeys(items) && SameKeys(items, again)
    requires forall j :: 0 <= j < |items| ==> Accepts(items[j]) && !items[j].gdb.createFails && Accepts(again[j])
    requires second.live == g.live && second.next == g.next && second.deleted == g.deleted && g'.live !! g'.deleted
    requires Completed(items, results, start, second.saved, g) && Completed(again, results', second, made', g')
    ensures results' == results && g'.live == g.live && g'.next == g.next && g'.deleted == g.deleted
  {
    AnswersTwice(items, again, results, results', start.saved, start.next, g.next, second.saved, g'.next);
    AllRecorded(start.saved, items, results, start.next, g.next, second.saved);
    SameLive(g.live, second.saved, results);
    NoneDeleted(g.live, g.next, g.deleted, g'.deleted);
  }

  ghost predicate OthersKept<K>(kind: string, kinds: map<string, map<K, Number>>, kinds': map<string, map<K, Number>>) {
    && (forall other :: other != kind ==> (other in kinds' <==> other in kinds))
    && forall other :: other != kind && other in kinds' ==> kinds'[other] == kinds[other]
  }

  /** What has not been taken over exists exactly if everything did from the start. */
  lemma LeftIntact<K(!new)>(start: Start<K>, saved: map<K, Number>, made: map<K, Number>, g: Gdb)
    requires Loose(start, saved, made, g)
    ensures saved.Values <= g.live <==> Intact(start)
  {
    if saved.Values <= g.live {
      forall b | b in start.saved.Values ensures b in start.live {
        var k :| k in start.saved && start.saved[k] == b;
        assert k in saved ==> saved[k] in saved.Values;
      }
    }
    if Intact(start) {
      forall k | k in saved ensures saved[k] in g.live {
        assert start.saved[k] in start.saved.Values;
      }
    }
  }

  /** The breakpoint an item is about is neither recorded yet nor left afterwards. */
  lemma FreshNumber<K(!new)>(item: Item<K>, saved: map<K, Number>, made: map<K, Number>, start: Start<K>, g: Gdb)
    requires Loose(start, saved, made, g) && (forall b :: b in g.live ==> b < g.next)
    ensures
      var key := item.spec.key;
      var b := if key in saved then saved[key] else g.next;
      && (forall k :: k in made ==> made[k] != b) && (forall k :: k in saved && k != key ==> saved[k] != b)
      && (b in start.saved.Values || b == g.next)
  {
    var key := item.spec.key;
    if key in saved {
      assert start.saved[key] in start.saved.Values;
    }
    forall k | k in saved && k != key ensures saved[k] != if key in saved then saved[key] else g.next {
      assert k in start.saved;
    }
  }

  lemma RemainingStep<K(!new)>(start: Start<K>, saved: map<K, Number>, g: Gdb, key: K)
    requires Remaining(start, saved) && Spared(start, saved, g) && (key in saved ==> saved[key] in g.live)
    ensures Remaining(start, saved - {key})
  {
  }

  lemma RecordedStep<K(!new)>(item: Item<K>, saved: map<K, Number>, made: map<K, Number>, start: Start<K>, g: Gdb,
                              saved': map<K, Number>, made': map<K, Number>, d: Descriptor, g': Gdb)
    requires Loose(start, saved, made, g) && Treated(item, saved, made, g, saved', made', d, g')
    requires forall b :: b in g.live ==> b < g.next
    ensures Recorded(start, saved', made', g')
  {
    FreshNumber(item, saved, made, start, g);
  }

  lemma SparedStep<K(!new)>(item: Item<K>, saved: map<K, Number>, made: map<K, Number>, start: Start<K>, g: Gdb,
                            saved': map<K, Number>, made': map<K, Number>, d: Descriptor, g': Gdb)
    requires Loose(start, saved, made, g) && Treated(item, saved, made, g, saved', made', d, g')
    requires (forall b :: b in g.live ==> b < g.next) && (item.spec.key in saved ==> saved[item.spec.key] in g.live)
    ensures Spared(start, saved', g')
  {
    FreshNumber(item, saved, made, start, g);
  }

  lemma StandingStep<K(!new)>(items: seq<Item<K>>, results: seq<Descriptor>, saved: map<K, Number>, made: map<K, Number>, start: Start<K>, g: Gdb,
                              saved': map<K, Number>, made': map<K, Number>, d: Descriptor, g': Gdb)
    requires |results| < |items| && Standing(items, results, saved, made, start, g)
    requires (forall b :: b in g.live ==> b < g.next) && g.live !! g.deleted
    requires Treated(items[|results|], saved, made, g, saved', made', d, g')
    requires items[|results|].spec.key in saved ==> saved[items[|results|].spec.key] in g.live
    ensures Standing(items, results + [d], saved', made', start, g')
  {
    RemainingStep(start, saved, g, items[|results|].spec.key);
    RecordedStep(items[|results|], saved, made, start, g, saved', made', d, g');
    SparedStep(items[|results|], saved, made, start, g, saved', made', d, g');
    if Intact(start) {
      RoundStep(items, results, saved, made, start, g, saved', made', d, g');
    }
  }

  lemma StandingStarts<K(!new)>(items: seq<Item<K>>, start: Start<K>, g: Gdb)
    requires g == Gdb(start.live, start.next, start.deleted, start.attributes)
    requires Injective(start.saved) && Below(start.saved, start.next) && start.live !! start.deleted
    requires (forall b :: b in start.live ==> b < start.next) && forall b :: b in start.deleted ==> b < start.next
    ensures Standing(items, [], start.saved, map[], start, g)
  {
  }

  /** Deleting what is left completes the request, if all of it exists, and harms nothing recorded. */
  lemma StandingEnds<K(!new)>(items: seq<Item<K>>, results: seq<Descriptor>, saved: map<K, Number>, made: map<K, Number>, start: Start<K>, g: Gdb)
    requires Standing(items, results, saved, made, start, g) && |results| == |items|
    ensures made.Values <= g.live - saved.Values && start.live - start.saved.Values <= g.live - saved.Values
    ensures Intact(start) ==> Completed(items, results, start, made, g.(live := g.live - saved.Values, deleted := g.deleted + saved.Values))
  {
    forall k | k in saved ensures saved[k] in start.saved.Values {
      assert k in start.saved;
    }
    if Intact(start) {
      RoundEnds(items, results, saved, made, start, g);
    }
  }

  lemma RoundEnds<K(!new)>(items: seq<Item<K>>, results: seq<Descriptor>, saved: map<K, Number>, made: map<K, Number>, start: Start<K>, g: Gdb)
    requires Round(items, results, saved, made, start, g) && |results| == |items|
    ensures Completed(items, results, start, made, g.(live := g.live - saved.Values, deleted := g.deleted + saved.Values))
  {
    LeftValues(start.saved, items, |items|, saved);
    LeftUnused(start.saved, items, results, start.next, g.next, saved);
    LeftLive(items, results, saved, made, start, g);
  }

  /** What is left of the saved map after the first `n` items. */
  ghost predicate Left<K(!new)>(saved0: map<K, Number>, items: seq<Item<K>>, n: nat, saved: map<K, Number>)
    requires n <= |items|
  {
    && (forall k :: k in saved <==> k in saved0 && !Mentioned(items, n, k))
    && forall k :: k in saved ==> saved[k] == saved0[k]
  }

  /** Whatever existed or was created either exists or was deleted. */
  ghost predicate Conserved(live0: set<Number>, next0: Number, deleted0: set<Number>, live: set<Number>, next: Number, deleted: set<Number>) {
    && deleted0 <= deleted
    && forall b :: (b in live0 || next0 <= b < next) <==> (b in live || b in deleted - deleted0)
  }

  ghost predicate Tuned<K>(items: seq<Item<K>>, results: seq<Descriptor>, attributes: map<Number, Attributes>) {
    && |results| <= |items|
    && forall j :: 0 <= j < |results| && results[j].Set? ==>
        results[j].number in attributes && Accepts(items[j]) && attributes[results[j].number] == AttributesOf(items[j])
  }

  lemma MentionedSnoc<K>(items: seq<Item<K>>, n: nat, k: K)
    requires n < |items|
    ensures Mentioned(items, n + 1, k) <==> Mentioned(items, n, k) || items[n].spec.key == k
  {
  }

  lemma LeftStep<K(!new)>(saved0: map<K, Number>, items: seq<Item<K>>, n: nat, saved: map<K, Number>)
    requires n < |items| && Left(saved0, items, n, saved)
    ensures Left(saved0, items, n + 1, saved - {items[n].spec.key})
    ensures items[n].spec.key in saved <==> Reuses(saved0, items, n)
  {
    forall k ensures Mentioned(items, n + 1, k) <==> Mentioned(items, n, k) || items[n].spec.key == k {
      MentionedSnoc(items, n, k);
    }
  }

  lemma LeftValues<K(!new)>(saved0: map<K, Number>, items: seq<Item<K>>, n: nat, saved: map<K, Number>)
    requires n <= |items| && Injective(saved0) && Left(saved0, items, n, saved)
    ensures Injective(saved) && saved.Values <= saved0.Values
  {
    forall b | b in saved.Values ensures b in saved0.Values {
      var k :| k in saved && saved[k] == b;
      assert k in saved0 && saved0[k] == b;
    }
  }

  lemma NumbersSnoc(results: seq<Descriptor>, d: Descriptor)
    ensures Numbers(results + [d]) == Numbers(results) + (if d.Set? then {d.number} else {})
  {
    var longer := results + [d];
    assert longer[|results|] == d;
    assert forall j :: 0 <= j < |results| ==> longer[j] == results[j];
    forall b ensures b in Numbers(longer) <==> b in Numbers(results) || (d.Set? && b == d.number) {
      if b in Numbers(results) {
        var j :| 0 <= j < |results| && results[j].Set? && results[j].number == b;
        assert longer[j].Set? && longer[j].number == b;
      }
      if d.Set? && b == d.number {
        assert longer[|results|].number == b;
      }
    }
  }

  lemma ValuesMinus<K>(m: map<K, Number>, k: K)
    requires Injective(m)
    ensures (m - {k}).Values == m.Values - (if k in m then {m[k]} else {})
  {
    var less := m - {k};
    forall b ensures b in less.Values <==> b in m.Values && !(k in m && b == m[k]) {
      if b in m.Values && !(k in m && b == m[k]) {
        var l :| l in m && m[l] == b;
        assert l in less && less[l] == b;
      }
      if b in less.Values {
        var l :| l in less && less[l] == b;
        assert l in m && l != k;
      }
    }
  }

  lemma AnswersSnoc<K>(saved: map<K, Number>, items: seq<Item<K>>, results: seq<Descriptor>, first: Number, next: Number, next': Number, d: Descriptor)
    requires Answers(saved, items, results, first, next) && |results| < |items| && first <= next <= next'
    requires Injective(saved) && forall b :: b in saved.Values ==> b < first
    requires d.Set? <==> Succeeds(saved, items, |results|)
    requires d.Set? ==> if Reuses(saved, items, |results|) then d.number == saved[items[|results|].spec.key] else d.number == next < next'
    ensures Answers(saved, items, results + [d], first, next')
  {
    var i := |results|;
    forall j | 0 <= j < i && results[j].Set? && d.Set? ensures results[j].number != d.number {
      if Reuses(saved, items, j) && Reuses(saved, items, i) {
        assert items[j].spec.key != items[i].spec.key;
      } else if Reuses(saved, items, j) {
        assert saved[items[j].spec.key] in saved.Values;
      } else if Reuses(saved, items, i) {
        assert saved[items[i].spec.key] in saved.Values;
      }
    }
  }

  lemma RecordsSnoc<K>(items: seq<Item<K>>, results: seq<Descriptor>, made: map<K, Number>, d: Descriptor, made': map<K, Number>)
    requires |results| < |items| && Records(items, results, made)
    requires made' == if d.Set? then made[items[|results|].spec.key := d.number] else made
    ensures Records(items, results + [d], made')
  {
    var longer, key := results + [d], items[|results|].spec.key;
    forall k | k in made' ensures exists j: nat :: LastSuccess(items, longer, k, j) && made'[k] == longer[j].number {
      if d.Set? && k == key {
        assert LastSuccess(items, longer, k, |results|);
      } else {
        var j: nat :| LastSuccess(items, results, k, j) && made[k] == results[j].number;
        assert LastSuccess(items, longer, k, j) && longer[j] == results[j];
      }
    }
  }

  /** A saved breakpoint that no item has named yet is not among the results. */
  lemma NotUsedYet<K>(saved: map<K, Number>, items: seq<Item<K>>, results: seq<Descriptor>, first: Number, next: Number, k: K)
    requires Answers(saved, items, results, first, next) && Injective(saved) && forall b :: b in saved.Values ==> b < first
    requires k in saved && !Mentioned(items, |results|, k)
    ensures saved[k] !in Numbers(results)
  {
    forall j | 0 <= j < |results| && results[j].Set? ensures results[j].number != saved[k] {
      assert items[j].spec.key != k;
      assert saved[k] in saved.Values;
    }
  }

  lemma LiveStep<K>(saved0: map<K, Number>, saved: map<K, Number>, k: K, live0: set<Number>, live: set<Number>, next: Number,
                    results: seq<Descriptor>, d: Descriptor, live': set<Number>)
    requires Injective(saved) && saved.Values <= saved0.Values
    requires live == live0 - (saved0.Values - saved.Values) + Numbers(results)
    requires next !in live && next !in saved0.Values
    requires k in saved ==> saved[k] !in Numbers(results)
    requires
      var b := if k in saved then saved[k] else next;
      live' == (if d.Set? then live + {b} else live - {b}) && (d.Set? ==> d.number == b)
    ensures live' == live0 - (saved0.Values - (saved - {k}).Values) + Numbers(results + [d])
  {
    NumbersSnoc(results, d);
    ValuesMinus(saved, k);
    if k in saved {
      assert saved[k] in saved.Values;
    }
  }

  lemma LeftUnused<K(!new)>(saved0: map<K, Number>, items: seq<Item<K>>, results: seq<Descriptor>, first: Number, next: Number, saved: map<K, Number>)
    requires Answers(saved0, items, results, first, next) && Injective(saved0) && forall b :: b in saved0.Values ==> b < first
    requires Left(saved0, items, |results|, saved)
    ensures saved.Values !! Numbers(results)
  {
    forall b | b in saved.Values ensures b !in Numbers(results) {
      var k :| k in saved && saved[k] == b;
      NotUsedYet(saved0, items, results, first, next, k);
    }
  }

  lemma ConservedStep(live0: set<Number>, next0: Number, deleted0: set<Number>, live: set<Number>, next: Number, deleted: set<Number>,
                      live': set<Number>, next': Number, deleted': set<Number>)
    requires Conserved(live0, next0, deleted0, live, next, deleted)
    requires live0 !! deleted0 && next0 <= next && forall b :: b in deleted0 ==> b < next0
    requires next' == next || next' == next + 1
    requires deleted <= deleted' && live' <= live + {next} && live' + deleted' == live + deleted + (if next' > next then {next} else {})
    ensures Conserved(live0, next0, deleted0, live', next', deleted')
  {
    forall b ensures (b in live0 || next0 <= b < next') <==> (b in live' || b in deleted' - deleted0) {
      assert b in live' + deleted' <==> b in live + deleted || (next' > next && b == next);
      assert b in live' ==> b !in deleted0;
      assert (b in live0 || next0 <= b < next) <==> (b in live || b in deleted - deleted0);
    }
  }

  lemma TunedSnoc<K>(items: seq<Item<K>>, results: seq<Descriptor>, attributes: map<Number, Attributes>,
                     d: Descriptor, attributes': map<Number, Attributes>, b: Number)
    requires |results| < |items| && Tuned(items, results, attributes) && b !in Numbers(results)
    requires forall x :: x in attributes && x != b ==> x in attributes' && attributes'[x] == attributes[x]
    requires d.Set? ==> d.number == b && Accepts(items[|results|]) && b in attributes' && attributes'[b] == AttributesOf(items[|results|])
    ensures Tuned(items, results + [d], attributes')
  {
    forall j | 0 <= j < |results| && results[j].Set? ensures results[j].number != b {
      assert results[j].number in Numbers(results);
    }
  }

  lemma LeftLive<K(!new)>(items: seq<Item<K>>, results: seq<Descriptor>, saved: map<K, Number>, made: map<K, Number>, start: Start<K>, g: Gdb)
    requires Round(items, results, saved, made, start, g)
    ensures Injective(saved) && saved.Values <= start.saved.Values && saved.Values <= g.live
  {
    LeftValues(start.saved, items, |results|, saved);
  }

  /** The breakpoint an item is about is not among the results so far. */
  lemma NewNumber<K(!new)>(items: seq<Item<K>>, results: seq<Descriptor>, saved: map<K, Number>, made: map<K, Number>, start: Start<K>, g: Gdb)
    requires |results| < |items| && Round(items, results, saved, made, start, g)
    ensures
      var k := items[|results|].spec.key;
      && (k in saved <==> Reuses(start.saved, items, |results|))
      && (k in saved ==> saved[k] == start.saved[k] && saved[k] in saved.Values)
      && (if k in saved then saved[k] else g.next) !in Numbers(results)
  {
    LeftStep(start.saved, items, |results|, saved);
    if items[|results|].spec.key in saved {
      NotUsedYet(start.saved, items, results, start.next, g.next, items[|results|].spec.key);
    } else {
      forall j | 0 <= j < |results| && results[j].Set? ensures results[j].number != g.next {
        if Reuses(start.saved, items, j) {
          assert start.saved[items[j].spec.key] in start.saved.Values;
        }
      }
    }
  }

  lemma StepAnswers<K(!new)>(items: seq<Item<K>>, results: seq<Descriptor>, saved: map<K, Number>, made: map<K, Number>, start: Start<K>, g: Gdb,
                           saved': map<K, Number>, made': map<K, Number>, d: Descriptor, g': Gdb)
    requires |results| < |items| && Round(items, results, saved, made, start, g)
    requires (forall b :: b in g.live ==> b < g.next) && g.live !! g.deleted
    requires Treated(items[|results|], saved, made, g, saved', made', d, g')
    ensures Answers(start.saved, items, results + [d], start.next, g'.next) && Records(items, results + [d], made')
  {
    NewNumber(items, results, saved, made, start, g);
    AnswersSnoc(start.saved, items, results, start.next, g.next, g'.next, d);
    RecordsSnoc(items, results, made, d, made');
  }

  lemma StepLive<K(!new)>(items: seq<Item<K>>, results: seq<Descriptor>, saved: map<K, Number>, made: map<K, Number>, start: Start<K>, g: Gdb,
                           saved': map<K, Number>, made': map<K, Number>, d: Descriptor, g': Gdb)
    requires |results| < |items| && Round(items, results, saved, made, start, g)
    requires (forall b :: b in g.live ==> b < g.next) && g.live !! g.deleted
    requires Treated(items[|results|], saved, made, g, saved', made', d, g')
    ensures g'.live == start.live - (start.saved.Values - saved'.Values) + Numbers(results + [d])
  {
    LeftLive(items, results, saved, made, start, g);
    NewNumber(items, results, saved, made, start, g);
    LiveStep(start.saved, saved, items[|results|].spec.key, start.live, g.live, g.next, results, d, g'.live);
  }

  lemma StepConserved<K(!new)>(items: seq<Item<K>>, results: seq<Descriptor>, saved: map<K, Number>, made: map<K, Number>, start: Start<K>, g: Gdb,
                           saved': map<K, Number>, made': map<K, Number>, d: Descriptor, g': Gdb)
    requires |results| < |items| && Round(items, results, saved, made, start, g)
    requires (forall b :: b in g.live ==> b < g.next) && g.live !! g.deleted
    requires Treated(items[|results|], saved, made, g, saved', made', d, g')
    ensures Conserved(start.live, start.next, start.deleted, g'.live, g'.next, g'.deleted)
  {
    LeftLive(items, results, saved, made, start, g);
    NewNumber(items, results, saved, made, start, g);
    ConservedStep(start.live, start.next, start.deleted, g.live, g.next, g.deleted, g'.live, g'.next, g'.deleted);
  }

  lemma StepTuned<K(!new)>(items: seq<Item<K>>, results: seq<Descriptor>, saved: map<K, Number>, made: map<K, Number>, start: Start<K>, g: Gdb,
                           saved': map<K, Number>, made': map<K, Number>, d: Descriptor, g': Gdb)
    requires |results| < |items| && Round(items, results, saved, made, start, g)
    requires (forall b :: b in g.live ==> b < g.next) && g.live !! g.deleted
    requires Treated(items[|results|], saved, made, g, saved', made', d, g')
    ensures Tuned(items, results + [d], g'.attributes) && start.Untouched(g'.attributes)
  {
    var key := items[|results|].spec.key;
    LeftLive(items, results, saved, made, start, g);
    NewNumber(items, results, saved, made, start, g);
    TunedSnoc(items, results, g.attributes, d, g'.attributes, if key in saved then saved[key] else g.next);
  }

  lemma StepCreated<K(!new)>(items: seq<Item<K>>, results: seq<Descriptor>, saved: map<K, Number>, made: map<K, Number>, start: Start<K>, g: Gdb,
                           saved': map<K, Number>, made': map<K, Number>, d: Descriptor, g': Gdb)
    requires |results| < |items| && Round(items, results, saved, made, start, g)
    requires Treated(items[|results|], saved, made, g, saved', made', d, g')
    ensures start.next <= g'.next && (NoneCreated(start.saved, items, |results| + 1) ==> g'.next == start.next)
  {
    NewNumber(items, results, saved, made, start, g);
  }

  lemma RoundStep<K(!new)>(items: seq<Item<K>>, results: seq<Descriptor>, saved: map<K, Number>, made: map<K, Number>, start: Start<K>, g: Gdb,
                           saved': map<K, Number>, made': map<K, Number>, d: Descriptor, g': Gdb)
    requires |results| < |items| && Round(items, results, saved, made, start, g)
    requires (forall b :: b in g.live ==> b < g.next) && g.live !! g.deleted
    requires Treated(items[|results|], saved, made, g, saved', made', d, g')
    ensures Round(items, results + [d], saved', made', start, g')
  {
    LeftStep(start.saved, items, |results|, saved);
    StepAnswers(items, results, saved, made, start, g, saved', made', d, g');
    StepLive(items, results, saved, made, start, g, saved', made', d, g');
    StepConserved(items, results, saved, made, start, g, saved', made', d, g');
    StepTuned(items, results, saved, made, start, g, saved', made', d, g');
    StepCreated(items, results, saved, made, start, g, saved', made', d, g');
  }

  // ---------- What the new map covers ----------

  ghost predicate DistinctKeys<K>(items: seq<Item<K>>) {
    forall j, l :: 0 <= j < l < |items| ==> items[j].spec.key != items[l].spec.key
  }

  ghost predicate SameKeys<K>(items: seq<Item<K>>, again: seq<Item<K>>) {
    |items| == |again| && forall j :: 0 <= j < |items| ==> items[j].spec.key == again[j].spec.key
  }

  /** No key succeeds twice in the request, given what was saved. */
  ghost predicate NoKeyTwice<K>(saved: map<K, Number>, items: seq<Item<K>>) {
    forall j, l :: 0 <= j < l < |items| && Succeeds(saved, items, j) && Succeeds(saved, items, l) ==> items[j].spec.key != items[l].spec.key
  }

  /** The new map holds every breakpoint that the request left, exactly when no key succeeds twice;
      otherwise the earlier one is left behind in gdb with nothing to remember it by. */
  lemma AllRecorded<K>(saved: map<K, Number>, items: seq<Item<K>>, results: seq<Descriptor>, first: Number, next: Number, made: map<K, Number>)
    requires |results| == |items| && Answers(saved, items, results, first, next) && Records(items, results, made)
    ensures made.Values <= Numbers(results)
    ensures made.Values == Numbers(results) <==> NoKeyTwice(saved, items)
    ensures DistinctKeys(items) ==> NoKeyTwice(saved, items)
  {
    forall b | b in made.Values ensures b in Numbers(results) {
      var k :| k in made && made[k] == b;
      var j: nat :| LastSuccess(items, results, k, j) && made[k] == results[j].number;
    }
    if NoKeyTwice(saved, items) {
      forall b | b in Numbers(results) ensures b in made.Values {
        var j :| 0 <= j < |results| && results[j].Set? && results[j].number == b;
        var k := items[j].spec.key;
        var l: nat :| LastSuccess(items, results, k, l) && made[k] == results[l].number;
        assert l == j;
      }
    }
    if made.Values == Numbers(results) {
      forall j, l | 0 <= j < l < |items| && Succeeds(saved, items, j) && Succeeds(saved, items, l)
        ensures items[j].spec.key != items[l].spec.key
      {
        assert results[j].Set? && results[l].Set?;
        assert results[j].number in Numbers(results);
        var k :| k in made && made[k] == results[j].number;
        var i: nat :| LastSuccess(items, results, k, i) && made[k] == results[i].number;
        assert i == j;
      }
    }
  }

  /** A request that names one key twice: two breakpoints exist and the map remembers the second. */
  lemma RepeatedKeyIsLeftBehind(key: int, made: map<int, Number>)
    requires
      var item := Item(Spec(key, None, None), Behaviour(false, false, None));
      Records([item, item], [Set(0), Set(1)], made)
    ensures
      var item := Item(Spec(key, None, None), Behaviour(false, false, None));
      Answers(map[], [item, item], [Set(0), Set(1)], 0, 2) && 0 in Numbers([Set(0), Set(1)]) && 0 !in made.Values
  {
    var item := Item(Spec(key, None, None), Behaviour(false, false, None));
    var results := [Set(0), Set(1)];
    assert results[0].number in Numbers(results);
    forall k | k in made ensures made[k] != 0 {
      var j: nat :| LastSuccess([item, item], results, k, j) && made[k] == results[j].number;
      assert results[1].Set? && [item, item][1].spec.key == k;
    }
  }

  /** The same as a request to a new session: not all that exists afterwards is recorded. */
  method RequestTwice<K(==, !new)>(key: K) returns (live: set<Number>, recorded: set<Number>)
    ensures recorded < live
  {
    var session := new Session<K>();
    var item := Item(Spec(key, None, None), Behaviour(false, false, None));
    var items := [item, item];
    assert Succeeds(map[], items, 0) && Succeeds(map[], items, 1) && items[0].spec.key == items[1].spec.key;
    var outcome := session.SetBreakpoints("function", items);
    live, recorded := session.live, session.breakpointMap["function"].Values;
  }

  lemma SameAnswers<K>(items: seq<Item<K>>, again: seq<Item<K>>, saved: map<K, Number>, results: seq<Descriptor>, first: Number, next: Number, made: map<K, Number>)
    requires |results| == |items| && Answers(saved, items, results, first, next) && Records(items, results, made)
    requires DistinctKeys(items) && SameKeys(items, again)
    requires forall j :: 0 <= j < |items| ==> Accepts(items[j]) && !items[j].gdb.createFails
    ensures NoneCreated(made, again, |again|)
    ensures forall j :: 0 <= j < |items| ==> results[j].Set? && Reuses(made, again, j) && made[again[j].spec.key] == results[j].number
  {
    forall j | 0 <= j < |items|
      ensures results[j].Set? && Reuses(made, again, j) && made[again[j].spec.key] == results[j].number
    {
      assert Succeeds(saved, items, j);
      var k := items[j].spec.key;
      var l: nat :| LastSuccess(items, results, k, l) && made[k] == results[l].number;
      assert l == j;
    }
  }

  /** What a result names was saved under this kind or is new. */
  lemma NumbersAre<K>(saved: map<K, Number>, items: seq<Item<K>>, results: seq<Descriptor>, first: Number, next: Number, b: Number)
    requires Answers(saved, items, results, first, next) && b in Numbers(results)
    ensures b in saved.Values || first <= b < next
  {
    var j :| 0 <= j < |results| && results[j].Set? && results[j].number == b;
    if Reuses(saved, items, j) {
      assert saved[items[j].spec.key] in saved.Values;
    }
  }

  /** What exists of the kind is what the new map holds, exactly if no key succeeds twice. */
  lemma LiveIsRecorded<K(!new)>(items: seq<Item<K>>, results: seq<Descriptor>, start: Start<K>, made: map<K, Number>, g: Gdb)
    requires Completed(items, results, start, made, g) && forall b :: b in start.live ==> b < start.next
    ensures g.live == start.live - start.saved.Values + made.Values <==> NoKeyTwice(start.saved, items)
  {
    AllRecorded(start.saved, items, results, start.next, g.next, made);
    forall b | b in Numbers(results) ensures b !in start.live - start.saved.Values {
      NumbersAre(start.saved, items, results, start.next, g.next, b);
    }
    if g.live == start.live - start.saved.Values + made.Values {
      forall b | b in Numbers(results) ensures b in made.Values {
        assert b in g.live;
      }
    }
  }

  lemma MadeBelow<K(!new)>(start: Start<K>, saved: map<K, Number>, made: map<K, Number>, g: Gdb)
    requires Remaining(start, saved) && Recorded(start, saved, made, g) && start.next <= g.next
    ensures Below(made, g.next)
  {
    forall k | k in made ensures made[k] < g.next {
      if made[k] in start.saved.Values {
        var l :| l in start.saved && start.saved[l] == made[k];
      }
    }
  }

  lemma OwnedAfter<K(!new)>(kinds: map<string, map<K, Number>>, kind: string, start: Start<K>, saved: map<K, Number>, made: map<K, Number>, g: Gdb)
    requires Owned(kinds, start.next) && start.saved == (if kind in kinds then kinds[kind] else map[])
    requires Remaining(start, saved) && Recorded(start, saved, made, g) && start.next <= g.next
    ensures Owned(kinds[kind := made], g.next)
  {
    MadeBelow(start, saved, made, g);
    forall other | other in kinds && other != kind ensures kinds[other].Values !! made.Values {
      MadeElsewhere(kinds, kind, start, saved, made, g, other);
    }
  }

  /** What is recorded for the kind is recorded for no other. */
  lemma MadeElsewhere<K(!new)>(kinds: map<string, map<K, Number>>, kind: string, start: Start<K>, saved: map<K, Number>, made: map<K, Number>, g: Gdb, other: string)
    requires Owned(kinds, start.next) && start.saved == (if kind in kinds then kinds[kind] else map[])
    requires Recorded(start, saved, made, g) && other in kinds && other != kind
    ensures kinds[other].Values !! made.Values
  {
    assert start.saved.Values !! kinds[other].Values;
    forall l | l in kinds[other] ensures kinds[other][l] !in made.Values {
      assert kinds[other][l] in kinds[other].Values && kinds[other][l] < start.next;
    }
  }
}
