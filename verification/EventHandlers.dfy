/** The handlers of one event type on one element: delegated ones in front, counted, then direct ones.

    `registered` is the history: the registrations still in force, in the order they were made.
 */
module EventHandlers {
  import opened Wrappers
  import opened Dom
  import opened Filters

  datatype HandleObj = HandleObj(id: nat, guid: nat, origType: string, namespace: string, selector: Option<string>)

  /** A selector counts only if it is not empty. */
  predicate Delegated(h: HandleObj) {
    h.selector.Some? && h.selector.value != ""
  }

  predicate Direct(h: HandleObj) {
    !Delegated(h)
  }

  /** What `remove` is asked to take away; each part that is missing matches anything. */
  datatype Query = Query(mappedTypes: bool, origType: string, guid: Option<nat>, namespaces: Option<string -> bool>, selector: Option<string>)

  predicate Matches(q: Query, h: HandleObj) {
    && (q.mappedTypes || q.origType == h.origType)
    && (q.guid.None? || q.guid.value == h.guid)
    && (q.namespaces.None? || q.namespaces.value(h.namespace))
    && (q.selector.None? || q.selector.value == "" || q.selector == h.selector || (q.selector.value == "**" && Delegated(h)))
  }

  /** Delegated registrations first, then the direct ones, each in order. */
  ghost function Arranged(registered: seq<HandleObj>): seq<HandleObj> {
    Keep(registered, Delegated) + Keep(registered, Direct)
  }

  /** An entry of the result: an element and the handlers to call on it. */
  datatype Matched = Matched(elem: Node, handlers: seq<HandleObj>)

  class HandlerList {
    var handlers: seq<HandleObj>
    var delegateCount: nat
    ghost var registered: seq<HandleObj>

    constructor ()
      ensures Valid() && registered == []
    {
      handlers, delegateCount, registered := [], 0, [];
    }

    ghost predicate Valid()
      reads this
    {
      handlers == Arranged(registered) && delegateCount == |Keep(registered, Delegated)|
    }

    /** The count splits the list: exactly the entries before it have a selector. */
    lemma CountSplits()
      requires Valid()
      ensures delegateCount <= |handlers|
      ensures forall i :: 0 <= i < |handlers| ==> (Delegated(handlers[i]) <==> i < delegateCount)
    {
      forall i | 0 <= i < |handlers| ensures Delegated(handlers[i]) <==> i < delegateCount {
        if i < delegateCount {
          KeepAt(registered, Delegated, i);
        } else {
          KeepAt(registered, Direct, i - delegateCount);
        }
      }
    }

    method Add(h: HandleObj)
      requires Valid()
      modifies this
      ensures Valid() && registered == old(registered) + [h]
    {
      KeepConcat(registered, [h], Delegated);
      KeepConcat(registered, [h], Direct);
      registered := registered + [h];
      if Delegated(h) {
        handlers := handlers[..delegateCount] + [h] + handlers[delegateCount..];
        delegateCount := delegateCount + 1;
      } else {
        handlers := handlers + [h];
      }
    }

    method Remove(q: Query)
      requires Valid()
      modifies this
      ensures Valid() && registered == Keep(old(registered), h => !Matches(q, h))
    {
      ghost var keep := h => !Matches(q, h);
      ghost var was, count := handlers, delegateCount;
      CountSplits();
      RemovingStarts(was, keep, count);
      Splice(q, keep, was, count);
      RemovingEnds(registered, keep, handlers, delegateCount);
      registered := Keep(registered, keep);
    }

    /** The loop, from the last handler to the first. */
    method Splice(q: Query, ghost keep: HandleObj -> bool, ghost was: seq<HandleObj>, ghost count: nat)
      requires Removing(was, keep, count, |handlers|, handlers, delegateCount)
      requires forall h :: keep(h) <==> !Matches(q, h)
      modifies this`handlers, this`delegateCount
      ensures Removing(was, keep, count, 0, handlers, delegateCount)
    {
      var j: nat := |handlers|;
      while j > 0
        invariant Removing(was, keep, count, j, handlers, delegateCount)
      {
        RemovingStep(was, keep, count, j, handlers, delegateCount);
        j := j - 1;
        var handleObj := handlers[j];
        if Matches(q, handleObj) {
          handlers := handlers[..j] + handlers[j + 1..];
          if Delegated(handleObj) {
            delegateCount := delegateCount - 1;
          }
        }
      }
    }
  }

  /** Where the removal stands when the entries from `j` on have been looked at. */
  ghost predicate Removing(was: seq<HandleObj>, keep: HandleObj -> bool, count: nat, j: nat, list: seq<HandleObj>, left: int) {
    && j <= |was| && count <= |was|
    && (forall i :: 0 <= i < |was| ==> (Delegated(was[i]) <==> i < count))
    && list == was[..j] + Keep(was[j..], keep)
    && left == if j <= count then j + |Keep(was[j..count], keep)| else count
  }

  lemma RemovingStarts(was: seq<HandleObj>, keep: HandleObj -> bool, count: nat)
    requires count <= |was| && forall i :: 0 <= i < |was| ==> (Delegated(was[i]) <==> i < count)
    ensures Removing(was, keep, count, |was|, was, count)
  {
    assert was[..|was|] + [] == was;
  }

  lemma RemovingEnds(registered: seq<HandleObj>, keep: HandleObj -> bool, list: seq<HandleObj>, left: int)
    requires Removing(Arranged(registered), keep, |Keep(registered, Delegated)|, 0, list, left)
    ensures list == Arranged(Keep(registered, keep)) && left == |Keep(Keep(registered, keep), Delegated)|
  {
    var was, count := Arranged(registered), |Keep(registered, Delegated)|;
    ArrangedKeep(registered, keep);
    assert was[0..] == was && was[..0] + Keep(was, keep) == Keep(was, keep);
    assert was[0..count] == Keep(registered, Delegated);
  }

  lemma RemovingStep(was: seq<HandleObj>, keep: HandleObj -> bool, count: nat, j: nat, list: seq<HandleObj>, left: int)
    requires Removing(was, keep, count, j, list, left) && j > 0
    ensures list[j - 1] == was[j - 1]
    ensures
      var h := was[j - 1];
      if keep(h) then Removing(was, keep, count, j - 1, list, left)
      else
        && (Delegated(h) ==> left > 0)
        && Removing(was, keep, count, j - 1, list[..j - 1] + list[j..], if Delegated(h) then left - 1 else left)
  {
    var k := j - 1;
    KeepHead(was[k..], keep);
    assert was[k..][1..] == was[j..];
    assert was[..j] == was[..k] + [was[k]];
    if k < count {
      KeepHead(was[k..count], keep);
      assert was[k..count][1..] == was[j..count];
    }
  }

  lemma ArrangedKeep(registered: seq<HandleObj>, keep: HandleObj -> bool)
    ensures Arranged(Keep(registered, keep)) == Keep(Arranged(registered), keep)
    ensures Keep(Keep(registered, keep), Delegated) == Keep(Keep(registered, Delegated), keep)
  {
    KeepCommute(registered, keep, Delegated);
    KeepCommute(registered, keep, Direct);
    KeepConcat(Keep(registered, Delegated), Keep(registered, Direct), keep);
  }

  // ---------- Dispatch ----------

  /** The nodes from `cur` up to the one the handlers are on, or to the top if that is not above. */
  ghost function Climb(cur: Node, self: Node): seq<Node>
    decreases |cur|
  {
    if cur == self then []
    else [cur] + match Parent(cur) case None => [] case Some(p) => Climb(p, self)
  }

  /** Innermost first, each eligible node that some delegated handler selects, with those handlers. */
  ghost function Selected(nodes: seq<Node>, delegated: seq<HandleObj>, eligible: Node -> bool, selects: (string, Node) -> bool): seq<Matched> {
    if nodes == [] then []
    else
      var n := nodes[|nodes| - 1];
      var chosen := if eligible(n) then Keep(delegated, Selecting(selects, n)) else [];
      Selected(nodes[..|nodes| - 1], delegated, eligible, selects) + if chosen == [] then [] else [Matched(n, chosen)]
  }

  ghost function Selecting(selects: (string, Node) -> bool, n: Node): HandleObj -> bool {
    (h: HandleObj) => h.selector.Some? && selects(h.selector.value, n)
  }

  /** The delegated handlers that select one node, asking for each selector only once. */
  method MatchedAt(delegated: seq<HandleObj>, n: Node, selects: (string, Node) -> bool) returns (matched: seq<HandleObj>)
    requires forall i :: 0 <= i < |delegated| ==> Delegated(delegated[i])
    ensures matched == Keep(delegated, Selecting(selects, n))
  {
    matched := [];
    var memo: map<string, bool> := map[];
    for i := 0 to |delegated|
      invariant forall sel :: sel in memo ==> memo[sel] == selects(sel, n)
      invariant matched == Keep(delegated[..i], Selecting(selects, n))
    {
      var h := delegated[i];
      var sel := h.selector.value;
      if sel !in memo {
        memo := memo[sel := selects(sel, n)];
      }
      KeepConcat(delegated[..i], [h], Selecting(selects, n));
      assert delegated[..i + 1] == delegated[..i] + [h];
      if memo[sel] {
        matched := matched + [h];
      }
    }
    assert delegated[..|delegated|] == delegated;
  }

  /** `handlers()`. `delegable` is false where the event does not delegate at all: an odd target or a
      click with another button. */
  method HandlersFor(list: HandlerList, target: Node, self: Node, delegable: bool, eligible: Node -> bool, selects: (string, Node) -> bool)
    returns (q: seq<Matched>)
    requires list.Valid()
    ensures
      var delegated := Keep(list.registered, Delegated);
      var direct := Keep(list.registered, Direct);
      q == (if delegable then Selected(Climb(target, self), delegated, eligible, selects) else [])
           + (if direct == [] then [] else [Matched(self, direct)])
  {
    list.CountSplits();
    var delegated := list.handlers[..list.delegateCount];
    assert delegated == Keep(list.registered, Delegated);
    q := [];
    if list.delegateCount != 0 && delegable {
      q := DelegatedFor(delegated, target, self, eligible, selects);
    } else {
      NoneSelected(Climb(target, self), eligible, selects);
    }
    if list.delegateCount < |list.handlers| {
      q := q + [Matched(self, list.handlers[list.delegateCount..])];
    }
  }

  /** The climb from the target. */
  method DelegatedFor(delegated: seq<HandleObj>, target: Node, self: Node, eligible: Node -> bool, selects: (string, Node) -> bool)
    returns (q: seq<Matched>)
    requires forall i :: 0 <= i < |delegated| ==> Delegated(delegated[i])
    ensures q == Selected(Climb(target, self), delegated, eligible, selects)
  {
    q := [];
    var cur := target;
    ghost var done := [];
    while cur != self
      invariant Climb(target, self) == done + Climb(cur, self)
      invariant q == Selected(done, delegated, eligible, selects)
      decreases cur != self, |cur|
    {
      SelectedSnoc(done, cur, delegated, eligible, selects);
      if eligible(cur) {
        var chosen := MatchedAt(delegated, cur, selects);
        if chosen != [] {
          q := q + [Matched(cur, chosen)];
        }
      }
      ClimbStep(cur, self, done);
      done := done + [cur];
      cur := Up(cur, self);
    }
    assert done + [] == done;
  }

  function Up(cur: Node, self: Node): Node {
    match Parent(cur)
    case None => self
    case Some(p) => p
  }

  lemma ClimbStep(cur: Node, self: Node, done: seq<Node>)
    requires cur != self
    ensures done + Climb(cur, self) == done + [cur] + Climb(Up(cur, self), self)
  {
  }

  lemma SelectedSnoc(done: seq<Node>, n: Node, delegated: seq<HandleObj>, eligible: Node -> bool, selects: (string, Node) -> bool)
    ensures
      var chosen := if eligible(n) then Keep(delegated, Selecting(selects, n)) else [];
      Selected(done + [n], delegated, eligible, selects) ==
      Selected(done, delegated, eligible, selects) + if chosen == [] then [] else [Matched(n, chosen)]
  {
    assert (done + [n])[..|done|] == done;
  }

  lemma {:induction false} NoneSelected(nodes: seq<Node>, eligible: Node -> bool, selects: (string, Node) -> bool)
    ensures Selected(nodes, [], eligible, selects) == []
    decreases |nodes|
  {
    if nodes != [] {
      NoneSelected(nodes[..|nodes| - 1], eligible, selects);
    }
  }

  ghost predicate Listed(q: seq<Matched>, n: Node, h: HandleObj) {
    exists k :: 0 <= k < |q| && q[k].elem == n && h in q[k].handlers
  }

  lemma ListedSnoc(q: seq<Matched>, m: Matched, n: Node, h: HandleObj)
    ensures Listed(q + [m], n, h) <==> Listed(q, n, h) || (m.elem == n && h in m.handlers)
  {
    var longer := q + [m];
    assert longer[|q|] == m;
    if Listed(q, n, h) {
      var k :| 0 <= k < |q| && q[k].elem == n && h in q[k].handlers;
      assert longer[k] == q[k];
    }
  }

  /** Who is called where: a handler is listed on a node exactly if it is delegated, the node is on
      the way up and eligible, and the handler's selector selects it. */
  lemma {:induction false} ListedOn(nodes: seq<Node>, delegated: seq<HandleObj>, eligible: Node -> bool, selects: (string, Node) -> bool, n: Node, h: HandleObj)
    ensures Listed(Selected(nodes, delegated, eligible, selects), n, h) <==>
            n in nodes && eligible(n) && h in delegated && Selecting(selects, n)(h)
    decreases |nodes|
  {
    if nodes != [] {
      var init, last := nodes[..|nodes| - 1], nodes[|nodes| - 1];
      ListedOn(init, delegated, eligible, selects, n, h);
      assert nodes == init + [last];
      assert n in nodes <==> n in init || n == last;
      SelectedSnoc(init, last, delegated, eligible, selects);
      var chosen := if eligible(last) then Keep(delegated, Selecting(selects, last)) else [];
      KeepMember(delegated, Selecting(selects, last), h);
      ListedSnoc(Selected(init, delegated, eligible, selects), Matched(last, chosen), n, h);
      if chosen == [] {
        assert Selected(init, delegated, eligible, selects) + [] == Selected(init, delegated, eligible, selects);
      }
    }
  }
}
