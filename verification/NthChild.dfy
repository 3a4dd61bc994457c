/** Sizzle's child filters: `:nth-child(an+b)` and its relatives, with the counts they cache.

    Selectors Level 3, section 6.6.5.2: an element is selected when an+b-1 element siblings come
    before it, for some n that is zero or positive. The relatives count from the back, or only the
    siblings of the same name, or ask for the first, the last or the only one.
 */
module NthChild {
  import opened Wrappers
  import opened Dom

  /** Which children of `p` are elements. */
  function Kinds(t: Tree, p: Node): seq<bool>
    requires Has(t, p)
  {
    var children := Subtree(t, p).children;
    seq(|children|, i requires 0 <= i < |children| => children[i].element)
  }

  /** How many of the first `k` are elements. */
  ghost function Elements(kinds: seq<bool>, k: nat): nat
    requires k <= |kinds|
  {
    if k == 0 then 0 else Elements(kinds, k - 1) + if kinds[k - 1] then 1 else 0
  }

  lemma KindOf(t: Tree, n: Node)
    requires Has(t, n) && n != []
    ensures Has(t, n[..|n| - 1]) && Last(n) < |Kinds(t, n[..|n| - 1])|
    ensures Kinds(t, n[..|n| - 1])[Last(n)] <==> IsElement(t, n)
  {
    HasParent(t, n);
  }

  /** The position of `n` among the element children of its parent, from 1. */
  ghost function Index(t: Tree, n: Node): nat
    requires Has(t, n) && n != []
  {
    KindOf(t, n);
    Elements(Kinds(t, n[..|n| - 1]), Last(n) + 1)
  }

  /** The final test: `diff` less the offset is the step, or a multiple of it with a quotient that
      is not negative. With a step of zero the remainder is not a number and only equality counts. */
  predicate InCycle(diff: int, first: int, last: int) {
    var d := diff - last;
    d == first || (first != 0 && d % first == 0 && (d == 0 || (d > 0) == (first > 0)))
  }

  ghost predicate AtStep(diff: int, first: int, last: int, n: nat) {
    diff == first * n + last
  }

  lemma InCycleMeans(diff: int, first: int, last: int)
    ensures InCycle(diff, first, last) <==> exists n: nat :: AtStep(diff, first, last, n)
  {
    var d := diff - last;
    if d == first {
      assert AtStep(diff, first, last, 1);
    } else if InCycle(diff, first, last) {
      var n := d / first;
      assert d == first * n;
      assert n >= 0 by {
        assert first * n == -(first * -n);
        if n < 0 {
          SignOfProduct(first, -n);
        }
      }
      assert AtStep(diff, first, last, n);
    }
    forall n: nat | AtStep(diff, first, last, n) ensures InCycle(diff, first, last) {
      if first != 0 {
        assert d == first * n;
        Multiple(first, n);
        if n > 0 {
          SignOfProduct(first, n);
        }
      }
    }
  }

  lemma SignOfProduct(a: int, n: int)
    requires a != 0 && n > 0
    ensures (a * n > 0) == (a > 0) && a * n != 0
  {
  }

  lemma NoMultipleBetween(m: int, k: int)
    requires m > 0
    ensures !(0 < m * k < m)
  {
    if k >= 1 {
      assert m * k == m * (k - 1) + m && m * (k - 1) >= 0;
    } else {
      assert m * -k >= 0;
    }
  }

  lemma Multiple(a: int, n: nat)
    requires a != 0
    ensures (a * n) % a == 0
  {
    var x := a * n;
    var q, r := x / a, x % a;
    assert x == q * a + r;
    assert r == a * (n - q) by { assert a * (n - q) == a * n - q * a; }
    if a > 0 {
      NoMultipleBetween(a, n - q);
    } else {
      NoMultipleBetween(-a, q - n);
      assert -a * (q - n) == a * (n - q);
    }
  }

  // ---------- Counting without a cache ----------

  lemma {:induction false} NoneCounted(row: seq<bool>, i: nat, k: nat)
    requires i <= k <= |row|
    ensures Elements(row, i) <= Elements(row, k)
    ensures Elements(row, i) == Elements(row, k) <==> forall j :: i <= j < k ==> !row[j]
    decreases k - i
  {
    if i < k {
      NoneCounted(row, i, k - 1);
    }
  }

  /** How many are counted from `k` to the end. */
  ghost function Rest(row: seq<bool>, k: nat): nat
    requires k <= |row|
  {
    NoneCounted(row, k, |row|);
    Elements(row, |row|) - Elements(row, k)
  }

  /** The place of `k` among those counted, from 1, from the front or from the back. */
  ghost function Place(row: seq<bool>, k: nat, forward: bool): nat
    requires k < |row|
  {
    if forward then Elements(row, k + 1) else Rest(row, k)
  }

  /** The sibling in the direction of counting. */
  function Beside(row: seq<bool>, node: Option<nat>, forward: bool): Option<nat> {
    match node
    case None => None
    case Some(i) =>
      if forward then if i + 1 < |row| then Some(i + 1) else None
      else if i > 0 then Some(i - 1) else None
  }

  /** Seeks child `k` from the first child or the last one. */
  method SeekPlain(row: seq<bool>, forward: bool, k: nat) returns (diff: nat)
    requires k < |row| && row[k]
    ensures diff == Place(row, k, forward)
  {
    var start := true;
    var node: Option<nat> := None;
    diff := 0;
    while true
      invariant start <==> node.None?
      invariant !start ==> node.value < |row| && (if forward then node.value < k else node.value > k) && diff == Place(row, node.value, forward)
      decreases if start then |row| + 1 else if forward then |row| - node.value else node.value
    {
      node := Beside(row, node, forward);
      if node.None? {
        assert start;
        diff := 0;
        node, start := Some(if forward then 0 else |row| - 1), false;
      }
      if row[node.value] {
        diff := diff + 1;
        if node.value == k {
          return;
        }
      }
    }
  }

  predicate Side(k: nat, toNext: bool, j: nat) {
    if toNext then k < j else j < k
  }

  /** No child on one side of `k` is counted. */
  method Alone(row: seq<bool>, k: nat, toNext: bool) returns (b: bool)
    requires k < |row| && row[k]
    ensures b <==> Place(row, k, !toNext) == 1
  {
    var node: Option<nat> := Beside(row, Some(k), toNext);
    while node.Some?
      invariant node.Some? ==> node.value < |row| && Side(k, toNext, node.value)
      invariant forall j: nat :: j < |row| && Side(k, toNext, j) && (node.Some? ==> !Side(node.value, toNext, j) && j != node.value) ==> !row[j]
      decreases if node.None? then 0 else if toNext then |row| - node.value else node.value + 1
    {
      if row[node.value] {
        SideCounted(row, k, toNext);
        return false;
      }
      node := Beside(row, node, toNext);
    }
    SideCounted(row, k, toNext);
    b := true;
  }

  lemma SideCounted(row: seq<bool>, k: nat, toNext: bool)
    requires k < |row| && row[k]
    ensures Place(row, k, !toNext) == 1 <==> forall j: nat :: j < |row| && Side(k, toNext, j) ==> !row[j]
  {
    NoneCounted(row, 0, k);
    NoneCounted(row, k + 1, |row|);
  }

  // ---------- Counting from the front, with a cache on the parent ----------

  /** `[ dirruns, nodeIndex, diff ]` as stored under the filter's type on a parent. */
  datatype Entry = Entry(run: nat, nodeIndex: nat, diff: nat)

  ghost predicate RightFor(kinds: seq<bool>, e: Entry) {
    e.nodeIndex < |kinds| && e.diff == Elements(kinds, e.nodeIndex + 1)
  }

  /** Seeks child `k` from the stored position by `nextSibling`, falling back once to the first
      child when that runs off the end. A stored position of 0 counts as none. */
  method SeekAmong(kinds: seq<bool>, cached: Option<Entry>, k: nat) returns (diff: nat)
    requires k < |kinds| && kinds[k]
    requires cached.Some? ==> RightFor(kinds, cached.value)
    ensures diff == Elements(kinds, k + 1)
  {
    var start := true;
    var nodeIndex: nat, node: Option<nat> := 0, None;
    diff := 0;
    if cached.Some? && cached.value.nodeIndex != 0 {
      nodeIndex, diff := cached.value.nodeIndex, cached.value.diff;
      node := Some(nodeIndex);
    }
    while true
      invariant node.Some? ==> node.value == nodeIndex < |kinds| && diff == Elements(kinds, nodeIndex + 1)
      invariant !start ==> node.Some? && nodeIndex < k
      decreases start, if node.Some? then |kinds| - nodeIndex else 0
    {
      nodeIndex := nodeIndex + 1;
      node := if node.Some? && node.value + 1 < |kinds| then Some(node.value + 1) else None;
      if node.None? {
        diff, nodeIndex := 0, 0;
        assert start;
        node, start := Some(0), false;
      }
      if kinds[node.value] {
        diff := diff + 1;
        if node.value == k {
          return;
        }
      }
    }
  }

  // ---------- Counting from the back, with a cache on every element ----------

  /** `[ dirruns, diff ]` as stored under the filter's type on an element. */
  datatype LastEntry = LastEntry(run: nat, diff: nat)

  /** What the first query under a parent, for child `k`, leaves on child `j`. The loop sets out from
      the element itself, so on the children before it there is only the count up to it. */
  ghost function Left(row: seq<bool>, k: nat, j: nat): nat
    requires k < |row| && j < |row|
  {
    if j < k then NoneCounted(row, j, k); Elements(row, k) - Elements(row, j) else Rest(row, j)
  }

  /** A child before the one first asked for is off by what lies from that one on. */
  lemma LeftIsRight(row: seq<bool>, k: nat, j: nat)
    requires k < |row| && j < |row| && row[k]
    ensures Left(row, k, j) == Place(row, j, false) <==> k <= j
  {
    NoneCounted(row, k, |row|);
  }

  /** Two elements, the second asked about first: the first is then said to be the last. */
  lemma LastMiscounts()
    ensures Left([true, true], 1, 0) == 1 && Place([true, true], 0, false) == 2
  {
    assert Elements([true, true], 2) == 2 && Elements([true, true], 1) == 1;
  }

  /** Elements are named by their parent and their position under it. */
  type Lasts = map<(Node, nat), LastEntry>

  ghost predicate Visited(k: nat, start: bool, node: nat, j: nat) {
    if start then node <= j < k else j < k || node <= j
  }

  /** The loop has come to `node`: what it has visited has been stored, everything else is as it was. */
  ghost predicate Stored(lasts0: Lasts, lasts: Lasts, run: nat, p: Node, row: seq<bool>, k: nat, start: bool, node: nat)
    requires k < |row|
  {
    forall q, j: nat :: if q == p && j < |row| && row[j] && Visited(k, start, node, j)
      then (q, j) in lasts && lasts[(q, j)] == LastEntry(run, Left(row, k, j))
      else ((q, j) in lasts <==> (q, j) in lasts0) && ((q, j) in lasts ==> lasts[(q, j)] == lasts0[(q, j)])
  }

  lemma StoredStep(lasts0: Lasts, lasts: Lasts, run: nat, p: Node, row: seq<bool>, k: nat, start: bool, node: nat)
    requires k < |row| && 0 < node <= |row| && (start ==> node <= k)
    requires Stored(lasts0, lasts, run, p, row, k, start, node)
    ensures Stored(lasts0, if row[node - 1] then lasts[(p, node - 1) := LastEntry(run, Left(row, k, node - 1))] else lasts, run, p, row, k, start, node - 1)
  {
  }

  method StoreFrom(lasts0: Lasts, run: nat, p: Node, row: seq<bool>, k: nat) returns (lasts: Lasts, diff: nat)
    requires k < |row| && row[k]
    ensures diff == Place(row, k, false) && Stored(lasts0, lasts, run, p, row, k, false, k)
  {
    lasts := lasts0;
    var start := true;
    var node: Option<nat> := Some(k);
    diff := 0;
    while true
      invariant node.Some? && (if start then node.value <= k else k < node.value < |row|)
      invariant diff == if start then Elements(row, k) - Elements(row, node.value) else Rest(row, node.value)
      invariant Stored(lasts0, lasts, run, p, row, k, start, node.value)
      decreases start, node.value
    {
      ghost var last := node.value;
      node := Beside(row, node, false);
      if node.None? {
        diff := 0;
        node, start := Some(|row| - 1), false;
        last := |row|;
      }
      StoredStep(lasts0, lasts, run, p, row, k, start, last);
      if row[node.value] {
        diff := diff + 1;
        lasts := lasts[(p, node.value) := LastEntry(run, diff)];
        if node.value == k {
          return;
        }
      }
    }
  }

  // ---------- The filter ----------

  datatype Type = First | Final | Only | Nth(forward: bool, a: int, b: int)

  /** Which children of `p` a filter counts: the elements, or those with the name of `elem`. */
  function Row(t: Tree, p: Node, names: Option<Node -> string>, elem: Node): seq<bool>
    requires Has(t, p)
  {
    match names
    case None => Kinds(t, p)
    case Some(name) => seq(|Subtree(t, p).children|, i requires 0 <= i < |Subtree(t, p).children| => name(p + [i]) == name(elem))
  }

  lemma InRow(t: Tree, names: Option<Node -> string>, elem: Node)
    requires IsElement(t, elem) && elem != []
    ensures Has(t, elem[..|elem| - 1]) && Last(elem) < |Row(t, elem[..|elem| - 1], names, elem)|
    ensures Row(t, elem[..|elem| - 1], names, elem)[Last(elem)]
  {
    KindOf(t, elem);
    assert elem == elem[..|elem| - 1] + [Last(elem)];
  }

  /** The place of an element among its siblings, or among those of its name. */
  ghost function PlaceOf(t: Tree, names: Option<Node -> string>, elem: Node, forward: bool): nat
    requires IsElement(t, elem) && elem != []
  {
    InRow(t, names, elem);
    Place(Row(t, elem[..|elem| - 1], names, elem), Last(elem), forward)
  }

  /** What the filters select. */
  ghost predicate Meant(t: Tree, ty: Type, names: Option<Node -> string>, elem: Node)
    requires IsElement(t, elem)
  {
    elem != [] &&
    match ty
    case First => PlaceOf(t, names, elem, true) == 1
    case Final => PlaceOf(t, names, elem, false) == 1
    case Only => PlaceOf(t, names, elem, true) == PlaceOf(t, names, elem, false) == 1
    case Nth(forward, a, b) => exists n: nat :: AtStep(PlaceOf(t, names, elem, forward), a, b, n)
  }

  /** What each parent was first asked about is one of its element children. */
  ghost predicate FirstsFit(t: Tree, firsts: map<Node, nat>) {
    forall p :: p in firsts ==> Has(t, p) && firsts[p] < |Kinds(t, p)| && Kinds(t, p)[firsts[p]]
  }

  /** The place that a filter reckons with: the right one, unless the count from the back is cached and
      another child was asked about first. */
  ghost function Reckoned(t: Tree, names: Option<Node -> string>, xml: bool, forward: bool, firsts: map<Node, nat>, elem: Node): nat
    requires elem != [] && IsElement(t, elem) && FirstsFit(t, firsts)
  {
    var p := elem[..|elem| - 1];
    if forward || xml || names.Some? || p !in firsts then PlaceOf(t, names, elem, forward)
    else KindOf(t, elem); Left(Kinds(t, p), firsts[p], Last(elem))
  }

  /** Under its parent, nothing after `elem` was asked about first. */
  ghost predicate Leads(firsts: map<Node, nat>, elem: Node)
    requires elem != []
  {
    var p := elem[..|elem| - 1];
    p in firsts ==> firsts[p] <= Last(elem)
  }

  ghost function Noted(firsts: map<Node, nat>, elem: Node): map<Node, nat>
    requires elem != []
  {
    var p := elem[..|elem| - 1];
    if p in firsts then firsts else firsts[p := Last(elem)]
  }

  class NthCache {
    var dirruns: nat
    var entries: map<Node, Entry>
    var lasts: Lasts
    /** The child of each parent that `:nth-last-child` was first asked about in this run. */
    ghost var firsts: map<Node, nat>

    constructor ()
      ensures dirruns == 0 && entries == map[] && lasts == map[] && firsts == map[]
    {
      dirruns, entries, lasts, firsts := 0, map[], map[], map[];
    }

    /** What this run has stored on a parent is the index of one of its element children. */
    ghost predicate Sound(t: Tree)
      reads this
    {
      forall p :: p in entries && entries[p].run == dirruns ==>
        Has(t, p) && RightFor(Kinds(t, p), entries[p])
    }

    /** What this run has stored on the elements is what the first query under their parent left. */
    ghost predicate LastSound(t: Tree)
      reads this
    {
      && FirstsFit(t, firsts)
      && (forall p, j: nat :: p in firsts && j < |Kinds(t, p)| && Kinds(t, p)[j] ==>
          (p, j) in lasts && lasts[(p, j)] == LastEntry(dirruns, Left(Kinds(t, p), firsts[p], j)))
      && forall p, j: nat :: p !in firsts && (p, j) in lasts ==> lasts[(p, j)].run != dirruns
    }

    /** Starts a run, after which nothing stored earlier counts. */
    method Start(t: Tree)
      requires forall p :: p in entries ==> entries[p].run <= dirruns
      requires forall s :: s in lasts ==> lasts[s].run <= dirruns
      modifies this`dirruns, this`firsts
      ensures dirruns == old(dirruns) + 1 && Sound(t) && LastSound(t) && firsts == map[]
    {
      dirruns, firsts := dirruns + 1, map[];
    }

    method Seek(t: Tree, elem: Node) returns (diff: nat)
      requires elem != [] && IsElement(t, elem) && Sound(t)
      modifies this`entries
      ensures Sound(t) && diff == Index(t, elem)
      ensures entries == old(entries)[elem[..|elem| - 1] := Entry(dirruns, Last(elem), diff)]
    {
      KindOf(t, elem);
      var parent := elem[..|elem| - 1];
      var cached := if parent in entries && entries[parent].run == dirruns then Some(entries[parent]) else None;
      diff := SeekAmong(Kinds(t, parent), cached, Last(elem));
      entries := entries[parent := Entry(dirruns, Last(elem), diff)];
    }

    /** The cached count from the back is right exactly if no later sibling was asked about first. */
    method SeekLast(t: Tree, elem: Node) returns (diff: nat)
      requires elem != [] && IsElement(t, elem) && LastSound(t)
      modifies this`lasts, this`firsts
      ensures LastSound(t)
      ensures diff == Reckoned(t, None, false, false, old(firsts), elem)
      ensures diff == PlaceOf(t, None, elem, false) <==> Leads(old(firsts), elem)
      ensures firsts == Noted(old(firsts), elem)
    {
      KindOf(t, elem);
      var parent, k := elem[..|elem| - 1], Last(elem);
      ghost var row := Kinds(t, parent);
      if (parent, k) in lasts && lasts[(parent, k)].run == dirruns {
        diff := lasts[(parent, k)].diff;
        LeftIsRight(row, firsts[parent], k);
      } else {
        var stored;
        stored, diff := StoreFrom(lasts, dirruns, parent, Kinds(t, parent), k);
        lasts, firsts := stored, firsts[parent := k];
      }
    }

    /** Counts from the front or the back, by whichever way the filter takes. */
    method Count(t: Tree, names: Option<Node -> string>, xml: bool, forward: bool, elem: Node) returns (diff: nat)
      requires elem != [] && IsElement(t, elem) && Sound(t) && LastSound(t)
      modifies this`entries, this`lasts, this`firsts
      ensures Sound(t) && LastSound(t)
      ensures diff == Reckoned(t, names, xml, forward, old(firsts), elem)
      ensures diff == PlaceOf(t, names, elem, forward) <==> forward || xml || names.Some? || Leads(old(firsts), elem)
    {
      InRow(t, names, elem);
      if forward && !xml && names.None? {
        diff := Seek(t, elem);
      } else if !xml && names.None? {
        diff := SeekLast(t, elem);
      } else {
        diff := SeekPlain(Row(t, elem[..|elem| - 1], names, elem), forward, Last(elem));
      }
    }

    /** The filter. It selects what it means, in whatever order elements are tried, unless it is the
        cached `:nth-last-child` and a later sibling was tried before all others. Even then it is right
        exactly if the place it reckons with lies in the same cycle. `names` is given for the of-type
        filters. */
    method Filter(t: Tree, ty: Type, names: Option<Node -> string>, xml: bool, elem: Node) returns (b: bool)
      requires IsElement(t, elem) && Sound(t) && LastSound(t)
      modifies this`entries, this`lasts, this`firsts
      ensures Sound(t) && LastSound(t)
      ensures (ty.Nth? && !ty.forward && !xml && names.None? && elem != [] ==> Leads(old(firsts), elem)) ==> (b <==> Meant(t, ty, names, elem))
      ensures (b <==> Meant(t, ty, names, elem)) <==>
              (ty.Nth? && elem != [] ==>
                 InCycle(Reckoned(t, names, xml, ty.forward, old(firsts), elem), ty.a, ty.b) == InCycle(PlaceOf(t, names, elem, ty.forward), ty.a, ty.b))
    {
      if Parent(elem).None? {
        return false;
      }
      InRow(t, names, elem);
      var row := Row(t, elem[..|elem| - 1], names, elem);
      match ty {
        case First => b := Alone(row, Last(elem), false);
        case Final => b := Alone(row, Last(elem), true);
        case Only =>
          b := Alone(row, Last(elem), false);
          if b {
            b := Alone(row, Last(elem), true);
          }
        case Nth(forward, a, c) =>
          if a == 1 && c == 0 {
            assert AtStep(PlaceOf(t, names, elem, forward), a, c, PlaceOf(t, names, elem, forward));
            return true;
          }
          var diff := Count(t, names, xml, forward, elem);
          InCycleMeans(PlaceOf(t, names, elem, forward), a, c);
          b := InCycle(diff, a, c);
      }
    }

    /** A sequence of cached counts from the back in one run: all of them are right exactly if none
        is for an element that a later sibling was ahead of from the start. */
    method SeekLasts(t: Tree, elems: seq<Node>) returns (diffs: seq<nat>)
      requires LastSound(t) && firsts == map[] && AllElements(t, elems)
      modifies this`lasts, this`firsts
      ensures |diffs| == |elems| && (diffs == Places(t, elems) <==> FirstsLead(elems))
    {
      diffs := [];
      while |diffs| < |elems|
        invariant LastSound(t) && Upto(t, elems, diffs, firsts)
      {
        ghost var before := firsts;
        var diff := SeekLast(t, elems[|diffs|]);
        UptoNext(t, elems, diffs, before, diff, firsts);
        diffs := diffs + [diff];
      }
      UptoAll(t, elems, diffs, firsts);
    }
  }

  /** Where the sequence stands after some answers. */
  ghost predicate Upto(t: Tree, elems: seq<Node>, diffs: seq<nat>, firsts: map<Node, nat>)
    requires AllElements(t, elems)
  {
    |diffs| <= |elems| && firsts == Firsts(elems[..|diffs|]) && Agree(diffs, Places(t, elems), LeadsEach(elems))
  }

  lemma UptoNext(t: Tree, elems: seq<Node>, diffs: seq<nat>, firsts: map<Node, nat>, diff: nat, firsts': map<Node, nat>)
    requires AllElements(t, elems) && Upto(t, elems, diffs, firsts) && |diffs| < |elems|
    requires diff == PlaceOf(t, None, elems[|diffs|], false) <==> Leads(firsts, elems[|diffs|])
    requires firsts' == Noted(firsts, elems[|diffs|])
    ensures Upto(t, elems, diffs + [diff], firsts')
  {
    FirstsSnoc(t, elems, |diffs|);
    AgreeSnoc(diffs, Places(t, elems), LeadsEach(elems), diff);
  }

  lemma UptoAll(t: Tree, elems: seq<Node>, diffs: seq<nat>, firsts: map<Node, nat>)
    requires AllElements(t, elems) && Upto(t, elems, diffs, firsts) && |diffs| == |elems|
    ensures diffs == Places(t, elems) <==> FirstsLead(elems)
  {
    LeadsAll(elems);
    AgreeAll(diffs, Places(t, elems), LeadsEach(elems));
  }

  /** Two elements, the second asked about before the first: one of the answers is wrong. */
  method AskBackwards() returns (diffs: seq<nat>)
    ensures
      var t := Tree(false, [Tree(true, []), Tree(true, [])]);
      AllElements(t, [[1], [0]]) && diffs != Places(t, [[1], [0]])
  {
    var t, elems := Tree(false, [Tree(true, []), Tree(true, [])]), [[1], [0]];
    assert Has(t, [1]) && Has(t, [0]) by { assert [1][1..] == [] && [0][1..] == []; }
    assert Subtree(t, [1]) == t.children[1] && Subtree(t, [0]) == t.children[0] by { assert [1][1..] == [] && [0][1..] == []; }
    var cache := new NthCache();
    FirstsSnoc(t, elems, 0);
    assert elems[..1] == [[1]] && [1][..0] == [0][..0] == [];
    assert !LeadsAt(elems, 1);
    diffs := cache.SeekLasts(t, elems);
  }

  ghost predicate Agree(diffs: seq<nat>, places: seq<nat>, leads: seq<bool>) {
    |diffs| <= |places| == |leads| && forall j :: 0 <= j < |diffs| ==> (diffs[j] == places[j] <==> leads[j])
  }

  lemma AgreeSnoc(diffs: seq<nat>, places: seq<nat>, leads: seq<bool>, diff: nat)
    requires Agree(diffs, places, leads) && |diffs| < |places| && (diff == places[|diffs|] <==> leads[|diffs|])
    ensures Agree(diffs + [diff], places, leads)
  {
  }

  lemma AgreeAll(diffs: seq<nat>, places: seq<nat>, leads: seq<bool>)
    requires Agree(diffs, places, leads) && |diffs| == |places|
    ensures diffs == places <==> forall j :: 0 <= j < |leads| ==> leads[j]
  {
  }

  ghost predicate AllElements(t: Tree, elems: seq<Node>) {
    forall i :: 0 <= i < |elems| ==> elems[i] != [] && IsElement(t, elems[i])
  }

  /** The places of some elements, counted from the back. */
  ghost function Places(t: Tree, elems: seq<Node>): seq<nat>
    requires AllElements(t, elems)
  {
    seq(|elems|, i requires 0 <= i < |elems| => PlaceOf(t, None, elems[i], false))
  }

  ghost function LeadsEach(elems: seq<Node>): seq<bool>
    requires forall i :: 0 <= i < |elems| ==> elems[i] != []
  {
    seq(|elems|, i requires 0 <= i < |elems| => LeadsAt(elems, i))
  }

  lemma LeadsAll(elems: seq<Node>)
    requires forall i :: 0 <= i < |elems| ==> elems[i] != []
    ensures FirstsLead(elems) <==> forall i :: 0 <= i < |elems| ==> LeadsEach(elems)[i]
  {
    assert forall i :: 0 <= i < |elems| ==> LeadsEach(elems)[i] == LeadsAt(elems, i);
  }

  lemma FirstsSnoc(t: Tree, elems: seq<Node>, i: nat)
    requires AllElements(t, elems) && i < |elems|
    ensures Firsts(elems[..i + 1]) == Noted(Firsts(elems[..i]), elems[i])
    ensures LeadsEach(elems)[i] == Leads(Firsts(elems[..i]), elems[i])
    ensures Places(t, elems)[i] == PlaceOf(t, None, elems[i], false)
  {
    assert elems[..i + 1][..i] == elems[..i];
  }

  /** Under each parent, the position of the element that comes first in a sequence of elements. */
  ghost function Firsts(elems: seq<Node>): map<Node, nat>
    requires forall i :: 0 <= i < |elems| ==> elems[i] != []
  {
    if elems == [] then map[] else Noted(Firsts(elems[..|elems| - 1]), elems[|elems| - 1])
  }

  ghost predicate LeadsAt(elems: seq<Node>, i: nat)
    requires i < |elems| && forall i :: 0 <= i < |elems| ==> elems[i] != []
  {
    Leads(Firsts(elems[..i]), elems[i])
  }

  /** No element is asked about after a later sibling that was the first of them all. */
  ghost predicate FirstsLead(elems: seq<Node>)
    requires forall i :: 0 <= i < |elems| ==> elems[i] != []
  {
    forall i :: 0 <= i < |elems| ==> LeadsAt(elems, i)
  }

  ghost predicate SiblingsInOrder(elems: seq<Node>) {
    forall i, j :: 0 <= i < j < |elems| && Siblings(elems[i], elems[j]) ==> Last(elems[i]) <= Last(elems[j])
  }

  lemma {:induction false} FirstIsThere(elems: seq<Node>, p: Node) returns (i: nat)
    requires (forall i :: 0 <= i < |elems| ==> elems[i] != []) && p in Firsts(elems)
    ensures i < |elems| && elems[i][..|elems[i]| - 1] == p && Last(elems[i]) == Firsts(elems)[p]
    decreases |elems|
  {
    var init, last := elems[..|elems| - 1], elems[|elems| - 1];
    if p in Firsts(init) {
      i := FirstIsThere(init, p);
    } else {
      i := |elems| - 1;
    }
  }

  /** Asking in document order is safe. */
  lemma InOrderLeads(elems: seq<Node>)
    requires (forall i :: 0 <= i < |elems| ==> elems[i] != []) && SiblingsInOrder(elems)
    ensures FirstsLead(elems)
  {
    forall i | 0 <= i < |elems| ensures LeadsAt(elems, i) {
      var p := elems[i][..|elems[i]| - 1];
      if p in Firsts(elems[..i]) {
        var j := FirstIsThere(elems[..i], p);
        assert Siblings(elems[j], elems[i]);
      }
    }
  }
}
