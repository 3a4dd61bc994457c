/** Document order: the comparator Sizzle falls back to, and the removal of duplicates.

    The reference is the preorder traversal of the tree. The nodes compared are attached to the
    document, which is the root.
 */
module DocumentOrder {
  import opened Wrappers
  import opened Dom

  // ---------- The traversal ----------

  ghost function Preorder(t: Tree): seq<Node>
    decreases t, |t.children| + 2
  {
    [[]] + Forest(t, 0)
  }

  /** The traversals of the children from the k-th on. */
  ghost function Forest(t: Tree, k: nat): seq<Node>
    requires k <= |t.children|
    decreases t, |t.children| - k + 1
  {
    if k == |t.children| then []
    else
      var first := Preorder(t.children[k]);
      seq(|first|, j requires 0 <= j < |first| => [k] + first[j]) + Forest(t, k + 1)
  }

  /** The number of nodes the traversal meets before `n`. */
  ghost function Position(t: Tree, n: Node): nat
    requires Has(t, n)
    decreases |n|
  {
    if n == [] then 0 else 1 + Offset(t, n[0]) + Position(t.children[n[0]], n[1..])
  }

  ghost function Offset(t: Tree, k: nat): nat
    requires k <= |t.children|
  {
    if k == 0 then 0 else Offset(t, k - 1) + |Preorder(t.children[k - 1])|
  }

  lemma {:induction false} OffsetMonotone(t: Tree, i: nat, k: nat)
    requires i < k <= |t.children|
    ensures Offset(t, i) + |Preorder(t.children[i])| <= Offset(t, k)
  {
    if i + 1 < k {
      OffsetMonotone(t, i, k - 1);
    }
  }

  lemma {:induction false} ForestAt(t: Tree, k: nat, i: nat, j: nat)
    requires k <= i < |t.children| && j < |Preorder(t.children[i])|
    ensures Offset(t, k) <= Offset(t, i)
    ensures Offset(t, i) - Offset(t, k) + j < |Forest(t, k)|
    ensures Forest(t, k)[Offset(t, i) - Offset(t, k) + j] == [i] + Preorder(t.children[i])[j]
    decreases i - k
  {
    if k < i {
      ForestAt(t, k + 1, i, j);
    }
  }

  lemma {:induction false} ForestLength(t: Tree, k: nat)
    requires k <= |t.children|
    ensures |Forest(t, k)| == Offset(t, |t.children|) - Offset(t, k)
    decreases |t.children| - k
  {
    if k < |t.children| {
      ForestLength(t, k + 1);
    }
  }

  /** The traversal meets every node of the tree at its position. */
  lemma {:induction false} Met(t: Tree, n: Node)
    requires Has(t, n)
    ensures Position(t, n) < |Preorder(t)| && Preorder(t)[Position(t, n)] == n
    decreases |n|
  {
    if n != [] {
      Met(t.children[n[0]], n[1..]);
      ForestAt(t, 0, n[0], Position(t.children[n[0]], n[1..]));
      assert n == [n[0]] + n[1..];
    }
  }

  /** The traversal meets nothing else, and nothing twice. */
  lemma {:induction false} OnlyNodes(t: Tree, i: nat)
    requires i < |Preorder(t)|
    ensures Has(t, Preorder(t)[i]) && Position(t, Preorder(t)[i]) == i
    decreases t
  {
    if i > 0 {
      ForestLength(t, 0);
      var k := ChildAt(t, i - 1);
      var j := i - 1 - Offset(t, k);
      ForestAt(t, 0, k, j);
      OnlyNodes(t.children[k], j);
      assert ([k] + Preorder(t.children[k])[j])[1..] == Preorder(t.children[k])[j];
    }
  }

  lemma {:induction false} ChildAt(t: Tree, i: nat) returns (k: nat)
    requires i < Offset(t, |t.children|)
    ensures k < |t.children| && Offset(t, k) <= i < Offset(t, k) + |Preorder(t.children[k])|
  {
    k := |t.children| - 1;
    while i < Offset(t, k)
      invariant k < |t.children| && i < Offset(t, k) + |Preorder(t.children[k])|
    {
      k := k - 1;
    }
  }

  /** Positions order nodes as the traversal meets them. */
  lemma PositionsOrder(t: Tree, a: Node, b: Node)
    requires Has(t, a) && Has(t, b)
    ensures Position(t, a) < Position(t, b) <==>
            exists i, j :: 0 <= i < j < |Preorder(t)| && Preorder(t)[i] == a && Preorder(t)[j] == b
  {
    Met(t, a);
    Met(t, b);
    forall i, j | 0 <= i < j < |Preorder(t)| && Preorder(t)[i] == a && Preorder(t)[j] == b
      ensures Position(t, a) < Position(t, b)
    {
      OnlyNodes(t, i);
      OnlyNodes(t, j);
    }
  }

  // ---------- Deciding the order by paths ----------

  /** A node comes before its descendants, and siblings come in order. */
  lemma {:induction false} DecidedAt(t: Tree, a: Node, b: Node, k: nat)
    requires Has(t, a) && Has(t, b) && a != b
    requires k <= |a| && k <= |b| && a[..k] == b[..k]
    requires k < |a| && k < |b| ==> a[k] != b[k]
    ensures Position(t, a) < Position(t, b) <==> k == |a| || (k < |b| && a[k] < b[k])
    ensures Position(t, a) != Position(t, b)
    decreases k
  {
    if k > 0 {
      assert a[0] == a[..k][0] == b[..k][0] == b[0];
      assert a[1..][..k - 1] == a[..k][1..] == b[..k][1..] == b[1..][..k - 1];
      assert a == [a[0]] + a[1..] && b == [b[0]] + b[1..];
      DecidedAt(t.children[a[0]], a[1..], b[1..], k - 1);
    } else if a != [] && b != [] {
      if a[0] < b[0] {
        OffsetMonotone(t, a[0], b[0]);
        Met(t.children[a[0]], a[1..]);
      } else {
        OffsetMonotone(t, b[0], a[0]);
        Met(t.children[b[0]], b[1..]);
      }
    }
  }

  lemma SiblingsDecided(t: Tree, a: Node, b: Node)
    requires Has(t, a) && Has(t, b) && Siblings(a, b) && a != b
    ensures Last(a) != Last(b) && Position(t, a) != Position(t, b)
    ensures Position(t, a) < Position(t, b) <==> Last(a) < Last(b)
  {
    assert a == a[..|a| - 1] + [Last(a)] && b == b[..|b| - 1] + [Last(b)];
    DecidedAt(t, a, b, |a| - 1);
  }

  /** Where the browser numbers elements in document order, siblings are compared by number. */
  ghost predicate Numbers(t: Tree, sourceIndex: Option<Node -> int>) {
    sourceIndex.Some? ==>
      forall x, y :: IsElement(t, x) && IsElement(t, y) && Position(t, x) < Position(t, y) ==>
        sourceIndex.value(x) < sourceIndex.value(y)
  }

  /** Compares two distinct siblings, one of which may be missing. */
  method SiblingCheck(t: Tree, sourceIndex: Option<Node -> int>, a: Option<Node>, b: Option<Node>) returns (r: int)
    requires a.Some? || b.Some?
    requires a.Some? && b.Some? ==> Has(t, a.value) && Has(t, b.value) && Siblings(a.value, b.value) && a != b
    requires Numbers(t, sourceIndex)
    ensures r != 0
    ensures r < 0 <==> a.None? || (b.Some? && Position(t, a.value) < Position(t, b.value))
  {
    if a.Some? && b.Some? {
      SiblingsDecided(t, a.value, b.value);
      if sourceIndex.Some? && IsElement(t, a.value) && IsElement(t, b.value) {
        var diff := sourceIndex.value(a.value) - sourceIndex.value(b.value);
        if diff != 0 {
          return diff;
        }
      }
      NextSiblingAt(t, a.value, b.value);
      ghost var width := |Subtree(t, b.value[..|b.value| - 1]).children|;
      var cur := NextSibling(t, a.value);
      while cur.Some?
        invariant cur.Some? ==> Has(t, cur.value) && Siblings(cur.value, b.value) && Last(cur.value) > Last(a.value)
        invariant Last(a.value) < Last(b.value) ==> cur.Some? && Last(cur.value) <= Last(b.value)
        decreases if cur.Some? then width - Last(cur.value) + 1 else 0
      {
        if cur == b {
          return -1;
        }
        NextSiblingAt(t, cur.value, b.value);
        cur := NextSibling(t, cur.value);
      }
    }
    return if a.Some? then 1 else -1;
  }

  lemma NextSiblingAt(t: Tree, c: Node, b: Node)
    requires Has(t, c) && Has(t, b) && Siblings(c, b)
    ensures Has(t, b[..|b| - 1]) && Last(c) < |Subtree(t, b[..|b| - 1]).children|
    ensures c != b ==> Last(c) != Last(b)
    ensures NextSibling(t, c).Some? ==>
              var n := NextSibling(t, c).value;
              Siblings(n, b) && Last(n) == Last(c) + 1
    ensures Last(c) < Last(b) ==> NextSibling(t, c).Some?
  {
    HasParent(t, c);
    HasParent(t, b);
    HasChild(t, b[..|b| - 1], Last(c) + 1);
    assert c == c[..|c| - 1] + [Last(c)] && b == b[..|b| - 1] + [Last(b)];
  }

  /** The comparator. Its sign is the order of the traversal, and it is zero, which also reports a
      duplicate, exactly for identical nodes. */
  method SortOrder(t: Tree, sourceIndex: Option<Node -> int>, a: Node, b: Node) returns (r: int, duplicate: bool)
    requires Has(t, a) && Has(t, b) && Numbers(t, sourceIndex)
    ensures r < 0 <==> Position(t, a) < Position(t, b)
    ensures r == 0 <==> a == b
    ensures duplicate <==> a == b
  {
    if a == b {
      return 0, true;
    }
    duplicate := false;
    if Parent(a).None? {
      DecidedAt(t, a, b, 0);
      return -1, false;
    }
    if Parent(b).None? {
      DecidedAt(t, a, b, 0);
      return 1, false;
    }
    if Parent(a) == Parent(b) {
      r := SiblingCheck(t, sourceIndex, Some(a), Some(b));
      return;
    }
    r := CompareBranches(t, sourceIndex, a, b);
  }

  /** The general case: the first discrepancy between the two lines of ancestors decides. */
  method CompareBranches(t: Tree, sourceIndex: Option<Node -> int>, a: Node, b: Node) returns (r: int)
    requires Has(t, a) && Has(t, b) && a != b && Numbers(t, sourceIndex)
    ensures r != 0
    ensures r < 0 <==> Position(t, a) < Position(t, b)
  {
    var ap := AncestorsOf(a);
    var bp := AncestorsOf(b);
    var i := 0;
    while i < |ap| && i < |bp| && ap[i] == bp[i]
      invariant i <= |ap| && i <= |bp| && (i == 0 || a[..i - 1] == b[..i - 1])
    {
      i := i + 1;
    }
    BranchDecided(t, a, b, i);
    r := SiblingCheck(t, sourceIndex, if i < |ap| then Some(ap[i]) else None, if i < |bp| then Some(bp[i]) else None);
  }

  /** Below their last common ancestor two nodes are in the order of its children they lie under. */
  lemma BranchDecided(t: Tree, a: Node, b: Node, i: nat)
    requires Has(t, a) && Has(t, b) && a != b
    requires i <= |a| + 1 && i <= |b| + 1 && (i == 0 || a[..i - 1] == b[..i - 1])
    requires i <= |a| && i <= |b| ==> a[..i] != b[..i]
    ensures i > 0 && (i <= |a| || i <= |b|)
    ensures i == |a| + 1 ==> Position(t, a) < Position(t, b)
    ensures i == |b| + 1 ==> Position(t, b) < Position(t, a)
    ensures i <= |a| && i <= |b| ==>
              && Has(t, a[..i]) && Has(t, b[..i]) && Siblings(a[..i], b[..i])
              && (Position(t, a) < Position(t, b) <==> Position(t, a[..i]) < Position(t, b[..i]))
  {
    if i <= |a| && i <= |b| {
      assert i > 0;
      Fork(t, a, b, i - 1);
    } else {
      DecidedAt(t, a, b, i - 1);
    }
  }

  lemma Fork(t: Tree, a: Node, b: Node, k: nat)
    requires Has(t, a) && Has(t, b) && k < |a| && k < |b|
    requires a[..k] == b[..k] && a[..k + 1] != b[..k + 1]
    ensures Has(t, a[..k + 1]) && Has(t, b[..k + 1]) && Siblings(a[..k + 1], b[..k + 1])
    ensures Position(t, a) < Position(t, b) <==> Position(t, a[..k + 1]) < Position(t, b[..k + 1])
  {
    var x, y := a[..k + 1], b[..k + 1];
    HasPrefix(t, a, k + 1);
    HasPrefix(t, b, k + 1);
    assert x == a[..k] + [a[k]] && y == b[..k] + [b[k]];
    assert x[..k] == a[..k] && y[..k] == b[..k];
    DecidedAt(t, a, b, k);
    DecidedAt(t, x, y, k);
  }

  /** The node with all its ancestors, outermost first. */
  method AncestorsOf(n: Node) returns (up: seq<Node>)
    ensures |up| == |n| + 1 && forall k :: 0 <= k <= |n| ==> up[k] == n[..k]
  {
    up := [n];
    var cur := n;
    while Parent(cur).Some?
      invariant |cur| <= |n| && cur == n[..|cur|] && |up| == |n| - |cur| + 1
      invariant forall k :: 0 <= k < |up| ==> up[k] == n[..|cur| + k]
      decreases |cur|
    {
      cur := Parent(cur).value;
      up := [cur] + up;
    }
  }

  // ---------- Removing duplicates ----------

  ghost predicate Sorted(t: Tree, s: seq<Node>) {
    && (forall i :: 0 <= i < |s| ==> Has(t, s[i]))
    && forall i, j :: 0 <= i < j < |s| ==> Position(t, s[i]) <= Position(t, s[j])
  }

  ghost predicate StrictlySorted(t: Tree, s: seq<Node>) {
    && (forall i :: 0 <= i < |s| ==> Has(t, s[i]))
    && forall i, j :: 0 <= i < j < |s| ==> Position(t, s[i]) < Position(t, s[j])
  }

  ghost predicate Repeats<T>(s: seq<T>, d: int) {
    0 < d < |s| && s[d] == s[d - 1]
  }

  /** `s[k..]` without the members that repeat the one before them. */
  ghost function Fresh<T>(s: seq<T>, k: nat): seq<T>
    requires k <= |s|
    decreases |s| - k
  {
    if k == |s| then [] else (if Repeats(s, k) then [] else [s[k]]) + Fresh(s, k + 1)
  }

  lemma {:induction false} FreshRun<T>(s: seq<T>, k: nat, l: nat)
    requires k <= l <= |s|
    requires forall i :: k <= i < l ==> !Repeats(s, i)
    ensures Fresh(s, k) == s[k..l] + Fresh(s, l)
    decreases l - k
  {
    if k < l {
      FreshRun(s, k + 1, l);
      assert !Repeats(s, k);
      assert s[k..l] + Fresh(s, l) == [s[k]] + (s[k + 1..l] + Fresh(s, l));
    } else {
      assert s[k..l] + Fresh(s, l) == Fresh(s, l);
    }
  }

  lemma {:induction false} FreshMembers<T>(s: seq<T>, k: nat)
    requires k <= |s|
    ensures forall x :: x in Fresh(s, k) ==> x in s[k..]
    ensures forall x :: x in s[k..] ==> x in Fresh(s, k) || (k > 0 && x == s[k - 1])
    decreases |s| - k
  {
    if k < |s| {
      FreshMembers(s, k + 1);
      assert s[k..] == [s[k]] + s[k + 1..];
    }
  }

  ghost predicate AllAfter(t: Tree, n: Node, s: seq<Node>) {
    Has(t, n) && forall i :: 0 <= i < |s| ==> Has(t, s[i]) && Position(t, n) < Position(t, s[i])
  }

  lemma ConsSorted(t: Tree, n: Node, s: seq<Node>)
    requires StrictlySorted(t, s) && AllAfter(t, n, s)
    ensures StrictlySorted(t, [n] + s)
  {
  }

  lemma {:induction false} FreshSorted(t: Tree, s: seq<Node>, k: nat)
    requires Sorted(t, s) && k <= |s|
    ensures StrictlySorted(t, Fresh(s, k))
    ensures k > 0 ==> AllAfter(t, s[k - 1], Fresh(s, k))
    decreases |s| - k
  {
    if k < |s| {
      FreshSorted(t, s, k + 1);
      if !Repeats(s, k) {
        ConsSorted(t, s[k], Fresh(s, k + 1));
        assert Fresh(s, k) == [s[k]] + Fresh(s, k + 1);
        if k > 0 {
          SamePosition(t, s[k - 1], s[k]);
          assert AllAfter(t, s[k - 1], Fresh(s, k));
        }
      }
    }
  }

  lemma SamePosition(t: Tree, a: Node, b: Node)
    requires Has(t, a) && Has(t, b)
    ensures Position(t, a) == Position(t, b) <==> a == b
  {
    Met(t, a);
    Met(t, b);
  }

  ghost predicate AllRepeats<T>(s: seq<T>, duplicates: seq<nat>) {
    && (forall p :: 0 <= p < |duplicates| ==> Repeats(s, duplicates[p]))
    && (forall d :: Repeats(s, d) ==> d in duplicates)
    && forall p, q :: 0 <= p < q < |duplicates| ==> duplicates[p] < duplicates[q]
  }

  /** The indices of the members that repeat the one before them. */
  method Duplicates<T(==)>(s: seq<T>) returns (duplicates: seq<nat>)
    ensures AllRepeats(s, duplicates)
  {
    duplicates := [];
    var i := 0;
    while i < |s|
      invariant i <= |s|
      invariant forall p :: 0 <= p < |duplicates| ==> duplicates[p] <= i && Repeats(s, duplicates[p])
      invariant forall d :: d <= i && Repeats(s, d) ==> d in duplicates
      invariant forall p, q :: 0 <= p < q < |duplicates| ==> duplicates[p] < duplicates[q]
    {
      var elem := s[i];
      i := i + 1;
      if i < |s| && elem == s[i] {
        duplicates := duplicates + [i];
      }
    }
  }

  /** Splices out the recorded indices from the last to the first. */
  method SpliceOut<T>(s: seq<T>, duplicates: seq<nat>) returns (r: seq<T>)
    requires AllRepeats(s, duplicates)
    ensures r == Fresh(s, 0)
  {
    r := s;
    var j := |duplicates|;
    ghost var cut := |s|;
    while j > 0
      invariant 0 <= j <= |duplicates| && cut <= |s| && cut == (if j == |duplicates| then |s| else duplicates[j])
      invariant r == s[..cut] + Fresh(s, cut)
    {
      j := j - 1;
      var d := duplicates[j];
      NoneBetween(s, duplicates, j, cut);
      FreshRun(s, d + 1, cut);
      assert r[..d] == s[..d] && r[d + 1..] == s[d + 1..cut] + Fresh(s, cut);
      r := r[..d] + r[d + 1..];
      cut := d;
    }
    NoneBetween(s, duplicates, -1, cut);
    assert !Repeats(s, 0);
    FreshRun(s, 0, cut);
    assert s[..cut] == s[0..cut];
  }

  /** `sorted` is what the host's sort made of `results` with the comparator; `hasDuplicate` is the
      flag the comparator raises, or the assumption made where it cannot be trusted. */
  method UniqueSort(t: Tree, results: seq<Node>, sorted: seq<Node>, hasDuplicate: bool) returns (unique: seq<Node>)
    requires Sorted(t, sorted) && multiset(sorted) == multiset(results)
    requires (exists i :: Repeats(sorted, i)) ==> hasDuplicate
    ensures StrictlySorted(t, unique)
    ensures forall x :: x in unique <==> x in results
  {
    if hasDuplicate {
      var duplicates := Duplicates(sorted);
      unique := SpliceOut(sorted, duplicates);
    } else {
      unique := sorted;
      FreshRun(sorted, 0, |sorted|);
      assert sorted[0..|sorted|] + [] == sorted;
    }
    FreshSorted(t, sorted, 0);
    FreshMembers(sorted, 0);
    assert sorted[0..] == sorted;
    SameMembers(sorted, results);
  }

  lemma SameMembers<T>(s: seq<T>, r: seq<T>)
    requires multiset(s) == multiset(r)
    ensures forall x :: x in s <==> x in r
  {
    forall x ensures x in s <==> x in r {
      assert x in s <==> x in multiset(s);
      assert x in r <==> x in multiset(r);
    }
  }

  /** No duplicate lies strictly between two consecutive recorded ones. */
  lemma NoneBetween<T>(s: seq<T>, duplicates: seq<nat>, j: int, cut: nat)
    requires -1 <= j < |duplicates| && cut == (if j + 1 == |duplicates| then |s| else duplicates[j + 1])
    requires AllRepeats(s, duplicates)
    ensures forall i :: (if j < 0 then 0 else duplicates[j]) < i < cut ==> !Repeats(s, i)
  {
    forall i | 0 <= i < |duplicates| ensures duplicates[i] <= (if j < 0 then 0 else duplicates[j]) || cut <= duplicates[i] {
      assert i <= j || j + 1 <= i;
    }
  }
}
