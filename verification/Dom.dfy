/** A document as a finite ordered tree.

    A node is named by the sequence of child positions that leads to it from the document, so
    identity of nodes (`===` in the source) is equality of paths, and `parentNode`,
    `previousSibling` and `nextSibling` are arithmetic on the last step of the path.
 */
module Dom {
  import opened Wrappers

  /** `element` says that nodeType is 1; every other kind of node is lumped together. */
  datatype Tree = Tree(element: bool, children: seq<Tree>)

  type Node = seq<nat>

  predicate Has(t: Tree, n: Node)
    decreases |n|
  {
    n == [] || (n[0] < |t.children| && Has(t.children[n[0]], n[1..]))
  }

  function Subtree(t: Tree, n: Node): Tree
    requires Has(t, n)
    decreases |n|
  {
    if n == [] then t else Subtree(t.children[n[0]], n[1..])
  }

  predicate IsElement(t: Tree, n: Node) {
    Has(t, n) && Subtree(t, n).element
  }

  /** Below the document only elements have children: text and comments are leaves. */
  ghost predicate WellFormed(t: Tree) {
    forall n :: Has(t, n) && n != [] && !IsElement(t, n) ==> Subtree(t, n).children == []
  }

  function Parent(n: Node): Option<Node> {
    if n == [] then None else Some(n[..|n| - 1])
  }

  function Last(n: Node): nat
    requires n != []
  {
    n[|n| - 1]
  }

  function PreviousSibling(n: Node): Option<Node> {
    if n == [] || Last(n) == 0 then None else Some(n[..|n| - 1] + [Last(n) - 1])
  }

  function NextSibling(t: Tree, n: Node): Option<Node> {
    if n == [] then None
    else
      var next := n[..|n| - 1] + [Last(n) + 1];
      if Has(t, next) then Some(next) else None
  }

  ghost predicate Siblings(x: Node, y: Node) {
    |x| == |y| && x != [] && x[..|x| - 1] == y[..|y| - 1]
  }

  ghost predicate ProperAncestor(x: Node, y: Node) {
    |x| < |y| && x == y[..|x|]
  }

  lemma {:induction false} HasPrefix(t: Tree, n: Node, k: nat)
    requires Has(t, n) && k <= |n|
    ensures Has(t, n[..k])
    ensures Subtree(t, n) == (HasSuffix(t, n, k); Subtree(Subtree(t, n[..k]), n[k..]))
    decreases |n|
  {
    HasSuffix(t, n, k);
    if k > 0 {
      HasPrefix(t.children[n[0]], n[1..], k - 1);
      assert n[..k][1..] == n[1..][..k - 1];
      assert n[1..][k - 1..] == n[k..];
    } else {
      assert n[..0] == [] && n[0..] == n;
    }
  }

  lemma {:induction false} HasSuffix(t: Tree, n: Node, k: nat)
    requires Has(t, n) && k <= |n|
    ensures Has(t, n[..k]) && Has(Subtree(t, n[..k]), n[k..])
    decreases |n|
  {
    if k > 0 {
      var c, m := t.children[n[0]], n[1..];
      HasSuffix(c, m, k - 1);
      assert n[..k][0] == n[0] && n[..k][1..] == m[..k - 1];
      assert Has(t, n[..k]);
      assert Subtree(t, n[..k]) == Subtree(c, m[..k - 1]);
      assert m[k - 1..] == n[k..];
    } else {
      assert n[..0] == [] && n[0..] == n;
    }
  }

  /** The children of a node are exactly the positions below its number of children. */
  lemma {:induction false} HasChild(t: Tree, p: Node, i: nat)
    requires Has(t, p)
    ensures Has(t, p + [i]) <==> i < |Subtree(t, p).children|
    ensures Has(t, p + [i]) ==> Subtree(t, p + [i]) == Subtree(t, p).children[i]
    decreases |p|
  {
    if p == [] {
      assert p + [i] == [i] && [i][1..] == [];
    } else {
      assert (p + [i])[1..] == p[1..] + [i];
      HasChild(t.children[p[0]], p[1..], i);
    }
  }

  lemma HasParent(t: Tree, n: Node)
    requires Has(t, n) && n != []
    ensures Has(t, n[..|n| - 1]) && Last(n) < |Subtree(t, n[..|n| - 1]).children|
    ensures Subtree(t, n) == Subtree(t, n[..|n| - 1]).children[Last(n)]
  {
    HasPrefix(t, n, |n| - 1);
    assert n == n[..|n| - 1] + [Last(n)];
    HasChild(t, n[..|n| - 1], Last(n));
  }

  /** In a well-formed tree the parent of a node is an element, unless it is the document. */
  lemma ParentIsElement(t: Tree, n: Node)
    requires WellFormed(t) && Has(t, n) && |n| >= 2
    ensures IsElement(t, n[..|n| - 1])
  {
    HasParent(t, n);
  }
}
