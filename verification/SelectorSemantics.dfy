/** Selectors as Selectors Level 3 defines them: compounds joined by combinators (section 8).

    A token is a simple filter, which is an arbitrary test on nodes, or a combinator. The meaning
    of a token group is stated without any search: a node matches when some left-to-right chain of
    elements, one for each compound, ends at it.
 */
module SelectorSemantics {
  import opened Wrappers
  import opened Dom

  datatype Relation = Child | Descendant | Adjacent | Sibling

  datatype Token = Filter(test: Node -> bool) | Relative(relation: Relation)

  /** The nodes that the query is scoped to: one node or a collection. */
  datatype Context = One(node: Node) | Many(nodes: seq<Node>)

  predicate InContext(c: Context, n: Node) {
    match c
    case One(x) => n == x
    case Many(xs) => n in xs
  }

  /** What a compiled matcher is applied in: the tree, the context, whether that context is the
      outermost one, and whether the document is XML. */
  datatype Env = Env(tree: Tree, context: Context, outermost: bool, xml: bool)

  /** `x` stands to the left of `y` across the combinator. */
  ghost predicate Related(t: Tree, r: Relation, x: Node, y: Node) {
    match r
    case Child => Parent(y) == Some(x)
    case Descendant => ProperAncestor(x, y)
    case Sibling => Siblings(x, y) && Last(x) < Last(y)
    case Adjacent =>
      && Siblings(x, y) && Last(x) < Last(y)
      && forall z :: Siblings(z, y) && Last(x) < Last(z) < Last(y) ==> !IsElement(t, z)
  }

  predicate Upward(r: Relation) {
    r == Child || r == Descendant
  }

  /** A token group: an optional leading combinator, then compounds separated by combinators.
      A compound without filters, as between two adjacent combinators, is allowed. */
  datatype Selector = Selector(lead: Option<Relation>, compounds: seq<seq<Node -> bool>>, relations: seq<Relation>)

  ghost function Body(lead: Option<Relation>, tokens: seq<Token>): (s: Selector)
    ensures |s.compounds| == |s.relations| + 1
  {
    if tokens == [] then Selector(lead, [[]], [])
    else
      var s := Body(lead, tokens[..|tokens| - 1]);
      var last := |s.compounds| - 1;
      match tokens[|tokens| - 1]
      case Filter(test) => s.(compounds := s.compounds[last := s.compounds[last] + [test]])
      case Relative(r) => s.(compounds := s.compounds + [[]], relations := s.relations + [r])
  }

  ghost function Parse(tokens: seq<Token>): Selector
    requires tokens != []
  {
    match tokens[0]
    case Relative(r) => Body(Some(r), tokens[1..])
    case Filter(_) => Body(None, tokens)
  }

  /** The context that the leftmost element must be reached from. An unscoped group is free of it
      when the context is not the outermost one, or in XML. */
  ghost predicate Anchored(env: Env, lead: Option<Relation>, first: Node) {
    || (lead.None? && (env.xml || !env.outermost))
    || exists c :: Anchor(env, ImplicitRelation(lead), c, first)
  }

  /** Without a leading combinator the leftmost element is sought below the context. */
  function ImplicitRelation(lead: Option<Relation>): Relation {
    match lead
    case None => Descendant
    case Some(r) => r
  }

  ghost predicate Anchor(env: Env, r: Relation, c: Node, first: Node) {
    InContext(env.context, c) && (Upward(r) || IsElement(env.tree, c)) && Related(env.tree, r, c, first)
  }

  ghost predicate Chain(env: Env, s: Selector, chain: seq<Node>) {
    && |chain| == |s.compounds| == |s.relations| + 1
    && Anchored(env, s.lead, chain[0])
    && (forall i, j :: 0 <= i < |chain| && 0 <= j < |s.compounds[i]| ==> s.compounds[i][j](chain[i]))
    && forall i :: 0 <= i < |s.relations| ==>
        IsElement(env.tree, chain[i]) && Related(env.tree, s.relations[i], chain[i], chain[i + 1])
  }

  ghost predicate ChainTo(env: Env, s: Selector, chain: seq<Node>, n: Node) {
    Chain(env, s, chain) && chain[|chain| - 1] == n
  }

  ghost predicate Selects(env: Env, s: Selector, n: Node) {
    exists chain :: ChainTo(env, s, chain, n)
  }

  /** A selector with one empty compound selects what its anchor admits. */
  lemma SelectsStart(env: Env, lead: Option<Relation>, n: Node)
    ensures Selects(env, Body(lead, []), n) <==> Anchored(env, lead, n)
  {
    if Anchored(env, lead, n) {
      assert ChainTo(env, Body(lead, []), [n], n);
    }
  }

  lemma SelectsFilter(env: Env, lead: Option<Relation>, tokens: seq<Token>, test: Node -> bool, n: Node)
    ensures Selects(env, Body(lead, tokens + [Filter(test)]), n) <==> Selects(env, Body(lead, tokens), n) && test(n)
  {
    var s, s' := Body(lead, tokens), Body(lead, tokens + [Filter(test)]);
    assert (tokens + [Filter(test)])[..|tokens|] == tokens;
    var last := |s.compounds| - 1;
    assert s' == s.(compounds := s.compounds[last := s.compounds[last] + [test]]);
    forall chain
      ensures ChainTo(env, s', chain, n) <==> ChainTo(env, s, chain, n) && test(n)
    {
      if ChainTo(env, s', chain, n) {
        assert s'.compounds[last][|s.compounds[last]|] == test;
        assert forall i, j :: 0 <= i < |chain| && 0 <= j < |s.compounds[i]| ==> s.compounds[i][j] == s'.compounds[i][j];
      }
    }
  }

  lemma ChainInit(env: Env, s: Selector, r: Relation, chain: seq<Node>, n: Node)
    requires |s.compounds| == |s.relations| + 1
    requires ChainTo(env, s.(compounds := s.compounds + [[]], relations := s.relations + [r]), chain, n)
    ensures
      var init := chain[..|chain| - 1];
      init != [] && ChainTo(env, s, init, init[|init| - 1]) && IsElement(env.tree, init[|init| - 1])
      && Related(env.tree, r, init[|init| - 1], n)
  {
    var s' := s.(compounds := s.compounds + [[]], relations := s.relations + [r]);
    var init := chain[..|chain| - 1];
    assert s'.relations[|s.relations|] == r;
    forall i | 0 <= i < |s.relations|
      ensures IsElement(env.tree, init[i]) && Related(env.tree, s.relations[i], init[i], init[i + 1])
    {
      assert s'.relations[i] == s.relations[i];
    }
    forall i, j | 0 <= i < |init| && 0 <= j < |s.compounds[i]|
      ensures s.compounds[i][j](init[i])
    {
      assert s'.compounds[i][j] == s.compounds[i][j];
    }
  }

  lemma ChainSnoc(env: Env, s: Selector, r: Relation, init: seq<Node>, x: Node, n: Node)
    requires |s.compounds| == |s.relations| + 1
    requires ChainTo(env, s, init, x) && IsElement(env.tree, x) && Related(env.tree, r, x, n)
    ensures ChainTo(env, s.(compounds := s.compounds + [[]], relations := s.relations + [r]), init + [n], n)
  {
  }

  lemma SelectsRelative(env: Env, lead: Option<Relation>, tokens: seq<Token>, r: Relation, n: Node)
    ensures Selects(env, Body(lead, tokens + [Relative(r)]), n) <==>
            exists x :: IsElement(env.tree, x) && Related(env.tree, r, x, n) && Selects(env, Body(lead, tokens), x)
  {
    var s, s' := Body(lead, tokens), Body(lead, tokens + [Relative(r)]);
    assert (tokens + [Relative(r)])[..|tokens|] == tokens;
    assert s' == s.(compounds := s.compounds + [[]], relations := s.relations + [r]);
    if Selects(env, s', n) {
      var chain :| ChainTo(env, s', chain, n);
      ChainInit(env, s, r, chain, n);
    }
    forall x | IsElement(env.tree, x) && Related(env.tree, r, x, n) && Selects(env, s, x)
      ensures Selects(env, s', n)
    {
      var init :| ChainTo(env, s, init, x);
      ChainSnoc(env, s, r, init, x, n);
    }
  }
}
