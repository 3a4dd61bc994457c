/** Sizzle's selector compiler and the caches of its compiled matchers.

    A compiled matcher is a tree of closures. Here it is a value, `Matcher`, with two readings: the
    uncached walk `Accepts`, and the method `Engine.Run`, which uses and fills the result cache that
    every element carries for each direction.
 */
module Selectors {
  import opened Wrappers
  import opened Dom
  import opened SelectorSemantics
  import opened Filters

  datatype Direction = ParentNode | PreviousNode

  function Dir(r: Relation): Direction {
    if Upward(r) then ParentNode else PreviousNode
  }

  predicate First(r: Relation) {
    r == Child || r == Adjacent
  }

  datatype Matcher =
    | Simple(test: Node -> bool)
    | IsContext
    | Scope(leading: bool, one: Matcher, many: Matcher)
    | Combinator(relation: Relation, base: bool, name: nat, inner: Matcher)
    | All(matchers: seq<Matcher>)

  function Step(d: Direction, n: Node): Option<Node> {
    match d
    case ParentNode => Parent(n)
    case PreviousNode => PreviousSibling(n)
  }

  function Rank(d: Direction, n: Node): nat {
    match d
    case ParentNode => |n|
    case PreviousNode => if n == [] then 0 else Last(n)
  }

  /** Walks stop at elements, and also at other nodes when reaching up for a context. */
  predicate Stops(t: Tree, m: Matcher, n: Node)
    requires m.Combinator?
  {
    IsElement(t, n) || (m.base && Upward(m.relation))
  }

  /** The uncached reading of a matcher. */
  predicate Accepts(env: Env, m: Matcher, n: Node)
    decreases m, 1, 0
  {
    match m
    case Simple(test) => test(n)
    case IsContext => InContext(env.context, n)
    case Scope(leading, one, many) =>
      || (!leading && (env.xml || !env.outermost))
      || (if env.context.One? then Accepts(env, one, n) else Accepts(env, many, n))
    case Combinator(r, _, _, _) => if First(r) then WalkFirst(env, m, n) else WalkAny(env, m, n)
    case All(ms) => forall k :: 0 <= k < |ms| ==> Accepts(env, ms[k], n)
  }

  predicate WalkFirst(env: Env, m: Matcher, n: Node)
    requires m.Combinator?
    decreases m, 0, Rank(Dir(m.relation), n)
  {
    match Step(Dir(m.relation), n)
    case None => false
    case Some(p) => if Stops(env.tree, m, p) then Accepts(env, m.inner, p) else WalkFirst(env, m, p)
  }

  predicate WalkAny(env: Env, m: Matcher, n: Node)
    requires m.Combinator?
    decreases m, 0, Rank(Dir(m.relation), n)
  {
    match Step(Dir(m.relation), n)
    case None => false
    case Some(p) => (Stops(env.tree, m, p) && Accepts(env, m.inner, p)) || WalkAny(env, m, p)
  }

  // ---------- What a combinator means ----------

  /** `x` is met on the walk from `n`. */
  ghost predicate Along(d: Direction, x: Node, n: Node) {
    match d
    case ParentNode => ProperAncestor(x, n)
    case PreviousNode => Siblings(x, n) && Last(x) < Last(n)
  }

  lemma AlongStep(d: Direction, x: Node, n: Node)
    ensures Along(d, x, n) <==> Step(d, n).Some? && (x == Step(d, n).value || Along(d, x, Step(d, n).value))
  {
    match Step(d, n)
    case None =>
    case Some(p) =>
      if d == ParentNode {
        assert |x| < |n| ==> p[..|x|] == n[..|x|] || |x| == |n| - 1;
        if |x| < |p| { assert p[..|x|] == n[..|x|]; }
      } else {
        assert p[..|p| - 1] == n[..|n| - 1];
        if Siblings(x, n) && Last(x) == Last(p) {
          assert x == x[..|x| - 1] + [Last(x)];
          assert p == p[..|p| - 1] + [Last(p)];
        }
      }
  }

  lemma {:induction false} WalkAnyMeans(env: Env, m: Matcher, n: Node)
    requires m.Combinator?
    ensures WalkAny(env, m, n) <==>
            exists x :: Along(Dir(m.relation), x, n) && Stops(env.tree, m, x) && Accepts(env, m.inner, x)
    decreases Rank(Dir(m.relation), n)
  {
    var d := Dir(m.relation);
    forall x ensures Along(d, x, n) <==> Step(d, n).Some? && (x == Step(d, n).value || Along(d, x, Step(d, n).value)) {
      AlongStep(d, x, n);
    }
    match Step(d, n)
    case None =>
    case Some(p) =>
      WalkAnyMeans(env, m, p);
      assert Along(d, p, n);
  }

  /** The nearest stop on the walk is the only one that counts. */
  lemma {:induction false} WalkFirstMeans(env: Env, m: Matcher, n: Node)
    requires m.Combinator?
    ensures WalkFirst(env, m, n) <==>
            exists x :: Nearest(env.tree, m, x, n) && Accepts(env, m.inner, x)
    decreases Rank(Dir(m.relation), n)
  {
    var d := Dir(m.relation);
    forall x ensures Along(d, x, n) <==> Step(d, n).Some? && (x == Step(d, n).value || Along(d, x, Step(d, n).value)) {
      AlongStep(d, x, n);
    }
    match Step(d, n)
    case None =>
    case Some(p) =>
      assert Along(d, p, n);
      WalkFirstMeans(env, m, p);
      if Stops(env.tree, m, p) {
        AlongOrder(d, p, p, n);
        assert Nearest(env.tree, m, p, n);
        forall x | Nearest(env.tree, m, x, n) ensures x == p {
          AlongOrder(d, p, x, n);
        }
      } else {
        forall x ensures Nearest(env.tree, m, x, n) <==> Nearest(env.tree, m, x, p) {
          AlongOrder(d, p, x, n);
        }
      }
  }

  ghost predicate Nearest(t: Tree, m: Matcher, x: Node, n: Node)
    requires m.Combinator?
  {
    && Along(Dir(m.relation), x, n) && Stops(t, m, x)
    && forall z :: Along(Dir(m.relation), z, n) && Along(Dir(m.relation), x, z) ==> !Stops(t, m, z)
  }

  /** Along is a strict order in which the first step comes nearest. */
  lemma AlongOrder(d: Direction, p: Node, x: Node, n: Node)
    requires Step(d, n) == Some(p)
    ensures !Along(d, p, p)
    ensures Along(d, x, n) && x != p ==> Along(d, x, p)
    ensures forall z :: Along(d, z, n) && Along(d, p, z) ==> false
  {
    AlongStep(d, x, n);
    forall z | Along(d, z, n) && Along(d, p, z) ensures false {
      AlongStep(d, z, n);
    }
  }

  /** A combinator accepts a node iff some stop to its left, in the sense of the Level 3
      relation, is accepted by what it combines. */
  lemma CombinatorMeans(env: Env, m: Matcher, n: Node)
    requires m.Combinator? && WellFormed(env.tree) && Has(env.tree, n)
    ensures Accepts(env, m, n) <==>
            exists x :: Related(env.tree, m.relation, x, n) && Stops(env.tree, m, x) && Accepts(env, m.inner, x)
  {
    match m.relation
    case Descendant => WalkAnyMeans(env, m, n);
    case Sibling => WalkAnyMeans(env, m, n);
    case Child =>
      WalkFirstMeans(env, m, n);
      forall x ensures Nearest(env.tree, m, x, n) <==> Related(env.tree, Child, x, n) && Stops(env.tree, m, x) {
        NearestParent(env.tree, m, x, n);
      }
    case Adjacent =>
      WalkFirstMeans(env, m, n);
      forall x ensures Nearest(env.tree, m, x, n) <==> Related(env.tree, Adjacent, x, n) && Stops(env.tree, m, x) {
        NearestSibling(env.tree, m, x, n);
      }
  }

  lemma NearestParent(t: Tree, m: Matcher, x: Node, n: Node)
    requires m.Combinator? && m.relation == Child && WellFormed(t) && Has(t, n)
    ensures Nearest(t, m, x, n) <==> Related(t, Child, x, n) && Stops(t, m, x)
  {
    if n != [] {
      var p := n[..|n| - 1];
      AlongOrder(ParentNode, p, x, n);
      AlongStep(ParentNode, p, n);
      if |n| >= 2 {
        ParentIsElement(t, n);
      }
      assert Nearest(t, m, x, n) ==> x == p || Along(ParentNode, x, p);
    }
  }

  lemma NearestSibling(t: Tree, m: Matcher, x: Node, n: Node)
    requires m.Combinator? && m.relation == Adjacent
    ensures Nearest(t, m, x, n) <==> Related(t, Adjacent, x, n) && Stops(t, m, x)
  {
    if Siblings(x, n) && Last(x) < Last(n) {
      forall z ensures Along(PreviousNode, z, n) && Along(PreviousNode, x, z) <==>
                       Siblings(z, n) && Last(x) < Last(z) < Last(n) {
      }
    }
  }

  // ---------- Names of combinators ----------

  /** Every combinator is numbered when it is built, after everything inside it. */
  predicate Below(m: Matcher, k: nat) {
    match m
    case Simple(_) => true
    case IsContext => true
    case Scope(_, one, many) => Below(one, k) && Below(many, k)
    case Combinator(_, _, name, inner) => name < k && Below(inner, name)
    case All(ms) => forall i :: 0 <= i < |ms| ==> Below(ms[i], k)
  }

  lemma {:induction false} BelowMonotone(m: Matcher, j: nat, k: nat)
    requires Below(m, j) && j <= k
    ensures Below(m, k)
  {
    match m
    case Scope(_, one, many) =>
      BelowMonotone(one, j, k);
      BelowMonotone(many, j, k);
    case All(ms) =>
      forall i | 0 <= i < |ms| ensures Below(ms[i], k) {
        BelowMonotone(ms[i], j, k);
      }
    case _ =>
  }

  type Registry = map<nat, Matcher>

  /** The registry knows which combinator carries which number. */
  ghost predicate Registered(m: Matcher, reg: Registry) {
    match m
    case Simple(_) => true
    case IsContext => true
    case Scope(_, one, many) => Registered(one, reg) && Registered(many, reg)
    case Combinator(_, _, name, inner) => name in reg && reg[name] == m && Registered(inner, reg)
    case All(ms) => forall i :: 0 <= i < |ms| ==> Registered(ms[i], reg)
  }

  ghost predicate Extends(reg: Registry, reg': Registry) {
    forall k :: k in reg ==> k in reg' && reg'[k] == reg[k]
  }

  lemma {:induction false} RegisteredMonotone(m: Matcher, reg: Registry, reg': Registry)
    requires Registered(m, reg) && Extends(reg, reg')
    ensures Registered(m, reg')
  {
    match m
    case Scope(_, one, many) =>
      RegisteredMonotone(one, reg, reg');
      RegisteredMonotone(many, reg, reg');
    case Combinator(_, _, _, inner) => RegisteredMonotone(inner, reg, reg');
    case All(ms) =>
      forall i | 0 <= i < |ms| ensures Registered(ms[i], reg') {
        RegisteredMonotone(ms[i], reg, reg');
      }
    case _ =>
  }

  // ---------- The engine ----------

  /** The array `[ dirruns, doneName, result ]`. One such array is shared by all the nodes of a
      walk, so that writing its result changes what is recorded on each of them. */
  class Cell {
    const run: nat
    const name: nat
    var result: Option<bool>

    constructor (run: nat, name: nat)
      ensures this.run == run && this.name == name && result == None
    {
      this.run, this.name, result := run, name, None;
    }
  }

  function ElementMatcher(ms: seq<Matcher>): Matcher
    requires ms != []
  {
    if |ms| > 1 then All(ms) else ms[0]
  }

  ghost predicate AcceptsAll(env: Env, ms: seq<Matcher>, n: Node) {
    forall k :: 0 <= k < |ms| ==> Accepts(env, ms[k], n)
  }

  /** The matcher accepts exactly the nodes that the selector selects, in every environment. */
  ghost predicate Compiles(m: Matcher, s: Selector) {
    forall env: Env, n :: WellFormed(env.tree) && Has(env.tree, n) ==> (Accepts(env, m, n) <==> Selects(env, s, n))
  }

  class Engine {
    var done: nat
    var dirruns: nat
    var slots: map<(Node, Direction), Cell>
    ghost var registry: Registry

    constructor ()
      ensures Valid() && slots == map[]
    {
      done, dirruns, slots, registry := 0, 0, map[], map[];
    }

    ghost predicate Valid()
      reads this
    {
      && (forall k :: k in registry ==> k < done && registry[k].Combinator? && registry[k].name == k)
      && forall s :: s in slots ==> slots[s].run <= dirruns && slots[s].name in registry
    }

    /** What is recorded on a node is the answer of the walk that starts at that node. */
    ghost predicate Right(env: Env, s: (Node, Direction), c: Cell)
      reads this, c
      requires Valid() && c.name in registry
    {
      var m := registry[c.name];
      && s.1 == Dir(m.relation) && Stops(env.tree, m, s.0)
      && c.result == Some(Accepts(env, m.inner, s.0) || WalkAny(env, m, s.0))
    }

    /** Everything recorded in this run is right, except by the walks still under way. */
    ghost predicate Sound(env: Env, busy: set<nat>)
      reads this, slots.Values
      requires Valid()
    {
      forall s :: s in slots && slots[s].run == dirruns && slots[s].name !in busy ==> Right(env, s, slots[s])
    }

    // ---------- Compiling ----------

    method AddCombinator(inner: Matcher, relation: Relation, base: bool) returns (m: Matcher)
      requires Valid() && Registered(inner, registry) && Below(inner, done)
      modifies this`done, this`registry
      ensures Valid() && done == old(done) + 1 && Extends(old(registry), registry)
      ensures Registered(m, registry) && Below(m, done)
      ensures m == Combinator(relation, base, old(done), inner)
    {
      m := Combinator(relation, base, done, inner);
      registry := registry[done := m];
      done := done + 1;
      RegisteredMonotone(inner, old(registry), registry);
    }

    /** Extends the list of matchers for the tokens already read by one more token. */
    method AddToken(ms: seq<Matcher>, token: Token, ghost lead: Option<Relation>, ghost read: seq<Token>) returns (ms': seq<Matcher>)
      requires Valid() && ms != [] && Denotes(ms, lead, read)
      requires forall k :: 0 <= k < |ms| ==> Registered(ms[k], registry) && Below(ms[k], done)
      modifies this`done, this`registry
      ensures Valid() && done >= old(done) && Extends(old(registry), registry)
      ensures ms' != [] && Denotes(ms', lead, read + [token])
      ensures forall k :: 0 <= k < |ms'| ==> Registered(ms'[k], registry) && Below(ms'[k], done)
    {
      match token
      case Relative(r) =>
        var outer := AddCombinator(ElementMatcher(ms), r, false);
        DenotesRelative(lead, read, ms, r, outer.name);
        ms' := [outer];
      case Filter(test) =>
        DenotesFilter(lead, read, ms, test);
        ms' := ms + [Simple(test)];
    }

    /** The matcher that ties the leftmost element to the context. */
    method AddScope(lead: Option<Relation>) returns (m: Matcher)
      requires Valid()
      modifies this`done, this`registry
      ensures Valid() && done >= old(done) && Extends(old(registry), registry)
      ensures Registered(m, registry) && Below(m, done) && Denotes([m], lead, [])
    {
      var one := AddCombinator(IsContext, ImplicitRelation(lead), true);
      ghost var reg, names := registry, done;
      var many := AddCombinator(IsContext, ImplicitRelation(lead), true);
      RegisteredMonotone(one, reg, registry);
      BelowMonotone(one, names, done);
      DenotesStart(lead, one.name, many.name);
      m := Scope(lead.Some?, one, many);
    }

    /** Compiles one token group. The matcher accepts exactly the nodes that the group selects. */
    method MatcherFromTokens(tokens: seq<Token>) returns (m: Matcher)
      requires tokens != [] && Valid()
      modifies this`done, this`registry
      ensures Valid() && done >= old(done) && Extends(old(registry), registry)
      ensures Registered(m, registry) && Below(m, done)
      ensures Compiles(m, Parse(tokens))
    {
      var lead := if tokens[0].Relative? then Some(tokens[0].relation) else None;
      var body := if lead.Some? then tokens[1..] else tokens;
      var scope := AddScope(lead);
      var ms := [scope];
      for i := 0 to |body|
        invariant Valid() && done >= old(done) && Extends(old(registry), registry)
        invariant ms != [] && Denotes(ms, lead, body[..i])
        invariant forall k :: 0 <= k < |ms| ==> Registered(ms[k], registry) && Below(ms[k], done)
      {
        ms := AddToken(ms, body[i], lead, body[..i]);
        assert body[..i + 1] == body[..i] + [body[i]];
      }
      m := ElementMatcher(ms);
      assert body[..|body|] == body;
      DenotesMatcher(ms, lead, body);
    }

    // ---------- Running ----------

    /** Applies a matcher. The answer is that of the uncached walk, whatever earlier matchers and
        earlier nodes of the same run have left in the slots. */
    method Run(env: Env, m: Matcher, n: Node, ghost busy: set<nat>) returns (b: bool)
      requires Valid() && Registered(m, registry) && Below(m, done) && Sound(env, busy)
      requires forall k :: k in busy ==> Below(m, k)
      modifies this`slots
      ensures Valid() && Sound(env, busy)
      ensures b == Accepts(env, m, n)
      ensures forall s :: s in slots && slots[s].name in busy ==> s in old(slots) && slots[s] == old(slots)[s]
      decreases m, 1
    {
      match m
      case Simple(test) => b := test(n);
      case IsContext => b := InContext(env.context, n);
      case Scope(leading, one, many) =>
        if !leading && (env.xml || !env.outermost) {
          b := true;
        } else if env.context.One? {
          b := Run(env, one, n, busy);
        } else {
          b := Run(env, many, n, busy);
        }
      case All(ms) =>
        var i := |ms|;
        while i > 0
          invariant 0 <= i <= |ms|
          invariant Valid() && Sound(env, busy)
          invariant forall s :: s in slots && slots[s].name in busy ==> s in old(slots) && slots[s] == old(slots)[s]
          invariant forall k :: i <= k < |ms| ==> Accepts(env, ms[k], n)
        {
          i := i - 1;
          b := Run(env, ms[i], n, busy);
          if !b {
            return;
          }
        }
        b := true;
      case Combinator(r, _, _, _) =>
        if First(r) {
          b := RunFirst(env, m, n, busy);
        } else if env.xml {
          b := RunPlain(env, m, n, busy);
        } else {
          b := RunCached(env, m, n, busy);
        }
    }

    /** Checks the closest stop only. */
    method RunFirst(env: Env, m: Matcher, n: Node, ghost busy: set<nat>) returns (b: bool)
      requires m.Combinator? && Valid() && Registered(m, registry) && Below(m, done) && Sound(env, busy)
      requires forall k :: k in busy ==> Below(m, k)
      modifies this`slots
      ensures Valid() && Sound(env, busy)
      ensures b == WalkFirst(env, m, n)
      ensures forall s :: s in slots && slots[s].name in busy ==> s in old(slots) && slots[s] == old(slots)[s]
      decreases m, 0
    {
      var d := Dir(m.relation);
      var cur := Step(d, n);
      while cur.Some? && !Stops(env.tree, m, cur.value)
        invariant WalkFirst(env, m, n) ==
                  (cur.Some? && if Stops(env.tree, m, cur.value) then Accepts(env, m.inner, cur.value) else WalkFirst(env, m, cur.value))
        decreases if cur.Some? then Rank(d, cur.value) + 1 else 0
      {
        cur := Step(d, cur.value);
      }
      if cur.Some? {
        forall k | k in busy + {done} ensures Below(m.inner, k) {
          BelowMonotone(m.inner, m.name, k);
        }
        b := Run(env, m.inner, cur.value, busy);
      } else {
        b := false;
      }
    }

    /** Checks every stop without recording anything, as for XML. */
    method RunPlain(env: Env, m: Matcher, n: Node, ghost busy: set<nat>) returns (b: bool)
      requires m.Combinator? && Valid() && Registered(m, registry) && Below(m, done) && Sound(env, busy)
      requires forall k :: k in busy ==> Below(m, k)
      modifies this`slots
      ensures Valid() && Sound(env, busy)
      ensures b == WalkAny(env, m, n)
      ensures forall s :: s in slots && slots[s].name in busy ==> s in old(slots) && slots[s] == old(slots)[s]
      decreases m, 0
    {
      forall k | k in busy + {done} ensures Below(m.inner, k) {
        BelowMonotone(m.inner, m.name, k);
      }
      var d := Dir(m.relation);
      var cur := Step(d, n);
      while cur.Some?
        invariant Valid() && Sound(env, busy)
        invariant forall s :: s in slots && slots[s].name in busy ==> s in old(slots) && slots[s] == old(slots)[s]
        invariant WalkAny(env, m, n) ==
                  (cur.Some? && ((Stops(env.tree, m, cur.value) && Accepts(env, m.inner, cur.value)) || WalkAny(env, m, cur.value)))
        decreases if cur.Some? then Rank(d, cur.value) + 1 else 0
      {
        if Stops(env.tree, m, cur.value) {
          b := Run(env, m.inner, cur.value, busy);
          if b {
            return;
          }
        }
        cur := Step(d, cur.value);
      }
      b := false;
    }

    /** Where a cached walk of `m` from some node stands at `cur`: other walks have recorded right
        answers, and the nodes that hold this walk's own cell lie behind it, none of them accepted,
        so that the answer due on each of them is the answer still to be found from `cur`. */
    ghost predicate Walking(env: Env, m: Matcher, cell: Cell, cur: Node, answer: bool, busy: set<nat>)
      reads this, slots.Values, cell
      requires Valid() && m.Combinator?
    {
      && m.name in registry && registry[m.name] == m && cell.name == m.name
      && Sound(env, busy + {m.name})
      && (forall s :: s in slots && slots[s].run == dirruns && slots[s].name == m.name && slots[s] != cell ==> Right(env, s, slots[s]))
      && (forall s :: s in slots && slots[s] == cell ==>
          Due(env, m, s, cur) && cell.result == Some(answer) && (answer || Rank(s.1, s.0) >= Rank(s.1, cur)))
    }

    ghost predicate Due(env: Env, m: Matcher, s: (Node, Direction), cur: Node)
      requires m.Combinator?
    {
      && s.1 == Dir(m.relation) && Stops(env.tree, m, s.0)
      && (Accepts(env, m.inner, s.0) || WalkAny(env, m, s.0)) == WalkAny(env, m, cur)
    }

    /** Once the shared cell holds the answer of the walk, it is right on every node it is on. */
    lemma Settled(env: Env, m: Matcher, cell: Cell, cur: Node, busy: set<nat>)
      requires Valid() && m.Combinator? && Walking(env, m, cell, cur, WalkAny(env, m, cur), busy)
      ensures Sound(env, busy)
    {
      forall s | s in slots && slots[s].run == dirruns && slots[s].name !in busy
        ensures Right(env, s, slots[s])
      {
        if slots[s] == cell {
          assert Due(env, m, s, cur);
        }
      }
    }

    /** Copies the answer recorded on the stop `p` after `cur` to every node behind. */
    method Reuse(env: Env, m: Matcher, cell: Cell, cur: Node, p: Node, ghost busy: set<nat>) returns (b: bool)
      requires m.Combinator? && Valid()
      requires Walking(env, m, cell, cur, false, busy)
      requires Step(Dir(m.relation), cur) == Some(p) && Stops(env.tree, m, p)
      requires (p, Dir(m.relation)) in slots
      requires slots[(p, Dir(m.relation))].run == dirruns && slots[(p, Dir(m.relation))].name == m.name
      modifies cell
      ensures Valid() && b == WalkAny(env, m, cur) && Sound(env, busy)
    {
      var s := (p, Dir(m.relation));
      assert slots[s] != cell by { assert Rank(s.1, p) < Rank(s.1, cur); }
      b := slots[s].result.value;
      cell.result := slots[s].result;
      Settled(env, m, cell, cur, busy);
    }

    /** Records the cell on `p` and runs what `m` combines there. Whatever that run records, it
        leaves the cells that carry the number of `m` where they were. */
    method Record(env: Env, m: Matcher, cell: Cell, p: Node, ghost busy: set<nat>) returns (b: bool)
      requires m.Combinator? && Valid() && Registered(m, registry) && Below(m, done)
      requires cell.run == dirruns && cell.name == m.name && Sound(env, busy + {m.name})
      requires forall k :: k in busy ==> Below(m, k)
      modifies this`slots
      ensures Valid() && Sound(env, busy + {m.name}) && b == Accepts(env, m.inner, p)
      ensures forall s :: s in slots && slots[s].name in busy + {m.name} ==>
                (s == (p, Dir(m.relation)) && slots[s] == cell) || (s in old(slots) && slots[s] == old(slots)[s])
      decreases m, 0, 0
    {
      forall k | k in busy + {m.name, done} ensures Below(m.inner, k) {
        BelowMonotone(m.inner, m.name, k);
      }
      slots := slots[(p, Dir(m.relation)) := cell];
      b := Run(env, m.inner, p, busy + {m.name});
    }

    /** Tries the stop `p` after `cur`, which no earlier walk of `m` in this run has recorded. */
    method Try(env: Env, m: Matcher, cell: Cell, cur: Node, p: Node, ghost busy: set<nat>) returns (b: bool)
      requires m.Combinator? && Valid() && Registered(m, registry) && Below(m, done)
      requires cell.run == dirruns && Walking(env, m, cell, cur, false, busy)
      requires Step(Dir(m.relation), cur) == Some(p) && Stops(env.tree, m, p)
      requires forall k :: k in busy ==> Below(m, k)
      modifies this`slots, cell
      ensures Valid() && forall s :: s in slots && slots[s].name in busy ==> s in old(slots) && slots[s] == old(slots)[s]
      ensures b ==> WalkAny(env, m, cur) && Sound(env, busy)
      ensures !b ==> WalkAny(env, m, cur) == WalkAny(env, m, p) && Walking(env, m, cell, p, false, busy)
      decreases m, 0, 1
    {
      b := Record(env, m, cell, p, busy);
      assert WalkAny(env, m, cur) == (b || WalkAny(env, m, p));
      forall s | s in slots && slots[s].run == dirruns && slots[s].name == m.name && slots[s] != cell
        ensures Right(env, s, slots[s])
      {
        assert old(Right(env, s, slots[s]));
      }
      cell.result := Some(b);
      assert Walking(env, m, cell, if b then cur else p, b, busy);
      if b {
        Settled(env, m, cell, cur, busy);
      }
    }

    /** The stop `p` after `cur`: what an earlier walk has recorded there is the answer, and otherwise it
        is tried. */
    method Visit(env: Env, m: Matcher, cell: Cell, cur: Node, p: Node, ghost busy: set<nat>) returns (done: bool, b: bool)
      requires m.Combinator? && Valid() && Registered(m, registry) && Below(m, this.done)
      requires cell.run == dirruns && Walking(env, m, cell, cur, false, busy)
      requires Step(Dir(m.relation), cur) == Some(p) && Stops(env.tree, m, p)
      requires forall k :: k in busy ==> Below(m, k)
      modifies this`slots, cell
      ensures Valid() && forall s :: s in slots && slots[s].name in busy ==> s in old(slots) && slots[s] == old(slots)[s]
      ensures done ==> b == WalkAny(env, m, cur) && Sound(env, busy)
      ensures !done ==> WalkAny(env, m, cur) == WalkAny(env, m, p) && Walking(env, m, cell, p, false, busy)
      decreases m, 0, 2
    {
      var d := Dir(m.relation);
      if (p, d) in slots && slots[(p, d)].run == dirruns && slots[(p, d)].name == m.name {
        b := Reuse(env, m, cell, cur, p, busy);
        done := true;
      } else {
        b := Try(env, m, cell, cur, p, busy);
        done := b;
      }
    }

    /** Checks every stop, recording one shared cell on each and ending early at a stop that an
        earlier walk of the same combinator in the same run has recorded. */
    method RunCached(env: Env, m: Matcher, n: Node, ghost busy: set<nat>) returns (b: bool)
      requires m.Combinator? && Valid() && Registered(m, registry) && Below(m, done) && Sound(env, busy)
      requires forall k :: k in busy ==> Below(m, k)
      modifies this`slots
      ensures Valid() && Sound(env, busy)
      ensures b == WalkAny(env, m, n)
      ensures forall s :: s in slots && slots[s].name in busy ==> s in old(slots) && slots[s] == old(slots)[s]
      decreases m, 0, 3
    {
      var d := Dir(m.relation);
      var cell := new Cell(dirruns, m.name);
      var cur, next := n, Step(d, n);
      while next.Some?
        invariant next == Step(d, cur) && fresh(cell) && cell.run == dirruns
        invariant Valid() && Walking(env, m, cell, cur, false, busy)
        invariant WalkAny(env, m, n) == WalkAny(env, m, cur)
        invariant forall s :: s in slots && slots[s].name in busy ==> s in old(slots) && slots[s] == old(slots)[s]
        decreases Rank(d, cur)
      {
        var p := next.value;
        if Stops(env.tree, m, p) {
          var done := false;
          done, b := Visit(env, m, cell, cur, p, busy);
          if done {
            return;
          }
        }
        cur, next := p, Step(d, p);
      }
      Settled(env, m, cell, cur, busy);
      b := false;
    }

    /** One run over the candidate elements: those that some matcher accepts, in order. */
    method SuperMatcher(env: Env, matchers: seq<Matcher>, elems: seq<Node>) returns (results: seq<Node>)
      requires Valid()
      requires forall j :: 0 <= j < |matchers| ==> Registered(matchers[j], registry) && Below(matchers[j], done)
      modifies this`slots, this`dirruns
      ensures Valid()
      ensures results == Keep(elems, n => exists j :: 0 <= j < |matchers| && Accepts(env, matchers[j], n))
    {
      dirruns := dirruns + 1;
      results := [];
      ghost var p := n => exists j :: 0 <= j < |matchers| && Accepts(env, matchers[j], n);
      for i := 0 to |elems|
        invariant Valid() && Sound(env, {})
        invariant results == Keep(elems[..i], p)
      {
        var j, found := 0, false;
        while j < |matchers| && !found
          invariant 0 <= j <= |matchers| && Valid() && Sound(env, {})
          invariant found <==> exists k :: 0 <= k < j && Accepts(env, matchers[k], elems[i])
        {
          found := Run(env, matchers[j], elems[i], {});
          j := j + 1;
        }
        if found {
          results := results + [elems[i]];
        }
        assert elems[..i + 1][..i] == elems[..i];
      }
      assert elems[..|elems|] == elems;
    }

    /** Compiles the groups of a selector, last group first, and runs them. */
    method Select(env: Env, groups: seq<seq<Token>>, elems: seq<Node>) returns (results: seq<Node>)
      requires Valid() && WellFormed(env.tree)
      requires forall g :: 0 <= g < |groups| ==> groups[g] != []
      requires forall i :: 0 <= i < |elems| ==> Has(env.tree, elems[i])
      modifies this
      ensures Valid()
      ensures results == Keep(elems, n => exists g :: 0 <= g < |groups| && Selects(env, Parse(groups[g]), n))
    {
      var matchers := [];
      var i := |groups|;
      while i > 0
        invariant 0 <= i <= |groups| && |matchers| == |groups| - i && Valid()
        invariant forall j :: 0 <= j < |matchers| ==> Registered(matchers[j], registry) && Below(matchers[j], done)
        invariant forall j :: 0 <= j < |matchers| ==> Compiles(matchers[j], Parse(groups[|groups| - 1 - j]))
      {
        i := i - 1;
        ghost var reg, names := registry, done;
        var m := MatcherFromTokens(groups[i]);
        forall j | 0 <= j < |matchers| ensures Registered(matchers[j], registry) && Below(matchers[j], done) {
          RegisteredMonotone(matchers[j], reg, registry);
          BelowMonotone(matchers[j], names, done);
        }
        matchers := matchers + [m];
      }
      results := SuperMatcher(env, matchers, elems);
      ghost var p := n => exists j :: 0 <= j < |matchers| && Accepts(env, matchers[j], n);
      ghost var q := n => exists g :: 0 <= g < |groups| && Selects(env, Parse(groups[g]), n);
      forall n | Has(env.tree, n) ensures p(n) == q(n) {
        forall g | 0 <= g < |groups| && Selects(env, Parse(groups[g]), n) ensures p(n) {
          assert Accepts(env, matchers[|groups| - 1 - g], n);
        }
      }
      KeepSame(elems, p, q);
    }
  }

  lemma AcceptsAllSnoc(env: Env, ms: seq<Matcher>, m: Matcher, n: Node)
    ensures AcceptsAll(env, ms + [m], n) <==> AcceptsAll(env, ms, n) && Accepts(env, m, n)
  {
    var longer := ms + [m];
    assert longer[|ms|] == m;
    assert forall k :: 0 <= k < |ms| ==> longer[k] == ms[k];
  }

  lemma ScopeMeans(env: Env, lead: Option<Relation>, i: nat, j: nat, n: Node)
    requires WellFormed(env.tree) && Has(env.tree, n)
    ensures
      var one := Combinator(ImplicitRelation(lead), true, i, IsContext);
      var many := Combinator(ImplicitRelation(lead), true, j, IsContext);
      Accepts(env, Scope(lead.Some?, one, many), n) <==> Anchored(env, lead, n)
  {
    var r := ImplicitRelation(lead);
    var one, many := Combinator(r, true, i, IsContext), Combinator(r, true, j, IsContext);
    CombinatorMeans(env, one, n);
    CombinatorMeans(env, many, n);
    forall x ensures Anchor(env, r, x, n) <==> Related(env.tree, r, x, n) && Stops(env.tree, one, x) && Accepts(env, IsContext, x) {
    }
  }

  // ---------- What the compiler's list of matchers denotes ----------

  ghost predicate Denotes(ms: seq<Matcher>, lead: Option<Relation>, tokens: seq<Token>) {
    forall env: Env, n :: WellFormed(env.tree) && Has(env.tree, n) ==>
      (AcceptsAll(env, ms, n) <==> Selects(env, Body(lead, tokens), n))
  }

  lemma ElementMatcherMeans(env: Env, ms: seq<Matcher>, n: Node)
    requires ms != []
    ensures Accepts(env, ElementMatcher(ms), n) <==> AcceptsAll(env, ms, n)
  {
    if |ms| == 1 {
      assert AcceptsAll(env, ms, n) <==> Accepts(env, ms[0], n);
    }
  }

  lemma DenotesStart(lead: Option<Relation>, i: nat, j: nat)
    ensures
      var one := Combinator(ImplicitRelation(lead), true, i, IsContext);
      var many := Combinator(ImplicitRelation(lead), true, j, IsContext);
      Denotes([Scope(lead.Some?, one, many)], lead, [])
  {
    var one := Combinator(ImplicitRelation(lead), true, i, IsContext);
    var many := Combinator(ImplicitRelation(lead), true, j, IsContext);
    var scope := Scope(lead.Some?, one, many);
    forall env: Env, n | WellFormed(env.tree) && Has(env.tree, n)
      ensures AcceptsAll(env, [scope], n) <==> Selects(env, Body(lead, []), n)
    {
      ScopeMeans(env, lead, i, j, n);
      SelectsStart(env, lead, n);
      ElementMatcherMeans(env, [scope], n);
    }
  }

  lemma DenotesFilter(lead: Option<Relation>, tokens: seq<Token>, ms: seq<Matcher>, test: Node -> bool)
    requires Denotes(ms, lead, tokens)
    ensures Denotes(ms + [Simple(test)], lead, tokens + [Filter(test)])
  {
    forall env: Env, n | WellFormed(env.tree) && Has(env.tree, n)
      ensures AcceptsAll(env, ms + [Simple(test)], n) <==> Selects(env, Body(lead, tokens + [Filter(test)]), n)
    {
      SelectsFilter(env, lead, tokens, test, n);
      AcceptsAllSnoc(env, ms, Simple(test), n);
    }
  }

  lemma DenotesRelative(lead: Option<Relation>, tokens: seq<Token>, ms: seq<Matcher>, r: Relation, name: nat)
    requires ms != [] && Denotes(ms, lead, tokens)
    ensures Denotes([Combinator(r, false, name, ElementMatcher(ms))], lead, tokens + [Relative(r)])
  {
    var m := Combinator(r, false, name, ElementMatcher(ms));
    forall env: Env, n | WellFormed(env.tree) && Has(env.tree, n)
      ensures AcceptsAll(env, [m], n) <==> Selects(env, Body(lead, tokens + [Relative(r)]), n)
    {
      CombinatorMeans(env, m, n);
      SelectsRelative(env, lead, tokens, r, n);
      ElementMatcherMeans(env, [m], n);
      forall x ensures Accepts(env, m.inner, x) <==> AcceptsAll(env, ms, x) {
        ElementMatcherMeans(env, ms, x);
      }
    }
  }

  lemma DenotesMatcher(ms: seq<Matcher>, lead: Option<Relation>, tokens: seq<Token>)
    requires ms != [] && Denotes(ms, lead, tokens)
    ensures Compiles(ElementMatcher(ms), Body(lead, tokens))
  {
    forall env: Env, n
      ensures Accepts(env, ElementMatcher(ms), n) <==> AcceptsAll(env, ms, n) {
      ElementMatcherMeans(env, ms, n);
    }
  }
}
