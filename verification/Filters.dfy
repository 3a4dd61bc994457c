/** The members of a sequence that satisfy a predicate, in order. */
module Filters {

  function Keep<T>(s: seq<T>, p: T -> bool): seq<T> {
    if s == [] then []
    else Keep(s[..|s| - 1], p) + if p(s[|s| - 1]) then [s[|s| - 1]] else []
  }

  lemma {:induction false} KeepConcat<T>(a: seq<T>, b: seq<T>, p: T -> bool)
    ensures Keep(a + b, p) == Keep(a, p) + Keep(b, p)
    decreases |b|
  {
    if b == [] {
      assert a + b == a;
    } else {
      var init, last := b[..|b| - 1], b[|b| - 1];
      KeepConcat(a, init, p);
      assert (a + b)[..|a + b| - 1] == a + init;
      assert (a + b)[|a + b| - 1] == last;
    }
  }

  lemma KeepOne<T>(x: T, p: T -> bool)
    ensures Keep([x], p) == if p(x) then [x] else []
  {
    assert [x][..0] == [];
  }

  lemma KeepHead<T>(s: seq<T>, p: T -> bool)
    requires s != []
    ensures Keep(s, p) == (if p(s[0]) then [s[0]] else []) + Keep(s[1..], p)
  {
    KeepOne(s[0], p);
    KeepConcat([s[0]], s[1..], p);
    assert s == [s[0]] + s[1..];
  }

  lemma {:induction false} KeepMember<T>(s: seq<T>, p: T -> bool, x: T)
    ensures x in Keep(s, p) <==> x in s && p(x)
  {
    if s != [] {
      var init, last := s[..|s| - 1], s[|s| - 1];
      KeepMember(init, p, x);
      assert s == init + [last];
      assert x in s <==> x in init || x == last;
    }
  }

  lemma KeepAt<T>(s: seq<T>, p: T -> bool, i: nat)
    requires i < |Keep(s, p)|
    ensures Keep(s, p)[i] in s && p(Keep(s, p)[i])
  {
    KeepMember(s, p, Keep(s, p)[i]);
  }

  lemma {:induction false} KeepShorter<T>(s: seq<T>, p: T -> bool)
    ensures |Keep(s, p)| <= |s|
  {
    if s != [] {
      KeepShorter(s[..|s| - 1], p);
    }
  }

  lemma {:induction false} KeepAll<T>(s: seq<T>, p: T -> bool)
    requires forall i :: 0 <= i < |s| ==> p(s[i])
    ensures Keep(s, p) == s
  {
    if s != [] {
      KeepAll(s[..|s| - 1], p);
      assert s == s[..|s| - 1] + [s[|s| - 1]];
    }
  }

  lemma {:induction false} KeepNone<T>(s: seq<T>, p: T -> bool)
    requires forall i :: 0 <= i < |s| ==> !p(s[i])
    ensures Keep(s, p) == []
  {
    if s != [] {
      KeepNone(s[..|s| - 1], p);
    }
  }

  lemma {:induction false} KeepSame<T>(s: seq<T>, p: T -> bool, q: T -> bool)
    requires forall i :: 0 <= i < |s| ==> p(s[i]) == q(s[i])
    ensures Keep(s, p) == Keep(s, q)
  {
    if s != [] {
      KeepSame(s[..|s| - 1], p, q);
    }
  }

  /** Two filters may be applied in either order. */
  lemma {:induction false} KeepCommute<T>(s: seq<T>, p: T -> bool, q: T -> bool)
    ensures Keep(Keep(s, p), q) == Keep(Keep(s, q), p)
  {
    if s != [] {
      var init, last := s[..|s| - 1], s[|s| - 1];
      KeepCommute(init, p, q);
      KeepConcat(Keep(init, p), if p(last) then [last] else [], q);
      KeepConcat(Keep(init, q), if q(last) then [last] else [], p);
      KeepOne(last, p);
      KeepOne(last, q);
    }
  }
}
