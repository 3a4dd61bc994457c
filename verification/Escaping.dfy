/** Underscore's `escape` and `unescape`: one replacement engine over two tables. */
module Escaping {
  import opened Wrappers

  /** A JavaScript object used as a table: its keys in the order they were set. */
  type Table = seq<(string, string)>

  /** Which alternative of the regular expression `key|key|...` matches at the front of `s`. */
  function Match(table: Table, s: string): Option<nat> {
    MatchFrom(table, s, 0)
  }

  function MatchFrom(table: Table, s: string, k: nat): (i: Option<nat>)
    requires k <= |table|
    ensures i.Some? ==> k <= i.value < |table| && table[i.value].0 <= s && forall j :: k <= j < i.value ==> !(table[j].0 <= s)
    ensures i.None? ==> forall j :: k <= j < |table| ==> !(table[j].0 <= s)
    decreases |table| - k
  {
    if k == |table| then None else if table[k].0 <= s then Some(k) else MatchFrom(table, s, k + 1)
  }

  ghost predicate NonEmptyKeys(table: Table) {
    forall i :: 0 <= i < |table| ==> table[i].0 != ""
  }

  /** `string.replace` with the global expression: leftmost matches, never rescanning. */
  function Replace(table: Table, s: string): string
    requires NonEmptyKeys(table)
    decreases |s|
  {
    if s == "" then ""
    else
      match Match(table, s)
      case Some(i) => table[i].1 + Replace(table, s[|table[i].0|..])
      case None => [s[0]] + Replace(table, s[1..])
  }

  /** `test` with the plain expression. */
  predicate Test(table: Table, s: string)
    decreases |s|
  {
    s != "" && (Match(table, s).Some? || Test(table, s[1..]))
  }

  /** The function that `createEscaper` returns; a missing argument counts as "". */
  function Escaper(table: Table, arg: Option<string>): string
    requires NonEmptyKeys(table)
  {
    var s := match arg case None => "" case Some(x) => x;
    if Test(table, s) then Replace(table, s) else s
  }

  /** The test in front of the replacement never matters. */
  lemma {:induction false} TestIsShortcut(table: Table, s: string)
    requires NonEmptyKeys(table)
    ensures !Test(table, s) ==> Replace(table, s) == s
    decreases |s|
  {
    if s != "" {
      TestIsShortcut(table, s[1..]);
    }
  }

  // ---------- Invert ----------

  predicate HasKey(table: Table, key: string) {
    exists i :: 0 <= i < |table| && table[i].0 == key
  }

  function Assign(table: Table, key: string, value: string): Table {
    if HasKey(table, key) then
      seq(|table|, i requires 0 <= i < |table| => if table[i].0 == key then (key, value) else table[i])
    else table + [(key, value)]
  }

  ghost function Swapped(table: Table): Table {
    seq(|table|, i requires 0 <= i < |table| => (table[i].1, table[i].0))
  }

  ghost predicate DistinctValues(table: Table) {
    forall i, j :: 0 <= i < j < |table| ==> table[i].1 != table[j].1
  }

  ghost predicate DistinctKeys(table: Table) {
    forall i, j :: 0 <= i < j < |table| ==> table[i].0 != table[j].0
  }

  /** The last row of `table` with the value `v` has the key `k`. */
  ghost predicate LastWith(table: Table, v: string, k: string) {
    exists i :: LastAt(table, v, k, i)
  }

  ghost predicate LastAt(table: Table, v: string, k: string, i: int) {
    0 <= i < |table| && table[i] == (k, v) && forall j :: i < j < |table| ==> table[j].1 != v
  }

  ghost predicate LeadsToLast(table: Table, result: Table) {
    forall i :: 0 <= i < |result| ==> LastWith(table, result[i].0, result[i].1)
  }

  /** Every value is a key once, and leads to the last key that had it. */
  ghost predicate Inverts(table: Table, result: Table) {
    DistinctKeys(result) && LeadsToLast(table, result) && forall i :: 0 <= i < |table| ==> HasKey(result, table[i].1)
  }

  lemma LastSnoc(table: Table, row: (string, string), v: string, k: string)
    ensures LastWith(table + [row], v, k) <==> if row.1 == v then row.0 == k else LastWith(table, v, k)
  {
    var longer := table + [row];
    if row.1 == v && row.0 == k {
      assert LastAt(longer, v, k, |table|);
    }
    if row.1 != v && LastWith(table, v, k) {
      var i :| LastAt(table, v, k, i);
      assert LastAt(longer, v, k, i);
    }
    if LastWith(longer, v, k) {
      var i :| LastAt(longer, v, k, i);
      assert longer[|table|] == row;
      if row.1 != v {
        assert forall j :: 0 <= j < |table| ==> longer[j] == table[j];
        assert LastAt(table, v, k, i);
      }
    }
  }

  lemma AssignKeys(table: Table, key: string, value: string)
    requires DistinctKeys(table)
    ensures DistinctKeys(Assign(table, key, value))
    ensures forall k :: HasKey(Assign(table, key, value), k) <==> HasKey(table, k) || k == key
  {
    var table' := Assign(table, key, value);
    assert forall i :: 0 <= i < |table| ==> table'[i].0 == table[i].0;
    forall k | HasKey(table, k) || k == key ensures HasKey(table', k) {
      if HasKey(table, k) {
        var i :| 0 <= i < |table| && table[i].0 == k;
        assert table'[i].0 == k;
      } else {
        assert table'[|table|].0 == k;
      }
    }
  }

  lemma AssignLast(table: Table, result: Table, row: (string, string))
    requires LeadsToLast(table, result)
    ensures LeadsToLast(table + [row], Assign(result, row.1, row.0))
  {
    var result' := Assign(result, row.1, row.0);
    forall i | 0 <= i < |result'| ensures LastWith(table + [row], result'[i].0, result'[i].1) {
      LastSnoc(table, row, result'[i].0, result'[i].1);
      if i < |result| && result[i].0 != row.1 {
        assert result'[i] == result[i];
      }
    }
  }

  lemma AssignInverts(table: Table, result: Table, row: (string, string))
    requires Inverts(table, result)
    ensures Inverts(table + [row], Assign(result, row.1, row.0))
  {
    AssignKeys(result, row.1, row.0);
    AssignLast(table, result, row);
  }

  lemma AssignSwapped(table: Table, result: Table, row: (string, string))
    requires DistinctValues(table) ==> result == Swapped(table)
    ensures DistinctValues(table + [row]) ==> Assign(result, row.1, row.0) == Swapped(table + [row])
  {
    var longer := table + [row];
    if DistinctValues(longer) {
      assert longer[|table|] == row;
      assert forall j :: 0 <= j < |table| ==> longer[j] == table[j];
      assert forall j :: 0 <= j < |result| ==> result[j].0 == table[j].1;
    }
  }

  /** Where the loop stands when the rows `done` have been read. */
  ghost predicate Inverted(done: Table, result: Table) {
    Inverts(done, result) && (DistinctValues(done) ==> result == Swapped(done))
  }

  lemma InvertedNext(done: Table, result: Table, row: (string, string))
    requires Inverted(done, result)
    ensures Inverted(done + [row], Assign(result, row.1, row.0))
  {
    AssignInverts(done, result, row);
    AssignSwapped(done, result, row);
  }

  /** The keys of a swapped table are the values. */
  lemma InvertedExact(table: Table, result: Table)
    requires Inverted(table, result)
    ensures result == Swapped(table) <==> DistinctValues(table)
  {
    if result == Swapped(table) {
      assert forall i :: 0 <= i < |table| ==> result[i].0 == table[i].1;
    }
  }

  lemma InvertedNone()
    ensures Inverted([], [])
  {
  }

  /** The table with the columns exchanged exactly if no value occurs twice; otherwise the later of
      two keys with the same value wins. */
  method Invert(table: Table) returns (result: Table)
    ensures Inverts(table, result)
    ensures result == Swapped(table) <==> DistinctValues(table)
  {
    result := [];
    InvertedNone();
    for i := 0 to |table|
      invariant Inverted(table[..i], result)
    {
      InvertedNext(table[..i], result, table[i]);
      assert table[..i + 1] == table[..i] + [table[i]];
      result := Assign(result, table[i].1, table[i].0);
    }
    assert table[..|table|] == table;
    InvertedExact(table, result);
  }

  // ---------- HTML entities ----------

  const ESCAPE_MAP: Table :=
    [("&", "&amp;"), ("<", "&lt;"), (">", "&gt;"), ("\"", "&quot;"), ("'", "&#x27;"), ("`", "&#x60;")]

  const UNESCAPE_MAP: Table :=
    [("&amp;", "&"), ("&lt;", "<"), ("&gt;", ">"), ("&quot;", "\""), ("&#x27;", "'"), ("&#x60;", "`")]

  lemma UnescapeMapIsInverse()
    ensures DistinctValues(ESCAPE_MAP) && UNESCAPE_MAP == Swapped(ESCAPE_MAP)
  {
    Codes();
    forall i, j | 0 <= i < j < 6 ensures ESCAPE_MAP[i].1 != ESCAPE_MAP[j].1 {
      Apart(i, j, "");
      assert ESCAPE_MAP[i].1 + "" == ESCAPE_MAP[i].1;
    }
  }

  lemma Codes()
    ensures |ESCAPE_MAP| == |UNESCAPE_MAP| == 6
    ensures NonEmptyKeys(ESCAPE_MAP) && NonEmptyKeys(UNESCAPE_MAP)
    ensures forall i :: 0 <= i < 6 ==> |ESCAPE_MAP[i].0| == 1 && ESCAPE_MAP[i].0 == UNESCAPE_MAP[i].1
    ensures forall i :: 0 <= i < 6 ==> ESCAPE_MAP[i].1 == UNESCAPE_MAP[i].0 && |UNESCAPE_MAP[i].0| >= 4 && UNESCAPE_MAP[i].0[0] == '&'
  {
  }

  /** No entity is a prefix of another one, whatever follows. */
  lemma Apart(i: nat, j: nat, rest: string)
    requires i < 6 && j < 6 && i != j
    ensures !(UNESCAPE_MAP[j].0 <= UNESCAPE_MAP[i].0 + rest)
  {
    var a, b := UNESCAPE_MAP[i].0, UNESCAPE_MAP[j].0;
    assert (a + rest)[1] == a[1] && (a + rest)[3] == a[3];
    assert a[1] != b[1] || a[3] != b[3];
  }

  function Special(c: char): Option<nat> {
    Match(ESCAPE_MAP, [c])
  }

  /** What one character becomes. */
  function Code(c: char): string {
    match Special(c)
    case Some(i) => ESCAPE_MAP[i].1
    case None => [c]
  }

  function Escape(s: string): string {
    Codes();
    Escaper(ESCAPE_MAP, Some(s))
  }

  function Unescape(s: string): string {
    Codes();
    Escaper(UNESCAPE_MAP, Some(s))
  }

  lemma EscapeIsReplace(s: string)
    ensures NonEmptyKeys(ESCAPE_MAP) && NonEmptyKeys(UNESCAPE_MAP)
    ensures Escape(s) == Replace(ESCAPE_MAP, s) && Unescape(s) == Replace(UNESCAPE_MAP, s)
  {
    Codes();
    TestIsShortcut(ESCAPE_MAP, s);
    TestIsShortcut(UNESCAPE_MAP, s);
  }

  lemma MatchFirst(c: char, s: string)
    ensures Match(ESCAPE_MAP, [c] + s) == Special(c)
  {
    Codes();
    assert forall k :: 0 <= k < 6 ==> (ESCAPE_MAP[k].0 <= [c] + s <==> ESCAPE_MAP[k].0 <= [c]);
  }

  /** Escaping works character by character. */
  lemma EscapeCons(c: char, s: string)
    ensures Escape([c] + s) == Code(c) + Escape(s)
  {
    EscapeIsReplace([c] + s);
    EscapeIsReplace(s);
    MatchFirst(c, s);
    assert Special(c).Some? ==> |ESCAPE_MAP[Special(c).value].0| == 1 by { Codes(); }
    assert ([c] + s)[1..] == s;
  }

  /** Unescaping takes the code of a character back to it, whatever follows. */
  lemma UnescapeCode(c: char, rest: string)
    ensures Unescape(Code(c) + rest) == [c] + Unescape(rest)
  {
    var s := Code(c) + rest;
    EscapeIsReplace(s);
    EscapeIsReplace(rest);
    Codes();
    match Special(c)
    case Some(i) =>
      assert ESCAPE_MAP[i].0 == [c];
      forall j | 0 <= j < 6 && j != i ensures !(UNESCAPE_MAP[j].0 <= s) {
        Apart(i, j, rest);
      }
      assert Match(UNESCAPE_MAP, s) == Some(i);
      assert s[|UNESCAPE_MAP[i].0|..] == rest;
    case None =>
      assert c != '&' by { assert ESCAPE_MAP[0].0 == "&"; }
      assert s[0] == c;
      assert Match(UNESCAPE_MAP, s) == None;
      assert s[1..] == rest;
  }

  /** Unescaping undoes escaping, for every string, entities or not. */
  lemma {:induction false} RoundTrip(s: string)
    ensures Unescape(Escape(s)) == s
    decreases |s|
  {
    if s != "" {
      EscapeCons(s[0], s[1..]);
      assert s == [s[0]] + s[1..];
      UnescapeCode(s[0], Escape(s[1..]));
      RoundTrip(s[1..]);
    }
  }

  // ---------- Which strings are escaped ----------

  predicate IsEntityAt(s: string) {
    Match(UNESCAPE_MAP, s).Some?
  }

  /** Every `&` starts an entity, and the other special characters do not occur. */
  predicate WellEscaped(s: string)
    decreases |s|
  {
    s == "" ||
    ((if s[0] == '&' then IsEntityAt(s) else Special(s[0]).None?) && WellEscaped(s[1..]))
  }

  ghost predicate Plain(s: string) {
    forall k :: 0 <= k < |s| ==> s[k] != '&' && Special(s[k]).None?
  }

  lemma {:induction false} PlainPrefix(s: string, rest: string)
    requires Plain(s)
    ensures WellEscaped(s + rest) <==> WellEscaped(rest)
    decreases |s|
  {
    if s == "" {
      assert s + rest == rest;
    } else {
      assert (s + rest)[0] == s[0] && (s + rest)[1..] == s[1..] + rest;
      PlainPrefix(s[1..], rest);
    }
  }

  /** Past its `&`, an entity consists of ordinary characters. */
  lemma PlainTail(i: nat)
    requires i < 6
    ensures Plain(UNESCAPE_MAP[i].0[1..])
  {
    var e := UNESCAPE_MAP[i].0;
    forall k | 1 <= k < |e| ensures e[k] != '&' && Special(e[k]).None? {
      assert e[k] !in {'&', '<', '>', '"', '\'', '`'};
      OrdinaryChar(e[k]);
    }
  }

  lemma OrdinaryChar(c: char)
    requires c !in {'&', '<', '>', '"', '\'', '`'}
    ensures Special(c).None?
  {
    Codes();
    forall j | 0 <= j < 6 ensures !(ESCAPE_MAP[j].0 <= [c]) {
      assert ESCAPE_MAP[j].0[0] in {'&', '<', '>', '"', '\'', '`'};
    }
  }

  lemma AmpersandWellEscaped(e: string, rest: string)
    requires e != "" && e[0] == '&' && Plain(e[1..]) && IsEntityAt(e + rest)
    ensures WellEscaped(e + rest) <==> WellEscaped(rest)
  {
    PlainPrefix(e[1..], rest);
    assert (e + rest)[0] == '&' && (e + rest)[1..] == e[1..] + rest;
  }

  lemma EntityWellEscaped(i: nat, rest: string)
    requires i < 6
    ensures WellEscaped(UNESCAPE_MAP[i].0 + rest) <==> WellEscaped(rest)
  {
    Codes();
    PlainTail(i);
    assert UNESCAPE_MAP[i].0 <= UNESCAPE_MAP[i].0 + rest;
    AmpersandWellEscaped(UNESCAPE_MAP[i].0, rest);
  }

  lemma WellEscapedCode(c: char, rest: string)
    ensures WellEscaped(Code(c) + rest) <==> WellEscaped(rest)
  {
    match Special(c)
    case Some(i) =>
      assert Code(c) == UNESCAPE_MAP[i].0 by { Codes(); }
      EntityWellEscaped(i, rest);
    case None =>
      var s := [c] + rest;
      assert c != '&' by { assert ESCAPE_MAP[0].0 == "&"; }
      assert s[0] == c && s[1..] == rest;
  }

  lemma {:induction false} EscapeIsWellEscaped(s: string)
    ensures WellEscaped(Escape(s))
    decreases |s|
  {
    if s != "" {
      EscapeCons(s[0], s[1..]);
      assert s == [s[0]] + s[1..];
      WellEscapedCode(s[0], Escape(s[1..]));
      EscapeIsWellEscaped(s[1..]);
    }
  }

  lemma SpecialOf(i: nat)
    requires i < 6
    ensures |UNESCAPE_MAP[i].1| == 1 && Special(UNESCAPE_MAP[i].1[0]) == Some(i)
  {
    Codes();
    var c := UNESCAPE_MAP[i].1[0];
    assert forall j :: 0 <= j < i ==> ESCAPE_MAP[j].0[0] != c;
    assert ESCAPE_MAP[i].0 == [c];
  }

  /** A well-escaped string starts with the code of some character. */
  lemma FirstCode(s: string) returns (c: char, rest: string)
    requires WellEscaped(s) && s != ""
    ensures s == Code(c) + rest && |rest| < |s| && WellEscaped(rest)
  {
    if s[0] == '&' {
      var i := Match(UNESCAPE_MAP, s).value;
      SpecialOf(i);
      c, rest := UNESCAPE_MAP[i].1[0], s[|UNESCAPE_MAP[i].0|..];
      assert Code(c) == UNESCAPE_MAP[i].0 && |Code(c)| >= 4 by { Codes(); }
    } else {
      c, rest := s[0], s[1..];
    }
    assert s == Code(c) + rest;
    WellEscapedCode(c, rest);
  }

  /** Escaping undoes unescaping exactly for the strings that escaping produces. */
  lemma {:induction false} ReverseTrip(s: string)
    ensures Escape(Unescape(s)) == s <==> WellEscaped(s)
    decreases |s|
  {
    EscapeIsWellEscaped(Unescape(s));
    if WellEscaped(s) && s != "" {
      var c, rest := FirstCode(s);
      UnescapeCode(c, rest);
      EscapeCons(c, Unescape(rest));
      ReverseTrip(rest);
    }
  }

  /** The shortest string that the two do not return. */
  lemma BareBracket()
    ensures Escape(Unescape("<")) == "&lt;" != "<" && !WellEscaped("<")
  {
    SpecialOf(1);
    assert "<" == ['<'] + "" && UNESCAPE_MAP[1].1[0] == '<';
    Codes();
    assert Match(UNESCAPE_MAP, "<").None?;
    EscapeIsReplace("<");
    EscapeCons('<', "");
    assert Code('<') == "&lt;";
  }
}
