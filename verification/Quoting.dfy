/** The command line that the Lightbox extension sends to a terminal, read back by a POSIX shell. */
module Quoting {
  import opened Wrappers

  // ---------- The extension ----------

  /** The class `\s` of JavaScript regular expressions. */
  predicate IsSpace(c: char) {
    var n := c as int;
    || 0x09 <= n <= 0x0D || n == 0x20 || n == 0xA0 || n == 0x1680 || 0x2000 <= n <= 0x200A
    || n == 0x2028 || n == 0x2029 || n == 0x202F || n == 0x205F || n == 0x3000 || n == 0xFEFF
  }

  predicate NeedsQuotes(c: char) {
    IsSpace(c) || c in "\"'$`\\!*?(){}[]<>|&;#~"
  }

  /** Every single quote ends the quoted part, is escaped, and starts another. */
  function Body(arg: string): string {
    if arg == "" then ""
    else (if arg[0] == '\'' then "'\\''" else [arg[0]]) + Body(arg[1..])
  }

  function QuoteArg(arg: string): string {
    if arg == "" || exists i :: 0 <= i < |arg| && NeedsQuotes(arg[i]) then "'" + Body(arg) + "'" else arg
  }

  function Join(words: seq<string>): string {
    if words == [] then ""
    else if |words| == 1 then words[0]
    else words[0] + " " + Join(words[1..])
  }

  function QuoteAll(args: seq<string>): seq<string> {
    seq(|args|, i requires 0 <= i < |args| => QuoteArg(args[i]))
  }

  predicate IsPath(script: string) {
    || (exists i :: 0 <= i < |script| && (script[i] == '/' || script[i] == '\\'))
    || (|script| >= 3 && script[|script| - 3..] == ".sh")
  }

  /** A script that looks like a path is quoted; anything else is passed on as written. */
  function CommandLine(script: string, args: seq<string>): string {
    Join([if IsPath(script) then QuoteArg(script) else script] + QuoteAll(args))
  }

  // ---------- The shell ----------

  predicate IsBlank(c: char) {
    c == ' ' || c == '\t'
  }

  /** Characters that mean more than themselves outside quotes: operators, the end of the line,
      expansions, patterns, comments and double quotes. */
  predicate IsMeta(c: char) {
    c in "\n\"$`!*?(){}[]<>|&;#~"
  }

  /** Token recognition with the escape character and single quotes of the Shell Command Language,
      sections 2.2.1, 2.2.2 and 2.3. `word` is the token being read, and None as a result says that
      the text is incomplete or means more than a list of words. */
  function Scan(s: string, word: Option<string>, quoted: bool): Option<seq<string>>
    decreases |s|
  {
    var sofar := match word case None => "" case Some(w) => w;
    if s == "" then
      if quoted then None else Some(if word.Some? then [word.value] else [])
    else if quoted then
      if s[0] == '\'' then Scan(s[1..], Some(sofar), false) else Scan(s[1..], Some(sofar + [s[0]]), true)
    else if IsBlank(s[0]) then
      match Scan(s[1..], None, false)
      case None => None
      case Some(rest) => Some(if word.Some? then [word.value] + rest else rest)
    else if s[0] == '\'' then Scan(s[1..], Some(sofar), true)
    else if s[0] == '\\' then
      if |s| == 1 then None
      else if s[1] == '\n' then Scan(s[2..], word, false)
      else Scan(s[2..], Some(sofar + [s[1]]), false)
    else if IsMeta(s[0]) then None
    else Scan(s[1..], Some(sofar + [s[0]]), false)
  }

  function Words(s: string): Option<seq<string>> {
    Scan(s, None, false)
  }

  // ---------- Round trip ----------

  lemma {:induction false} ScanPlain(arg: string, word: string, rest: string)
    requires forall i :: 0 <= i < |arg| ==> !NeedsQuotes(arg[i])
    ensures Scan(arg + rest, Some(word), false) == Scan(rest, Some(word + arg), false)
    decreases |arg|
  {
    if arg == "" {
      assert arg + rest == rest && word + arg == word;
    } else {
      assert !NeedsQuotes(arg[0]);
      assert (arg + rest)[0] == arg[0] && (arg + rest)[1..] == arg[1..] + rest;
      ScanPlain(arg[1..], word + [arg[0]], rest);
      assert word + [arg[0]] + arg[1..] == word + arg;
    }
  }

  lemma {:induction false} ScanBody(arg: string, word: string, rest: string)
    ensures Scan(Body(arg) + "'" + rest, Some(word), true) == Scan(rest, Some(word + arg), false)
    decreases |arg|
  {
    var s := Body(arg) + "'" + rest;
    if arg == "" {
      assert s[0] == '\'' && s[1..] == rest && word + arg == word;
    } else {
      var tail := Body(arg[1..]) + "'" + rest;
      assert word + [arg[0]] + arg[1..] == word + arg;
      if arg[0] == '\'' {
        assert s == "'\\''" + tail;
        ScanEscapedQuote(tail, word);
      } else {
        assert s[0] == arg[0] && s[1..] == tail;
      }
      ScanBody(arg[1..], word + [arg[0]], rest);
    }
  }

  lemma ScanEscapedQuote(tail: string, word: string)
    ensures Scan("'\\''" + tail, Some(word), true) == Scan(tail, Some(word + "'"), true)
  {
    var s := "'\\''" + tail;
    var s1, s2 := "\\''" + tail, "'" + tail;
    assert s[0] == '\'' && s[1..] == s1;
    assert s1[0] == '\\' && s1[1] == '\'' && s1[2..] == s2;
    assert s2[0] == '\'' && s2[1..] == tail;
    assert Scan(s, Some(word), true) == Scan(s1, Some(word), false);
    assert Scan(s1, Some(word), false) == Scan(s2, Some(word + "'"), false);
  }

  /** One argument is read back as one word. */
  lemma ScanArg(arg: string, rest: string)
    ensures Scan(QuoteArg(arg) + rest, None, false) == Scan(rest, Some(arg), false)
  {
    var s := QuoteArg(arg) + rest;
    if arg == "" || exists i :: 0 <= i < |arg| && NeedsQuotes(arg[i]) {
      assert s[0] == '\'' && s[1..] == Body(arg) + "'" + rest;
      ScanBody(arg, "", rest);
      assert "" + arg == arg;
    } else {
      assert s[0] == arg[0] && s[1..] == arg[1..] + rest;
      assert !NeedsQuotes(arg[0]);
      assert "" + [arg[0]] == [arg[0]];
      assert Scan(s, None, false) == Scan(s[1..], Some([arg[0]]), false);
      ScanPlain(arg[1..], [arg[0]], rest);
      assert [arg[0]] + arg[1..] == arg;
    }
  }

  lemma ScanBlank(rest: string, word: string, words: seq<string>)
    requires Words(rest) == Some(words)
    ensures Scan(" " + rest, Some(word), false) == Some([word] + words)
  {
    assert (" " + rest)[0] == ' ' && (" " + rest)[1..] == rest;
  }

  lemma JoinCons(args: seq<string>)
    requires |args| > 1
    ensures Join(QuoteAll(args)) == QuoteArg(args[0]) + (" " + Join(QuoteAll(args[1..])))
  {
    assert QuoteAll(args)[1..] == QuoteAll(args[1..]);
  }

  /** Whatever the arguments are, the shell reads exactly them. */
  lemma {:induction false} RoundTrip(args: seq<string>)
    ensures Words(Join(QuoteAll(args))) == Some(args)
    decreases |args|
  {
    if |args| == 1 {
      ScanArg(args[0], "");
      assert Join(QuoteAll(args)) == QuoteArg(args[0]) + "";
      assert args == [args[0]];
    } else if |args| > 1 {
      var rest := Join(QuoteAll(args[1..]));
      JoinCons(args);
      ScanArg(args[0], " " + rest);
      RoundTrip(args[1..]);
      ScanBlank(rest, args[0], args[1..]);
      assert args == [args[0]] + args[1..];
    }
  }

  function Append(a: Option<seq<string>>, b: Option<seq<string>>): Option<seq<string>> {
    if a.None? || b.None? then None else Some(a.value + b.value)
  }

  /** Text that is complete in itself is read the same with more words after it. */
  lemma {:induction false} ScanThenMore(s: string, word: Option<string>, quoted: bool, more: string)
    requires Scan(s, word, quoted).Some?
    ensures Scan(s + " " + more, word, quoted) == Append(Scan(s, word, quoted), Words(more))
    decreases |s|
  {
    var t := s + " " + more;
    var sofar := match word case None => "" case Some(w) => w;
    if s == "" {
      assert t[0] == ' ' && t[1..] == more;
      assert Words(more).Some? ==> [] + Words(more).value == Words(more).value;
    } else {
      assert t[0] == s[0] && t[1..] == s[1..] + " " + more;
      if quoted {
        ScanThenMore(s[1..], Some(if s[0] == '\'' then sofar else sofar + [s[0]]), s[0] != '\'', more);
      } else if IsBlank(s[0]) {
        ScanThenMore(s[1..], None, false, more);
        assert word.Some? && Words(more).Some? ==>
          [word.value] + (Scan(s[1..], None, false).value + Words(more).value) == [word.value] + Scan(s[1..], None, false).value + Words(more).value;
      } else if s[0] == '\'' {
        ScanThenMore(s[1..], Some(sofar), true, more);
      } else if s[0] == '\\' {
        assert t[1] == s[1] && t[2..] == s[2..] + " " + more;
        ScanThenMore(s[2..], if s[1] == '\n' then word else Some(sofar + [s[1]]), false, more);
      } else {
        ScanThenMore(s[1..], Some(sofar + [s[0]]), false, more);
      }
    }
  }

  /** The command line: a path is one word, other text contributes the words it is read as, and the
      arguments follow unchanged. */
  lemma CommandLineWords(script: string, args: seq<string>)
    ensures IsPath(script) ==> Words(CommandLine(script, args)) == Some([script] + args)
    ensures !IsPath(script) && Words(script).Some? ==> Words(CommandLine(script, args)) == Some(Words(script).value + args)
  {
    RoundTrip(args);
    if IsPath(script) {
      RoundTrip([script] + args);
      assert QuoteAll([script] + args) == [QuoteArg(script)] + QuoteAll(args);
    } else if Words(script).Some? {
      if args == [] {
        assert [script] + QuoteAll(args) == [script];
        assert Words(script).value + args == Words(script).value;
      } else {
        var line := [script] + QuoteAll(args);
        assert line[1..] == QuoteAll(args);
        ScanThenMore(script, None, false, Join(QuoteAll(args)));
      }
    }
  }
}
