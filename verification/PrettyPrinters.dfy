/** gdb's commands that enable and disable pretty-printers, and the count they report.

    Printers and subprinters are objects with an `enabled` attribute that may be missing, which counts
    as enabled. The regular expressions of the command are arbitrary tests on names.
 */
module PrettyPrinters {
  import opened Wrappers

  class Subprinter {
    const name: string
    var enabled: Option<bool>

    constructor (name: string, enabled: Option<bool>)
      ensures this.name == name && this.enabled == enabled
    {
      this.name, this.enabled := name, enabled;
    }
  }

  class Printer {
    const name: Option<string>
    const functionName: Option<string>
    const subprinters: Option<seq<Subprinter>>
    var enabled: Option<bool>

    constructor (name: Option<string>, functionName: Option<string>, subprinters: Option<seq<Subprinter>>, enabled: Option<bool>)
      ensures this.name == name && this.functionName == functionName && this.subprinters == subprinters && this.enabled == enabled
    {
      this.name, this.functionName, this.subprinters, this.enabled := name, functionName, subprinters, enabled;
    }
  }

  function Subs(p: Printer): seq<Subprinter> {
    match p.subprinters
    case None => []
    case Some(subs) => subs
  }

  predicate On(attribute: Option<bool>) {
    attribute.None? || attribute.value
  }

  /** The command: which printers, which subprinters (none given means the printers themselves), and
      whether to enable or to disable. */
  datatype Command = Command(name: string -> bool, subname: Option<string -> bool>, flag: bool)

  predicate Picks(c: Command, p: Printer) {
    (p.name.Some? && c.name(p.name.value)) || (p.functionName.Some? && c.name(p.functionName.value))
  }

  // ---------- Settings, as values ----------

  /** What is set on a printer and on each of its subprinters. */
  datatype Setting = Setting(own: Option<bool>, subs: seq<Option<bool>>)

  ghost function SubSettings(subs: seq<Subprinter>): seq<Option<bool>>
    reads subs
  {
    seq(|subs|, k requires 0 <= k < |subs| reads subs => subs[k].enabled)
  }

  ghost function SettingOf(p: Printer): Setting
    reads p, Subs(p)
  {
    Setting(p.enabled, SubSettings(Subs(p)))
  }

  ghost function AllSubs(ps: seq<Printer>): set<Subprinter> {
    set p, s | p in ps && s in Subs(p) :: s
  }

  lemma Member(ps: seq<Printer>, i: nat)
    requires i < |ps|
    ensures ps[i] in ps && forall s :: s in Subs(ps[i]) ==> s in AllSubs(ps)
  {
  }

  ghost predicate Fits(ps: seq<Printer>, ss: seq<Setting>) {
    |ss| == |ps| && forall i :: 0 <= i < |ps| ==> |ss[i].subs| == |Subs(ps[i])|
  }

  ghost function Settings(ps: seq<Printer>): (ss: seq<Setting>)
    reads ps, AllSubs(ps)
    ensures Fits(ps, ss)
  {
    seq(|ps|, i requires 0 <= i < |ps| reads ps, AllSubs(ps) => (Member(ps, i); SettingOf(ps[i])))
  }

  // ---------- Counting, on values ----------

  ghost function Sum(s: seq<nat>): nat {
    if s == [] then 0 else Sum(s[..|s| - 1]) + s[|s| - 1]
  }

  lemma SumNext(s: seq<nat>, i: nat)
    requires i < |s|
    ensures Sum(s[..i + 1]) == Sum(s[..i]) + s[i]
  {
    assert s[..i + 1][..i] == s[..i];
  }

  lemma SumAll(s: seq<nat>, n: nat)
    requires n == |s|
    ensures Sum(s[..n]) == Sum(s) && Sum(s[..0]) == 0
  {
    assert s[..n] == s;
  }

  lemma {:induction false} SumConcat(a: seq<nat>, b: seq<nat>)
    ensures Sum(a + b) == Sum(a) + Sum(b)
    decreases |b|
  {
    if b == [] {
      assert a + b == a;
    } else {
      SumConcat(a, b[..|b| - 1]);
      assert (a + b)[..|a + b| - 1] == a + b[..|b| - 1];
    }
  }

  /** Moving a count by the reported number, up when enabling and down when disabling. */
  ghost predicate Moved(before: nat, after: nat, flag: bool, total: nat) {
    if flag then after == before + total else after + total == before
  }

  /** Moving it by the reported number or more. */
  ghost predicate MovedAtLeast(before: nat, after: nat, flag: bool, total: nat) {
    if flag then after >= before + total else after + total <= before
  }

  /** No count moves the wrong way. */
  ghost predicate Leans(a: seq<nat>, b: seq<nat>, flag: bool) {
    |a| == |b| && forall j :: 0 <= j < |a| ==> MovedAtLeast(a[j], b[j], flag, 0)
  }

  lemma {:induction false} SumLeans(a: seq<nat>, b: seq<nat>, flag: bool)
    requires Leans(a, b, flag)
    ensures MovedAtLeast(Sum(a), Sum(b), flag, 0)
  {
    if a != [] {
      var last := |a| - 1;
      assert MovedAtLeast(a[last], b[last], flag, 0);
      SumLeans(a[..last], b[..last], flag);
    }
  }

  /** One count that moves by so much moves the sum by as much. */
  lemma {:induction false} SumGains(a: seq<nat>, b: seq<nat>, flag: bool, i: nat, t: nat)
    requires Leans(a, b, flag) && i < |a| && MovedAtLeast(a[i], b[i], flag, t)
    ensures MovedAtLeast(Sum(a), Sum(b), flag, t)
  {
    var last := |a| - 1;
    assert MovedAtLeast(a[last], b[last], flag, 0);
    if i < last {
      SumGains(a[..last], b[..last], flag, i, t);
    } else {
      SumLeans(a[..last], b[..last], flag);
    }
  }

  /** The sum moves by just that exactly if nothing else moves. */
  lemma {:induction false} SumExact(a: seq<nat>, b: seq<nat>, flag: bool, i: nat, t: nat)
    requires Leans(a, b, flag) && i < |a| && MovedAtLeast(a[i], b[i], flag, t)
    ensures Moved(Sum(a), Sum(b), flag, t) <==> Moved(a[i], b[i], flag, t) && SameBut(a, b, i)
  {
    var last := |a| - 1;
    var a', b' := a[..last], b[..last];
    assert MovedAtLeast(a[last], b[last], flag, 0);
    if i < last {
      SumExact(a', b', flag, i, t);
      SumGains(a', b', flag, i, t);
      assert SameBut(a, b, i) <==> SameBut(a', b', i) && a[last] == b[last];
    } else {
      SumLeans(a', b', flag);
      SumSame(a', b', flag);
      assert SameBut(a, b, i) <==> a' == b';
    }
  }

  ghost predicate SameBut(a: seq<nat>, b: seq<nat>, i: nat)
    requires |a| == |b|
  {
    forall j :: 0 <= j < |a| && j != i ==> a[j] == b[j]
  }

  lemma {:induction false} SumSame(a: seq<nat>, b: seq<nat>, flag: bool)
    requires Leans(a, b, flag)
    ensures Sum(a) == Sum(b) <==> a == b
  {
    if a != [] {
      var last := |a| - 1;
      assert MovedAtLeast(a[last], b[last], flag, 0);
      var a', b' := a[..last], b[..last];
      SumLeans(a', b', flag);
      SumSame(a', b', flag);
      if a' == b' && a[last] == b[last] {
        assert a == a' + [a[last]];
        assert b == b' + [b[last]];
      }
    }
  }

  ghost function Ones(ss: seq<Option<bool>>): seq<nat> {
    seq(|ss|, k requires 0 <= k < |ss| => if On(ss[k]) then 1 else 0)
  }

  /** How many printers this one stands for are enabled. */
  ghost function Count(p: Printer, s: Setting): nat {
    if !On(s.own) then 0 else if p.subprinters.Some? then Sum(Ones(s.subs)) else 1
  }

  ghost function Counts(ps: seq<Printer>, ss: seq<Setting>): seq<nat>
    requires |ss| == |ps|
  {
    seq(|ps|, i requires 0 <= i < |ps| => Count(ps[i], ss[i]))
  }

  ghost function Enabled(ps: seq<Printer>, ss: seq<Setting>): nat
    requires |ss| == |ps|
  {
    Sum(Counts(ps, ss))
  }

  ghost function Size(p: Printer): nat {
    if p.subprinters.Some? then |Subs(p)| else 1
  }

  ghost function Sizes(ps: seq<Printer>): seq<nat> {
    seq(|ps|, i requires 0 <= i < |ps| => Size(ps[i]))
  }

  // ---------- The command, on values ----------

  /** Treating `p` sets this subprinter. */
  ghost predicate Hits(c: Command, p: Printer, s: Subprinter) {
    Picks(c, p) && c.subname.Some? && s in Subs(p) && c.subname.value(s.name)
  }

  /** What treating `p` makes of `q`: without a name for subprinters it sets `p` itself and leaves
      subprinters alone, with one it sets the subprinters of `p` so named, wherever they occur. */
  ghost function Touched(c: Command, p: Printer, q: Printer, s: Setting): (s': Setting)
    requires |s.subs| == |Subs(q)|
    ensures |s'.subs| == |s.subs|
  {
    Setting(if q == p && Picks(c, p) && c.subname.None? then Some(c.flag) else s.own,
            seq(|s.subs|, k requires 0 <= k < |s.subs| => if Hits(c, p, Subs(q)[k]) then Some(c.flag) else s.subs[k]))
  }

  ghost function TouchedEach(c: Command, p: Printer, qs: seq<Printer>, ss: seq<Setting>): (ss': seq<Setting>)
    requires Fits(qs, ss)
    ensures Fits(qs, ss')
  {
    seq(|qs|, i requires 0 <= i < |qs| => Touched(c, p, qs[i], ss[i]))
  }

  /** What treating one printer after the other makes of all. */
  ghost function TouchedList(c: Command, ps: seq<Printer>, qs: seq<Printer>, ss: seq<Setting>): (ss': seq<Setting>)
    requires Fits(qs, ss)
    ensures Fits(qs, ss')
  {
    if ps == [] then ss
    else TouchedEach(c, ps[|ps| - 1], qs, TouchedList(c, ps[..|ps| - 1], qs, ss))
  }

  lemma {:induction false} TouchedConcat(c: Command, a: seq<Printer>, b: seq<Printer>, qs: seq<Printer>, ss: seq<Setting>)
    requires Fits(qs, ss)
    ensures TouchedList(c, a + b, qs, ss) == TouchedList(c, b, qs, TouchedList(c, a, qs, ss))
    decreases |b|
  {
    if b == [] {
      assert a + b == a;
    } else {
      TouchedConcat(c, a, b[..|b| - 1], qs, ss);
      assert (a + b)[..|a + b| - 1] == a + b[..|b| - 1];
    }
  }

  /** What the command comes to: a printer is set if it is picked where the command looks, and a
      subprinter if it belongs to such a printer and is named. */
  ghost function Final(c: Command, ps: seq<Printer>, q: Printer, s: Setting): Setting
    requires |s.subs| == |Subs(q)|
  {
    Setting(if q in ps && Picks(c, q) && c.subname.None? then Some(c.flag) else s.own,
            seq(|s.subs|, k requires 0 <= k < |s.subs| => if HitBySome(c, ps, Subs(q)[k]) then Some(c.flag) else s.subs[k]))
  }

  ghost predicate HitBySome(c: Command, ps: seq<Printer>, s: Subprinter) {
    exists p :: p in ps && Hits(c, p, s)
  }

  lemma HitBySnoc(c: Command, ps: seq<Printer>, p: Printer, s: Subprinter)
    ensures HitBySome(c, ps + [p], s) <==> HitBySome(c, ps, s) || Hits(c, p, s)
  {
    assert p in ps + [p];
  }

  lemma FinalSnoc(c: Command, ps: seq<Printer>, p: Printer, q: Printer, s: Setting)
    requires |s.subs| == |Subs(q)|
    ensures Final(c, ps + [p], q, s) == Touched(c, p, q, Final(c, ps, q, s))
  {
    forall k | 0 <= k < |s.subs| ensures HitBySome(c, ps + [p], Subs(q)[k]) <==> HitBySome(c, ps, Subs(q)[k]) || Hits(c, p, Subs(q)[k]) {
      HitBySnoc(c, ps, p, Subs(q)[k]);
    }
  }

  lemma FinalNone(c: Command, q: Printer, s: Setting)
    requires |s.subs| == |Subs(q)|
    ensures Final(c, [], q, s) == s
  {
  }

  lemma {:induction false} TouchedIsFinal(c: Command, ps: seq<Printer>, qs: seq<Printer>, ss: seq<Setting>, i: nat)
    requires Fits(qs, ss) && i < |qs|
    ensures TouchedList(c, ps, qs, ss)[i] == Final(c, ps, qs[i], ss[i])
    decreases |ps|
  {
    if ps == [] {
      FinalNone(c, qs[i], ss[i]);
    } else {
      var init, last := ps[..|ps| - 1], ps[|ps| - 1];
      TouchedIsFinal(c, init, qs, ss, i);
      FinalSnoc(c, init, last, qs[i], ss[i]);
      assert ps == init + [last];
    }
  }

  /** The command done twice sets what the command done once sets. */
  lemma TouchedTwice(c: Command, ps: seq<Printer>, qs: seq<Printer>, ss: seq<Setting>)
    requires Fits(qs, ss)
    ensures TouchedList(c, ps, qs, TouchedList(c, ps, qs, ss)) == TouchedList(c, ps, qs, ss)
  {
    var once := TouchedList(c, ps, qs, ss);
    forall i | 0 <= i < |qs| ensures TouchedList(c, ps, qs, once)[i] == once[i] {
      TouchedIsFinal(c, ps, qs, ss, i);
      TouchedIsFinal(c, ps, qs, once, i);
    }
  }

  // ---------- What the number reported has to do with the count ----------

  ghost predicate DistinctSubs(subs: seq<Subprinter>) {
    forall i, j :: 0 <= i < j < |subs| ==> subs[i] != subs[j]
  }

  /** No object occurs twice. */
  ghost predicate Apart(ps: seq<Printer>) {
    && (forall i :: 0 <= i < |ps| ==> DistinctSubs(Subs(ps[i])))
    && forall i, j :: 0 <= i < |ps| && 0 <= j < |ps| && i != j ==> ps[i] != ps[j] && NoCommon(Subs(ps[i]), Subs(ps[j]))
  }

  ghost predicate NoCommon(a: seq<Subprinter>, b: seq<Subprinter>) {
    forall s :: s in a ==> s !in b
  }

  /** The count has moved by the number reported at least, and by just that exactly on one condition. */
  ghost predicate Reported(qs: seq<Printer>, before: seq<Setting>, after: seq<Setting>, flag: bool, total: nat, exact: bool)
    requires |before| == |after| == |qs|
  {
    && MovedAtLeast(Enabled(qs, before), Enabled(qs, after), flag, total)
    && (Moved(Enabled(qs, before), Enabled(qs, after), flag, total) <==> exact)
  }

  lemma ReportedNext(qs: seq<Printer>, a: seq<Setting>, b: seq<Setting>, c: seq<Setting>, flag: bool, total: nat, t: nat, exact: bool, next: bool)
    requires |a| == |b| == |c| == |qs| && Reported(qs, a, b, flag, total, exact) && Reported(qs, b, c, flag, t, next)
    ensures Reported(qs, a, c, flag, total + t, exact && next)
  {
  }

  /** No subprinter that the loop changes is listed twice. */
  ghost predicate OnceEach(subs: seq<Subprinter>, k: nat, subname: string -> bool, flag: bool, ss: seq<Option<bool>>)
    requires |ss| == |subs| && k <= |subs|
  {
    forall i, j :: 0 <= i < k && 0 <= j < |subs| && i != j && subs[i] == subs[j] && subname(subs[i].name) ==> On(ss[i]) == flag
  }

  /** Within the printer treated, nothing that counts changes in two places. */
  ghost predicate OwnSolo(c: Command, p: Printer, s: Setting)
    requires |s.subs| == |Subs(p)|
  {
    Picks(c, p) && c.subname.Some? && On(s.own) ==> OnceEach(Subs(p), |Subs(p)|, c.subname.value, c.flag, s.subs)
  }

  /** Treating `p` moves the count of one place only. */
  ghost predicate Solo(c: Command, p: Printer, qs: seq<Printer>, ss: seq<Setting>)
    requires Fits(qs, ss)
  {
    exists i :: 0 <= i < |qs| && qs[i] == p && OwnSolo(c, p, ss[i]) && SameBut(Counts(qs, ss), Counts(qs, TouchedEach(c, p, qs, ss)), i)
  }

  /** No printer that the command treats moves the count of another place as well: of a second place
      where it is registered, or of another printer that shares a subprinter with it. */
  ghost predicate AllSolo(c: Command, ps: seq<Printer>, qs: seq<Printer>, ss: seq<Setting>)
    requires Fits(qs, ss)
  {
    ps == [] ||
    (AllSolo(c, ps[..|ps| - 1], qs, ss) && Solo(c, ps[|ps| - 1], qs, TouchedList(c, ps[..|ps| - 1], qs, ss)))
  }

  lemma {:induction false} SoloConcat(c: Command, a: seq<Printer>, b: seq<Printer>, qs: seq<Printer>, ss: seq<Setting>)
    requires Fits(qs, ss)
    ensures AllSolo(c, a + b, qs, ss) <==> AllSolo(c, a, qs, ss) && AllSolo(c, b, qs, TouchedList(c, a, qs, ss))
    decreases |b|
  {
    if b == [] {
      assert a + b == a;
    } else {
      var init := b[..|b| - 1];
      SoloConcat(c, a, init, qs, ss);
      TouchedConcat(c, a, init, qs, ss);
      assert (a + b)[..|a + b| - 1] == a + init;
    }
  }

  // ---------- The same, from what is registered beforehand ----------

  /** Equal objects carry equal settings. */
  ghost predicate Agree(qs: seq<Printer>, ss: seq<Setting>)
    requires Fits(qs, ss)
  {
    && (forall i, j :: 0 <= i < |qs| && 0 <= j < |qs| && qs[i] == qs[j] ==> ss[i] == ss[j])
    && forall i, k, j, l :: Place(qs, i, k) && Place(qs, j, l) && Subs(qs[i])[k] == Subs(qs[j])[l] ==> ss[i].subs[k] == ss[j].subs[l]
  }

  /** A subprinter is listed here. */
  ghost predicate Place(qs: seq<Printer>, i: int, k: int) {
    0 <= i < |qs| && 0 <= k < |Subs(qs[i])|
  }

  /** It is listed here by an enabled printer. */
  ghost predicate Live(qs: seq<Printer>, ss: seq<Setting>, i: int, k: int)
    requires Fits(qs, ss)
  {
    Place(qs, i, k) && On(ss[i].own)
  }

  /** The first printer treated that sets this subprinter. */
  ghost function FirstToHit(c: Command, ps: seq<Printer>, s: Subprinter): (p: Option<Printer>)
    ensures p.Some? <==> HitBySome(c, ps, s)
  {
    if ps == [] then None
    else
      var init, last := ps[..|ps| - 1], ps[|ps| - 1];
      var before := FirstToHit(c, init, s);
      assert HitBySome(c, ps, s) <==> HitBySome(c, init, s) || Hits(c, last, s) by {
        HitBySnoc(c, init, last, s);
        assert ps == init + [last];
      }
      if before.Some? then before else if Hits(c, last, s) then Some(last) else None
  }

  lemma FirstToHitSnoc(c: Command, ps: seq<Printer>, p: Printer, s: Subprinter)
    ensures FirstToHit(c, ps + [p], s) == if FirstToHit(c, ps, s).Some? then FirstToHit(c, ps, s) else if Hits(c, p, s) then Some(p) else None
  {
    assert (ps + [p])[..|ps|] == ps;
  }

  lemma FirstToHitOne(c: Command, p: Printer, s: Subprinter)
    ensures FirstToHit(c, [p], s) == (if Hits(c, p, s) then Some(p) else None) && (HitBySome(c, [p], s) <==> Hits(c, p, s))
  {
    FirstToHitSnoc(c, [], p, s);
    assert [] + [p] == [p];
  }

  /** The command changes the subprinter listed here, and it counts here. */
  ghost predicate Due(c: Command, ps: seq<Printer>, qs: seq<Printer>, ss: seq<Setting>, i: int, k: int)
    requires Fits(qs, ss)
  {
    Live(qs, ss, i, k) && HitBySome(c, ps, Subs(qs[i])[k]) && On(ss[i].subs[k]) != c.flag
  }

  /** It counts nowhere else. */
  ghost predicate CountsHereOnly(qs: seq<Printer>, ss: seq<Setting>, i: int, k: int)
    requires Fits(qs, ss) && Place(qs, i, k)
  {
    forall j, l :: Live(qs, ss, j, l) && Subs(qs[j])[l] == Subs(qs[i])[k] ==> j == i && l == k
  }

  /** Setting the printer itself changes nothing that is counted. */
  ghost predicate Idle(c: Command, p: Printer, s: Setting) {
    On(s.own) == c.flag || Count(p, s.(own := Some(true))) == 0
  }

  /** The condition: a printer that is changed, and stands for something enabled, is registered once; a
      subprinter that is changed counts in one place at most, and that is with the printer through which
      the command comes to it first. */
  ghost predicate CountsOnce(c: Command, ps: seq<Printer>, qs: seq<Printer>, ss: seq<Setting>)
    requires Fits(qs, ss)
  {
    if c.subname.None? then
      forall i, j :: 0 <= i < |qs| && 0 <= j < |qs| && i != j && qs[i] == qs[j] && qs[i] in ps && Picks(c, qs[i]) ==> Idle(c, qs[i], ss[i])
    else
      forall i, k :: Due(c, ps, qs, ss, i, k) ==> FirstToHit(c, ps, Subs(qs[i])[k]) == Some(qs[i]) && CountsHereOnly(qs, ss, i, k)
  }

  lemma {:induction false} FirstHas(c: Command, ps: seq<Printer>, s: Subprinter)
    requires FirstToHit(c, ps, s).Some?
    ensures FirstToHit(c, ps, s).value in ps && Hits(c, FirstToHit(c, ps, s).value, s)
  {
    if FirstToHit(c, ps[..|ps| - 1], s).Some? {
      FirstHas(c, ps[..|ps| - 1], s);
    }
  }

  /** Where no object is registered twice, that is so. */
  lemma ApartIsOnce(c: Command, ps: seq<Printer>, qs: seq<Printer>, ss: seq<Setting>)
    requires Fits(qs, ss) && Apart(qs) && forall p :: p in ps ==> p in qs
    ensures CountsOnce(c, ps, qs, ss)
  {
    forall i, k | Due(c, ps, qs, ss, i, k)
      ensures FirstToHit(c, ps, Subs(qs[i])[k]) == Some(qs[i]) && CountsHereOnly(qs, ss, i, k)
    {
      var s := Subs(qs[i])[k];
      FirstHas(c, ps, s);
      var j :| 0 <= j < |qs| && qs[j] == FirstToHit(c, ps, s).value;
      assert i != j ==> NoCommon(Subs(qs[i]), Subs(qs[j]));
      forall j, l | Live(qs, ss, j, l) && Subs(qs[j])[l] == s ensures j == i && l == k {
        assert j != i ==> NoCommon(Subs(qs[i]), Subs(qs[j]));
        assert DistinctSubs(Subs(qs[i]));
      }
    }
  }

  lemma SetCount(c: Command, p: Printer, q: Printer, s: Setting)
    requires |s.subs| == |Subs(q)| && c.subname.None?
    ensures Count(q, Touched(c, p, q, s)) == Count(q, s) <==> (q == p && Picks(c, p) ==> Idle(c, q, s))
  {
    assert Touched(c, p, q, s).subs == s.subs;
  }

  lemma HitCount(c: Command, p: Printer, q: Printer, s: Setting)
    requires |s.subs| == |Subs(q)| && c.subname.Some?
    ensures Count(q, Touched(c, p, q, s)) == Count(q, s) <==>
            (On(s.own) ==> forall k :: 0 <= k < |s.subs| && Hits(c, p, Subs(q)[k]) ==> On(s.subs[k]) == c.flag)
  {
    var s' := Touched(c, p, q, s);
    OnesLean(s.subs, s'.subs, c.flag);
    SumSame(Ones(s.subs), Ones(s'.subs), c.flag);
    forall k | 0 <= k < |s.subs| ensures Ones(s.subs)[k] == Ones(s'.subs)[k] <==> (Hits(c, p, Subs(q)[k]) ==> On(s.subs[k]) == c.flag) {
    }
    if forall k :: 0 <= k < |s.subs| && Hits(c, p, Subs(q)[k]) ==> On(s.subs[k]) == c.flag {
      assert Ones(s.subs) == Ones(s'.subs);
    }
  }

  /** One printer treated, without a name for subprinters. */
  lemma SoloSet(c: Command, p: Printer, qs: seq<Printer>, ss: seq<Setting>)
    requires Fits(qs, ss) && Agree(qs, ss) && p in qs && c.subname.None?
    ensures Solo(c, p, qs, ss) <==> CountsOnce(c, [p], qs, ss)
  {
    var a, b := Counts(qs, ss), Counts(qs, TouchedEach(c, p, qs, ss));
    forall j | 0 <= j < |qs| ensures a[j] == b[j] <==> (qs[j] == p && Picks(c, p) ==> Idle(c, qs[j], ss[j])) {
      SetCount(c, p, qs[j], ss[j]);
    }
    var i :| 0 <= i < |qs| && qs[i] == p;
    assert OwnSolo(c, p, ss[i]);
    if CountsOnce(c, [p], qs, ss) {
      assert SameBut(a, b, i);
    }
  }

  lemma DueOne(c: Command, p: Printer, qs: seq<Printer>, ss: seq<Setting>, j: nat, k: nat)
    requires Fits(qs, ss) && Place(qs, j, k)
    ensures Due(c, [p], qs, ss, j, k) <==> On(ss[j].own) && Hits(c, p, Subs(qs[j])[k]) && On(ss[j].subs[k]) != c.flag
  {
    FirstToHitOne(c, p, Subs(qs[j])[k]);
  }

  /** The same with a name: what changes elsewhere. */
  lemma HitAt(c: Command, p: Printer, qs: seq<Printer>, ss: seq<Setting>, j: nat)
    requires Fits(qs, ss) && c.subname.Some? && j < |qs|
    ensures Counts(qs, ss)[j] == Counts(qs, TouchedEach(c, p, qs, ss))[j] <==> forall k :: !Due(c, [p], qs, ss, j, k)
  {
    HitCount(c, p, qs[j], ss[j]);
    forall k | Place(qs, j, k) ensures Due(c, [p], qs, ss, j, k) <==> On(ss[j].own) && Hits(c, p, Subs(qs[j])[k]) && On(ss[j].subs[k]) != c.flag {
      DueOne(c, p, qs, ss, j, k);
    }
  }

  lemma SoloHitOnly(c: Command, p: Printer, qs: seq<Printer>, ss: seq<Setting>, i: int, k: int)
    requires Fits(qs, ss) && Agree(qs, ss) && c.subname.Some? && Solo(c, p, qs, ss) && Due(c, [p], qs, ss, i, k)
    ensures FirstToHit(c, [p], Subs(qs[i])[k]) == Some(qs[i]) && CountsHereOnly(qs, ss, i, k)
  {
    var a, b := Counts(qs, ss), Counts(qs, TouchedEach(c, p, qs, ss));
    var i0 :| 0 <= i0 < |qs| && qs[i0] == p && OwnSolo(c, p, ss[i0]) && SameBut(a, b, i0);
    HitAt(c, p, qs, ss, i);
    assert i == i0;
    FirstToHitOne(c, p, Subs(qs[i])[k]);
    forall j, l | Live(qs, ss, j, l) && Subs(qs[j])[l] == Subs(qs[i])[k] ensures j == i && l == k {
      assert ss[j].subs[l] == ss[i].subs[k];
      HitAt(c, p, qs, ss, j);
      assert Due(c, [p], qs, ss, j, l);
      assert j == i0;
    }
  }

  lemma OnlyHitSolo(c: Command, p: Printer, qs: seq<Printer>, ss: seq<Setting>, i: nat)
    requires Fits(qs, ss) && Agree(qs, ss) && c.subname.Some? && CountsOnce(c, [p], qs, ss) && i < |qs| && qs[i] == p
    requires (forall k :: !Due(c, [p], qs, ss, i, k)) ==> forall j, k :: !Due(c, [p], qs, ss, j, k)
    ensures Solo(c, p, qs, ss)
  {
    var a, b := Counts(qs, ss), Counts(qs, TouchedEach(c, p, qs, ss));
    forall j | 0 <= j < |qs| && j != i ensures a[j] == b[j] {
      HitAt(c, p, qs, ss, j);
      forall k ensures !Due(c, [p], qs, ss, j, k) {
        if Due(c, [p], qs, ss, j, k) {
          FirstToHitOne(c, p, Subs(qs[j])[k]);
          assert qs[j] == p && Live(qs, ss, i, k);
          assert false;
        }
      }
    }
    if Picks(c, p) && On(ss[i].own) {
      forall x, y | 0 <= x < |Subs(p)| && 0 <= y < |Subs(p)| && x != y && Subs(p)[x] == Subs(p)[y] && c.subname.value(Subs(p)[x].name)
        ensures On(ss[i].subs[x]) == c.flag
      {
        DueOne(c, p, qs, ss, i, x);
        assert Live(qs, ss, i, y);
      }
    }
    assert OwnSolo(c, p, ss[i]) && SameBut(a, b, i);
  }

  lemma SoloHit(c: Command, p: Printer, qs: seq<Printer>, ss: seq<Setting>)
    requires Fits(qs, ss) && Agree(qs, ss) && p in qs && c.subname.Some?
    ensures Solo(c, p, qs, ss) <==> CountsOnce(c, [p], qs, ss)
  {
    if Solo(c, p, qs, ss) {
      forall i, k | Due(c, [p], qs, ss, i, k) ensures FirstToHit(c, [p], Subs(qs[i])[k]) == Some(qs[i]) && CountsHereOnly(qs, ss, i, k) {
        SoloHitOnly(c, p, qs, ss, i, k);
      }
    }
    if CountsOnce(c, [p], qs, ss) {
      if i, k :| Due(c, [p], qs, ss, i, k) {
        FirstToHitOne(c, p, Subs(qs[i])[k]);
        OnlyHitSolo(c, p, qs, ss, i);
      } else {
        var i :| 0 <= i < |qs| && qs[i] == p;
        OnlyHitSolo(c, p, qs, ss, i);
      }
    }
  }

  /** Treating printers keeps equal objects alike. */
  lemma StillAgree(c: Command, ps: seq<Printer>, qs: seq<Printer>, ss: seq<Setting>)
    requires Fits(qs, ss) && Agree(qs, ss)
    ensures Agree(qs, TouchedList(c, ps, qs, ss))
  {
    var now := TouchedList(c, ps, qs, ss);
    forall i | 0 <= i < |qs| ensures now[i] == Final(c, ps, qs[i], ss[i]) {
      TouchedIsFinal(c, ps, qs, ss, i);
    }
  }

  lemma OnceSnocSet(c: Command, ps: seq<Printer>, p: Printer, qs: seq<Printer>, ss: seq<Setting>)
    requires Fits(qs, ss) && c.subname.None?
    ensures CountsOnce(c, ps + [p], qs, ss) <==> CountsOnce(c, ps, qs, ss) && CountsOnce(c, [p], qs, TouchedList(c, ps, qs, ss))
  {
    var now := TouchedList(c, ps, qs, ss);
    forall i | 0 <= i < |qs|
      ensures now[i] == if qs[i] in ps && Picks(c, qs[i]) then ss[i].(own := Some(c.flag)) else ss[i]
    {
      TouchedIsFinal(c, ps, qs, ss, i);
      assert Final(c, ps, qs[i], ss[i]).subs == ss[i].subs;
    }
  }

  lemma OnceSnocHit(c: Command, ps: seq<Printer>, p: Printer, qs: seq<Printer>, ss: seq<Setting>)
    requires Fits(qs, ss) && c.subname.Some?
    ensures CountsOnce(c, ps + [p], qs, ss) <==> CountsOnce(c, ps, qs, ss) && CountsOnce(c, [p], qs, TouchedList(c, ps, qs, ss))
  {
    var now := TouchedList(c, ps, qs, ss);
    forall i, k ensures Live(qs, now, i, k) <==> Live(qs, ss, i, k) {
      if Place(qs, i, k) {
        TouchedIsFinal(c, ps, qs, ss, i);
      }
    }
    forall i, k | Place(qs, i, k)
      ensures CountsHereOnly(qs, now, i, k) <==> CountsHereOnly(qs, ss, i, k)
      ensures Due(c, ps + [p], qs, ss, i, k) <==> Due(c, ps, qs, ss, i, k) || Due(c, [p], qs, now, i, k)
      ensures Due(c, ps, qs, ss, i, k) ==> FirstToHit(c, ps + [p], Subs(qs[i])[k]) == FirstToHit(c, ps, Subs(qs[i])[k])
      ensures Due(c, [p], qs, now, i, k) ==> FirstToHit(c, ps + [p], Subs(qs[i])[k]) == FirstToHit(c, [p], Subs(qs[i])[k])
    {
      var s := Subs(qs[i])[k];
      TouchedIsFinal(c, ps, qs, ss, i);
      FirstToHitSnoc(c, ps, p, s);
      FirstToHitOne(c, p, s);
      HitBySnoc(c, ps, p, s);
    }
  }

  /** The condition is right: it holds exactly if no printer treated moves the count of another place. */
  lemma {:induction false} OnceIsSolo(c: Command, ps: seq<Printer>, qs: seq<Printer>, ss: seq<Setting>)
    requires Fits(qs, ss) && Agree(qs, ss) && forall p :: p in ps ==> p in qs
    ensures CountsOnce(c, ps, qs, ss) <==> AllSolo(c, ps, qs, ss)
    decreases |ps|
  {
    if ps == [] {
      forall i, k ensures !Due(c, ps, qs, ss, i, k) {
      }
    } else {
      var init, last := ps[..|ps| - 1], ps[|ps| - 1];
      var now := TouchedList(c, init, qs, ss);
      assert last in ps && ps == init + [last];
      OnceIsSolo(c, init, qs, ss);
      StillAgree(c, init, qs, ss);
      if c.subname.None? {
        OnceSnocSet(c, init, last, qs, ss);
        SoloSet(c, last, qs, now);
      } else {
        OnceSnocHit(c, init, last, qs, ss);
        SoloHit(c, last, qs, now);
      }
    }
  }

  /** Setting attributes to the flag never moves a count the other way. */
  lemma OnesLean(ss: seq<Option<bool>>, ss': seq<Option<bool>>, flag: bool)
    requires |ss| == |ss'| && forall k :: 0 <= k < |ss| ==> ss'[k] == ss[k] || ss'[k] == Some(flag)
    ensures Leans(Ones(ss), Ones(ss'), flag)
  {
  }

  lemma TouchedLeans(c: Command, p: Printer, q: Printer, s: Setting)
    requires |s.subs| == |Subs(q)|
    ensures MovedAtLeast(Count(q, s), Count(q, Touched(c, p, q, s)), c.flag, 0)
  {
    var s' := Touched(c, p, q, s);
    OnesLean(s.subs, s'.subs, c.flag);
    SumLeans(Ones(s.subs), Ones(s'.subs), c.flag);
  }

  lemma Untouched(c: Command, p: Printer, q: Printer, s: Setting)
    requires |s.subs| == |Subs(q)| && q != p && NoCommon(Subs(q), Subs(p))
    ensures Touched(c, p, q, s) == s
  {
  }

  /** Treating a printer of the list. */
  lemma ReportedEach(c: Command, qs: seq<Printer>, i: nat, ss: seq<Setting>, total: nat)
    requires Fits(qs, ss) && i < |qs|
    requires
      var p := qs[i];
      var before, after := Count(p, ss[i]), Count(p, Touched(c, p, p, ss[i]));
      MovedAtLeast(before, after, c.flag, total) && (Moved(before, after, c.flag, total) <==> OwnSolo(c, p, ss[i]))
    requires forall j :: 0 <= j < |qs| && qs[j] == qs[i] ==> ss[j] == ss[i]
    ensures Reported(qs, ss, TouchedEach(c, qs[i], qs, ss), c.flag, total, Solo(c, qs[i], qs, ss))
  {
    var ss' := TouchedEach(c, qs[i], qs, ss);
    var a, b := Counts(qs, ss), Counts(qs, ss');
    forall j | 0 <= j < |qs| ensures MovedAtLeast(a[j], b[j], c.flag, 0) {
      TouchedLeans(c, qs[i], qs[j], ss[j]);
    }
    SumGains(a, b, c.flag, i, total);
    forall j | 0 <= j < |qs| && qs[j] == qs[i]
      ensures Moved(Sum(a), Sum(b), c.flag, total) <==> OwnSolo(c, qs[i], ss[j]) && SameBut(a, b, j)
    {
      SumExact(a, b, c.flag, j, total);
    }
  }

  // ---------- Subprinters ----------

  /** What the loop over subprinters has made of them when it has treated the first `k`. */
  ghost function SubsAfter(subs: seq<Subprinter>, k: nat, subname: string -> bool, flag: bool, ss: seq<Option<bool>>): seq<Option<bool>>
    requires |ss| == |subs| && k <= |subs|
  {
    seq(|ss|, j requires 0 <= j < |ss| => if subs[j] in subs[..k] && subname(subs[j].name) then Some(flag) else ss[j])
  }

  /** The subprinters that have changed by then. */
  ghost function Changed(subs: seq<Subprinter>, k: nat, subname: string -> bool, flag: bool, ss: seq<Option<bool>>): set<Subprinter>
    requires |ss| == |subs| && k <= |subs|
  {
    set j | 0 <= j < k && subname(subs[j].name) && On(ss[j]) != flag :: subs[j]
  }

  /** The settings of one object are the same wherever it occurs. */
  ghost predicate Coherent(subs: seq<Subprinter>, ss: seq<Option<bool>>) {
    |ss| == |subs| && forall i, j :: 0 <= i < |subs| && 0 <= j < |subs| && subs[i] == subs[j] ==> ss[i] == ss[j]
  }

  /** The number that the loop has come to after `k` subprinters, against the count. */
  ghost predicate SubsReached(subs: seq<Subprinter>, subname: string -> bool, flag: bool, before: seq<Option<bool>>, k: nat, total: nat) {
    && Coherent(subs, before) && k <= |subs| && total == |Changed(subs, k, subname, flag, before)|
    && var now := SubsAfter(subs, k, subname, flag, before);
       && MovedAtLeast(Sum(Ones(before)), Sum(Ones(now)), flag, total)
       && (Moved(Sum(Ones(before)), Sum(Ones(now)), flag, total) <==> OnceEach(subs, k, subname, flag, before))
  }

  lemma SubsReachedNone(subs: seq<Subprinter>, subname: string -> bool, flag: bool, before: seq<Option<bool>>)
    requires Coherent(subs, before)
    ensures SubsReached(subs, subname, flag, before, 0, 0) && SubsAfter(subs, 0, subname, flag, before) == before
  {
    assert SubsAfter(subs, 0, subname, flag, before) == before;
    assert Changed(subs, 0, subname, flag, before) == {};
  }

  lemma SubsAfterNext(subs: seq<Subprinter>, k: nat, subname: string -> bool, flag: bool, ss: seq<Option<bool>>, now': seq<Option<bool>>)
    requires |ss| == |subs| && k < |subs| && |now'| == |subs|
    requires forall j :: 0 <= j < |subs| ==>
               now'[j] == if subs[j] == subs[k] && subname(subs[k].name) then Some(flag) else SubsAfter(subs, k, subname, flag, ss)[j]
    ensures now' == SubsAfter(subs, k + 1, subname, flag, ss)
  {
    assert subs[..k + 1] == subs[..k] + [subs[k]];
  }

  lemma ChangedNext(subs: seq<Subprinter>, k: nat, subname: string -> bool, flag: bool, ss: seq<Option<bool>>)
    requires Coherent(subs, ss) && k < |subs|
    ensures
      var t := if subname(subs[k].name) && On(SubsAfter(subs, k, subname, flag, ss)[k]) != flag then 1 else 0;
      |Changed(subs, k + 1, subname, flag, ss)| == |Changed(subs, k, subname, flag, ss)| + t
  {
    ChangedSnoc(subs, k, subname, flag, ss);
    var now := SubsAfter(subs, k, subname, flag, ss);
    if subs[k] in subs[..k] {
      assert now[k] == if subname(subs[k].name) then Some(flag) else ss[k];
      var j :| 0 <= j < k && subs[j] == subs[k];
      assert ss[j] == ss[k];
      if subname(subs[j].name) && On(ss[j]) != flag {
        ChangedHas(subs, k, subname, flag, ss, j);
        assert Changed(subs, k, subname, flag, ss) + {subs[k]} == Changed(subs, k, subname, flag, ss);
      }
    } else {
      assert now[k] == ss[k];
      ChangedLacks(subs, k, subname, flag, ss);
    }
  }

  lemma ChangedSnoc(subs: seq<Subprinter>, k: nat, subname: string -> bool, flag: bool, ss: seq<Option<bool>>)
    requires |ss| == |subs| && k < |subs|
    ensures Changed(subs, k + 1, subname, flag, ss) ==
            Changed(subs, k, subname, flag, ss) + if subname(subs[k].name) && On(ss[k]) != flag then {subs[k]} else {}
  {
    var changed, changed' := Changed(subs, k, subname, flag, ss), Changed(subs, k + 1, subname, flag, ss);
    if subname(subs[k].name) && On(ss[k]) != flag {
      ChangedHas(subs, k + 1, subname, flag, ss, k);
    }
    forall s ensures s in changed' <==> s in changed || (s == subs[k] && subname(subs[k].name) && On(ss[k]) != flag) {
      if s in changed {
        var j :| 0 <= j < k && subname(subs[j].name) && On(ss[j]) != flag && subs[j] == s;
        ChangedHas(subs, k + 1, subname, flag, ss, j);
      }
      if s in changed' {
        var j :| 0 <= j < k + 1 && subname(subs[j].name) && On(ss[j]) != flag && subs[j] == s;
        if j < k {
          ChangedHas(subs, k, subname, flag, ss, j);
        }
      }
    }
  }

  lemma ChangedHas(subs: seq<Subprinter>, k: nat, subname: string -> bool, flag: bool, ss: seq<Option<bool>>, j: nat)
    requires |ss| == |subs| && j < k <= |subs| && subname(subs[j].name) && On(ss[j]) != flag
    ensures subs[j] in Changed(subs, k, subname, flag, ss)
  {
  }

  lemma ChangedLacks(subs: seq<Subprinter>, k: nat, subname: string -> bool, flag: bool, ss: seq<Option<bool>>)
    requires |ss| == |subs| && k < |subs| && subs[k] !in subs[..k]
    ensures subs[k] !in Changed(subs, k, subname, flag, ss)
  {
    forall j | 0 <= j < k ensures subs[j] != subs[k] {
      assert subs[..k][j] == subs[j];
    }
  }

  lemma SubsReachedNext(subs: seq<Subprinter>, subname: string -> bool, flag: bool,
                        before: seq<Option<bool>>, now: seq<Option<bool>>, k: nat, total: nat, now': seq<Option<bool>>, t: nat)
    requires SubsReached(subs, subname, flag, before, k, total) && k < |subs| && |now'| == |subs|
    requires now == SubsAfter(subs, k, subname, flag, before)
    requires forall j :: 0 <= j < |subs| ==> now'[j] == if subs[j] == subs[k] && subname(subs[k].name) then Some(flag) else now[j]
    requires t == if subname(subs[k].name) && On(now[k]) != flag then 1 else 0
    ensures SubsReached(subs, subname, flag, before, k + 1, total + t) && now' == SubsAfter(subs, k + 1, subname, flag, before)
  {
    SubsAfterNext(subs, k, subname, flag, before, now');
    ChangedNext(subs, k, subname, flag, before);
    OnesLean(now, now', flag);
    SumGains(Ones(now), Ones(now'), flag, k, t);
    SumExact(Ones(now), Ones(now'), flag, k, t);
    OnceNext(subs, subname, flag, before, now, k, now');
  }

  /** The step moves one place only exactly if what it changes is listed nowhere else. */
  lemma OnceNext(subs: seq<Subprinter>, subname: string -> bool, flag: bool,
                 before: seq<Option<bool>>, now: seq<Option<bool>>, k: nat, now': seq<Option<bool>>)
    requires Coherent(subs, before) && k < |subs| && now == SubsAfter(subs, k, subname, flag, before) && |now'| == |subs|
    requires forall j :: 0 <= j < |subs| ==> now'[j] == if subs[j] == subs[k] && subname(subs[k].name) then Some(flag) else now[j]
    ensures OnceEach(subs, k + 1, subname, flag, before) <==> OnceEach(subs, k, subname, flag, before) && SameBut(Ones(now), Ones(now'), k)
  {
    if OnceEach(subs, k, subname, flag, before) && SameBut(Ones(now), Ones(now'), k) {
      forall j | 0 <= j < |subs| && j != k && subs[k] == subs[j] && subname(subs[k].name) ensures On(before[k]) == flag {
        if subs[k] in subs[..k] {
          var i :| 0 <= i < k && subs[..k][i] == subs[k];
          assert subs[i] == subs[k] && before[i] == before[k];
        } else {
          assert Ones(now)[j] == Ones(now')[j] && now[j] == before[j] == before[k];
        }
      }
    }
    if OnceEach(subs, k + 1, subname, flag, before) {
      forall j | 0 <= j < |subs| && j != k ensures Ones(now)[j] == Ones(now')[j] {
        if subs[j] == subs[k] && subname(subs[k].name) {
          assert On(before[k]) == flag && before[j] == before[k];
        }
      }
    }
  }

  lemma SubsStart(subs: seq<Subprinter>, subname: string -> bool, flag: bool)
    ensures SubsReached(subs, subname, flag, SubSettings(subs), 0, 0)
    ensures SubSettings(subs) == SubsAfter(subs, 0, subname, flag, SubSettings(subs))
  {
    SubsReachedNone(subs, subname, flag, SubSettings(subs));
  }

  /** Sets one subprinter, if it is named. */
  method EnableSubAt(subs: seq<Subprinter>, k: nat, subname: string -> bool, flag: bool) returns (total: nat)
    requires k < |subs|
    modifies subs[k]
    ensures forall j :: 0 <= j < |subs| ==>
              SubSettings(subs)[j] == if subs[j] == subs[k] && subname(subs[k].name) then Some(flag) else old(SubSettings(subs)[j])
    ensures total == if subname(subs[k].name) && On(old(SubSettings(subs)[k])) != flag then 1 else 0
  {
    total := 0;
    var s := subs[k];
    if subname(s.name) {
      if On(s.enabled) != flag {
        total := 1;
      }
      s.enabled := Some(flag);
    }
  }

  /** Sets the named subprinters one by one. The number is that of the objects that change: the count
      moves by it, or by more where one of them is listed twice. */
  method EnableSubs(subs: seq<Subprinter>, subname: string -> bool, flag: bool) returns (total: nat)
    modifies subs
    ensures SubSettings(subs) == old(SubsAfter(subs, |subs|, subname, flag, SubSettings(subs)))
    ensures SubsReached(subs, subname, flag, old(SubSettings(subs)), |subs|, total)
  {
    total := 0;
    ghost var before := SubSettings(subs);
    SubsStart(subs, subname, flag);
    for k := 0 to |subs|
      invariant SubSettings(subs) == SubsAfter(subs, k, subname, flag, before)
      invariant SubsReached(subs, subname, flag, before, k, total)
    {
      total := EnableNext(subs, k, subname, flag, total, before);
    }
  }

  method EnableNext(subs: seq<Subprinter>, k: nat, subname: string -> bool, flag: bool, total: nat, ghost before: seq<Option<bool>>) returns (total': nat)
    requires |before| == |subs| && k < |subs| && SubSettings(subs) == SubsAfter(subs, k, subname, flag, before)
    requires SubsReached(subs, subname, flag, before, k, total)
    modifies subs[k]
    ensures SubSettings(subs) == SubsAfter(subs, k + 1, subname, flag, before)
    ensures SubsReached(subs, subname, flag, before, k + 1, total')
  {
    ghost var now := SubSettings(subs);
    var t := EnableSubAt(subs, k, subname, flag);
    SubsReachedNext(subs, subname, flag, before, now, k, total, SubSettings(subs), t);
    total' := total + t;
  }

  /** One subprinter listed twice: one object is enabled, and the count goes up by two. */
  method EnableShared(s: Subprinter, subname: string -> bool) returns (total: nat)
    requires s.enabled == Some(false) && subname(s.name)
    modifies s
    ensures total == 1 && old(Sum(Ones(SubSettings([s, s])))) == 0 && Sum(Ones(SubSettings([s, s]))) == 2
  {
    var subs := [s, s];
    ghost var before := SubSettings(subs);
    assert before == [Some(false), Some(false)];
    total := EnableSubs(subs, subname, true);
    assert Changed(subs, 2, subname, true, before) == {s} by { assert subs[0] in Changed(subs, 2, subname, true, before); }
    assert SubSettings(subs) == [Some(true), Some(true)];
    TwoOnes(Some(false));
    TwoOnes(Some(true));
  }

  lemma TwoOnes(x: Option<bool>)
    ensures Sum(Ones([x, x])) == if On(x) then 2 else 0
  {
    var n := if On(x) then 1 else 0;
    assert Ones([x, x]) == [n, n];
    SumNext([n, n], 0);
    SumNext([n, n], 1);
    SumAll([n, n], 2);
  }

  // ---------- Counting ----------

  /** The counting loop over the subprinters of an enabled printer. */
  method CountEnabledSubs(subs: seq<Subprinter>) returns (n: nat)
    ensures n == Sum(Ones(SubSettings(subs)))
  {
    n := 0;
    ghost var counts := Ones(SubSettings(subs));
    for i := 0 to |subs|
      invariant n == Sum(counts[..i])
    {
      if On(subs[i].enabled) {
        n := n + 1;
      }
      SumNext(counts, i);
    }
    SumAll(counts, |subs|);
  }

  method CountOne(p: Printer) returns (enabled: nat, total: nat)
    ensures enabled == Count(p, SettingOf(p)) && total == Size(p)
  {
    enabled := 0;
    if p.subprinters.Some? {
      if On(p.enabled) {
        enabled := CountEnabledSubs(Subs(p));
      }
      total := |Subs(p)|;
    } else {
      if On(p.enabled) {
        enabled := 1;
      }
      total := 1;
    }
  }

  twostate predicate Same(p: Printer)
    reads p, Subs(p)
  {
    p.enabled == old(p.enabled) && forall k :: 0 <= k < |Subs(p)| ==> Subs(p)[k].enabled == old(Subs(p)[k].enabled)
  }

  twostate predicate SameList(ps: seq<Printer>)
    reads ps, AllSubs(ps)
  {
    forall i :: 0 <= i < |ps| ==> (Member(ps, i); Same(ps[i]))
  }

  twostate lemma PrinterKept(p: Printer)
    requires Same(p)
    ensures SettingOf(p) == old(SettingOf(p))
  {
  }

  twostate lemma ListKept(ps: seq<Printer>)
    requires SameList(ps)
    ensures Settings(ps) == old(Settings(ps))
  {
    forall i | 0 <= i < |ps| ensures SettingOf(ps[i]) == old(SettingOf(ps[i])) {
      assert Same(ps[i]);
      PrinterKept(ps[i]);
    }
  }

  method CountEnabledPrinters(ps: seq<Printer>) returns (enabled: nat, total: nat)
    ensures enabled == Enabled(ps, Settings(ps)) && total == Sum(Sizes(ps))
  {
    enabled, total := 0, 0;
    ghost var ss := Settings(ps);
    ghost var counts, sizes := Counts(ps, ss), Sizes(ps);
    for i := 0 to |ps|
      invariant enabled == Sum(counts[..i]) && total == Sum(sizes[..i]) && Settings(ps) == ss
    {
      label Before:
      var e, t := CountOne(ps[i]);
      ListKept@Before(ps);
      assert ss[i] == SettingOf(ps[i]);
      enabled, total := enabled + e, total + t;
      SumNext(counts, i);
      SumNext(sizes, i);
    }
    SumAll(counts, |ps|);
    SumAll(sizes, |ps|);
  }

  // ---------- Enabling ----------

  /** One printer. Subprinters of a disabled printer are set all the same but not counted. */
  method SetOne(p: Printer, c: Command) returns (total: nat)
    modifies p, Subs(p)
    ensures SettingOf(p) == old(Touched(c, p, p, SettingOf(p)))
    ensures MovedAtLeast(old(Count(p, SettingOf(p))), Count(p, SettingOf(p)), c.flag, total)
    ensures Moved(old(Count(p, SettingOf(p))), Count(p, SettingOf(p)), c.flag, total) <==> old(OwnSolo(c, p, SettingOf(p)))
  {
    total := 0;
    if Picks(c, p) {
      if p.subprinters.Some? {
        if c.subname.None? {
          if On(p.enabled) != c.flag {
            total := CountEnabledSubs(Subs(p));
          }
          p.enabled := Some(c.flag);
          assert SubSettings(Subs(p)) == old(SubSettings(Subs(p)));
        } else {
          var t := EnableSubs(Subs(p), c.subname.value, c.flag);
          assert Subs(p)[..|Subs(p)|] == Subs(p);
          if On(p.enabled) {
            total := t;
          }
        }
      } else if c.subname.None? {
        if On(p.enabled) != c.flag {
          total := 1;
        }
        p.enabled := Some(c.flag);
      }
    }
  }

  /** The same, object by object. */
  method SetObjects(p: Printer, c: Command) returns (total: nat)
    modifies p, Subs(p)
    ensures SettingOf(p) == old(Touched(c, p, p, SettingOf(p)))
    ensures p.enabled == if Picks(c, p) && c.subname.None? then Some(c.flag) else old(p.enabled)
    ensures forall s :: s in Subs(p) ==> s.enabled == if Hits(c, p, s) then Some(c.flag) else old(s.enabled)
    ensures MovedAtLeast(old(Count(p, SettingOf(p))), Count(p, SettingOf(p)), c.flag, total)
    ensures Moved(old(Count(p, SettingOf(p))), Count(p, SettingOf(p)), c.flag, total) <==> old(OwnSolo(c, p, SettingOf(p)))
  {
    total := SetOne(p, c);
    forall s | s in Subs(p) ensures s.enabled == if Hits(c, p, s) then Some(c.flag) else old(s.enabled) {
      var k :| 0 <= k < |Subs(p)| && Subs(p)[k] == s;
      assert SettingOf(p).subs[k] == s.enabled;
    }
  }

  /** One printer, and what that does to a list of printers. */
  method SetAmong(p: Printer, c: Command, ghost qs: seq<Printer>) returns (total: nat)
    modifies p, Subs(p)
    ensures Settings(qs) == old(TouchedEach(c, p, qs, Settings(qs)))
    ensures SettingOf(p) == old(Touched(c, p, p, SettingOf(p)))
    ensures MovedAtLeast(old(Count(p, SettingOf(p))), Count(p, SettingOf(p)), c.flag, total)
    ensures Moved(old(Count(p, SettingOf(p))), Count(p, SettingOf(p)), c.flag, total) <==> old(OwnSolo(c, p, SettingOf(p)))
  {
    total := SetObjects(p, c);
    forall j | 0 <= j < |qs| ensures SettingOf(qs[j]) == old(Touched(c, p, qs[j], SettingOf(qs[j]))) {
    }
  }

  /** One printer, and how the number reported compares with the count over a list it is in. */
  method EnableOne(p: Printer, c: Command, ghost qs: seq<Printer>) returns (total: nat)
    requires p in qs
    modifies p, Subs(p)
    ensures Settings(qs) == old(TouchedEach(c, p, qs, Settings(qs)))
    ensures Reported(qs, old(Settings(qs)), Settings(qs), c.flag, total, old(Solo(c, p, qs, Settings(qs))))
  {
    ghost var ss := Settings(qs);
    ghost var i :| 0 <= i < |qs| && qs[i] == p;
    assert forall j :: 0 <= j < |qs| ==> ss[j] == SettingOf(qs[j]);
    total := SetAmong(p, c, qs);
    ReportedEach(c, qs, i, ss, total);
  }

  /** One list of printers, and what that does to a list of printers that they are in. */
  method EnableList(ps: seq<Printer>, c: Command, ghost qs: seq<Printer>) returns (total: nat)
    requires forall i :: 0 <= i < |ps| ==> ps[i] in qs
    modifies ps, AllSubs(ps)
    ensures ListReached(c, ps, qs, old(Settings(qs)), Settings(qs), |ps|, total)
    ensures Settings(qs) == old(TouchedList(c, ps, qs, Settings(qs)))
    ensures Reported(qs, old(Settings(qs)), Settings(qs), c.flag, total, old(CountsOnce(c, ps, qs, Settings(qs))))
  {
    total := 0;
    ghost var before := Settings(qs);
    ListOnce(ps, c, qs);
    for i := 0 to |ps|
      invariant ListReached(c, ps, qs, before, Settings(qs), i, total)
    {
      ghost var now := Settings(qs);
      Member(ps, i);
      var t := EnableOne(ps[i], c, qs);
      ListReachedNext(c, ps, qs, before, now, i, total, Settings(qs), t);
      total := total + t;
    }
    assert ps[..|ps|] == ps;
  }

  lemma ListOnce(ps: seq<Printer>, c: Command, qs: seq<Printer>)
    requires forall i :: 0 <= i < |ps| ==> ps[i] in qs
    ensures CountsOnce(c, ps, qs, Settings(qs)) <==> AllSolo(c, ps, qs, Settings(qs))
  {
    SettingsAgree(qs);
    OnceIsSolo(c, ps, qs, Settings(qs));
  }

  lemma SettingsAgree(qs: seq<Printer>)
    ensures Agree(qs, Settings(qs))
  {
  }

  /** The loop over printers: what is set by now, and the number reported. */
  ghost predicate ListReached(c: Command, ps: seq<Printer>, qs: seq<Printer>, before: seq<Setting>, now: seq<Setting>, i: nat, total: nat) {
    && i <= |ps| && Fits(qs, before) && now == TouchedList(c, ps[..i], qs, before)
    && Reported(qs, before, now, c.flag, total, AllSolo(c, ps[..i], qs, before))
  }

  lemma ListReachedNext(c: Command, ps: seq<Printer>, qs: seq<Printer>, before: seq<Setting>, now: seq<Setting>, i: nat, total: nat, now': seq<Setting>, t: nat)
    requires ListReached(c, ps, qs, before, now, i, total) && i < |ps|
    requires now' == TouchedEach(c, ps[i], qs, now) && Reported(qs, now, now', c.flag, t, Solo(c, ps[i], qs, now))
    ensures ListReached(c, ps, qs, before, now', i + 1, total + t)
  {
    assert ps[..i + 1][..i] == ps[..i];
    ReportedNext(qs, before, now, now', c.flag, total, t, AllSolo(c, ps[..i], qs, before), Solo(c, ps[i], qs, now));
  }

  /** A disabled subprinter listed first by a disabled printer and then by an enabled one: nothing is
      reported, and the count goes up by one. */
  method EnableHidden(p: Printer, q: Printer, s: Subprinter, c: Command) returns (total: nat)
    requires p != q && p.subprinters == Some([s]) && q.subprinters == Some([s])
    requires p.enabled == Some(false) && q.enabled == Some(true) && s.enabled == Some(false)
    requires c.flag && c.subname.Some? && c.subname.value(s.name) && Picks(c, p)
    modifies p, q, s
    ensures total == 0 && old(Enabled([p, q], Settings([p, q]))) == 0 && Enabled([p, q], Settings([p, q])) == 1
  {
    ghost var before := Settings([p, q]);
    HiddenBefore(p, q, s);
    HiddenFails(p, q, s, c, before);
    HiddenCount(p, q, s, before);
    total := EnableList([p, q], c, [p, q]);
    HiddenAfter(p, q, s, c, before);
    HiddenCount(p, q, s, Settings([p, q]));
  }

  lemma HiddenBefore(p: Printer, q: Printer, s: Subprinter)
    requires Subs(p) == Subs(q) == [s]
    ensures Settings([p, q]) == [Setting(p.enabled, [s.enabled]), Setting(q.enabled, [s.enabled])]
  {
    assert SubSettings([s]) == [s.enabled];
    assert Settings([p, q])[0] == SettingOf(p) && Settings([p, q])[1] == SettingOf(q);
  }

  lemma HiddenAfter(p: Printer, q: Printer, s: Subprinter, c: Command, ss: seq<Setting>)
    requires Subs(p) == Subs(q) == [s] && Fits([p, q], ss)
    requires c.flag && c.subname.Some? && c.subname.value(s.name) && Picks(c, p)
    ensures
      var after := TouchedList(c, [p, q], [p, q], ss);
      after[0].own == ss[0].own && after[1].own == ss[1].own && after[1].subs == [Some(true)]
  {
    TouchedIsFinal(c, [p, q], [p, q], ss, 0);
    TouchedIsFinal(c, [p, q], [p, q], ss, 1);
    assert p in [p, q] && Hits(c, p, s);
    assert HitBySome(c, [p, q], s);
  }

  lemma HiddenFails(p: Printer, q: Printer, s: Subprinter, c: Command, ss: seq<Setting>)
    requires p != q && Subs(p) == Subs(q) == [s] && Fits([p, q], ss)
    requires ss == [Setting(Some(false), [Some(false)]), Setting(Some(true), [Some(false)])]
    requires c.flag && c.subname.Some? && c.subname.value(s.name) && Picks(c, p)
    ensures !CountsOnce(c, [p, q], [p, q], ss)
  {
    FirstToHitOne(c, p, s);
    FirstToHitSnoc(c, [p], q, s);
    assert Hits(c, p, s) && [p] + [q] == [p, q];
    assert FirstToHit(c, [p, q], s) == Some(p);
    assert Due(c, [p, q], [p, q], ss, 1, 0);
  }

  lemma HiddenCount(p: Printer, q: Printer, s: Subprinter, ss: seq<Setting>)
    requires p.subprinters == q.subprinters == Some([s]) && Fits([p, q], ss)
    requires ss[0].own == Some(false) && ss[1].own == Some(true)
    ensures Enabled([p, q], ss) == if On(ss[1].subs[0]) then 1 else 0
  {
    var n := if On(ss[1].subs[0]) then 1 else 0;
    assert Ones(ss[1].subs) == [n];
    SumNext([n], 0);
    SumAll([n], 1);
    assert Counts([p, q], ss) == [0, n];
    SumNext([0, n], 0);
    SumNext([0, n], 1);
    SumAll([0, n], 2);
  }

  // ---------- The whole command ----------

  /** Where printers are registered: "global", "progspace", and each object file by name. */
  datatype Locus = Locus(name: string, printers: seq<Printer>)

  /** The printers of all the loci. */
  ghost function All(loci: seq<Locus>): seq<Printer> {
    if loci == [] then [] else All(loci[..|loci| - 1]) + loci[|loci| - 1].printers
  }

  ghost function Printers(loci: seq<Locus>): set<Printer> {
    set p | p in All(loci)
  }

  /** The printers that the command looks at, in order. */
  ghost function Visited(named: string -> bool, loci: seq<Locus>): seq<Printer> {
    if loci == [] then []
    else
      var l := loci[|loci| - 1];
      Visited(named, loci[..|loci| - 1]) + if named(l.name) then l.printers else []
  }

  lemma {:induction false} InAll(loci: seq<Locus>, k: nat)
    requires k < |loci|
    ensures forall p :: p in loci[k].printers ==> p in All(loci) && p in Printers(loci)
    ensures forall s :: s in AllSubs(loci[k].printers) ==> s in AllSubs(All(loci))
    decreases |loci|
  {
    if k < |loci| - 1 {
      InAll(loci[..|loci| - 1], k);
    }
  }

  lemma VisitedNext(named: string -> bool, loci: seq<Locus>, k: nat)
    requires k < |loci|
    ensures Visited(named, loci[..k + 1]) == Visited(named, loci[..k]) + if named(loci[k].name) then loci[k].printers else []
  {
    assert loci[..k + 1][..k] == loci[..k];
  }

  /** The command sets exactly what it names where it looks. The count of enabled printers moves by the
      number reported at least, and by just that exactly if what it changes counts once, with the
      printer through which the command comes to it. */
  method DoEnable(loci: seq<Locus>, named: string -> bool, c: Command) returns (total: nat)
    modifies Printers(loci), AllSubs(All(loci))
    ensures Settings(All(loci)) == old(TouchedList(c, Visited(named, loci), All(loci), Settings(All(loci))))
    ensures Reported(All(loci), old(Settings(All(loci))), Settings(All(loci)), c.flag, total,
                     old(CountsOnce(c, Visited(named, loci), All(loci), Settings(All(loci)))))
  {
    total := 0;
    ghost var before := Settings(All(loci));
    VisitedOnce(named, loci, c);
    LociReachedNone(c, named, loci, before);
    for k := 0 to |loci|
      invariant LociReached(c, named, loci, before, Settings(All(loci)), k, total)
    {
      if named(loci[k].name) {
        ghost var now := Settings(All(loci));
        InAll(loci, k);
        var t := EnableList(loci[k].printers, c, All(loci));
        LociReachedNext(c, named, loci, before, now, k, total, Settings(All(loci)), t);
        total := total + t;
      } else {
        LociReachedSkip(c, named, loci, before, Settings(All(loci)), k, total);
      }
    }
    assert loci[..|loci|] == loci;
  }

  lemma VisitedOnce(named: string -> bool, loci: seq<Locus>, c: Command)
    ensures
      var qs, ps := All(loci), Visited(named, loci);
      CountsOnce(c, ps, qs, Settings(qs)) <==> AllSolo(c, ps, qs, Settings(qs))
  {
    VisitedInAll(named, loci);
    SettingsAgree(All(loci));
    OnceIsSolo(c, Visited(named, loci), All(loci), Settings(All(loci)));
  }

  lemma ApartVisited(named: string -> bool, loci: seq<Locus>, c: Command, ss: seq<Setting>)
    requires Fits(All(loci), ss)
    ensures Apart(All(loci)) ==> CountsOnce(c, Visited(named, loci), All(loci), ss)
  {
    VisitedInAll(named, loci);
    if Apart(All(loci)) {
      ApartIsOnce(c, Visited(named, loci), All(loci), ss);
    }
  }

  lemma LociReachedNone(c: Command, named: string -> bool, loci: seq<Locus>, before: seq<Setting>)
    requires Fits(All(loci), before)
    ensures LociReached(c, named, loci, before, before, 0, 0)
  {
    assert Visited(named, loci[..0]) == [];
  }

  lemma LociReachedSkip(c: Command, named: string -> bool, loci: seq<Locus>, before: seq<Setting>, now: seq<Setting>, k: nat, total: nat)
    requires LociReached(c, named, loci, before, now, k, total) && k < |loci| && !named(loci[k].name)
    ensures LociReached(c, named, loci, before, now, k + 1, total)
  {
    VisitedNext(named, loci, k);
    assert Visited(named, loci[..k]) + [] == Visited(named, loci[..k]);
  }

  /** The loop over loci: what is set by now, and the number reported. */
  ghost predicate LociReached(c: Command, named: string -> bool, loci: seq<Locus>, before: seq<Setting>, now: seq<Setting>, k: nat, total: nat) {
    && k <= |loci| && Fits(All(loci), before) && now == TouchedList(c, Visited(named, loci[..k]), All(loci), before)
    && Reported(All(loci), before, now, c.flag, total, AllSolo(c, Visited(named, loci[..k]), All(loci), before))
  }

  lemma LociReachedNext(c: Command, named: string -> bool, loci: seq<Locus>, before: seq<Setting>, now: seq<Setting>, k: nat, total: nat, now': seq<Setting>, t: nat)
    requires LociReached(c, named, loci, before, now, k, total) && k < |loci| && named(loci[k].name)
    requires ListReached(c, loci[k].printers, All(loci), now, now', |loci[k].printers|, t)
    ensures LociReached(c, named, loci, before, now', k + 1, total + t)
  {
    var qs, vs, ps := All(loci), Visited(named, loci[..k]), loci[k].printers;
    VisitedNext(named, loci, k);
    assert ps[..|ps|] == ps;
    TouchedConcat(c, vs, ps, qs, before);
    SoloConcat(c, vs, ps, qs, before);
    ReportedNext(qs, before, now, now', c.flag, total, t, AllSolo(c, vs, qs, before), AllSolo(c, ps, qs, now));
  }

  lemma {:induction false} VisitedInAll(named: string -> bool, loci: seq<Locus>)
    ensures forall p :: p in Visited(named, loci) ==> p in All(loci)
  {
    if loci != [] {
      VisitedInAll(named, loci[..|loci| - 1]);
    }
  }

  lemma SettingsConcat(a: seq<Printer>, b: seq<Printer>)
    ensures Settings(a + b) == Settings(a) + Settings(b)
  {
  }

  lemma EnabledConcat(a: seq<Printer>, b: seq<Printer>, ss: seq<Setting>, tt: seq<Setting>)
    requires |ss| == |a| && |tt| == |b|
    ensures Enabled(a + b, ss + tt) == Enabled(a, ss) + Enabled(b, tt)
  {
    SumConcat(Counts(a, ss), Counts(b, tt));
    assert Counts(a + b, ss + tt) == Counts(a, ss) + Counts(b, tt);
  }

  lemma SizesConcat(a: seq<Printer>, b: seq<Printer>)
    ensures Sum(Sizes(a + b)) == Sum(Sizes(a)) + Sum(Sizes(b))
  {
    SumConcat(Sizes(a), Sizes(b));
    assert Sizes(a + b) == Sizes(a) + Sizes(b);
  }

  /** The numbers that the count over all loci comes to. */
  ghost function EnabledIn(loci: seq<Locus>): nat
    reads Printers(loci), AllSubs(All(loci))
  {
    Enabled(All(loci), Settings(All(loci)))
  }

  ghost function SizeOf(loci: seq<Locus>): nat {
    Sum(Sizes(All(loci)))
  }

  lemma NoLoci(loci: seq<Locus>)
    requires loci == []
    ensures EnabledIn(loci) == 0 && SizeOf(loci) == 0
  {
  }

  lemma AllNext(loci: seq<Locus>, k: nat)
    requires k < |loci|
    ensures EnabledIn(loci[..k + 1]) == EnabledIn(loci[..k]) + Enabled(loci[k].printers, Settings(loci[k].printers))
    ensures SizeOf(loci[..k + 1]) == SizeOf(loci[..k]) + Sum(Sizes(loci[k].printers))
  {
    var init, ps := All(loci[..k]), loci[k].printers;
    assert loci[..k + 1][..k] == loci[..k];
    SettingsConcat(init, ps);
    EnabledConcat(init, ps, Settings(init), Settings(ps));
    SizesConcat(init, ps);
  }

  method CountAll(loci: seq<Locus>) returns (enabled: nat, total: nat)
    ensures enabled == EnabledIn(loci) && total == SizeOf(loci)
  {
    enabled, total := 0, 0;
    NoLoci(loci[..0]);
    for k := 0 to |loci|
      invariant enabled == EnabledIn(loci[..k]) && total == SizeOf(loci[..k])
    {
      label Before:
      var e, t := CountEnabledPrinters(loci[k].printers);
      ListKept@Before(All(loci[..k]));
      AllNext(loci, k);
      enabled, total := enabled + e, total + t;
    }
    assert loci[..|loci|] == loci;
  }

  /** A count in the middle of other work: it leaves everything as it was. */
  method CountAgain(loci: seq<Locus>) returns (enabled: nat, total: nat)
    ensures enabled == old(EnabledIn(loci)) && total == SizeOf(loci)
    ensures Settings(All(loci)) == old(Settings(All(loci)))
  {
    enabled, total := CountAll(loci);
    ListKept(All(loci));
  }

  /** A count, the command, another count, and the command once more. The repetition reports 0 and
      changes nothing, and the totals agree. The number reported is at most the difference of the two
      enabled counts, and is that difference exactly if what the command changes counts once, with the
      printer through which it is reached first, as where no object is registered twice. */
  method EnableTwice(loci: seq<Locus>, named: string -> bool, c: Command)
    returns (before: nat, total: nat, after: nat, size: nat, size': nat, again: nat)
    modifies Printers(loci), AllSubs(All(loci))
    ensures MovedAtLeast(before, after, c.flag, total)
    ensures Moved(before, after, c.flag, total) <==> old(CountsOnce(c, Visited(named, loci), All(loci), Settings(All(loci))))
    ensures Apart(All(loci)) ==> Moved(before, after, c.flag, total)
    ensures size == size' && again == 0
    ensures Settings(All(loci)) == old(TouchedList(c, Visited(named, loci), All(loci), Settings(All(loci))))
  {
    ghost var ss := Settings(All(loci));
    before, size := CountAgain(loci);
    total := DoEnable(loci, named, c);
    after, size' := CountAgain(loci);
    TouchedTwice(c, Visited(named, loci), All(loci), ss);
    ApartVisited(named, loci, c, ss);
    again := DoEnable(loci, named, c);
  }
}
