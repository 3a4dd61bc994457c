/** jQuery.Callbacks: a list of callbacks that may be changed and fired again by the very callbacks
    it is calling.

    While a list is firing, an `add`, `remove` or `fire` made by a callback never calls back; it only
    changes the list, the queue and the firing index. So any nesting of such calls flattens into a
    sequence of steps: an operation, or the firing loop's move to its next callback. `State` holds the
    variables of the closure, and the functions say what each operation does to them. `Machine` adds
    the record of what has been called, in which the promises are stated.
 */
module Callbacks {
  import opened Wrappers
  import opened Filters

  datatype Options = Options(once: bool, memory: bool, unique: bool, stopOnFalse: bool)

  /** A registered callback. The number tells registrations of the same function apart. */
  datatype Entry<F> = Entry(fn: F, id: nat)

  /** `spent` says that `list` is the empty string rather than an array. */
  datatype State<F, V> = State(
    options: Options, list: seq<Entry<F>>, spent: bool, queue: seq<V>, memory: Option<V>,
    firing: bool, fired: bool, locked: bool, index: int, nextId: nat)

  function Init<F, V>(options: Options): State<F, V> {
    State(options, [], false, [], None, false, false, false, -1, 0)
  }

  predicate Registered<F(==)>(list: seq<Entry<F>>, f: F) {
    exists i :: 0 <= i < |list| && list[i].fn == f
  }

  function Push<F(==), V>(s: State<F, V>, f: F): State<F, V> {
    if s.options.unique && Registered(s.list, f) then s
    else s.(list := s.list + [Entry(f, s.nextId)], nextId := s.nextId + 1)
  }

  function PushAll<F(==), V>(s: State<F, V>, fs: seq<F>): State<F, V>
    decreases |fs|
  {
    if fs == [] then s else Push(PushAll(s, fs[..|fs| - 1]), fs[|fs| - 1])
  }

  /** The list without `f`, in order. */
  function Without<F(==)>(list: seq<Entry<F>>, f: F): seq<Entry<F>> {
    Keep(list, Other(f))
  }

  function Other<F(==)>(f: F): Entry<F> -> bool {
    (e: Entry<F>) => e.fn != f
  }

  /** Removes every registration of `f`; the index keeps pointing at the same callback, or at the
      one before it when that callback itself goes. */
  function Remove<F(==), V>(s: State<F, V>, f: F): State<F, V> {
    s.(list := Without(s.list, f), index := s.index - Gone(s.list, f, UpTo(s.list, s.index)))
  }

  /** How many registrations lie at or before the index. */
  function UpTo<F>(list: seq<Entry<F>>, index: int): nat {
    if index + 1 < 0 then 0 else if index + 1 > |list| then |list| else index + 1
  }

  /** How many of the first `k` registrations are of `f`. */
  function Gone<F(==)>(list: seq<Entry<F>>, f: F, k: nat): int
    requires k <= |list|
  {
    k - |Without(list[..k], f)|
  }

  function RemoveAll<F(==), V>(s: State<F, V>, fs: seq<F>): State<F, V>
    decreases |fs|
  {
    if fs == [] then s else Remove(RemoveAll(s, fs[..|fs| - 1]), fs[|fs| - 1])
  }

  function Empty<F, V>(s: State<F, V>): State<F, V> {
    if s.spent then s else s.(list := [])
  }

  function Disable<F, V>(s: State<F, V>): State<F, V> {
    s.(locked := true, queue := [], list := [], spent := true, memory := None)
  }

  function Lock<F, V>(s: State<F, V>): State<F, V> {
    var t := s.(locked := true, queue := []);
    if s.memory.None? && !s.firing then t.(list := [], spent := true, memory := None) else t
  }

  /** `fire` from its start to its first look at the list. */
  function Start<F, V>(s: State<F, V>): State<F, V>
    requires s.queue != []
  {
    s.(locked := s.locked || s.options.once, fired := true, firing := true,
       memory := Some(s.queue[0]), queue := s.queue[1..])
  }

  /** The tail of `fire`, once nothing is queued. */
  function Finish<F, V>(s: State<F, V>): State<F, V> {
    var memory := if s.options.memory then s.memory else None;
    var t := s.(memory := memory, firing := false);
    if !s.locked then t else t.(list := [], spent := memory.None?)
  }

  /** The end of one pass over the list: on to the next queued value, or out. */
  function Turn<F, V>(s: State<F, V>): State<F, V> {
    var t := s.(index := -1);
    if s.queue != [] then t.(memory := Some(s.queue[0]), queue := s.queue[1..]) else Finish(t)
  }

  /** `add` up to the point where it would fire. */
  function Append<F(==), V>(s: State<F, V>, fs: seq<F>): State<F, V> {
    if s.spent then s
    else if s.memory.Some? && !s.firing then
      PushAll(s.(index := |s.list| - 1, queue := s.queue + [s.memory.value]), fs)
    else PushAll(s, fs)
  }

  // ---------- The machine ----------

  /** One pass over the list with one value: which registrations it was for (those numbered `from`
      on), which it called, in order, and which were registered when it ended. `cut` says that it
      was ended early, by a callback that returned false or by `disable`. */
  datatype Firing<V> = Firing(value: V, from: nat, called: seq<nat>, left: seq<nat>, cut: bool)

  datatype Machine<F, V> = Machine(
    s: State<F, V>, from: nat, called: seq<nat>, started: seq<V>, accepted: seq<V>, history: seq<Firing<V>>)

  datatype Op<F, V> = Add(fns: seq<F>) | RemoveFns(fns: seq<F>) | Fire(value: V) | LockList | DisableList | EmptyList

  /** `Advance` is the loop's next move; `Stop` is that move after a callback returned false. */
  datatype Step<F, V> = Do(op: Op<F, V>) | Advance | Stop

  predicate CanCall<F, V>(s: State<F, V>) {
    s.firing && 0 <= s.index + 1 < |s.list|
  }

  function Ids<F>(list: seq<Entry<F>>): seq<nat> {
    seq(|list|, i requires 0 <= i < |list| => list[i].id)
  }

  function Begin<F, V>(m: Machine<F, V>, s: State<F, V>, from: nat): Machine<F, V>
    requires s.queue != []
  {
    m.(s := Start(s), from := from, called := [], started := m.started + [s.queue[0]],
       accepted := m.accepted + [s.queue[0]])
  }

  /** Ends the pass under way and goes on to the next queued value, if any. */
  function EndPass<F, V>(m: Machine<F, V>, cut: bool): Machine<F, V>
    requires m.started != []
  {
    var value := m.started[|m.started| - 1];
    Machine(Turn(m.s), 0, [], if m.s.queue != [] then m.started + [m.s.queue[0]] else m.started, m.accepted,
            m.history + [Firing(value, m.from, m.called, Ids(m.s.list), cut)])
  }

  function Forget<F, V>(m: Machine<F, V>, s: State<F, V>): Machine<F, V> {
    m.(s := s, accepted := m.started)
  }

  function Operate<F(==), V>(m: Machine<F, V>, op: Op<F, V>): Machine<F, V> {
    match op
    case Add(fs) =>
      var s := Append(m.s, fs);
      if !m.s.spent && m.s.memory.Some? && !m.s.firing then
        assert s.queue == m.s.queue + [m.s.memory.value] by { PushAllKeeps(m.s.(index := |m.s.list| - 1, queue := m.s.queue + [m.s.memory.value]), fs); }
        Begin(m, s, m.s.nextId)
      else m.(s := s)
    case RemoveFns(fs) => m.(s := RemoveAll(m.s, fs))
    case Fire(v) =>
      if m.s.locked then m
      else if m.s.firing then m.(s := m.s.(queue := m.s.queue + [v]), accepted := m.accepted + [v])
      else Begin(m, m.s.(queue := m.s.queue + [v]), 0)
    case LockList => Forget(m, Lock(m.s))
    case DisableList => Forget(m, Disable(m.s))
    case EmptyList => m.(s := Empty(m.s))
  }

  function Move<F(==), V>(m: Machine<F, V>, step: Step<F, V>): Machine<F, V>
    requires step.Do? || (m.s.firing && m.started != [])
  {
    match step
    case Do(op) => Operate(m, op)
    case Advance =>
      if CanCall(m.s) then m.(s := m.s.(index := m.s.index + 1), called := m.called + [m.s.list[m.s.index + 1].id])
      else EndPass(m, m.s.spent)
    case Stop => EndPass(m.(s := m.s.(memory := None, index := |m.s.list|)), true)
  }

  // ---------- What every step keeps ----------

  ghost predicate Increasing(ids: seq<nat>) {
    forall i, j :: 0 <= i < j < |ids| ==> ids[i] < ids[j]
  }

  ghost predicate Numbered<F>(list: seq<Entry<F>>, nextId: nat) {
    && (forall i :: 0 <= i < |list| ==> list[i].id < nextId)
    && forall i, j :: 0 <= i < j < |list| ==> list[i].id < list[j].id
  }

  /** Up to the index, every registration this pass is for has been called; past it, none has, and
      all of them come after everything called. */
  ghost predicate Covered<F>(list: seq<Entry<F>>, index: int, from: nat, called: seq<nat>) {
    && -1 <= index < |list|
    && (forall i :: 0 <= i <= index && list[i].id >= from ==> list[i].id in called)
    && (forall i :: index < i < |list| ==> list[i].id >= from)
    && forall i, c :: index < i < |list| && 0 <= c < |called| ==> called[c] < list[i].id
  }

  /** A completed pass called no registration twice, kept to registration order, and, unless cut
      short, missed none that was still registered at its end. */
  ghost predicate Complete<V>(f: Firing<V>) {
    && Increasing(f.called)
    && (!f.cut ==> forall i :: 0 <= i < |f.left| && f.left[i] >= f.from ==> f.left[i] in f.called)
  }

  ghost predicate Inv<F, V>(m: Machine<F, V>) {
    var s := m.s;
    && Numbered(s.list, s.nextId)
    && (s.spent ==> s.list == [] && s.locked && s.queue == [])
    && (!s.firing ==> s.index == -1 && s.queue == [] && |m.history| == |m.started|)
    && (s.firing ==> |m.history| + 1 == |m.started| && Increasing(m.called) && s.index >= -1 && m.from <= s.nextId)
    && (s.memory.Some? ==> !s.spent)
    && (s.firing ==> forall c :: 0 <= c < |m.called| ==> m.called[c] < s.nextId)
    && (s.firing && !s.spent ==> s.memory == Some(m.started[|m.started| - 1]) && Covered(s.list, s.index, m.from, m.called))
    && m.started + s.queue == m.accepted
    && (forall i :: 0 <= i < |m.history| ==> m.history[i].value == m.started[i] && Complete(m.history[i]))
  }

  /** `t` is `s` with more registrations at the end of its list, numbered after all that were made before. */
  ghost predicate Appended<F, V>(s: State<F, V>, t: State<F, V>) {
    && t == s.(list := t.list, nextId := t.nextId) && t.nextId >= s.nextId
    && s.list <= t.list && (Numbered(s.list, s.nextId) ==> Numbered(t.list, t.nextId))
    && forall i :: |s.list| <= i < |t.list| ==> t.list[i].id >= s.nextId
  }

  lemma PushKeeps<F, V>(s: State<F, V>, t: State<F, V>, f: F)
    requires Appended(s, t)
    ensures Appended(s, t.(list := t.list + [Entry(f, t.nextId)], nextId := t.nextId + 1))
  {
  }

  lemma {:induction false} PushAllKeeps<F, V>(s: State<F, V>, fs: seq<F>)
    ensures Appended(s, PushAll(s, fs))
    decreases |fs|
  {
    if fs != [] {
      PushAllKeeps(s, fs[..|fs| - 1]);
      PushKeeps(s, PushAll(s, fs[..|fs| - 1]), fs[|fs| - 1]);
    }
  }

  lemma {:induction false} WithoutNumbered<F>(list: seq<Entry<F>>, f: F, nextId: nat)
    requires Numbered(list, nextId)
    ensures Numbered(Without(list, f), nextId)
  {
    if list != [] {
      var last := |list| - 1;
      WithoutNumbered(list[..last], f, nextId);
      var w := Without(list[..last], f);
      forall i | 0 <= i < |w| ensures w[i].id < list[last].id {
        KeepAt(list[..last], Other(f), i);
      }
    }
  }

  ghost predicate Behind<F>(a: seq<Entry<F>>, from: nat, called: seq<nat>) {
    forall i :: 0 <= i < |a| && a[i].id >= from ==> a[i].id in called
  }

  ghost predicate Ahead<F>(b: seq<Entry<F>>, from: nat, called: seq<nat>) {
    forall i :: 0 <= i < |b| ==> b[i].id >= from && forall c :: 0 <= c < |called| ==> called[c] < b[i].id
  }

  /** Covering, seen from the two parts of the list. */
  lemma CoveredParts<F>(a: seq<Entry<F>>, b: seq<Entry<F>>, from: nat, called: seq<nat>)
    ensures Covered(a + b, |a| - 1, from, called) <==> Behind(a, from, called) && Ahead(b, from, called)
  {
    var list := a + b;
    assert forall i :: 0 <= i < |a| ==> list[i] == a[i];
    assert forall i :: 0 <= i < |b| ==> list[|a| + i] == b[i];
    assert forall i :: |a| <= i < |list| ==> list[i] == b[i - |a|];
  }

  lemma WithoutParts<F>(a: seq<Entry<F>>, b: seq<Entry<F>>, f: F, from: nat, called: seq<nat>)
    ensures Behind(a, from, called) ==> Behind(Without(a, f), from, called)
    ensures Ahead(b, from, called) ==> Ahead(Without(b, f), from, called)
  {
    forall i | 0 <= i < |Without(a, f)| ensures Without(a, f)[i] in a {
      KeepAt(a, Other(f), i);
    }
    forall i | 0 <= i < |Without(b, f)| ensures Without(b, f)[i] in b {
      KeepAt(b, Other(f), i);
    }
  }

  /** Removing keeps the split of the list at the index. */
  lemma RemoveCovered<F, V>(s: State<F, V>, f: F, from: nat, called: seq<nat>)
    requires Covered(s.list, s.index, from, called)
    ensures Covered(Remove(s, f).list, Remove(s, f).index, from, called)
  {
    var a, b := s.list[..s.index + 1], s.list[s.index + 1..];
    assert s.list == a + b;
    KeepConcat(a, b, Other(f));
    CoveredParts(a, b, from, called);
    WithoutParts(a, b, f, from, called);
    CoveredParts(Without(a, f), Without(b, f), from, called);
  }

  ghost predicate IndexFits<F, V>(s: State<F, V>) {
    -1 <= s.index && (s.index < |s.list| || s.list == [])
  }

  lemma RemoveFits<F, V>(s: State<F, V>, f: F)
    requires IndexFits(s)
    ensures IndexFits(Remove(s, f))
  {
    if s.list != [] {
      var a, b := s.list[..s.index + 1], s.list[s.index + 1..];
      assert s.list == a + b;
      KeepConcat(a, b, Other(f));
      KeepShorter(a, Other(f));
    }
  }

  lemma RemoveOneInv<F, V>(m: Machine<F, V>, f: F)
    requires Inv(m)
    ensures Inv(m.(s := Remove(m.s, f)))
  {
    var s := m.s;
    WithoutNumbered(s.list, f, s.nextId);
    if s.firing && !s.spent {
      RemoveCovered(s, f, m.from, m.called);
    }
  }

  lemma {:induction false} RemoveInv<F, V>(m: Machine<F, V>, fs: seq<F>)
    requires Inv(m)
    ensures Inv(m.(s := RemoveAll(m.s, fs)))
    decreases |fs|
  {
    if fs != [] {
      var init := fs[..|fs| - 1];
      RemoveInv(m, init);
      RemoveOneInv(m.(s := RemoveAll(m.s, init)), fs[|fs| - 1]);
    }
  }

  lemma AppendIdle<F, V>(m: Machine<F, V>, fs: seq<F>)
    requires Inv(m) && !m.s.spent && m.s.memory.Some? && !m.s.firing
    ensures Inv(Operate(m, Add(fs)))
  {
    PushAllKeeps(m.s.(index := |m.s.list| - 1, queue := m.s.queue + [m.s.memory.value]), fs);
  }

  lemma AppendInv<F, V>(m: Machine<F, V>, fs: seq<F>)
    requires Inv(m)
    ensures Inv(Operate(m, Add(fs)))
  {
    if !m.s.spent && m.s.memory.Some? && !m.s.firing {
      AppendIdle(m, fs);
    } else if !m.s.spent {
      PushAllKeeps(m.s, fs);
    }
  }

  lemma EndPassInv<F, V>(m: Machine<F, V>, cut: bool)
    requires Inv(m) && m.s.firing && (m.s.spent ==> cut) && (cut || m.s.index + 1 >= |m.s.list|)
    ensures Inv(EndPass(m, cut))
  {
    var m' := EndPass(m, cut);
    assert m'.started + m'.s.queue == m.started + m.s.queue;
    var f := m'.history[|m.history|];
    if !cut {
      forall i | 0 <= i < |f.left| && f.left[i] >= f.from ensures f.left[i] in f.called {
        assert f.left[i] == m.s.list[i].id;
      }
    }
  }

  lemma StopInv<F, V>(m: Machine<F, V>)
    requires Inv(m) && m.s.firing
    ensures Inv(Move(m, Stop))
  {
    var m' := Move(m, Stop);
    assert m'.started + m'.s.queue == m.started + m.s.queue;
  }

  /** Emptying the list while a pass is past its first callback loses the split at the index; at any
      other time it is harmless. */
  predicate EmptySafe<F, V>(s: State<F, V>) {
    !s.firing || s.spent || s.index == -1
  }

  lemma EmptyInv<F, V>(m: Machine<F, V>)
    requires Inv(m)
    ensures Inv(Operate(m, EmptyList)) <==> EmptySafe(m.s)
  {
  }

  /** Steps that a run may take: the loop moves only while it is running. */
  ghost predicate Allowed<F(!new), V(!new)>(m: Machine<F, V>, step: Step<F, V>) {
    match step
    case Do(op) => op.EmptyList? ==> EmptySafe(m.s)
    case Advance => m.s.firing
    case Stop => m.s.firing && m.s.options.stopOnFalse
  }

  lemma FireInv<F, V>(m: Machine<F, V>, v: V)
    requires Inv(m)
    ensures Inv(Operate(m, Fire(v)))
  {
    assert m.s.firing && !m.s.locked ==> m.started + (m.s.queue + [v]) == m.accepted + [v];
  }

  lemma LockInv<F, V>(m: Machine<F, V>)
    requires Inv(m)
    ensures Inv(Operate(m, LockList)) && Inv(Operate(m, DisableList))
  {
  }

  lemma CallInv<F, V>(m: Machine<F, V>)
    requires Inv(m) && CanCall(m.s)
    ensures Inv(m.(s := m.s.(index := m.s.index + 1), called := m.called + [m.s.list[m.s.index + 1].id]))
  {
    var id := m.s.list[m.s.index + 1].id;
    assert id in m.called + [id];
    assert forall c :: c in m.called ==> c in m.called + [id];
  }

  lemma MoveInv<F(!new), V(!new)>(m: Machine<F, V>, step: Step<F, V>)
    requires Inv(m) && Allowed(m, step)
    ensures Inv(Move(m, step))
  {
    match step
    case Do(Add(fs)) => AppendInv(m, fs);
    case Do(RemoveFns(fs)) => RemoveInv(m, fs);
    case Do(Fire(v)) => FireInv(m, v);
    case Do(LockList) => LockInv(m);
    case Do(DisableList) => LockInv(m);
    case Do(EmptyList) => EmptyInv(m);
    case Advance =>
      if CanCall(m.s) {
        CallInv(m);
      } else {
        EndPassInv(m, m.s.spent);
      }
    case Stop => StopInv(m);
  }

  // ---------- Every run ----------

  ghost predicate Legal<F(!new), V(!new)>(m: Machine<F, V>, steps: seq<Step<F, V>>)
    decreases |steps|
  {
    steps == [] ||
    (Allowed(m, steps[0]) && (m.s.firing ==> m.started != []) && Legal(Move(m, steps[0]), steps[1..]))
  }

  ghost function Run<F(!new), V(!new)>(m: Machine<F, V>, steps: seq<Step<F, V>>): Machine<F, V>
    requires Legal(m, steps)
    decreases |steps|
  {
    if steps == [] then m else Run(Move(m, steps[0]), steps[1..])
  }

  lemma {:induction false} RunInv<F(!new), V(!new)>(m: Machine<F, V>, steps: seq<Step<F, V>>)
    requires Inv(m) && Legal(m, steps)
    ensures Inv(Run(m, steps))
    decreases |steps|
  {
    if steps != [] {
      MoveInv(m, steps[0]);
      RunInv(Move(m, steps[0]), steps[1..]);
    }
  }

  function New<F, V>(options: Options): Machine<F, V> {
    Machine(Init(options), 0, [], [], [], [])
  }

  /** For every run of a new list: each pass is complete, the passes take the accepted values in
      order, and none is left over once the list is idle. */
  lemma EveryRun<F(!new), V(!new)>(options: Options, steps: seq<Step<F, V>>)
    requires Legal(New(options), steps)
    ensures
      var m := Run(New<F, V>(options), steps);
      && (forall i :: 0 <= i < |m.history| ==> Complete(m.history[i]))
      && |m.history| <= |m.accepted|
      && (forall i :: 0 <= i < |m.history| ==> m.history[i].value == m.accepted[i])
      && (!m.s.firing ==> |m.history| == |m.accepted|)
      && (m.s.firing && !m.s.spent ==> Covered(m.s.list, m.s.index, m.from, m.called))
  {
    RunInv(New<F, V>(options), steps);
  }

  /** Emptying at an unsafe moment: if another callback is added then, the pass ends without it. */
  lemma EmptyLoses<F(!new), V(!new)>(m: Machine<F, V>, f: F)
    requires Inv(m) && !EmptySafe(m.s)
    ensures
      var e, steps := Operate(m, EmptyList), [Do(Add([f])), Advance];
      Legal(e, steps) && |m.history| < |Run(e, steps).history| && !Complete(Run(e, steps).history[|m.history|])
  {
    var e := Operate(m, EmptyList);
    var steps: seq<Step<F, V>> := [Do(Add([f])), Advance];
    var m' := Move(e, steps[0]);
    assert PushAll(e.s, [f]) == Push(PushAll(e.s, [f][..0]), f);
    assert m'.s.list == [Entry(f, m.s.nextId)] && !CanCall(m'.s);
    var m'' := Move(m', steps[1]);
    var rest := steps[1..];
    assert rest == [Advance] && rest[1..] == [];
    assert m'.s.firing && m'.started != [];
    assert Legal(m'', []) && Run(m'', []) == m'';
    assert Legal(m', rest) && Run(m', rest) == m'';
    assert Legal(e, steps) && Run(e, steps) == m'';
    var pass := m''.history[|m.history|];
    assert pass.left[0] == m.s.nextId;
    assert m.s.nextId !in m.called;
  }

  ghost predicate AllComplete<F, V>(m: Machine<F, V>) {
    forall i :: 0 <= i < |m.history| ==> Complete(m.history[i])
  }

  /** `empty` is harmless, whatever is done afterwards, exactly when no pass is past its first callback. */
  lemma EmptyExact<F(!new), V(!new)>(m: Machine<F, V>, f: F)
    requires Inv(m)
    ensures (forall steps :: Legal(Operate(m, EmptyList), steps) ==> AllComplete(Run(Operate(m, EmptyList), steps))) <==> EmptySafe(m.s)
  {
    var e := Operate(m, EmptyList);
    if EmptySafe(m.s) {
      EmptyInv(m);
      forall steps | Legal(e, steps) ensures AllComplete(Run(e, steps)) {
        RunInv(e, steps);
      }
    } else {
      EmptyLoses(m, f);
      var steps: seq<Step<F, V>> := [Do(Add([f])), Advance];
      assert Legal(e, steps);
      var history := Run(e, steps).history;
      var i := |m.history|;
      assert i < |history|;
      assert !Complete(history[i]);
      assert !AllComplete(Run(e, steps));
    }
  }

  /** The shortest such run. */
  lemma EmptyMisses()
    ensures
      var options := Options(false, false, false, false);
      var steps: seq<Step<int, int>> := [Do(Add([1])), Do(Fire(0)), Advance, Do(EmptyList), Do(Add([2])), Advance];
      var m := Move(Move(Move(New(options), steps[0]), steps[1]), steps[2]);
      var m' := Operate(Operate(m, EmptyList), Add([2]));
      && !EmptySafe(m.s) && m'.s.list == [Entry(2, 1)] && !CanCall(m'.s)
      && EndPass(m', false).history[0] == Firing(0, 0, [0], [1], false)
      && !Complete(EndPass(m', false).history[0])
  {
    var options := Options(false, false, false, false);
    var start := New<int, int>(options);
    assert PushAll(start.s, [1]) == Push(PushAll(start.s, [1][..0]), 1);
    var m1 := Move(start, Do(Add([1])));
    assert m1.s.list == [Entry(1, 0)];
    var m := Move(Move(m1, Do(Fire(0))), Advance);
    assert m.called == [0];
    var e := Operate(m, EmptyList);
    assert PushAll(e.s, [2]) == Push(PushAll(e.s, [2][..0]), 2);
    var f := EndPass(Operate(e, Add([2])), false).history[0];
    assert f.left[0] == 1;
  }

  // ---------- What the operations are for ----------

  /** `remove` takes away every registration of the functions named, and no other. */
  lemma {:induction false} RemoveAllMembers<F, V>(s: State<F, V>, fs: seq<F>, e: Entry<F>)
    ensures e in RemoveAll(s, fs).list <==> e in s.list && e.fn !in fs
    decreases |fs|
  {
    if fs != [] {
      var init, f := fs[..|fs| - 1], fs[|fs| - 1];
      RemoveAllMembers(s, init, e);
      KeepMember(RemoveAll(s, init).list, Other(f), e);
      assert fs == init + [f];
    }
  }

  ghost predicate NoFunctionTwice<F>(list: seq<Entry<F>>) {
    forall i, j :: 0 <= i < j < |list| ==> list[i].fn != list[j].fn
  }

  lemma RegisteredSnoc<F>(list: seq<Entry<F>>, last: Entry<F>, f: F)
    ensures Registered(list + [last], f) <==> Registered(list, f) || last.fn == f
  {
    var longer := list + [last];
    assert longer[|list|] == last;
    if Registered(list, f) {
      var i :| 0 <= i < |list| && list[i].fn == f;
      assert longer[i].fn == f;
    }
  }

  /** `add` registers the functions named, and no other; with `unique`, none twice. */
  lemma {:induction false} PushAllMembers<F, V>(s: State<F, V>, fs: seq<F>, f: F)
    ensures Registered(PushAll(s, fs).list, f) <==> Registered(s.list, f) || f in fs
    ensures PushAll(s, fs).options == s.options
    ensures s.options.unique && NoFunctionTwice(s.list) ==> NoFunctionTwice(PushAll(s, fs).list)
    decreases |fs|
  {
    if fs != [] {
      var init, g := fs[..|fs| - 1], fs[|fs| - 1];
      PushAllMembers(s, init, f);
      assert fs == init + [g];
      var t := PushAll(s, init);
      RegisteredSnoc(t.list, Entry(g, t.nextId), f);
    }
  }

  /** Unless the list is locked, the value of every `fire` is accepted, at once or in the queue. */
  lemma FireAccepted<F, V>(m: Machine<F, V>, v: V)
    requires Inv(m)
    ensures Operate(m, Fire(v)).accepted == if m.s.locked then m.accepted else m.accepted + [v]
  {
  }

  lemma MoveLocked<F(!new), V(!new)>(m: Machine<F, V>, step: Step<F, V>)
    requires m.s.locked && Allowed(m, step) && (m.s.firing ==> m.started != [])
    ensures Move(m, step).s.locked
  {
    match step
    case Do(Add(fs)) =>
      PushAllKeeps(m.s, fs);
      if m.s.memory.Some? {
        PushAllKeeps(m.s.(index := |m.s.list| - 1, queue := m.s.queue + [m.s.memory.value]), fs);
      }
    case Do(RemoveFns(fs)) => RemoveAllKeeps(m.s, fs);
    case _ =>
  }

  lemma {:induction false} RemoveAllKeeps<F, V>(s: State<F, V>, fs: seq<F>)
    ensures RemoveAll(s, fs) == s.(list := RemoveAll(s, fs).list, index := RemoveAll(s, fs).index)
    decreases |fs|
  {
    if fs != [] {
      RemoveAllKeeps(s, fs[..|fs| - 1]);
    }
  }

  /** A locked list stays locked, and `fire` does nothing to it. */
  lemma {:induction false} StaysLocked<F(!new), V(!new)>(m: Machine<F, V>, steps: seq<Step<F, V>>, v: V)
    requires m.s.locked && Legal(m, steps)
    ensures Run(m, steps).s.locked && Operate(Run(m, steps), Fire(v)) == Run(m, steps)
    decreases |steps|
  {
    if steps != [] {
      MoveLocked(m, steps[0]);
      StaysLocked(Move(m, steps[0]), steps[1..], v);
    }
  }

  ghost predicate AllEqual<V>(values: seq<V>) {
    forall i :: 0 <= i < |values| ==> values[i] == values[0]
  }

  /** A list that fires once: before, nothing is remembered or queued; after, it is locked and
      remembers nothing but the first value. */
  ghost predicate OneValue<F, V>(m: Machine<F, V>) {
    && m.s.options.once && m.s.queue == [] && AllEqual(m.started)
    && (m.started == [] ==> !m.s.firing && m.s.memory.None?)
    && (m.started != [] ==> m.s.locked && (m.s.memory.Some? ==> m.s.memory.value == m.started[0]))
  }

  lemma AddOneValue<F(!new), V(!new)>(m: Machine<F, V>, fs: seq<F>)
    requires OneValue(m)
    ensures OneValue(Operate(m, Add(fs)))
  {
    PushAllKeeps(m.s, fs);
    if m.s.memory.Some? {
      PushAllKeeps(m.s.(index := |m.s.list| - 1, queue := m.s.queue + [m.s.memory.value]), fs);
    }
  }

  lemma EndOneValue<F(!new), V(!new)>(m: Machine<F, V>, cut: bool)
    requires OneValue(m) && m.s.firing && m.started != []
    ensures OneValue(EndPass(m, cut))
  {
  }

  lemma MoveOneValue<F(!new), V(!new)>(m: Machine<F, V>, step: Step<F, V>)
    requires OneValue(m) && Allowed(m, step) && (m.s.firing ==> m.started != [])
    ensures OneValue(Move(m, step))
  {
    match step
    case Do(Add(fs)) => AddOneValue(m, fs);
    case Do(RemoveFns(fs)) => RemoveAllKeeps(m.s, fs);
    case Do(_) =>
    case Advance =>
      if !CanCall(m.s) {
        EndOneValue(m, m.s.spent);
      }
    case Stop => EndOneValue(m.(s := m.s.(memory := None, index := |m.s.list|)), true);
  }

  lemma {:induction false} RunOneValue<F(!new), V(!new)>(m: Machine<F, V>, steps: seq<Step<F, V>>)
    requires OneValue(m) && Legal(m, steps)
    ensures OneValue(Run(m, steps))
    decreases |steps|
  {
    if steps != [] {
      MoveOneValue(m, steps[0]);
      RunOneValue(Move(m, steps[0]), steps[1..]);
    }
  }

  /** With `once`, whatever is done to the list, every pass is made with the first value. */
  lemma OnceRun<F(!new), V(!new)>(options: Options, steps: seq<Step<F, V>>)
    requires options.once && Legal(New(options), steps)
    ensures
      var m := Run(New<F, V>(options), steps);
      && |m.history| <= |m.started| && (m.started != [] ==> m.s.locked)
      && forall i :: 0 <= i < |m.history| ==> m.history[i].value == m.started[0]
  {
    RunInv(New<F, V>(options), steps);
    RunOneValue(New<F, V>(options), steps);
  }

  // ---------- The object ----------

  /** What a callback does when it is called: operations on the list, then its return value. */
  datatype Reaction<F, V> = Reaction(ops: seq<Op<F, V>>, result: bool)

  ghost predicate SameHistory<F, V>(m: Machine<F, V>, m': Machine<F, V>) {
    m.history == m'.history
  }

  /** No pass has ended and none has begun. */
  ghost predicate SamePast<F, V>(m: Machine<F, V>, m': Machine<F, V>) {
    m.history == m'.history && m.started == m'.started
  }

  /** At least one more pass has ended. */
  ghost predicate Grown<F, V>(m: Machine<F, V>, m': Machine<F, V>) {
    |m.history| < |m'.history| && m.history <= m'.history && m.started <= m'.started
  }

  ghost predicate NeverEmpties<F, V>(script: seq<Reaction<F, V>>) {
    forall r, k :: 0 <= r < |script| && 0 <= k < |script[r].ops| ==> !script[r].ops[k].EmptyList?
  }

  /** `i` is the first registration of `f` at or after `start`, or -1 if there is none. */
  ghost predicate NextOf<F>(list: seq<Entry<F>>, f: F, start: nat, i: int) {
    if i == -1 then forall k :: start <= k < |list| ==> list[k].fn != f
    else start <= i < |list| && list[i].fn == f && forall k :: start <= k < i ==> list[k].fn != f
  }

  class CallbackList<F(==, !new), V(!new)> {
    const options: Options
    var list: seq<Entry<F>>
    var spent: bool
    var queue: seq<V>
    var memory: Option<V>
    var firing: bool
    var fired: bool
    var locked: bool
    var firingIndex: int
    var nextId: nat
    ghost var m: Machine<F, V>

    constructor (options: Options)
      ensures Valid() && m == New(options) && this.options == options
    {
      this.options := options;
      list, spent, queue, memory := [], false, [], None;
      firing, fired, locked, firingIndex, nextId := false, false, false, -1, 0;
      m := New(options);
    }

    ghost function Data(): State<F, V>
      reads this
    {
      State(options, list, spent, queue, memory, firing, fired, locked, firingIndex, nextId)
    }

    ghost predicate Valid()
      reads this
    {
      m.s == Data() && Inv(m)
    }

    /** The first registration of `f` at or after `start`, or -1. */
    method InArray(f: F, start: nat) returns (i: int)
      requires start <= |list|
      ensures NextOf(list, f, start, i)
    {
      i := start;
      while i < |list|
        invariant start <= i <= |list| && forall k :: start <= k < i ==> list[k].fn != f
      {
        if list[i].fn == f {
          return;
        }
        i := i + 1;
      }
      i := -1;
    }

    method PushEach(fs: seq<F>)
      modifies this`list, this`nextId
      ensures Data() == PushAll(old(Data()), fs)
    {
      for k := 0 to |fs|
        invariant Data() == PushAll(old(Data()), fs[..k])
      {
        var found := InArray(fs[k], 0);
        if !options.unique || found == -1 {
          list, nextId := list + [Entry(fs[k], nextId)], nextId + 1;
        }
        assert fs[..k + 1][..k] == fs[..k];
      }
      assert fs[..|fs|] == fs;
    }

    /** Splices out one registration of `f` after the other, searching on from where the last was. */
    method RemoveOne(f: F)
      requires -1 <= firingIndex && (firingIndex < |list| || list == [])
      modifies this`list, this`firingIndex
      ensures list == Without(old(list), f)
      ensures firingIndex == old(firingIndex) - Gone(old(list), f, UpTo(old(list), old(firingIndex)))
    {
      ghost var all, at := list, firingIndex;
      ghost var k: nat := 0;
      RemovingStarts(all, f, at);
      var index := InArray(f, 0);
      while index > -1
        invariant RemovingAt(all, f, k, at, list, firingIndex, index)
        decreases |list|
      {
        index, k := SpliceNext(f, index, all, k, at);
      }
      RemovingDone(all, f, k, at, list, firingIndex);
    }

    /** Splices out the registration found and looks for the next one. */
    method SpliceNext(f: F, index: int, ghost all: seq<Entry<F>>, ghost k: nat, ghost at: int) returns (index': int, ghost k': nat)
      requires RemovingAt(all, f, k, at, list, firingIndex, index) && index > -1
      modifies this`list, this`firingIndex
      ensures RemovingAt(all, f, k', at, list, firingIndex, index') && |list| < |old(list)|
    {
      k' := RemovingStep(all, f, k, at, list, firingIndex, index);
      list := list[..index] + list[index + 1..];
      if index <= firingIndex {
        firingIndex := firingIndex - 1;
      }
      index' := InArray(f, index);
    }

    method RemoveEach(fs: seq<F>)
      requires IndexFits(Data())
      modifies this`list, this`firingIndex
      ensures Data() == RemoveAll(old(Data()), fs)
    {
      for k := 0 to |fs|
        invariant Data() == RemoveAll(old(Data()), fs[..k]) && IndexFits(Data())
      {
        RemoveFits(Data(), fs[k]);
        RemoveOne(fs[k]);
        assert fs[..k + 1][..k] == fs[..k];
      }
      assert fs[..|fs|] == fs;
    }

    /** `add` while firing or without memory: the additions go to the end. */
    method Append(fs: seq<F>)
      requires Valid() && !spent && (firing || memory.None?)
      modifies this`list, this`nextId, this`m
      ensures Valid() && m == Operate(old(m), Add(fs)) && Data() == PushAll(old(Data()), fs)
    {
      AppendInv(m, fs);
      PushEach(fs);
      PushAllKeeps(old(Data()), fs);
      m := Operate(m, Add(fs));
    }

    /** `add` to an idle list with memory, up to the point where it fires. */
    method AppendToMemory(fs: seq<F>)
      requires Valid() && !spent && !firing && memory.Some?
      modifies this`list, this`nextId, this`firingIndex, this`queue, this`m
      ensures queue != [] && m.s == Start(Data()) && Inv(m) && SameHistory(old(m), m) && m.started == old(m.started) + [memory.value]
    {
      AppendInv(m, fs);
      firingIndex, queue := |list| - 1, queue + [memory.value];
      ghost var s := Data();
      PushEach(fs);
      PushAllKeeps(s, fs);
      m := Operate(m, Add(fs));
    }

    /** An operation made by a callback while the list is firing. */
    method Perform(op: Op<F, V>)
      requires Valid() && firing
      modifies this
      ensures firing && m == Operate(old(m), op) && m.s == Data()
      ensures Valid() <==> (op.EmptyList? ==> EmptySafe(old(Data())))
    {
      match op
      case Add(fs) => AddHere(fs);
      case RemoveFns(fs) => RemoveHere(fs);
      case Fire(v) => QueueHere(v);
      case LockList => LockHere();
      case DisableList => DisableHere();
      case EmptyList => EmptyHere();
    }

    /** `lock` while firing. */
    method LockHere()
      requires Valid() && firing
      modifies this`locked, this`queue, this`m
      ensures Valid() && m == Operate(old(m), LockList)
    {
      LockInv(m);
      locked, queue := true, [];
      m := Operate(m, LockList);
    }

    /** `disable` while firing. */
    method DisableHere()
      requires Valid() && firing
      modifies this`locked, this`queue, this`list, this`spent, this`memory, this`m
      ensures Valid() && m == Operate(old(m), DisableList)
    {
      LockInv(m);
      locked, queue := true, [];
      list, spent, memory := [], true, None;
      m := Operate(m, DisableList);
    }

    /** `fire` while firing. */
    method QueueHere(v: V)
      requires Valid() && firing
      modifies this`queue, this`m
      ensures Valid() && m == Operate(old(m), Fire(v))
    {
      FireInv(m, v);
      if !locked {
        queue := queue + [v];
      }
      m := Operate(m, Fire(v));
    }

    /** `add` while firing. */
    method AddHere(fs: seq<F>)
      requires Valid() && firing
      modifies this`list, this`nextId, this`m
      ensures Valid() && m == Operate(old(m), Add(fs))
    {
      if spent {
        m := Operate(m, Add(fs));
      } else {
        Append(fs);
      }
    }

    /** `remove` while firing. */
    method RemoveHere(fs: seq<F>)
      requires Valid() && firing
      modifies this`list, this`firingIndex, this`m
      ensures Valid() && m == Operate(old(m), RemoveFns(fs))
    {
      RemoveInv(m, fs);
      RemoveAllKeeps(Data(), fs);
      RemoveEach(fs);
      m := Operate(m, RemoveFns(fs));
    }

    /** `empty`, at whatever moment. */
    method EmptyHere()
      requires Valid() && firing
      modifies this`list, this`m
      ensures firing && m == Operate(old(m), EmptyList) && m.s == Data()
      ensures Valid() <==> EmptySafe(old(Data()))
    {
      EmptyInv(m);
      if !spent {
        list := [];
      }
      m := Operate(m, EmptyList);
    }

    /** Calls one callback, which makes the operations of its reaction. */
    method Call(ops: seq<Op<F, V>>)
      requires Valid() && firing && forall k :: 0 <= k < |ops| ==> !ops[k].EmptyList?
      modifies this
      ensures Valid() && firing && SamePast(old(m), m)
    {
      for k := 0 to |ops|
        invariant Valid() && firing && SamePast(old(m), m)
      {
        Perform(ops[k]);
      }
    }

    /** Between the end of a pass and what follows it. */
    ghost predicate PassEnded()
      reads this
    {
      firing && m.s == Turn(Data()) && Inv(m)
    }

    /** Moves to the next callback. */
    method Next()
      requires Valid() && firing && firingIndex + 1 < |list|
      modifies this`firingIndex, this`m
      ensures Valid() && firing && SamePast(old(m), m) && firingIndex == old(firingIndex) + 1
    {
      MoveInv(m, Advance);
      m := Move(m, Advance);
      firingIndex := firingIndex + 1;
    }

    /** A callback returned false: jump to the end and forget the data. */
    method StopPass()
      requires Valid() && firing && options.stopOnFalse
      modifies this`firingIndex, this`memory, this`m
      ensures PassEnded() && Grown(old(m), m)
    {
      MoveInv(m, Stop);
      m := Move(m, Stop);
      firingIndex, memory := |list|, None;
    }

    ghost method EndPassHere()
      requires Valid() && firing && firingIndex + 1 >= |list|
      modifies this`m
      ensures PassEnded() && Grown(old(m), m)
    {
      MoveInv(m, Advance);
      m := Move(m, Advance);
    }

    /** The inner loop: one pass over the list with the current value. The callbacks react by the
        script, one reaction a call, and do nothing once it has run out. */
    method Pass(script: seq<Reaction<F, V>>) returns (rest: seq<Reaction<F, V>>)
      requires Valid() && firing && NeverEmpties(script)
      modifies this
      ensures PassEnded() && Grown(old(m), m)
      ensures NeverEmpties(rest) && |rest| <= |script| && (|rest| == |script| ==> queue == old(queue))
    {
      rest := script;
      while firingIndex + 1 < |list|
        invariant Valid() && firing && SamePast(old(m), m)
        invariant NeverEmpties(rest) && |rest| <= |script| && (|rest| == |script| ==> queue == old(queue))
        decreases |rest|, |list| - firingIndex
      {
        Next();
        if rest != [] {
          var reaction := rest[0];
          rest := rest[1..];
          Call(reaction.ops);
          if !reaction.result && options.stopOnFalse {
            StopPass();
            return;
          }
        }
      }
      EndPassHere();
    }

    /** `fire`: takes the queued values one after the other until none is left. */
    method FireQueue(script: seq<Reaction<F, V>>) returns (rest: seq<Reaction<F, V>>)
      requires !firing && queue != [] && m.s == Start(Data()) && Inv(m) && NeverEmpties(script)
      modifies this
      ensures Valid() && !firing
      ensures Grown(old(m), m)
    {
      Open();
      rest := Pass(script);
      while queue != []
        invariant PassEnded() && Grown(old(m), m) && NeverEmpties(rest)
        decreases |rest|, |queue|
      {
        Shift();
        rest := Pass(rest);
      }
      Conclude();
    }

    /** `fire` up to its first pass. */
    method Open()
      requires !firing && queue != [] && m.s == Start(Data()) && Inv(m)
      modifies this`locked, this`fired, this`firing, this`memory, this`queue
      ensures Valid() && firing
    {
      locked := locked || options.once;
      fired, firing := true, true;
      memory, queue := Some(queue[0]), queue[1..];
    }

    /** Goes on to the next queued value. */
    method Shift()
      requires PassEnded() && queue != []
      modifies this`firingIndex, this`memory, this`queue
      ensures Valid() && firing && queue == old(queue)[1..]
    {
      firingIndex := -1;
      memory, queue := Some(queue[0]), queue[1..];
    }

    method Conclude()
      requires PassEnded() && queue == []
      modifies this`firingIndex, this`memory, this`firing, this`list, this`spent
      ensures Valid() && !firing
    {
      firingIndex := -1;
      if !options.memory {
        memory := None;
      }
      firing := false;
      if locked {
        list, spent := [], memory.None?;
      }
    }

    /** `fireWith`, called while the list is idle. */
    method FireWith(v: V, script: seq<Reaction<F, V>>) returns (rest: seq<Reaction<F, V>>)
      requires Valid() && !firing
      requires NeverEmpties(script)
      modifies this
      ensures Valid() && !firing && old(m.history) <= m.history
      ensures old(locked) ==> m == old(m)
      ensures !old(locked) ==> |m.history| > |old(m.history)| && m.history[|old(m.history)|].value == v
    {
      rest := script;
      if !locked {
        FireInv(m, v);
        m := Operate(m, Fire(v));
        queue := queue + [v];
        rest := FireQueue(script);
      }
    }

    /** `add`, called while the list is idle: a list with memory calls the additions at once. */
    method AddFns(fs: seq<F>, script: seq<Reaction<F, V>>) returns (rest: seq<Reaction<F, V>>)
      requires Valid() && !firing
      requires NeverEmpties(script)
      modifies this
      ensures Valid() && !firing && old(m.history) <= m.history
      ensures old(spent) ==> m == old(m)
      ensures !old(spent) && old(memory).None? ==> Data() == PushAll(old(Data()), fs) && m.history == old(m.history)
      ensures old(memory).Some? ==> |m.history| > |old(m.history)| && m.history[|old(m.history)|].value == old(memory).value
    {
      rest := script;
      if !spent {
        if memory.Some? {
          AppendToMemory(fs);
          rest := FireQueue(script);
        } else {
          Append(fs);
        }
      }
    }
  }

  lemma SkipOthers<F>(list: seq<Entry<F>>, f: F, k: nat, k': nat)
    requires k <= k' <= |list|
    requires forall j :: k <= j < k' ==> list[j].fn != f
    ensures Without(list[..k'], f) == Without(list[..k], f) + list[k..k']
  {
    KeepAll(list[k..k'], Other(f));
    KeepConcat(list[..k], list[k..k'], Other(f));
    assert list[..k'] == list[..k] + list[k..k'];
  }

  /** How many of the first `k` registrations are not of `f`. */
  ghost function Kept<F>(all: seq<Entry<F>>, f: F, k: nat): nat
    requires k <= |all|
  {
    |Without(all[..k], f)|
  }

  /** How far the removal of `f` from `all` has come when `k` registrations have been looked at. */
  ghost predicate Removing<F>(all: seq<Entry<F>>, f: F, k: nat, at: int, list: seq<Entry<F>>, index: int) {
    && k <= |all| && -1 <= at && (at < |all| || all == [])
    && list == Without(all[..k], f) + all[k..]
    && index == at - Gone(all, f, if k <= at + 1 then k else at + 1)
  }

  /** The removal has come so far, and `i` is where the next registration of `f` was found, if any. */
  ghost predicate RemovingAt<F>(all: seq<Entry<F>>, f: F, k: nat, at: int, list: seq<Entry<F>>, index: int, i: int) {
    Removing(all, f, k, at, list, index) && NextOf(list, f, Kept(all, f, k), i)
  }

  lemma RemovingStarts<F>(all: seq<Entry<F>>, f: F, at: int)
    requires -1 <= at && (at < |all| || all == [])
    ensures Removing(all, f, 0, at, all, at) && Kept(all, f, 0) == 0
  {
    assert Without(all[..0], f) + all[0..] == all;
  }

  lemma RemovingStep<F>(all: seq<Entry<F>>, f: F, k: nat, at: int, list: seq<Entry<F>>, index: int, i: nat) returns (k'': nat)
    requires Removing(all, f, k, at, list, index)
    requires NextOf(list, f, Kept(all, f, k), i)
    ensures Removing(all, f, k'', at, list[..i] + list[i + 1..], if i <= index then index - 1 else index)
    ensures i == Kept(all, f, k'')
  {
    var w := |Without(all[..k], f)|;
    var k' := k + i - w;
    forall j | k <= j < k' ensures all[j].fn != f {
      assert list[w + j - k] == all[j];
    }
    assert list[i] == all[k'];
    SkipOthers(all, f, k, k');
    assert all[..k' + 1][..k'] == all[..k'];
    assert list[..i] == Without(all[..k], f) + all[k..k'];
    GoneAt(all, f, k, k', at);
    k'' := k' + 1;
  }

  lemma RemovingDone<F>(all: seq<Entry<F>>, f: F, k: nat, at: int, list: seq<Entry<F>>, index: int)
    requires Removing(all, f, k, at, list, index)
    requires NextOf(list, f, Kept(all, f, k), -1)
    ensures list == Without(all, f)
    ensures index == at - Gone(all, f, UpTo(all, at))
  {
    forall j | k <= j < |all| ensures all[j].fn != f {
      assert list[|Without(all[..k], f)| + j - k] == all[j];
    }
    SkipOthers(all, f, k, |all|);
    assert all[..|all|] == all && all[k..|all|] == all[k..];
    if k <= at + 1 && all != [] {
      SkipOthers(all, f, k, at + 1);
    }
  }

  /** The registration at `k'` moves the index exactly when it stands at or before it. */
  lemma GoneAt<F>(all: seq<Entry<F>>, f: F, k: nat, k': nat, at: int)
    requires k <= k' < |all| && -1 <= at < |all| && all[k'].fn == f
    requires forall j :: k <= j < k' ==> all[j].fn != f
    ensures
      var index := at - Gone(all, f, if k <= at + 1 then k else at + 1);
      var index' := at - Gone(all, f, if k' + 1 <= at + 1 then k' + 1 else at + 1);
      var i := |Without(all[..k], f)| + k' - k;
      index' == if i <= index then index - 1 else index
  {
    SkipOthers(all, f, k, k');
    assert all[..k' + 1][..k'] == all[..k'];
    if at < k' {
      if k <= at + 1 {
        SkipOthers(all, f, k, at + 1);
      } else {
        KeepConcat(all[..at + 1], all[at + 1..k], Other(f));
        assert all[..k] == all[..at + 1] + all[at + 1..k];
      }
    }
  }
}
