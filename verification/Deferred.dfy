/** jQuery.Deferred: six callback lists wired together.

    Three lists hold what `progress`, `done` and `fail` add, and three more the handlers that `then`
    adds for the same outcomes. The first five callbacks of `done` and of `fail` set the
    state, disable the two lists of the other outcome and lock the two progress lists; no user code
    runs before they have, so they are one step with the firing that starts them. The callback after
    them, `Handlers`, fires the matching list of `then` handlers.

    A callback is user code that may use the deferred again in any way. The stack holds the lists
    that are firing, innermost first, and user code may act only when it is what is running.
 */
module Deferred {
  import opened Wrappers
  import opened Callbacks

  datatype Fn = Handlers | User(n: nat)

  datatype Status<V> = Pending | Resolved(value: V) | Rejected(value: V)

  datatype Which = Progress | Done | Fail | ProgressThen | DoneThen | FailThen

  /** The list of a callback being called, and whether that callback is user code. */
  datatype Frame = Frame(list: Which, user: bool)

  /** A list with the callbacks it was given and the calls it made to them. */
  datatype Cell<V> = Cell(m: Machine<Fn, V>, added: seq<nat>, calls: seq<(nat, V)>)

  datatype Promise<V> = Promise(
    status: Status<V>, progress: Cell<V>, done: Cell<V>, fail: Cell<V>,
    progressThen: Cell<V>, doneThen: Cell<V>, failThen: Cell<V>, stack: seq<Frame>)

  function Get<V>(p: Promise<V>, w: Which): Cell<V> {
    match w
    case Progress => p.progress
    case Done => p.done
    case Fail => p.fail
    case ProgressThen => p.progressThen
    case DoneThen => p.doneThen
    case FailThen => p.failThen
  }

  function Put<V>(p: Promise<V>, w: Which, c: Cell<V>): Promise<V> {
    match w
    case Progress => p.(progress := c)
    case Done => p.(done := c)
    case Fail => p.(fail := c)
    case ProgressThen => p.(progressThen := c)
    case DoneThen => p.(doneThen := c)
    case FailThen => p.(failThen := c)
  }

  datatype Action<V> = AddTo(list: Which, ns: seq<nat>) | Resolve(value: V) | Reject(value: V) | Notify(value: V)

  datatype Step<V> = Act(action: Action<V>) | Proceed

  const MEMORY := Options(false, true, false, false)
  const ONCE_MEMORY := Options(true, true, false, false)

  function OptionsOf(w: Which): Options {
    if w == Progress || w == ProgressThen then MEMORY else ONCE_MEMORY
  }

  predicate IsMain(w: Which) {
    w == Progress || w == Done || w == Fail
  }

  function ThenOf(w: Which): Which
    requires IsMain(w)
  {
    if w == Progress then ProgressThen else if w == Done then DoneThen else FailThen
  }

  function NewCell<V>(w: Which): Cell<V> {
    var m: Machine<Fn, V> := New(OptionsOf(w));
    Cell(if IsMain(w) then m.(s := m.s.(list := [Entry(Handlers, 0)], nextId := 1)) else m, [], [])
  }

  function NewPromise<V>(): Promise<V> {
    Promise(Pending, NewCell(Progress), NewCell(Done), NewCell(Fail),
            NewCell(ProgressThen), NewCell(DoneThen), NewCell(FailThen), [])
  }

  /** Makes an operation on one list; if that starts it firing, its loop is what runs next. */
  function On<V>(p: Promise<V>, w: Which, op: Op<Fn, V>): Promise<V> {
    Replace(p, w, Operate(Get(p, w).m, op))
  }

  function Replace<V>(p: Promise<V>, w: Which, m: Machine<Fn, V>): Promise<V> {
    var c := Get(p, w);
    Put(p, w, c.(m := m)).(stack := if m.s.firing && !c.m.s.firing then [Frame(w, false)] + p.stack else p.stack)
  }

  /** `resolveWith` or `rejectWith`, with the five callbacks that come first. */
  function Settle<V>(p: Promise<V>, v: V, resolve: bool): Promise<V> {
    var w, l := Winner(resolve), Winner(!resolve);
    if Get(p, w).m.s.locked then p
    else
      var q := On(p, w, Fire(v)).(status := if resolve then Resolved(v) else Rejected(v));
      On(On(On(On(q, l, DisableList), ThenOf(l), DisableList), Progress, LockList), ProgressThen, LockList)
  }

  function Winner(resolve: bool): Which {
    if resolve then Done else Fail
  }

  function AsUsers(ns: seq<nat>): seq<Fn> {
    seq(|ns|, k requires 0 <= k < |ns| => User(ns[k]))
  }

  function Perform<V>(p: Promise<V>, a: Action<V>): Promise<V> {
    match a
    case AddTo(w, ns) =>
      var q := On(p, w, Add(AsUsers(ns)));
      Put(q, w, Get(q, w).(added := Get(q, w).added + ns))
    case Resolve(v) => Settle(p, v, true)
    case Reject(v) => Settle(p, v, false)
    case Notify(v) => On(p, Progress, Fire(v))
  }

  /** The innermost loop goes on: the next callback, the next value, or out. */
  function Continue<V>(p: Promise<V>): Promise<V>
    requires p.stack != []
    requires
      var m := Get(p, p.stack[0].list).m;
      m.s.firing && m.started != [] && (CanCall(m.s) ==> m.s.memory.Some?)
  {
    var w := p.stack[0].list;
    var c := Get(p, w);
    var m := Move(c.m, Advance);
    if !CanCall(c.m.s) then SetTop(p, c.(m := m), p.stack[0].user)
    else
      match m.s.list[m.s.index].fn
      case User(n) => SetTop(p, Cell(m, c.added, c.calls + [(n, c.m.s.memory.value)]), true)
      case Handlers =>
        var q := SetTop(p, c.(m := m), false);
        if IsMain(w) then On(q, ThenOf(w), Fire(c.m.s.memory.value)) else q
  }

  /** Puts back the innermost list, or leaves it if it no longer fires. */
  function SetTop<V>(p: Promise<V>, c: Cell<V>, user: bool): Promise<V>
    requires p.stack != []
  {
    var w := p.stack[0].list;
    Put(p, w, c).(stack := if c.m.s.firing then p.stack[0 := Frame(w, user)] else p.stack[1..])
  }

  ghost predicate Enabled<V>(p: Promise<V>, step: Step<V>) {
    match step
    case Act(_) => p.stack == [] || p.stack[0].user
    case Proceed => p.stack != []
  }

  // ---------- One list ----------

  /** The user callbacks of a list, in order. */
  ghost function Users(list: seq<Entry<Fn>>): seq<nat> {
    if list == [] then []
    else
      Users(list[..|list| - 1]) +
      match list[|list| - 1].fn
      case Handlers => []
      case User(n) => [n]
  }

  lemma {:induction false} UsersConcat(a: seq<Entry<Fn>>, b: seq<Entry<Fn>>)
    ensures Users(a + b) == Users(a) + Users(b)
    decreases |b|
  {
    if b == [] {
      assert a + b == a;
    } else {
      UsersConcat(a, b[..|b| - 1]);
      assert (a + b)[..|a + b| - 1] == a + b[..|b| - 1];
    }
  }

  lemma UsersHead(list: seq<Entry<Fn>>)
    requires list != []
    ensures Users(list) == (match list[0].fn case Handlers => [] case User(n) => [n]) + Users(list[1..])
  {
    UsersConcat([list[0]], list[1..]);
    assert list == [list[0]] + list[1..];
    assert [list[0]][..0] == [];
  }

  lemma {:induction false} PushUsers<V>(s: State<Fn, V>, ns: seq<nat>) returns (extra: seq<Entry<Fn>>)
    requires !s.options.unique
    ensures PushAll(s, AsUsers(ns)).list == s.list + extra && Users(extra) == ns
    ensures forall k :: 0 <= k < |extra| ==> extra[k].fn.User?
    decreases |ns|
  {
    if ns == [] {
      extra := [];
    } else {
      var init := ns[..|ns| - 1];
      extra := PushUsers(s, init);
      assert AsUsers(ns)[..|ns| - 1] == AsUsers(init);
      var t := PushAll(s, AsUsers(init));
      PushAllKeeps(s, AsUsers(init));
      var last := Entry(User(ns[|ns| - 1]), t.nextId);
      UsersConcat(extra, [last]);
      assert [last][..0] == [];
      extra := extra + [last];
    }
  }

  ghost function Tagged<V>(ns: seq<nat>, v: V): seq<(nat, V)> {
    seq(|ns|, k requires 0 <= k < |ns| => (ns[k], v))
  }

  /** A one-shot list that has not been fired. */
  ghost predicate Waiting<V>(s: State<Fn, V>, added: seq<nat>, calls: seq<(nat, V)>) {
    && s.options == ONCE_MEMORY && !s.spent && !s.locked && !s.firing && s.memory.None? && s.queue == [] && s.index == -1
    && Users(s.list) == added && calls == []
  }

  /** A one-shot list fired with `v`: the calls made are those due so far, in order, and those still
      to come are past the index. */
  ghost predicate Fired<V>(s: State<Fn, V>, v: V, added: seq<nat>, calls: seq<(nat, V)>) {
    && s.options == ONCE_MEMORY && !s.spent && s.locked && s.memory == Some(v) && s.queue == []
    && |calls| <= |added| && calls == Tagged(added[..|calls|], v)
    && (s.firing ==> -1 <= s.index < |s.list| && Users(s.list[s.index + 1..]) == added[|calls|..])
    && (!s.firing ==> s.list == [] && s.index == -1 && |calls| == |added|)
  }

  ghost predicate Dead<V>(s: State<Fn, V>, calls: seq<(nat, V)>) {
    && s.options == ONCE_MEMORY && s.spent && s.locked && !s.firing && s.memory.None? && s.list == [] && s.queue == []
    && calls == []
  }

  lemma WaitingAdd<V>(m: Machine<Fn, V>, added: seq<nat>, calls: seq<(nat, V)>, ns: seq<nat>)
    requires Waiting(m.s, added, calls)
    ensures
      var t := Operate(m, Add(AsUsers(ns))).s;
      Waiting(t, added + ns, calls) && m.s.list <= t.list && forall k :: |m.s.list| <= k < |t.list| ==> t.list[k].fn.User?
  {
    var extra := PushUsers(m.s, ns);
    PushAllKeeps(m.s, AsUsers(ns));
    UsersConcat(m.s.list, extra);
  }

  lemma SplitConcat<T>(a: seq<T>, b: seq<T>, k: nat)
    requires k <= |a|
    ensures (a + b)[..k] == a[..k] && (a + b)[k..] == a[k..] + b
  {
  }

  lemma FiringAdd<V>(s: State<Fn, V>, v: V, added: seq<nat>, calls: seq<(nat, V)>, ns: seq<nat>)
    requires Fired(s, v, added, calls) && s.firing
    ensures
      var t := PushAll(s, AsUsers(ns));
      && Fired(t, v, added + ns, calls) && t.index == s.index && s.list <= t.list
      && forall k :: |s.list| <= k < |t.list| ==> t.list[k].fn.User?
  {
    var extra := PushUsers(s, ns);
    PushAllKeeps(s, AsUsers(ns));
    SplitConcat(s.list, extra, s.index + 1);
    SplitConcat(added, ns, |calls|);
    UsersConcat(s.list[s.index + 1..], extra);
  }

  lemma WholeSplit<T>(a: seq<T>, b: seq<T>)
    ensures (a + b)[..|a|] == a == a[..|a|] && (a + b)[|a|..] == b
  {
  }

  /** A list that had called everything, started again for what was just added. */
  lemma Restarted<V>(t: State<Fn, V>, v: V, added: seq<nat>, calls: seq<(nat, V)>, ns: seq<nat>)
    requires t.options == ONCE_MEMORY && !t.spent && t.locked && t.memory == Some(v) && t.queue == [] && t.firing && t.index == -1
    requires Users(t.list) == ns && |calls| == |added| && calls == Tagged(added, v)
    ensures Fired(t, v, added + ns, calls)
  {
    WholeSplit(added, ns);
    assert t.list[0..] == t.list;
  }

  lemma Restart<V>(m: Machine<Fn, V>, v: V, fs: seq<Fn>)
    requires !m.s.spent && m.s.memory == Some(v) && !m.s.firing && m.s.queue == [] && m.s.list == [] && m.s.locked
    ensures
      var s := PushAll(m.s.(index := -1, queue := [v]), fs);
      Operate(m, Add(fs)).s == s.(fired := true, firing := true, memory := Some(v), queue := [])
      && s.index == -1 && s.locked && !s.spent && s.options == m.s.options
  {
    assert [] + [v] == [v];
    PushAllKeeps(m.s.(index := -1, queue := [v]), fs);
  }

  lemma IdleAdd<V>(m: Machine<Fn, V>, v: V, added: seq<nat>, calls: seq<(nat, V)>, ns: seq<nat>)
    requires Fired(m.s, v, added, calls) && !m.s.firing
    ensures
      var t := Operate(m, Add(AsUsers(ns))).s;
      && Fired(t, v, added + ns, calls) && t.firing && t.index == -1
      && forall k :: 0 <= k < |t.list| ==> t.list[k].fn.User?
  {
    Restart(m, v, AsUsers(ns));
    var t := Operate(m, Add(AsUsers(ns))).s;
    var extra := PushUsers(m.s.(index := -1, queue := [v]), ns);
    assert t.list == extra;
    assert added[..|added|] == added;
    Restarted(t, v, added, calls, ns);
  }

  lemma FiredAdd<V>(m: Machine<Fn, V>, v: V, added: seq<nat>, calls: seq<(nat, V)>, ns: seq<nat>)
    requires Fired(m.s, v, added, calls)
    ensures
      var t := Operate(m, Add(AsUsers(ns))).s;
      && Fired(t, v, added + ns, calls) && t.firing && t.index == m.s.index && m.s.list <= t.list
      && forall k :: |m.s.list| <= k < |t.list| ==> t.list[k].fn.User?
  {
    if m.s.firing {
      FiringAdd(m.s, v, added, calls, ns);
    } else {
      IdleAdd(m, v, added, calls, ns);
    }
  }

  lemma WaitingFire<V>(m: Machine<Fn, V>, added: seq<nat>, calls: seq<(nat, V)>, v: V)
    requires Waiting(m.s, added, calls)
    ensures
      var t := Operate(m, Fire(v)).s;
      Fired(t, v, added, calls) && t.firing && t.index == -1 && t.list == m.s.list
  {
    assert m.s.list[0..] == m.s.list && added[0..] == added;
    assert calls == Tagged(added[..0], v);
  }

  lemma FiredMove<V>(m: Machine<Fn, V>, v: V, added: seq<nat>, calls: seq<(nat, V)>)
    requires Fired(m.s, v, added, calls) && m.s.firing && m.started != []
    ensures
      var t := Move(m, Advance).s;
      if !CanCall(m.s) then !t.firing && Fired(t, v, added, calls)
      else
        && t.firing && t.index == m.s.index + 1 && t.list == m.s.list
        && match t.list[t.index].fn
           case Handlers => Fired(t, v, added, calls)
           case User(n) => Fired(t, v, added, calls + [(n, v)])
  {
    var s := m.s;
    if CanCall(s) {
      UsersHead(s.list[s.index + 1..]);
      assert s.list[s.index + 1..][1..] == s.list[s.index + 2..];
      match s.list[s.index + 1].fn {
        case Handlers =>
        case User(n) =>
          var k := |calls|;
          assert added[k..][0] == n && added[k..][1..] == added[k + 1..];
          assert added[..k + 1] == added[..k] + [n];
          assert Tagged(added[..k + 1], v) == calls + [(n, v)];
      }
    } else {
      assert s.list[s.index + 1..] == [];
    }
  }

  // ---------- All six ----------

  ghost predicate OnStack(stack: seq<Frame>, w: Which) {
    exists k :: 0 <= k < |stack| && stack[k].list == w
  }

  /** Every list keeps its own promises, and the stack holds exactly the lists that are firing. */
  ghost predicate Healthy<V>(p: Promise<V>) {
    (forall w :: HealthyList(Get(p, w).m, w)) && Fits(p)
  }

  ghost predicate Fits<V>(p: Promise<V>) {
    && (forall w :: Get(p, w).m.s.firing <==> OnStack(p.stack, w))
    && forall j, k :: 0 <= j < k < |p.stack| ==> p.stack[j].list != p.stack[k].list
  }

  ghost predicate HealthyList<V>(m: Machine<Fn, V>, w: Which) {
    Inv(m) && m.s.options == OptionsOf(w) && HandlersAtHead(m.s.list, w)
  }

  ghost predicate CellWaiting<V>(c: Cell<V>) {
    Waiting(c.m.s, c.added, c.calls)
  }

  ghost predicate CellFired<V>(c: Cell<V>, v: V) {
    Fired(c.m.s, v, c.added, c.calls)
  }

  ghost predicate CellDead<V>(c: Cell<V>) {
    Dead(c.m.s, c.calls)
  }

  ghost predicate HandlersFirst<V>(c: Cell<V>) {
    c.m.s.index == -1 && c.m.s.list != [] && c.m.s.list[0].fn.Handlers?
  }

  /** After `won` was fired with `v`: either its first callback, which fires the handlers, is the
      very next thing to run, or the handlers have been fired too. */
  ghost predicate Outcome<V>(v: V, won: Cell<V>, wonThen: Cell<V>, lost: Cell<V>, lostThen: Cell<V>, next: bool) {
    && CellFired(won, v) && CellDead(lost) && CellDead(lostThen)
    && (if HandlersFirst(won) then next && won.m.s.firing && CellWaiting(wonThen) else CellFired(wonThen, v))
  }

  ghost predicate Undecided<V>(p: Promise<V>) {
    && CellWaiting(p.done) && CellWaiting(p.fail) && CellWaiting(p.doneThen) && CellWaiting(p.failThen)
    && HandlersFirst(p.done) && HandlersFirst(p.fail)
  }

  predicate Next(stack: seq<Frame>, w: Which) {
    stack != [] && stack[0] == Frame(w, false)
  }

  /** What the status says about the four one-shot lists. */
  ghost predicate Decided<V>(p: Promise<V>) {
    match p.status
    case Pending => Undecided(p)
    case Resolved(v) => Outcome(v, p.done, p.doneThen, p.fail, p.failThen, Next(p.stack, Done))
    case Rejected(v) => Outcome(v, p.fail, p.failThen, p.done, p.doneThen, Next(p.stack, Fail))
  }

  /** A list that takes no new value. */
  ghost predicate Closed<V>(s: State<Fn, V>) {
    s.locked && s.queue == [] && s.options == MEMORY
  }

  /** A list that takes every value and holds every callback it was given, in order. */
  ghost predicate Taking<V>(c: Cell<V>) {
    !c.m.s.locked && !c.m.s.spent && c.m.s.options == MEMORY && Users(c.m.s.list) == c.added
  }

  /** Progress values are taken until the deferred is settled, and not after. */
  ghost predicate ProgressClosed<V>(p: Promise<V>) {
    if p.status.Pending? then Taking(p.progress) && Taking(p.progressThen)
    else Closed(p.progress.m.s) && Closed(p.progressThen.m.s)
  }

  ghost predicate Sound<V>(p: Promise<V>) {
    Healthy(p) && Decided(p) && ProgressClosed(p)
  }

  lemma NewCellHealthy<V>(w: Which)
    ensures HealthyList(NewCell<V>(w).m, w)
  {
  }

  lemma NewDecided<V>()
    ensures Decided(NewPromise<V>())
  {
    assert [Entry(Handlers, 0)][..0] == [];
    assert Users([Entry(Handlers, 0)]) == [];
  }

  lemma NewHealthy<V>(p: Promise<V>)
    requires p.stack == [] && forall w :: Get(p, w) == NewCell(w)
    ensures Healthy(p)
  {
    forall w ensures HealthyList(Get(p, w).m, w) && !Get(p, w).m.s.firing {
      NewCellHealthy<V>(w);
    }
  }

  lemma NewTaking<V>()
    ensures Taking(NewCell<V>(Progress)) && Taking(NewCell<V>(ProgressThen))
  {
    assert [Entry(Handlers, 0)][..0] == [];
    assert Users([Entry(Handlers, 0)]) == [];
  }

  lemma NewSound<V>()
    ensures Sound(NewPromise<V>())
  {
    NewHealthy(NewPromise<V>());
    NewDecided<V>();
    NewTaking<V>();
  }

  /** The operations that a deferred makes on its lists. */
  ghost predicate Used<V>(op: Op<Fn, V>) {
    op.Fire? || op.LockList? || op.DisableList? || (op.Add? && exists ns :: op.fns == AsUsers(ns))
  }

  ghost predicate HandlersAtHead(list: seq<Entry<Fn>>, w: Which) {
    forall k :: 0 <= k < |list| && list[k].fn.Handlers? ==> k == 0 && IsMain(w)
  }

  lemma AddKeepsHead<V>(m: Machine<Fn, V>, w: Which, ns: seq<nat>)
    requires HandlersAtHead(m.s.list, w) && !m.s.options.unique
    ensures
      var t := Operate(m, Add(AsUsers(ns))).s;
      HandlersAtHead(t.list, w) && t.options == m.s.options && (m.s.firing ==> t.firing)
  {
    var s := if m.s.memory.Some? && !m.s.firing then m.s.(index := |m.s.list| - 1, queue := m.s.queue + [m.s.memory.value]) else m.s;
    PushAllKeeps(s, AsUsers(ns));
    var extra := PushUsers(s, ns);
  }

  /** Such an operation keeps a list healthy, never stops it firing and never unlocks it. */
  lemma OperateKeeps<V(!new)>(m: Machine<Fn, V>, w: Which, op: Op<Fn, V>)
    requires HealthyList(m, w) && Used(op)
    ensures HealthyList(Operate(m, op), w)
    ensures m.s.firing ==> Operate(m, op).s.firing
  {
    MoveInv(m, Do(op));
    if op.Add? {
      var ns :| op.fns == AsUsers(ns);
      AddKeepsHead(m, w, ns);
    }
  }

  lemma ReplaceHealthy<V>(p: Promise<V>, w: Which, m: Machine<Fn, V>)
    requires Healthy(p) && HealthyList(m, w) && (Get(p, w).m.s.firing ==> m.s.firing)
    ensures Healthy(Replace(p, w, m))
  {
    var q := Replace(p, w, m);
    forall x ensures HealthyList(Get(q, x).m, x) {
      assert HealthyList(Get(p, x).m, x);
    }
    ReplaceFits(p, w, m);
  }

  lemma ReplaceFits<V>(p: Promise<V>, w: Which, m: Machine<Fn, V>)
    requires Fits(p) && (Get(p, w).m.s.firing ==> m.s.firing)
    ensures Fits(Replace(p, w, m))
  {
    var q := Replace(p, w, m);
    PushFrame(p.stack, w);
    forall x ensures Get(q, x).m.s.firing <==> OnStack(q.stack, x) {
      assert Get(p, x).m.s.firing <==> OnStack(p.stack, x);
    }
  }

  lemma OnHealthy<V(!new)>(p: Promise<V>, w: Which, op: Op<Fn, V>)
    requires Healthy(p) && Used(op)
    ensures Healthy(On(p, w, op))
  {
    assert HealthyList(Get(p, w).m, w);
    OperateKeeps(Get(p, w).m, w, op);
    ReplaceHealthy(p, w, Operate(Get(p, w).m, op));
  }

  lemma PushFrame(stack: seq<Frame>, w: Which)
    ensures forall x :: OnStack([Frame(w, false)] + stack, x) <==> x == w || OnStack(stack, x)
  {
    var longer := [Frame(w, false)] + stack;
    assert longer[0].list == w;
    forall x | OnStack(stack, x) ensures OnStack(longer, x) {
      var k :| 0 <= k < |stack| && stack[k].list == x;
      assert longer[k + 1].list == x;
    }
  }

  // ---------- What every step keeps ----------

  /** What adding callbacks may do to a list, seen from outside. */
  ghost predicate Follows<V(!new)>(c: Cell<V>, c': Cell<V>) {
    && (CellWaiting(c) ==> CellWaiting(c') && (HandlersFirst(c) ==> HandlersFirst(c')))
    && (CellDead(c) ==> CellDead(c'))
    && (forall v :: CellFired(c, v) ==> CellFired(c', v) && (HandlersFirst(c) <==> HandlersFirst(c')))
  }

  lemma CellAdd<V(!new)>(c: Cell<V>, ns: seq<nat>)
    ensures Follows(c, Cell(Operate(c.m, Add(AsUsers(ns))), c.added + ns, c.calls))
  {
    var c' := Cell(Operate(c.m, Add(AsUsers(ns))), c.added + ns, c.calls);
    if CellWaiting(c) {
      WaitingAdd(c.m, c.added, c.calls, ns);
    }
    forall v | CellFired(c, v) ensures CellFired(c', v) && (HandlersFirst(c) <==> HandlersFirst(c')) {
      FiredAdd(c.m, v, c.added, c.calls, ns);
    }
  }

  /** If nothing is due to fire the handlers, additions keep the outcome, whatever is on the stack. */
  lemma OutcomeFollows<V(!new)>(v: V, won: Cell<V>, wonThen: Cell<V>, lost: Cell<V>, lostThen: Cell<V>,
                                won': Cell<V>, wonThen': Cell<V>, lost': Cell<V>, lostThen': Cell<V>, next: bool)
    requires Outcome(v, won, wonThen, lost, lostThen, false)
    requires Follows(won, won') && Follows(wonThen, wonThen') && Follows(lost, lost') && Follows(lostThen, lostThen')
    ensures Outcome(v, won', wonThen', lost', lostThen', next)
  {
  }

  lemma FollowsSelf<V(!new)>(c: Cell<V>)
    ensures Follows(c, c)
  {
  }

  /** Nothing but additions has happened between `p` and `q`. */
  ghost predicate AllFollow<V(!new)>(p: Promise<V>, q: Promise<V>) {
    q.status == p.status && forall x :: Follows(Get(p, x), Get(q, x))
  }

  lemma FollowEach<V(!new)>(p: Promise<V>, q: Promise<V>)
    requires AllFollow(p, q)
    ensures Follows(p.done, q.done) && Follows(p.fail, q.fail) && Follows(p.doneThen, q.doneThen) && Follows(p.failThen, q.failThen)
  {
    assert Follows(Get(p, Done), Get(q, Done)) && Follows(Get(p, Fail), Get(q, Fail));
    assert Follows(Get(p, DoneThen), Get(q, DoneThen)) && Follows(Get(p, FailThen), Get(q, FailThen));
  }

  lemma DecidedFollows<V(!new)>(p: Promise<V>, q: Promise<V>)
    requires Decided(p) && (p.stack == [] || p.stack[0].user) && AllFollow(p, q)
    ensures Decided(q)
  {
    FollowEach(p, q);
    match p.status
    case Pending =>
    case Resolved(v) => OutcomeFollows(v, p.done, p.doneThen, p.fail, p.failThen, q.done, q.doneThen, q.fail, q.failThen, Next(q.stack, Done));
    case Rejected(v) => OutcomeFollows(v, p.fail, p.failThen, p.done, p.doneThen, q.fail, q.failThen, q.done, q.doneThen, Next(q.stack, Fail));
  }

  lemma GetPut<V>(p: Promise<V>, w: Which, c: Cell<V>, stack: seq<Frame>, x: Which)
    ensures Get(Put(p, w, c).(stack := stack), x) == if x == w then c else Get(p, x)
  {
  }

  lemma PutFollows<V(!new)>(p: Promise<V>, w: Which, c: Cell<V>, stack: seq<Frame>)
    requires Follows(Get(p, w), c)
    ensures AllFollow(p, Put(p, w, c).(stack := stack))
  {
    forall x ensures Follows(Get(p, x), Get(Put(p, w, c).(stack := stack), x)) {
      GetPut(p, w, c, stack, x);
      if x != w {
        FollowsSelf(Get(p, x));
      }
    }
  }

  lemma DecidedPut<V(!new)>(p: Promise<V>, w: Which, c: Cell<V>, stack: seq<Frame>)
    requires Decided(p) && (p.stack == [] || p.stack[0].user) && Follows(Get(p, w), c)
    ensures Decided(Put(p, w, c).(stack := stack))
  {
    PutFollows(p, w, c, stack);
    DecidedFollows(p, Put(p, w, c).(stack := stack));
  }

  lemma HealthyAdded<V>(p: Promise<V>, q: Promise<V>)
    requires Healthy(p) && p.stack == q.stack && forall w :: Get(q, w).m == Get(p, w).m
    ensures Healthy(q)
  {
    forall w ensures HealthyList(Get(q, w).m, w) && (Get(q, w).m.s.firing <==> OnStack(q.stack, w)) {
      assert HealthyList(Get(p, w).m, w) && (Get(p, w).m.s.firing <==> OnStack(p.stack, w));
    }
  }

  lemma AddHealthy<V(!new)>(p: Promise<V>, w: Which, ns: seq<nat>)
    requires Healthy(p)
    ensures Healthy(Perform(p, AddTo(w, ns)))
  {
    OnHealthy(p, w, Add(AsUsers(ns)));
    HealthyAdded(On(p, w, Add(AsUsers(ns))), Perform(p, AddTo(w, ns)));
  }

  lemma AddDecided<V(!new)>(p: Promise<V>, w: Which, ns: seq<nat>)
    requires Decided(p) && (p.stack == [] || p.stack[0].user)
    ensures Decided(Perform(p, AddTo(w, ns)))
  {
    var c := Get(p, w);
    var m := Operate(c.m, Add(AsUsers(ns)));
    CellAdd(c, ns);
    DecidedPut(p, w, Cell(m, c.added + ns, c.calls), Replace(p, w, m).stack);
    assert Perform(p, AddTo(w, ns)) == Put(p, w, Cell(m, c.added + ns, c.calls)).(stack := Replace(p, w, m).stack);
  }

  /** A closed list stays closed and keeps its value. */
  lemma ClosedAdd<V>(m: Machine<Fn, V>, fs: seq<Fn>)
    requires Closed(m.s)
    ensures Closed(Operate(m, Add(fs)).s) && Operate(m, Add(fs)).s.memory == m.s.memory
  {
    PushAllKeeps(m.s, fs);
    if m.s.memory.Some? {
      PushAllKeeps(m.s.(index := |m.s.list| - 1, queue := m.s.queue + [m.s.memory.value]), fs);
    }
  }

  lemma TakingAdd<V>(c: Cell<V>, ns: seq<nat>)
    requires Taking(c)
    ensures Taking(Cell(Operate(c.m, Add(AsUsers(ns))), c.added + ns, c.calls))
  {
    var m := c.m;
    var s := if m.s.memory.Some? && !m.s.firing then m.s.(index := |m.s.list| - 1, queue := m.s.queue + [m.s.memory.value]) else m.s;
    PushAllKeeps(s, AsUsers(ns));
    var extra := PushUsers(s, ns);
    UsersConcat(m.s.list, extra);
  }

  lemma TakingFire<V>(c: Cell<V>, v: V)
    requires Taking(c)
    ensures Taking(c.(m := Operate(c.m, Fire(v))))
  {
  }

  lemma TakingMove<V>(c: Cell<V>, calls: seq<(nat, V)>)
    requires Taking(c) && c.m.s.firing && c.m.started != []
    ensures Taking(Cell(Move(c.m, Advance), c.added, calls))
  {
  }

  lemma ClosedMove<V>(m: Machine<Fn, V>)
    requires Closed(m.s) && m.s.firing && m.started != []
    ensures Closed(Move(m, Advance).s) && Move(m, Advance).s.memory == m.s.memory
  {
  }

  ghost predicate SameValue<V>(p: Promise<V>, q: Promise<V>) {
    p.status.Pending? || q.progress.m.s.memory == p.progress.m.s.memory
  }

  lemma AddClosed<V>(p: Promise<V>, w: Which, ns: seq<nat>)
    requires ProgressClosed(p)
    ensures ProgressClosed(Perform(p, AddTo(w, ns))) && SameValue(p, Perform(p, AddTo(w, ns)))
  {
    if !p.status.Pending? {
      ClosedAdd(p.progress.m, AsUsers(ns));
      ClosedAdd(p.progressThen.m, AsUsers(ns));
    } else {
      TakingAdd(p.progress, ns);
      TakingAdd(p.progressThen, ns);
    }
  }

  lemma AddStatus<V>(p: Promise<V>, w: Which, ns: seq<nat>)
    ensures Perform(p, AddTo(w, ns)).status == p.status
    ensures Get(Perform(p, AddTo(w, ns)), w).added == Get(p, w).added + ns
  {
  }

  lemma AddSound<V(!new)>(p: Promise<V>, w: Which, ns: seq<nat>)
    requires Sound(p) && Enabled(p, Act(AddTo(w, ns)))
    ensures Sound(Perform(p, AddTo(w, ns)))
  {
    AddHealthy(p, w, ns);
    AddDecided(p, w, ns);
    AddClosed(p, w, ns);
  }

  lemma NotifySound<V(!new)>(p: Promise<V>, v: V)
    requires Sound(p) && Enabled(p, Act(Notify(v)))
    ensures Sound(Perform(p, Notify(v)))
    ensures p.status.Pending? ==> Perform(p, Notify(v)).status == Pending && Perform(p, Notify(v)).progress.m.accepted == p.progress.m.accepted + [v]
    ensures !p.status.Pending? ==> Perform(p, Notify(v)) == p
  {
    OnHealthy(p, Progress, Fire(v));
    if p.status.Pending? {
      TakingFire(p.progress, v);
      assert HealthyList(Get(p, Progress).m, Progress);
      FireAccepted(p.progress.m, v);
    }
  }

  lemma CellFire<V>(c: Cell<V>, v: V)
    requires CellWaiting(c)
    ensures
      var c' := c.(m := Operate(c.m, Fire(v)));
      CellFired(c', v) && c'.m.s.firing && (HandlersFirst(c) <==> HandlersFirst(c'))
  {
    WaitingFire(c.m, c.added, c.calls, v);
  }

  lemma CellDisable<V>(c: Cell<V>)
    requires CellWaiting(c)
    ensures CellDead(c.(m := Operate(c.m, DisableList)))
  {
  }

  lemma DisableKeeps<V>(m: Machine<Fn, V>)
    ensures Operate(m, DisableList).s.firing == m.s.firing && Operate(m, LockList).s.firing == m.s.firing
    ensures Operate(m, LockList).s.locked && Operate(m, LockList).s.queue == [] && Operate(m, LockList).s.options == m.s.options
  {
  }

  lemma OnQuiet<V>(p: Promise<V>, w: Which, op: Op<Fn, V>)
    requires op.DisableList? || op.LockList?
    ensures On(p, w, op) == Put(p, w, Get(p, w).(m := Operate(Get(p, w).m, op)))
  {
    DisableKeeps(Get(p, w).m);
  }

  /** What settling does to each list. */
  ghost predicate SettledTo<V>(p: Promise<V>, q: Promise<V>, v: V, resolve: bool) {
    var w, l := Winner(resolve), Winner(!resolve);
    && q.stack == [Frame(w, false)] + p.stack
    && q.status == (if resolve then Resolved(v) else Rejected(v))
    && Get(q, w) == Get(p, w).(m := Operate(Get(p, w).m, Fire(v))) && Get(q, ThenOf(w)) == Get(p, ThenOf(w))
    && Get(q, l) == Get(p, l).(m := Operate(Get(p, l).m, DisableList))
    && Get(q, ThenOf(l)) == Get(p, ThenOf(l)).(m := Operate(Get(p, ThenOf(l)).m, DisableList))
    && q.progress == p.progress.(m := Operate(p.progress.m, LockList))
    && q.progressThen == p.progressThen.(m := Operate(p.progressThen.m, LockList))
  }

  lemma FireStarts<V>(m: Machine<Fn, V>, v: V)
    requires !m.s.locked && !m.s.firing
    ensures Operate(m, Fire(v)).s.firing
  {
  }

  lemma SettleCells<V>(p: Promise<V>, v: V, resolve: bool)
    requires !Get(p, Winner(resolve)).m.s.locked && !Get(p, Winner(resolve)).m.s.firing
    ensures SettledTo(p, Settle(p, v, resolve), v, resolve)
  {
    var w, l := Winner(resolve), Winner(!resolve);
    FireStarts(Get(p, w).m, v);
    var q := On(p, w, Fire(v)).(status := if resolve then Resolved(v) else Rejected(v));
    OnQuiet(q, l, DisableList);
    var q1 := On(q, l, DisableList);
    OnQuiet(q1, ThenOf(l), DisableList);
    var q2 := On(q1, ThenOf(l), DisableList);
    OnQuiet(q2, Progress, LockList);
    OnQuiet(On(q2, Progress, LockList), ProgressThen, LockList);
  }

  /** The five callbacks that come first leave the lists of the other outcome disabled. */
  lemma FirstOutcome<V>(v: V, won: Cell<V>, wonThen: Cell<V>, lost: Cell<V>, lostThen: Cell<V>)
    requires CellWaiting(won) && HandlersFirst(won) && CellWaiting(wonThen) && CellWaiting(lost) && CellWaiting(lostThen)
    ensures Outcome(v, won.(m := Operate(won.m, Fire(v))), wonThen,
                    lost.(m := Operate(lost.m, DisableList)), lostThen.(m := Operate(lostThen.m, DisableList)), true)
  {
    CellFire(won, v);
    CellDisable(lost);
    CellDisable(lostThen);
  }

  lemma SettleDecided<V>(p: Promise<V>, q: Promise<V>, v: V, resolve: bool)
    requires Undecided(p) && SettledTo(p, q, v, resolve)
    ensures Decided(q)
  {
    var w, l := Winner(resolve), Winner(!resolve);
    FirstOutcome(v, Get(p, w), Get(p, ThenOf(w)), Get(p, l), Get(p, ThenOf(l)));
    DecidedBy(q, v, resolve);
  }

  lemma DecidedBy<V>(q: Promise<V>, v: V, resolve: bool)
    requires q.status == (if resolve then Resolved(v) else Rejected(v)) && Next(q.stack, Winner(resolve))
    requires Outcome(v, Get(q, Winner(resolve)), Get(q, ThenOf(Winner(resolve))), Get(q, Winner(!resolve)), Get(q, ThenOf(Winner(!resolve))), true)
    ensures Decided(q)
  {
  }

  lemma SettleClosed<V>(p: Promise<V>, q: Promise<V>, v: V, resolve: bool)
    requires SettledTo(p, q, v, resolve) && p.progress.m.s.options == p.progressThen.m.s.options == MEMORY
    ensures ProgressClosed(q)
  {
    DisableKeeps(p.progress.m);
    DisableKeeps(p.progressThen.m);
  }

  lemma SettleHealthy<V(!new)>(p: Promise<V>, v: V, resolve: bool)
    requires Healthy(p)
    ensures Healthy(Settle(p, v, resolve))
  {
    var w, l := Winner(resolve), Winner(!resolve);
    OnHealthy(p, w, Fire(v));
    var q0 := On(p, w, Fire(v));
    var q := q0.(status := if resolve then Resolved(v) else Rejected(v));
    HealthyAdded(q0, q);
    OnHealthy(q, l, DisableList);
    var q1 := On(q, l, DisableList);
    OnHealthy(q1, ThenOf(l), DisableList);
    var q2 := On(q1, ThenOf(l), DisableList);
    OnHealthy(q2, Progress, LockList);
    OnHealthy(On(q2, Progress, LockList), ProgressThen, LockList);
  }

  lemma SettledAlready<V>(p: Promise<V>, v: V, resolve: bool)
    requires Decided(p) && !p.status.Pending?
    ensures Settle(p, v, resolve) == p
  {
  }

  lemma SettlePending<V(!new)>(p: Promise<V>, v: V, resolve: bool)
    requires Healthy(p) && Undecided(p)
    ensures Sound(Settle(p, v, resolve)) && Settle(p, v, resolve).status == if resolve then Resolved(v) else Rejected(v)
  {
    SettleHealthy(p, v, resolve);
    SettleCells(p, v, resolve);
    SettledSound(p, Settle(p, v, resolve), v, resolve);
  }

  lemma SettledSound<V(!new)>(p: Promise<V>, q: Promise<V>, v: V, resolve: bool)
    requires Healthy(p) && Undecided(p) && Healthy(q) && SettledTo(p, q, v, resolve)
    ensures Sound(q) && q.status == if resolve then Resolved(v) else Rejected(v)
  {
    MemoryLists(p);
    SettleDecided(p, q, v, resolve);
    SettleClosed(p, q, v, resolve);
  }

  lemma MemoryLists<V>(p: Promise<V>)
    requires Healthy(p)
    ensures p.progress.m.s.options == p.progressThen.m.s.options == MEMORY
  {
    assert HealthyList(Get(p, Progress).m, Progress) && HealthyList(Get(p, ProgressThen).m, ProgressThen);
  }

  /** The first settlement decides; later ones change nothing. */
  lemma SettleSound<V(!new)>(p: Promise<V>, v: V, resolve: bool)
    requires Sound(p) && (p.stack == [] || p.stack[0].user)
    ensures Sound(Settle(p, v, resolve))
    ensures p.status.Pending? ==> Settle(p, v, resolve).status == if resolve then Resolved(v) else Rejected(v)
    ensures !p.status.Pending? ==> Settle(p, v, resolve) == p
  {
    if p.status.Pending? {
      SettlePending(p, v, resolve);
    } else {
      SettledAlready(p, v, resolve);
    }
  }

  lemma MoveKeeps<V(!new)>(m: Machine<Fn, V>, w: Which)
    requires HealthyList(m, w) && m.s.firing
    ensures m.started != [] && (CanCall(m.s) ==> m.s.memory.Some?)
    ensures HealthyList(Move(m, Advance), w)
    ensures CanCall(m.s) ==> Move(m, Advance).s.firing
  {
    MoveInv(m, Advance);
  }

  lemma TopFires<V>(p: Promise<V>)
    requires Healthy(p) && p.stack != []
    ensures Get(p, p.stack[0].list).m.s.firing && HealthyList(Get(p, p.stack[0].list).m, p.stack[0].list)
  {
    assert OnStack(p.stack, p.stack[0].list);
  }

  lemma TopHealthy<V>(p: Promise<V>, c: Cell<V>, user: bool)
    requires Healthy(p) && p.stack != [] && HealthyList(c.m, p.stack[0].list)
    ensures Healthy(SetTop(p, c, user))
  {
    var w := p.stack[0].list;
    var q := SetTop(p, c, user);
    forall x ensures HealthyList(Get(q, x).m, x) {
      assert HealthyList(Get(p, x).m, x);
    }
    TopFits(p.stack, w, user);
    forall x ensures Get(q, x).m.s.firing <==> OnStack(q.stack, x) {
      assert Get(p, x).m.s.firing <==> OnStack(p.stack, x);
    }
  }

  lemma TopFits(stack: seq<Frame>, w: Which, user: bool)
    requires stack != [] && stack[0].list == w
    requires forall j, k :: 0 <= j < k < |stack| ==> stack[j].list != stack[k].list
    ensures forall x :: OnStack(stack[0 := Frame(w, user)], x) <==> OnStack(stack, x)
    ensures forall x :: OnStack(stack[1..], x) <==> OnStack(stack, x) && x != w
  {
    var same := stack[0 := Frame(w, user)];
    assert forall k :: 0 <= k < |stack| ==> same[k].list == stack[k].list;
    forall x ensures OnStack(stack[1..], x) <==> OnStack(stack, x) && x != w {
      if OnStack(stack, x) && x != w {
        var k :| 0 <= k < |stack| && stack[k].list == x;
        assert stack[1..][k - 1].list == x;
      }
      if OnStack(stack[1..], x) {
        var k :| 0 <= k < |stack[1..]| && stack[1..][k].list == x;
        assert stack[k + 1].list == x;
      }
    }
    forall x ensures OnStack(same, x) <==> OnStack(stack, x) {
      if OnStack(stack, x) {
        var k :| 0 <= k < |stack| && stack[k].list == x;
        assert same[k].list == x;
      }
    }
  }

  lemma ContinueHealthy<V(!new)>(p: Promise<V>)
    requires Healthy(p) && p.stack != []
    ensures
      var m := Get(p, p.stack[0].list).m;
      m.s.firing && m.started != [] && (CanCall(m.s) ==> m.s.memory.Some?)
    ensures Healthy(Continue(p))
  {
    var w := p.stack[0].list;
    var c := Get(p, w);
    TopFires(p);
    MoveKeeps(c.m, w);
    var m := Move(c.m, Advance);
    if CanCall(c.m.s) {
      var v := c.m.s.memory.value;
      match m.s.list[m.s.index].fn {
        case User(n) => TopHealthy(p, Cell(m, c.added, c.calls + [(n, v)]), true);
        case Handlers => HandlersHealthy(p, c.(m := m), v);
      }
    } else {
      TopHealthy(p, c.(m := m), p.stack[0].user);
    }
  }

  lemma HandlersHealthy<V(!new)>(p: Promise<V>, c: Cell<V>, v: V)
    requires Healthy(p) && p.stack != [] && HealthyList(c.m, p.stack[0].list)
    ensures
      var q, w := SetTop(p, c, false), p.stack[0].list;
      Healthy(q) && (IsMain(w) ==> Healthy(On(q, ThenOf(w), Fire(v))))
  {
    TopHealthy(p, c, false);
    if IsMain(p.stack[0].list) {
      OnHealthy(SetTop(p, c, false), ThenOf(p.stack[0].list), Fire(v));
    }
  }

  /** The innermost list can go on: it is firing, and its value is at hand. */
  ghost predicate Ready<V>(p: Promise<V>) {
    && p.stack != []
    && var m := Get(p, p.stack[0].list).m;
       m.s.firing && m.started != [] && (CanCall(m.s) ==> m.s.memory.Some?) && HandlersAtHead(m.s.list, p.stack[0].list)
  }

  /** A move of a fired list: it calls its next callback with the value, or ends. */
  lemma CellMove<V>(c: Cell<V>, v: V)
    requires CellFired(c, v) && c.m.s.firing && c.m.started != []
    ensures
      var m := Move(c.m, Advance);
      if !CanCall(c.m.s) then CellFired(c.(m := m), v) && !HandlersFirst(c) && !HandlersFirst(c.(m := m))
      else
        && m.s.index >= 0 && m.s.index < |m.s.list| && c.m.s.memory == Some(v)
        && match m.s.list[m.s.index].fn
           case Handlers => CellFired(c.(m := m), v)
           case User(n) => CellFired(Cell(m, c.added, c.calls + [(n, v)]), v) && !HandlersFirst(c)
  {
    FiredMove(c.m, v, c.added, c.calls);
  }

  ghost predicate SameOneShots<V>(p: Promise<V>, q: Promise<V>) {
    p.status == q.status && p.done == q.done && p.fail == q.fail && p.doneThen == q.doneThen && p.failThen == q.failThen
  }

  lemma DecidedSame<V>(p: Promise<V>, q: Promise<V>)
    requires Decided(p) && SameOneShots(p, q) && !Next(p.stack, Done) && !Next(p.stack, Fail)
    ensures Decided(q)
  {
  }

  lemma ProgressSame<V>(p: Promise<V>)
    requires Ready(p) && (p.stack[0].list == Progress || p.stack[0].list == ProgressThen)
    ensures SameOneShots(p, Continue(p))
  {
  }

  lemma ProgressContinue<V>(p: Promise<V>)
    requires Decided(p) && Ready(p) && (p.stack[0].list == Progress || p.stack[0].list == ProgressThen)
    ensures Decided(Continue(p)) && Continue(p).status == p.status
  {
    ProgressSame(p);
    DecidedSame(p, Continue(p));
  }

  /** Only the lists of the outcome can be firing. */
  lemma WhoFires<V>(p: Promise<V>, w: Which)
    requires Decided(p) && Get(p, w).m.s.firing && w != Progress && w != ProgressThen
    ensures (p.status.Resolved? && (w == Done || w == DoneThen)) || (p.status.Rejected? && (w == Fail || w == FailThen))
  {
  }

  lemma SameStatus<V>(p: Promise<V>)
    requires Ready(p)
    ensures Continue(p).status == p.status
  {
  }

  lemma WinnerContinue<V>(p: Promise<V>, v: V)
    requires Decided(p) && Ready(p)
    requires (p.status == Resolved(v) && p.stack[0].list == Done) || (p.status == Rejected(v) && p.stack[0].list == Fail)
    ensures Decided(Continue(p))
  {
    var w := p.stack[0].list;
    var c := Get(p, w);
    CellMove(c, v);
    if CanCall(c.m.s) {
      var m := Move(c.m, Advance);
      if m.s.list[m.s.index].fn.Handlers? {
        assert HandlersFirst(c);
        CellFire(Get(p, ThenOf(w)), v);
      }
    }
  }

  lemma ThenTop<V>(p: Promise<V>, v: V, c: Cell<V>, user: bool)
    requires Decided(p) && p.stack != [] && CellFired(c, v)
    requires (p.status == Resolved(v) && p.stack[0].list == DoneThen) || (p.status == Rejected(v) && p.stack[0].list == FailThen)
    ensures Decided(SetTop(p, c, user))
  {
  }

  /** A list of `then` handlers that goes on changes nothing but itself and the stack. */
  lemma ThenMove<V>(p: Promise<V>, v: V) returns (c: Cell<V>, user: bool)
    requires Ready(p) && CellFired(Get(p, p.stack[0].list), v) && !IsMain(p.stack[0].list)
    ensures CellFired(c, v) && Continue(p) == SetTop(p, c, user)
  {
    c := Get(p, p.stack[0].list);
    var m := Move(c.m, Advance);
    CellMove(c, v);
    if !CanCall(c.m.s) {
      c, user := c.(m := m), p.stack[0].user;
    } else {
      match m.s.list[m.s.index].fn {
        case User(n) => c, user := Cell(m, c.added, c.calls + [(n, v)]), true;
        case Handlers => c, user := c.(m := m), false;
      }
    }
  }

  lemma ThenContinue<V>(p: Promise<V>, v: V)
    requires Decided(p) && Ready(p) && CellFired(Get(p, p.stack[0].list), v)
    requires (p.status == Resolved(v) && p.stack[0].list == DoneThen) || (p.status == Rejected(v) && p.stack[0].list == FailThen)
    ensures Decided(Continue(p))
  {
    var c, user := ThenMove(p, v);
    ThenTop(p, v, c, user);
  }

  lemma ThenFired<V>(p: Promise<V>, v: V)
    requires Decided(p) && p.stack != []
    requires (p.status == Resolved(v) && p.stack[0].list == DoneThen) || (p.status == Rejected(v) && p.stack[0].list == FailThen)
    ensures CellFired(Get(p, p.stack[0].list), v)
  {
  }

  lemma ContinueDecided<V>(p: Promise<V>)
    requires Decided(p) && Ready(p)
    ensures Decided(Continue(p)) && Continue(p).status == p.status
  {
    var w := p.stack[0].list;
    if w == Progress || w == ProgressThen {
      ProgressContinue(p);
    } else {
      WhoFires(p, w);
      SameStatus(p);
      if w == Done || w == Fail {
        WinnerContinue(p, p.status.value);
      } else {
        ThenFired(p, p.status.value);
        ThenContinue(p, p.status.value);
      }
    }
  }

  lemma ContinueTaking<V>(p: Promise<V>)
    requires Ready(p) && Taking(p.progress) && Taking(p.progressThen) && (p.stack[0].list == Progress || p.stack[0].list == ProgressThen)
    ensures Taking(Continue(p).progress) && Taking(Continue(p).progressThen)
  {
    var c := Get(p, p.stack[0].list);
    TakingMove(c, c.calls);
    if CanCall(c.m.s) {
      var v := c.m.s.memory.value;
      var m := Move(c.m, Advance);
      match m.s.list[m.s.index].fn {
        case User(n) => TakingMove(c, c.calls + [(n, v)]);
        case Handlers => TakingFire(p.progressThen, v);
      }
    }
  }

  lemma ContinueShut<V>(p: Promise<V>)
    requires Ready(p) && Closed(p.progress.m.s) && Closed(p.progressThen.m.s) && (p.stack[0].list == Progress || p.stack[0].list == ProgressThen)
    ensures Closed(Continue(p).progress.m.s) && Closed(Continue(p).progressThen.m.s)
    ensures Continue(p).progress.m.s.memory == p.progress.m.s.memory
  {
    ClosedMove(Get(p, p.stack[0].list).m);
  }

  lemma ContinueOther<V>(p: Promise<V>)
    requires Ready(p) && p.stack[0].list != Progress && p.stack[0].list != ProgressThen
    ensures Continue(p).progress == p.progress && Continue(p).progressThen == p.progressThen
  {
  }

  lemma ContinueClosed<V>(p: Promise<V>)
    requires ProgressClosed(p) && Ready(p)
    ensures ProgressClosed(Continue(p)) && SameValue(p, Continue(p))
  {
    SameStatus(p);
    var w := p.stack[0].list;
    if w != Progress && w != ProgressThen {
      ContinueOther(p);
    } else if p.status.Pending? {
      ContinueTaking(p);
    } else {
      ContinueShut(p);
    }
  }

  lemma ContinueSound<V(!new)>(p: Promise<V>)
    requires Sound(p) && p.stack != []
    ensures Ready(p) && Sound(Continue(p)) && Continue(p).status == p.status && SameValue(p, Continue(p))
  {
    ContinueHealthy(p);
    TopFires(p);
    ContinueDecided(p);
    ContinueClosed(p);
  }

  // ---------- Every run ----------

  lemma ActSound<V(!new)>(p: Promise<V>, a: Action<V>)
    requires Sound(p) && Enabled(p, Act(a))
    ensures Sound(Perform(p, a))
    ensures !p.status.Pending? ==> Perform(p, a).status == p.status && SameValue(p, Perform(p, a))
    ensures p.status.Pending? ==> Perform(p, a).status == (match a case Resolve(v) => Resolved(v) case Reject(v) => Rejected(v) case _ => Pending)
    ensures a.AddTo? ==> Get(Perform(p, a), a.list).added == Get(p, a.list).added + a.ns
    ensures a.Notify? && p.status.Pending? ==> Perform(p, a).progress.m.accepted == p.progress.m.accepted + [a.value]
  {
    match a
    case AddTo(w, ns) =>
      AddSound(p, w, ns);
      AddClosed(p, w, ns);
      AddStatus(p, w, ns);
    case Resolve(v) => SettleSound(p, v, true);
    case Reject(v) => SettleSound(p, v, false);
    case Notify(v) => NotifySound(p, v);
  }

  ghost function Take<V(!new)>(p: Promise<V>, step: Step<V>): (q: Promise<V>)
    requires Sound(p) && Enabled(p, step)
    ensures Sound(q)
  {
    match step
    case Act(a) => ActSound(p, a); Perform(p, a)
    case Proceed => ContinueSound(p); Continue(p)
  }

  ghost predicate Possible<V(!new)>(p: Promise<V>, steps: seq<Step<V>>)
    requires Sound(p)
    decreases |steps|
  {
    steps == [] || (Enabled(p, steps[0]) && Possible(Take(p, steps[0]), steps[1..]))
  }

  ghost function After<V(!new)>(p: Promise<V>, steps: seq<Step<V>>): (q: Promise<V>)
    requires Sound(p) && Possible(p, steps)
    ensures Sound(q)
    decreases |steps|
  {
    if steps == [] then p else After(Take(p, steps[0]), steps[1..])
  }

  /** The calls made are to the callbacks given, one each and in order, with the settling value;
      none is missing once nothing is running. */
  ghost predicate OnceEach<V>(c: Cell<V>, v: V, idle: bool) {
    && |c.calls| <= |c.added| && c.calls == Tagged(c.added[..|c.calls|], v)
    && (idle ==> c.calls == Tagged(c.added, v))
  }

  ghost predicate Kept<V>(p: Promise<V>) {
    match p.status
    case Pending =>
      && p.done.calls == p.fail.calls == p.doneThen.calls == p.failThen.calls == []
      && Users(p.progress.m.s.list) == p.progress.added && Users(p.progressThen.m.s.list) == p.progressThen.added
    case Resolved(v) =>
      && OnceEach(p.done, v, p.stack == []) && OnceEach(p.doneThen, v, p.stack == [])
      && p.fail.calls == p.failThen.calls == []
    case Rejected(v) =>
      && OnceEach(p.fail, v, p.stack == []) && OnceEach(p.failThen, v, p.stack == [])
      && p.done.calls == p.doneThen.calls == []
  }

  lemma FiredOnce<V>(c: Cell<V>, v: V, idle: bool)
    requires CellFired(c, v) && (idle ==> !c.m.s.firing)
    ensures OnceEach(c, v, idle)
  {
    assert c.added[..|c.added|] == c.added;
  }

  lemma WaitingOnce<V>(c: Cell<V>, v: V)
    requires CellWaiting(c)
    ensures OnceEach(c, v, false)
  {
    assert c.added[..0] == [];
  }

  /** The two lists of the outcome. */
  lemma OutcomeKept<V>(v: V, won: Cell<V>, wonThen: Cell<V>, lost: Cell<V>, lostThen: Cell<V>, next: bool, idle: bool)
    requires Outcome(v, won, wonThen, lost, lostThen, next) && (idle ==> !won.m.s.firing && !wonThen.m.s.firing)
    ensures OnceEach(won, v, idle) && OnceEach(wonThen, v, idle) && lost.calls == lostThen.calls == []
  {
    FiredOnce(won, v, idle);
    if HandlersFirst(won) {
      WaitingOnce(wonThen, v);
    } else {
      FiredOnce(wonThen, v, idle);
    }
  }

  lemma SoundKept<V>(p: Promise<V>)
    requires Decided(p) && ProgressClosed(p)
    requires p.stack == [] ==> !p.done.m.s.firing && !p.fail.m.s.firing && !p.doneThen.m.s.firing && !p.failThen.m.s.firing
    ensures Kept(p)
  {
    match p.status
    case Pending =>
    case Resolved(v) => OutcomeKept(v, p.done, p.doneThen, p.fail, p.failThen, Next(p.stack, Done), p.stack == []);
    case Rejected(v) => OutcomeKept(v, p.fail, p.failThen, p.done, p.doneThen, Next(p.stack, Fail), p.stack == []);
  }

  /** Every handler of the outcome runs exactly once, in the order given, with the settling value,
      and no handler of the other outcome runs; and every progress pass is complete. */
  lemma ExactlyOnce<V(!new)>(p: Promise<V>, steps: seq<Step<V>>)
    requires p == NewPromise() && Sound(p) && Possible(p, steps)
    ensures Kept(After(p, steps))
    ensures AllComplete(After(p, steps).progress.m) && AllComplete(After(p, steps).progressThen.m)
  {
    var q := After(p, steps);
    EndKept(q);
    EndComplete(q, Progress);
    EndComplete(q, ProgressThen);
  }

  lemma EndComplete<V>(p: Promise<V>, w: Which)
    requires Sound(p)
    ensures AllComplete(Get(p, w).m)
  {
    assert HealthyList(Get(p, w).m, w);
  }

  lemma EndKept<V>(p: Promise<V>)
    requires Sound(p)
    ensures Kept(p)
  {
    Quiet(p);
    SoundKept(p);
  }

  lemma Quiet<V>(p: Promise<V>)
    requires Fits(p)
    ensures p.stack == [] ==> !p.done.m.s.firing && !p.fail.m.s.firing && !p.doneThen.m.s.firing && !p.failThen.m.s.firing
  {
    assert Get(p, Done) == p.done && Get(p, Fail) == p.fail && Get(p, DoneThen) == p.doneThen && Get(p, FailThen) == p.failThen;
  }

  /** A settled deferred keeps its state and value for good, and takes no new progress value. */
  lemma {:induction false} SettledForever<V(!new)>(p: Promise<V>, steps: seq<Step<V>>)
    requires Sound(p) && Possible(p, steps) && !p.status.Pending?
    ensures After(p, steps).status == p.status
    ensures After(p, steps).progress.m.s.memory == p.progress.m.s.memory
    decreases |steps|
  {
    if steps != [] {
      match steps[0] {
        case Act(a) => ActSound(p, a);
        case Proceed => ContinueSound(p);
      }
      SettledForever(Take(p, steps[0]), steps[1..]);
    }
  }
}
