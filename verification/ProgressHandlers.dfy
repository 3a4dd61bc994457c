/** What a deferred does with its progress values, over every run.

    A pass of one of the two progress lists is for one value. Each pass calls, once and in order,
    all the handlers held when it ends that it is for: all of them after `notify`, the ones just added
    where `progress` or `then` repeats the last value. The recorded calls are those of the passes and
    nothing else.
 */
module ProgressHandlers {
  import opened Callbacks
  import opened Deferred

  /** Registrations numbered below this are the deferred's own. */
  function Base(w: Which): nat {
    if IsMain(w) then 1 else 0
  }

  // ---------- The reference ----------

  /** The calls of a pass that called the registrations `ids` with the value `v`. */
  ghost function PassCalls<V>(ids: seq<nat>, base: nat, added: seq<nat>, v: V): seq<(nat, V)> {
    if ids == [] then []
    else
      var last := ids[|ids| - 1];
      PassCalls(ids[..|ids| - 1], base, added, v) + if base <= last < base + |added| then [(added[last - base], v)] else []
  }

  ghost function AllCalls<V>(history: seq<Firing<V>>, base: nat, added: seq<nat>): seq<(nat, V)> {
    if history == [] then []
    else
      var pass := history[|history| - 1];
      AllCalls(history[..|history| - 1], base, added) + PassCalls(pass.called, base, added, pass.value)
  }

  /** The calls due by now: those of the passes made, and of the one under way. */
  ghost function DueCalls<V>(m: Machine<Fn, V>, base: nat, added: seq<nat>): seq<(nat, V)> {
    AllCalls(m.history, base, added) +
    if m.started == [] then [] else PassCalls(m.called, base, added, m.started[|m.started| - 1])
  }

  /** The pass called, once each and in order, exactly the registrations held at its end that it was for. */
  ghost predicate Delivered<V>(f: Firing<V>) {
    !f.cut && Suffix(f.called, f.left) && forall i :: 0 <= i < |f.left| - |f.called| ==> f.left[i] < f.from
  }

  ghost predicate Suffix(s: seq<nat>, t: seq<nat>) {
    |s| <= |t| && s == t[|t| - |s|..]
  }

  // ---------- One list ----------

  ghost predicate NamedAs(e: Entry<Fn>, base: nat, added: seq<nat>) {
    if e.id < base then e.fn.Handlers? else e.id - base < |added| && e.fn == User(added[e.id - base])
  }

  /** The registrations are the handlers given, numbered in the order they were given. */
  ghost predicate Known<V>(c: Cell<V>, base: nat) {
    && base <= c.m.s.nextId <= base + |c.added| && (!c.m.s.spent ==> c.m.s.nextId == base + |c.added|)
    && forall k :: 0 <= k < |c.m.s.list| ==> NamedAs(c.m.s.list[k], base, c.added)
  }

  ghost predicate Bounded(ids: seq<nat>, bound: nat) {
    forall i :: 0 <= i < |ids| ==> ids[i] < bound
  }

  ghost predicate HistoryBounded<V>(history: seq<Firing<V>>, bound: nat) {
    forall i :: 0 <= i < |history| ==> Bounded(history[i].called, bound)
  }

  /** Where a pass stands: it has called the registrations up to the index that it is for. */
  ghost predicate Passing<V>(m: Machine<Fn, V>) {
    var s := m.s;
    if s.firing then
      !s.spent && |m.called| <= s.index + 1 <= |s.list| && m.called == Ids(s.list)[s.index + 1 - |m.called|..s.index + 1]
      && forall i :: 0 <= i < s.index + 1 - |m.called| ==> s.list[i].id < m.from
    else m.called == []
  }

  ghost predicate AllDelivered<V>(m: Machine<Fn, V>) {
    forall i :: 0 <= i < |m.history| ==> Delivered(m.history[i])
  }

  ghost predicate Told<V>(c: Cell<V>, base: nat) {
    && Known(c, base) && Passing(c.m) && AllDelivered(c.m)
    && Bounded(c.m.called, c.m.s.nextId) && HistoryBounded(c.m.history, c.m.s.nextId)
    && c.calls == DueCalls(c.m, base, c.added)
  }

  lemma {:induction false} PassCallsGrow<V>(ids: seq<nat>, base: nat, added: seq<nat>, more: seq<nat>, v: V)
    requires Bounded(ids, base + |added|)
    ensures PassCalls(ids, base, added + more, v) == PassCalls(ids, base, added, v)
  {
    if ids != [] {
      PassCallsGrow(ids[..|ids| - 1], base, added, more, v);
    }
  }

  lemma {:induction false} AllCallsGrow<V>(history: seq<Firing<V>>, base: nat, added: seq<nat>, more: seq<nat>)
    requires HistoryBounded(history, base + |added|)
    ensures AllCalls(history, base, added + more) == AllCalls(history, base, added)
  {
    if history != [] {
      var pass := history[|history| - 1];
      AllCallsGrow(history[..|history| - 1], base, added, more);
      PassCallsGrow(pass.called, base, added, more, pass.value);
    }
  }

  /** The entries that `add` makes of new handlers. */
  ghost function NewEntries(ns: seq<nat>, first: nat): seq<Entry<Fn>> {
    seq(|ns|, k requires 0 <= k < |ns| => Entry(User(ns[k]), first + k))
  }

  lemma {:induction false} PushNamed<V>(s: State<Fn, V>, ns: seq<nat>)
    requires !s.options.unique
    ensures PushAll(s, AsUsers(ns)) == s.(list := s.list + NewEntries(ns, s.nextId), nextId := s.nextId + |ns|)
    decreases |ns|
  {
    if ns == [] {
      assert NewEntries(ns, s.nextId) == [];
    } else {
      var init := ns[..|ns| - 1];
      PushNamed(s, init);
      assert AsUsers(ns)[..|ns| - 1] == AsUsers(init);
      assert NewEntries(ns, s.nextId) == NewEntries(init, s.nextId) + [Entry(User(ns[|ns| - 1]), s.nextId + |init|)];
    }
  }

  lemma KnownPush(list: seq<Entry<Fn>>, base: nat, added: seq<nat>, ns: seq<nat>)
    requires forall k :: 0 <= k < |list| ==> NamedAs(list[k], base, added)
    ensures
      var longer := list + NewEntries(ns, base + |added|);
      forall k :: 0 <= k < |longer| ==> NamedAs(longer[k], base, added + ns)
  {
  }

  /** New handlers are not due what was delivered before they were given. */
  lemma DueGrow<V>(m: Machine<Fn, V>, base: nat, added: seq<nat>, ns: seq<nat>)
    requires Bounded(m.called, base + |added|) && HistoryBounded(m.history, base + |added|)
    ensures DueCalls(m, base, added + ns) == DueCalls(m, base, added)
  {
    AllCallsGrow(m.history, base, added, ns);
    if m.started != [] {
      PassCallsGrow(m.called, base, added, ns, m.started[|m.started| - 1]);
    }
  }

  lemma PassingPush<V>(m: Machine<Fn, V>, extra: seq<Entry<Fn>>, nextId: nat)
    requires Passing(m)
    ensures Passing(m.(s := m.s.(list := m.s.list + extra, nextId := nextId)))
  {
    assert Ids(m.s.list + extra)[..|m.s.list|] == Ids(m.s.list);
  }

  lemma BoundedGrow<V>(m: Machine<Fn, V>, bound: nat, more: nat)
    requires Bounded(m.called, bound) && HistoryBounded(m.history, bound) && bound <= more
    ensures Bounded(m.called, more) && HistoryBounded(m.history, more)
  {
  }

  lemma ToldAddSpent<V>(c: Cell<V>, base: nat, ns: seq<nat>)
    requires Told(c, base) && c.m.s.spent
    ensures Told(Cell(c.m, c.added + ns, c.calls), base)
  {
    DueGrow(c.m, base, c.added, ns);
  }

  /** New handlers go to the end of the list. */
  lemma ToldPush<V>(c: Cell<V>, base: nat, ns: seq<nat>)
    requires Told(c, base) && !c.m.s.spent
    ensures
      var s := c.m.s;
      Told(Cell(c.m.(s := s.(list := s.list + NewEntries(ns, s.nextId), nextId := s.nextId + |ns|)), c.added + ns, c.calls), base)
  {
    var nextId := c.m.s.nextId + |ns|;
    DueGrow(c.m, base, c.added, ns);
    BoundedGrow(c.m, c.m.s.nextId, nextId);
    KnownPush(c.m.s.list, base, c.added, ns);
    PassingPush(c.m, NewEntries(ns, c.m.s.nextId), nextId);
  }

  /** An idle list starts again, for the new handlers only. */
  lemma ToldAgain<V>(c: Cell<V>, m: Machine<Fn, V>, base: nat, ns: seq<nat>, v: V)
    requires Told(c, base) && Numbered(c.m.s.list, c.m.s.nextId) && !c.m.s.spent
    requires m.s.firing && !m.s.spent && m.s.index == |c.m.s.list| - 1
    requires m.s.nextId == c.m.s.nextId + |ns| && m.s.list == c.m.s.list + NewEntries(ns, c.m.s.nextId)
    requires m.called == [] && m.from == c.m.s.nextId && m.history == c.m.history && m.started == c.m.started + [v] && c.m.called == []
    ensures Told(Cell(m, c.added + ns, c.calls), base)
  {
    DueGrow(c.m, base, c.added, ns);
    KnownPush(c.m.s.list, base, c.added, ns);
    BoundedGrow(c.m, c.m.s.nextId, m.s.nextId);
    assert DueCalls(m, base, c.added + ns) == DueCalls(c.m, base, c.added + ns);
  }

  /** What `add` does to a list of a deferred. */
  ghost predicate AddedTo<V>(m: Machine<Fn, V>, m': Machine<Fn, V>, ns: seq<nat>) {
    var s := m.s;
    if s.spent then m' == m
    else if s.firing || s.memory.None? then m' == m.(s := s.(list := s.list + NewEntries(ns, s.nextId), nextId := s.nextId + |ns|))
    else
      && m'.s.firing && !m'.s.spent && m'.s.index == |s.list| - 1
      && m'.s.nextId == s.nextId + |ns| && m'.s.list == s.list + NewEntries(ns, s.nextId)
      && m'.called == [] && m'.from == s.nextId && m'.history == m.history && m'.started == m.started + [s.memory.value]
  }

  lemma AddCases<V>(m: Machine<Fn, V>, ns: seq<nat>)
    requires Inv(m) && m.s.options == MEMORY
    ensures AddedTo(m, Operate(m, Add(AsUsers(ns))), ns)
  {
    PushNamed(m.s, ns);
    if m.s.memory.Some? && !m.s.firing {
      PushNamed(m.s.(index := |m.s.list| - 1, queue := m.s.queue + [m.s.memory.value]), ns);
    }
  }

  lemma ToldAdded<V>(c: Cell<V>, m: Machine<Fn, V>, base: nat, ns: seq<nat>)
    requires Told(c, base) && Numbered(c.m.s.list, c.m.s.nextId) && AddedTo(c.m, m, ns)
    ensures Told(Cell(m, c.added + ns, c.calls), base)
  {
    if c.m.s.spent {
      ToldAddSpent(c, base, ns);
    } else if c.m.s.firing || c.m.s.memory.None? {
      ToldPush(c, base, ns);
    } else {
      ToldAgain(c, m, base, ns, c.m.s.memory.value);
    }
  }

  lemma ToldAdd<V>(c: Cell<V>, w: Which, ns: seq<nat>)
    requires Told(c, Base(w)) && HealthyList(c.m, w) && c.m.s.options == MEMORY
    ensures Told(Cell(Operate(c.m, Add(AsUsers(ns))), c.added + ns, c.calls), Base(w))
  {
    AddCases(c.m, ns);
    ToldAdded(c, Operate(c.m, Add(AsUsers(ns))), Base(w), ns);
  }

  /** Nothing is started or called, and an idle list at most loses its registrations. */
  ghost predicate Untold<V>(m: Machine<Fn, V>, m': Machine<Fn, V>) {
    && m'.called == m.called && m'.history == m.history && m'.started == m.started && m'.from == m.from
    && m'.s.firing == m.s.firing && m'.s.nextId == m.s.nextId && (m.s.spent ==> m'.s.spent)
    && if m.s.firing then m'.s.list == m.s.list && m'.s.index == m.s.index && m'.s.spent == m.s.spent
       else m'.s.list == m.s.list || m'.s.list == []
  }

  lemma ToldKept<V>(c: Cell<V>, m: Machine<Fn, V>, base: nat)
    requires Told(c, base) && Untold(c.m, m)
    ensures Told(c.(m := m), base)
  {
  }

  /** An idle list starts over with its first registration. */
  lemma ToldBegin<V>(c: Cell<V>, m: Machine<Fn, V>, base: nat, v: V)
    requires Told(c, base) && !c.m.s.spent && c.m.called == []
    requires m.s.firing && !m.s.spent && m.s.index == -1 && m.s.nextId == c.m.s.nextId && m.s.list == c.m.s.list
    requires m.called == [] && m.history == c.m.history && m.started == c.m.started + [v]
    ensures Told(c.(m := m), base)
  {
    assert DueCalls(m, base, c.added) == DueCalls(c.m, base, c.added);
  }

  lemma ToldFire<V>(c: Cell<V>, w: Which, v: V)
    requires Told(c, Base(w)) && HealthyList(c.m, w)
    ensures Told(c.(m := Operate(c.m, Fire(v))), Base(w))
  {
    var m := Operate(c.m, Fire(v));
    if c.m.s.locked || c.m.s.firing {
      ToldKept(c, m, Base(w));
    } else {
      ToldBegin(c, m, Base(w), v);
    }
  }

  lemma LockUntold<V>(m: Machine<Fn, V>)
    ensures Untold(m, Operate(m, LockList))
  {
  }

  lemma ToldLock<V>(c: Cell<V>, w: Which)
    requires Told(c, Base(w))
    ensures Told(c.(m := Operate(c.m, LockList)), Base(w))
  {
    LockUntold(c.m);
    ToldKept(c, Operate(c.m, LockList), Base(w));
  }

  /** The call of a registration: its name is the handler it was given as. */
  lemma CallDue<V>(c: Cell<V>, m: Machine<Fn, V>, base: nat, e: Entry<Fn>, v: V)
    requires c.calls == DueCalls(c.m, base, c.added) && NamedAs(e, base, c.added)
    requires m.history == c.m.history && m.started == c.m.started != [] && m.started[|m.started| - 1] == v && m.called == c.m.called + [e.id]
    ensures DueCalls(m, base, c.added) == match e.fn case Handlers => c.calls case User(n) => c.calls + [(n, v)]
  {
    assert m.called[..|c.m.called|] == c.m.called;
  }

  lemma ToldNext<V>(c: Cell<V>, m: Machine<Fn, V>, base: nat, e: Entry<Fn>, v: V)
    requires Told(c, base) && NamedAs(e, base, c.added) && e.id < c.m.s.nextId
    requires m.history == c.m.history && m.started == c.m.started != [] && m.started[|m.started| - 1] == v && m.called == c.m.called + [e.id]
    requires m.s.list == c.m.s.list && m.s.nextId == c.m.s.nextId && m.s.spent == c.m.s.spent && Passing(m)
    ensures Told(Cell(m, c.added, match e.fn case Handlers => c.calls case User(n) => c.calls + [(n, v)]), base)
  {
    CallDue(c, m, base, e, v);
  }

  /** The loop calls the next registration. */
  lemma ToldCall<V>(c: Cell<V>, w: Which)
    requires Told(c, Base(w)) && HealthyList(c.m, w) && CanCall(c.m.s)
    ensures
      var m := Move(c.m, Advance);
      && c.m.s.memory.Some? && 0 <= m.s.index < |m.s.list|
      && Told(Cell(m, c.added, match m.s.list[m.s.index].fn
                              case Handlers => c.calls
                              case User(n) => c.calls + [(n, c.m.s.memory.value)]), Base(w))
  {
    PassingNext(c.m);
    ToldNext(c, Move(c.m, Advance), Base(w), c.m.s.list[c.m.s.index + 1], c.m.s.memory.value);
  }

  lemma PassingNext<V>(m: Machine<Fn, V>)
    requires Passing(m) && CanCall(m.s) && m.started != []
    ensures Passing(Move(m, Advance))
  {
    var ids, i, n := Ids(m.s.list), m.s.index + 1, |m.called|;
    assert ids[i - n..i + 1] == ids[i - n..i] + [ids[i]];
  }

  /** The pass ends, and another one begins or the list is idle. */
  ghost predicate Ended<V>(m: Machine<Fn, V>, m': Machine<Fn, V>) {
    && m.started != [] && m'.called == [] && m'.s.nextId == m.s.nextId && (m.s.spent ==> m'.s.spent)
    && m'.history == m.history + [Firing(m.started[|m.started| - 1], m.from, m.called, Ids(m.s.list), false)]
    && if m'.s.firing then m'.s.list == m.s.list && m'.s.index == -1 && !m'.s.spent
       else m'.s.list == m.s.list || m'.s.list == []
  }

  lemma EndCases<V>(m: Machine<Fn, V>)
    requires Inv(m) && m.s.firing && !m.s.spent && !CanCall(m.s)
    ensures Ended(m, Move(m, Advance))
  {
  }

  lemma EndedDelivered<V>(m: Machine<Fn, V>, m': Machine<Fn, V>)
    requires Passing(m) && m.s.firing && m.s.index + 1 == |m.s.list| && AllDelivered(m) && Ended(m, m')
    ensures AllDelivered(m')
  {
    assert Delivered(m'.history[|m.history|]);
  }

  lemma EndedBounded<V>(m: Machine<Fn, V>, m': Machine<Fn, V>, bound: nat)
    requires Bounded(m.called, bound) && HistoryBounded(m.history, bound) && Ended(m, m')
    ensures Bounded(m'.called, bound) && HistoryBounded(m'.history, bound) && Passing(m')
  {
  }

  lemma ToldEnded<V>(c: Cell<V>, m: Machine<Fn, V>, base: nat)
    requires Told(c, base) && c.m.s.firing && c.m.s.index + 1 == |c.m.s.list| && Ended(c.m, m)
    ensures Told(c.(m := m), base)
  {
    EndedDelivered(c.m, m);
    EndedBounded(c.m, m, c.m.s.nextId);
    EndDue(c.m, m, base, c.added);
  }

  lemma ToldEnd<V>(c: Cell<V>, w: Which)
    requires Told(c, Base(w)) && HealthyList(c.m, w) && c.m.s.firing && !CanCall(c.m.s) && c.m.started != []
    ensures Told(c.(m := Move(c.m, Advance)), Base(w))
  {
    EndCases(c.m);
    ToldEnded(c, Move(c.m, Advance), Base(w));
  }

  lemma EndDue<V>(m: Machine<Fn, V>, m': Machine<Fn, V>, base: nat, added: seq<nat>)
    requires m.started != [] && m'.called == []
    requires |m'.history| == |m.history| + 1 && m.history <= m'.history
    requires m'.history[|m.history|].called == m.called && m'.history[|m.history|].value == m.started[|m.started| - 1]
    ensures DueCalls(m', base, added) == DueCalls(m, base, added)
  {
    assert m'.history[..|m.history|] == m.history;
  }

  // ---------- Every run ----------

  ghost predicate BothTold<V>(p: Promise<V>) {
    Told(p.progress, 1) && Told(p.progressThen, 0)
  }

  lemma NewTold<V>()
    ensures BothTold(NewPromise<V>())
  {
  }

  /** What an action leaves of the two lists. */
  lemma AddToCells<V>(p: Promise<V>, w: Which, ns: seq<nat>, x: Which)
    ensures Get(Perform(p, AddTo(w, ns)), x) ==
            if x == w then Cell(Operate(Get(p, w).m, Add(AsUsers(ns))), Get(p, w).added + ns, Get(p, w).calls) else Get(p, x)
  {
  }

  lemma NotifyCells<V>(p: Promise<V>, v: V)
    ensures Perform(p, Notify(v)).progress == p.progress.(m := Operate(p.progress.m, Fire(v)))
    ensures Perform(p, Notify(v)).progressThen == p.progressThen
  {
  }

  lemma ToldAddTo<V(!new)>(p: Promise<V>, w: Which, ns: seq<nat>)
    requires Sound(p) && BothTold(p)
    ensures BothTold(Perform(p, AddTo(w, ns)))
  {
    assert HealthyList(Get(p, w).m, w);
    AddToCells(p, w, ns, Progress);
    AddToCells(p, w, ns, ProgressThen);
    if w == Progress || w == ProgressThen {
      ToldAdd(Get(p, w), w, ns);
    }
  }

  lemma ToldNotify<V(!new)>(p: Promise<V>, v: V)
    requires Healthy(p) && BothTold(p)
    ensures BothTold(Perform(p, Notify(v)))
  {
    assert HealthyList(Get(p, Progress).m, Progress);
    NotifyCells(p, v);
    ToldFire(p.progress, Progress, v);
  }

  lemma ToldPerform<V(!new)>(p: Promise<V>, a: Action<V>)
    requires Sound(p) && BothTold(p) && Enabled(p, Act(a))
    ensures BothTold(Perform(p, a))
  {
    match a
    case AddTo(w, ns) => ToldAddTo(p, w, ns);
    case Resolve(v) => ToldSettle(p, v, true);
    case Reject(v) => ToldSettle(p, v, false);
    case Notify(v) => ToldNotify(p, v);
  }

  lemma ToldSettle<V(!new)>(p: Promise<V>, v: V, resolve: bool)
    requires Sound(p) && BothTold(p)
    ensures BothTold(Settle(p, v, resolve))
  {
    if p.status.Pending? {
      SettleCells(p, v, resolve);
      ToldLocked(p, Settle(p, v, resolve), v, resolve);
    } else {
      SettledAlready(p, v, resolve);
    }
  }

  lemma ToldLocked<V>(p: Promise<V>, q: Promise<V>, v: V, resolve: bool)
    requires BothTold(p) && SettledTo(p, q, v, resolve)
    ensures BothTold(q)
  {
    ToldLock(p.progress, Progress);
    ToldLock(p.progressThen, ProgressThen);
  }

  lemma ToldContinue<V(!new)>(p: Promise<V>)
    requires Sound(p) && BothTold(p) && Ready(p)
    ensures BothTold(Continue(p))
  {
    var w := p.stack[0].list;
    if w == Progress {
      ProgressMoves(p);
    } else if w == ProgressThen {
      ProgressThenMoves(p);
    } else {
      ContinueOther(p);
    }
  }

  lemma ProgressMoves<V(!new)>(p: Promise<V>)
    requires Healthy(p) && BothTold(p) && Ready(p) && p.stack[0].list == Progress
    ensures BothTold(Continue(p))
  {
    var c := p.progress;
    assert HealthyList(Get(p, Progress).m, Progress) && HealthyList(Get(p, ProgressThen).m, ProgressThen);
    if CanCall(c.m.s) {
      ToldCall(c, Progress);
      ToldFire(p.progressThen, ProgressThen, c.m.s.memory.value);
    } else {
      ToldEnd(c, Progress);
    }
  }

  lemma ProgressThenMoves<V(!new)>(p: Promise<V>)
    requires Healthy(p) && BothTold(p) && Ready(p) && p.stack[0].list == ProgressThen
    ensures BothTold(Continue(p))
  {
    var c := p.progressThen;
    assert HealthyList(Get(p, ProgressThen).m, ProgressThen);
    if CanCall(c.m.s) {
      ToldCall(c, ProgressThen);
    } else {
      ToldEnd(c, ProgressThen);
    }
  }

  lemma {:induction false} ToldRun<V(!new)>(p: Promise<V>, steps: seq<Deferred.Step<V>>)
    requires Sound(p) && BothTold(p) && Possible(p, steps)
    ensures BothTold(After(p, steps))
    decreases |steps|
  {
    if steps != [] {
      match steps[0] {
        case Act(a) => ToldPerform(p, a);
        case Proceed =>
          ContinueSound(p);
          ToldContinue(p);
      }
      ToldRun(Take(p, steps[0]), steps[1..]);
    }
  }

  /** What is true of a progress list: its calls are those of its passes; each pass delivers its value,
      once and in order, to all the handlers held that it is for; and the passes are for the values
      accepted, in order, none being left over once the list is idle. */
  ghost predicate Accounted<V>(c: Cell<V>, base: nat) {
    && c.calls == DueCalls(c.m, base, c.added) && AllDelivered(c.m)
    && |c.m.history| <= |c.m.accepted| && (forall i :: 0 <= i < |c.m.history| ==> c.m.history[i].value == c.m.accepted[i])
    && (!c.m.s.firing ==> |c.m.history| == |c.m.accepted|)
  }

  lemma ToldAccounted<V>(c: Cell<V>, base: nat)
    requires Told(c, base) && Inv(c.m)
    ensures Accounted(c, base)
  {
  }

  /** In every run both progress lists are accounted for. */
  lemma ProgressDelivered<V(!new)>(p: Promise<V>, steps: seq<Deferred.Step<V>>)
    requires p == NewPromise() && Sound(p) && Possible(p, steps)
    ensures Accounted(After(p, steps).progress, 1) && Accounted(After(p, steps).progressThen, 0)
  {
    NewTold<V>();
    ToldRun(p, steps);
    var q := After(p, steps);
    assert HealthyList(Get(q, Progress).m, Progress) && HealthyList(Get(q, ProgressThen).m, ProgressThen);
    ToldAccounted(q.progress, 1);
    ToldAccounted(q.progressThen, 0);
  }
}
