/** gdb's registries of missing-file handlers and of frame unwinders.

    Registering walks the list with an iterator and, when replacing, deletes from the list it is
    walking. The iterator does not notice: it skips whatever moves into the place of what was deleted.
 */
module Registry {
  import opened Wrappers
  import opened Filters

  /** A registered object under its key: its type and name, or for unwinders its name alone. */
  datatype Entry<K, H> = Entry(key: K, handler: H)

  /** The walk: after each deletion one entry is passed over unseen. */
  ghost function Purge<K, H>(list: seq<Entry<K, H>>, key: K): seq<Entry<K, H>> {
    if list == [] then []
    else if list[0].key != key then [list[0]] + Purge(list[1..], key)
    else if |list| == 1 then []
    else [list[1]] + Purge(list[2..], key)
  }

  ghost function Other<K, H>(key: K): Entry<K, H> -> bool {
    (e: Entry<K, H>) => e.key != key
  }

  /** The list without any entry of that key, in order. */
  ghost function Without<K, H>(list: seq<Entry<K, H>>, key: K): seq<Entry<K, H>> {
    Keep(list, Other(key))
  }

  /** The first entry goes or stays, and the rest is treated alike. */
  lemma WithoutHead<K, H>(list: seq<Entry<K, H>>, key: K)
    requires list != []
    ensures Without(list, key) == (if list[0].key == key then [] else [list[0]]) + Without(list[1..], key)
  {
    KeepHead(list, Other(key));
  }

  ghost predicate Holds<K, H>(list: seq<Entry<K, H>>, key: K) {
    exists i :: 0 <= i < |list| && list[i].key == key
  }

  ghost predicate TwoInARow<K, H>(list: seq<Entry<K, H>>, key: K) {
    exists i :: NamesakesAt(list, key, i)
  }

  ghost predicate NamesakesAt<K, H>(list: seq<Entry<K, H>>, key: K, i: int) {
    0 <= i < |list| - 1 && list[i].key == key && list[i + 1].key == key
  }

  ghost predicate Unique<K, H>(list: seq<Entry<K, H>>) {
    forall i, j :: 0 <= i < j < |list| ==> list[i].key != list[j].key
  }

  class Locus<K(==), H> {
    var handlers: seq<Entry<K, H>>

    constructor ()
      ensures handlers == []
    {
      handlers := [];
    }

    /** The loop. */
    method Walk(key: K, replace: bool) returns (ok: bool)
      modifies this
      ensures ok <==> replace || !Holds(old(handlers), key)
      ensures handlers == if ok then Purge(old(handlers), key) else old(handlers)
    {
      var i, next := 0, 0;
      while next < |handlers|
        invariant i == next && Walked(old(handlers), key, handlers, next)
        invariant !replace ==> handlers == old(handlers) && next <= |handlers| && forall k :: 0 <= k < next ==> handlers[k].key != key
        decreases |handlers| - next
      {
        var needle := handlers[next];
        WalkedStep(old(handlers), key, handlers, next);
        next := next + 1;
        if needle.key == key {
          if !replace {
            return false;
          }
          handlers := handlers[..i] + handlers[i + 1..];
        }
        i := i + 1;
      }
      ok := true;
      assert next == |handlers| ==> handlers[..next] == handlers;
    }

    /** Puts the entry in front. A namesake makes this fail and change nothing, or, when replacing,
        gives way. */
    method Register(entry: Entry<K, H>, replace: bool) returns (ok: bool)
      modifies this
      ensures ok <==> replace || !Holds(old(handlers), entry.key)
      ensures !ok ==> handlers == old(handlers)
      ensures ok ==> handlers == [entry] + Purge(old(handlers), entry.key)
      ensures old(Unique(handlers)) ==> Unique(handlers)
      ensures ok && old(Unique(handlers)) ==> handlers == [entry] + Without(old(handlers), entry.key)
    {
      ok := Walk(entry.key, replace);
      if ok {
        handlers := [entry] + handlers;
        if old(Unique(handlers)) {
          WithoutUnique(old(handlers), entry.key);
          PurgeAll(old(handlers), entry.key);
        }
      }
    }
  }

  // ---------- Missing-file handlers ----------

  predicate NameChar(c: char) {
    'a' <= c <= 'z' || 'A' <= c <= 'Z' || '0' <= c <= '9' || c == '_' || c == '-'
  }

  method ValidateName(name: string) returns (ok: bool)
    ensures ok <==> forall i :: 0 <= i < |name| ==> NameChar(name[i])
  {
    for i := 0 to |name|
      invariant forall k :: 0 <= k < i ==> NameChar(name[k])
    {
      if !NameChar(name[i]) {
        return false;
      }
    }
    ok := true;
  }

  /** Where to register: globally, in a program space, or in something that is neither. */
  datatype Where<K, H> = Global(locus: Locus<K, H>) | Progspace(locus: Locus<K, H>) | Elsewhere

  /** A handler object: some of what it is required to have may be missing. */
  datatype Handler<H> = Handler(name: Option<string>, hasEnabled: bool, isCallable: bool, self: H)

  datatype Outcome = Registered | BadType | BadLocus | NoName | BadName | NotAHandler | Duplicate

  ghost predicate BadCharacter(name: string) {
    exists i :: 0 <= i < |name| && !NameChar(name[i])
  }

  /** The refusal that comes first. */
  ghost function Refusal<H>(handlerType: string, place: Where<(string, string), H>, handler: Handler<H>): Option<Outcome> {
    if handlerType != "debug" && handlerType != "objfile" then Some(BadType)
    else if place.Elsewhere? then Some(BadLocus)
    else if handler.name.None? then Some(NoName)
    else if BadCharacter(handler.name.value) then Some(BadName)
    else if !handler.hasEnabled || !handler.isCallable then Some(NotAHandler)
    else None
  }

  /** Handlers are kept apart by type and name. What is refused for what it is leaves everything as it
      was, and so does a duplicate that is not to replace its namesake. */
  method RegisterHandler<H>(handlerType: string, place: Where<(string, string), H>, handler: Handler<H>, replace: bool)
    returns (outcome: Outcome)
    modifies if place.Elsewhere? then {} else {place.locus}
    ensures Refusal(handlerType, place, handler).Some? ==> outcome == Refusal(handlerType, place, handler).value
    ensures Refusal(handlerType, place, handler).None? ==>
              var key := (handlerType, handler.name.value);
              outcome == if !replace && Holds(old(place.locus.handlers), key) then Duplicate else Registered
    ensures !outcome.Registered? && !place.Elsewhere? ==> place.locus.handlers == old(place.locus.handlers)
    ensures outcome.Registered? ==>
              var key := (handlerType, handler.name.value);
              && place.locus.handlers == [Entry(key, handler.self)] + Purge(old(place.locus.handlers), key)
              && (old(Unique(place.locus.handlers)) ==>
                  Unique(place.locus.handlers) && place.locus.handlers == [Entry(key, handler.self)] + Without(old(place.locus.handlers), key))
  {
    if handlerType != "debug" && handlerType != "objfile" {
      return BadType;
    }
    if place.Elsewhere? {
      return BadLocus;
    }
    if handler.name.None? {
      return NoName;
    }
    var valid := ValidateName(handler.name.value);
    if !valid {
      return BadName;
    }
    if !handler.hasEnabled || !handler.isCallable {
      return NotAHandler;
    }
    var ok := place.locus.Register(Entry((handlerType, handler.name.value), handler.self), replace);
    outcome := if ok then Registered else Duplicate;
  }

  // ---------- Why ----------

  /** Before the iterator is what the walk keeps; at and after it, what it has still to see. */
  ghost predicate Walked<K, H>(was: seq<Entry<K, H>>, key: K, list: seq<Entry<K, H>>, next: nat) {
    && next <= |list| + 1
    && Purge(was, key) == if next <= |list| then list[..next] + Purge(list[next..], key) else list
  }

  lemma WalkedStep<K, H>(was: seq<Entry<K, H>>, key: K, list: seq<Entry<K, H>>, next: nat)
    requires Walked(was, key, list, next) && next < |list|
    ensures Walked(was, key, if list[next].key == key then list[..next] + list[next + 1..] else list, next + 1)
  {
    var rest := list[next..];
    assert rest[1..] == list[next + 1..];
    if list[next].key != key {
      assert list[..next + 1] == list[..next] + [list[next]];
    } else if |rest| > 1 {
      var less := list[..next] + list[next + 1..];
      assert rest[2..] == list[next + 2..];
      assert less[..next + 1] == list[..next] + [list[next + 1]] && less[next + 1..] == list[next + 2..];
    }
  }

  lemma NoneLeft<K, H>(list: seq<Entry<K, H>>, key: K)
    ensures !Holds(Without(list, key), key)
  {
    forall i | 0 <= i < |Without(list, key)| ensures Without(list, key)[i].key != key {
      KeepAt(list, Other(key), i);
    }
  }

  lemma {:induction false} PurgeAll<K, H>(list: seq<Entry<K, H>>, key: K)
    requires !TwoInARow(list, key)
    ensures Purge(list, key) == Without(list, key)
    decreases |list|
  {
    if list != [] {
      TailRow(list, key);
      WithoutHead(list, key);
      if list[0].key != key {
        PurgeAll(list[1..], key);
      } else if |list| > 1 {
        assert !NamesakesAt(list, key, 0);
        TailRow(list[1..], key);
        WithoutHead(list[1..], key);
        assert list[1..][1..] == list[2..];
        PurgeAll(list[2..], key);
      }
    }
  }

  /** The walk removes exactly the namesakes if and only if no two of them stand side by side. */
  lemma PurgeExact<K, H>(list: seq<Entry<K, H>>, key: K)
    ensures Purge(list, key) == Without(list, key) <==> !TwoInARow(list, key)
  {
    if TwoInARow(list, key) {
      LeftBehind(list, key);
      NoneLeft(list, key);
    } else {
      PurgeAll(list, key);
    }
  }

  lemma TailRow<K, H>(list: seq<Entry<K, H>>, key: K)
    requires list != []
    ensures TwoInARow(list, key) <==> NamesakesAt(list, key, 0) || TwoInARow(list[1..], key)
  {
    if TwoInARow(list[1..], key) {
      var i :| NamesakesAt(list[1..], key, i);
      assert NamesakesAt(list, key, i + 1);
    }
    if TwoInARow(list, key) {
      var i :| NamesakesAt(list, key, i);
      assert i > 0 ==> NamesakesAt(list[1..], key, i - 1);
    }
  }

  /** Replacing leaves an old namesake behind exactly when two stand side by side. */
  lemma {:induction false} LeftBehind<K, H>(list: seq<Entry<K, H>>, key: K)
    ensures Holds(Purge(list, key), key) <==> TwoInARow(list, key)
    decreases |list|
  {
    if list != [] {
      TailRow(list, key);
      var purged := Purge(list, key);
      if list[0].key != key {
        LeftBehind(list[1..], key);
        HoldsCons(list[0], Purge(list[1..], key), key);
      } else if |list| > 1 {
        TailRow(list[1..], key);
        assert list[1..][1..] == list[2..];
        LeftBehind(list[2..], key);
        HoldsCons(list[1], Purge(list[2..], key), key);
        assert NamesakesAt(list, key, 0) <==> list[1].key == key;
        assert NamesakesAt(list[1..], key, 0) ==> list[1].key == key;
      }
    }
  }

  /** Two namesakes: the walk deletes the first and passes over the second. */
  lemma TwoNamesakes()
    ensures Purge([Entry("x", 1), Entry("x", 2)], "x") == [Entry("x", 2)]
    ensures Without([Entry("x", 1), Entry("x", 2)], "x") == []
  {
    var list := [Entry("x", 1), Entry("x", 2)];
    assert list[1..] == [Entry("x", 2)] && list[2..] == [] && list[1..][1..] == [];
    KeepNone(list, Other("x"));
  }

  lemma HoldsCons<K, H>(e: Entry<K, H>, list: seq<Entry<K, H>>, key: K)
    ensures Holds([e] + list, key) <==> e.key == key || Holds(list, key)
  {
    var longer := [e] + list;
    assert longer[0] == e;
    if Holds(list, key) {
      var i :| 0 <= i < |list| && list[i].key == key;
      assert longer[i + 1].key == key;
    }
  }

  /** Where keys are unique, so they stay. */
  lemma {:induction false} WithoutUnique<K, H>(list: seq<Entry<K, H>>, key: K)
    requires Unique(list)
    ensures !TwoInARow(list, key) && Unique(Without(list, key)) && !Holds(Without(list, key), key)
    ensures forall k :: Holds(Without(list, key), k) ==> Holds(list, k)
    decreases |list|
  {
    if list != [] {
      var tail := list[1..];
      WithoutUnique(tail, key);
      WithoutHead(list, key);
      TailRow(list, key);
      forall k ensures Holds(list, k) <==> list[0].key == k || Holds(tail, k) {
        HoldsCons(list[0], tail, k);
        assert list == [list[0]] + tail;
      }
      forall k ensures Holds([list[0]] + Without(tail, key), k) <==> list[0].key == k || Holds(Without(tail, key), k) {
        HoldsCons(list[0], Without(tail, key), k);
      }
      assert !Holds(tail, list[0].key);
    }
  }
}
