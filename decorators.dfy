/** The lock registry behind `synchronized` and the argument dispatch of
    `decorator` in xoutil/decorators.py.

    The metaclass `_SynchronizedType` keeps, per class, a list of locks and
    an ordered index from lock names to list positions; `synchronized`
    asks it for the locks of the names it is given, and later forwards
    calls to the function it wraps.  Locks are named by strings; a lock is
    identified by its name and its `index` attribute. */
module Decorators {

  datatype Option<T> = None | Some(value: T)

  /** An `RLock` with the two attributes the registry sets. */
  datatype Lock = Lock(name: string, index: int)

  const GlobalName := "xoutil.synchronized.global"

  predicate Distinct(xs: seq<string>)
  {
    forall i, j | 0 <= i < j < |xs| :: xs[i] != xs[j]
  }

  /** The list comprehension of `build_locks`: the lock at the position of
      every indexed name that was asked for, in index order. */
  function Selected(keys: seq<string>, positions: map<string, nat>, locks: seq<Lock>, names: seq<string>): (r: seq<Lock>)
    requires forall k | k in keys :: k in positions && positions[k] < |locks|
  {
    if keys == [] then []
    else
      var rest := Selected(keys[1..], positions, locks, names);
      if keys[0] in names then [locks[positions[keys[0]]]] + rest else rest
  }

  /** The names of `ns` not in `known`, in the order of `ns`. */
  function Missing(ns: seq<string>, known: set<string>): (ms: seq<string>)
    ensures |ms| <= |ns|
  {
    if ns == [] then []
    else
      var last := ns[|ns| - 1];
      Missing(ns[..|ns| - 1], known) + (if last in known then [] else [last])
  }

  /** The locks `get_lock` creates for `ms`, appended from list position `start` on. */
  function NewLocks(ms: seq<string>, start: nat): (ls: seq<Lock>)
    ensures |ls| == |ms|
  {
    if ms == [] then []
    else NewLocks(ms[..|ms| - 1], start) + [Lock(ms[|ms| - 1], start + |ms| - 2)]
  }

  /** The index after pointing each name of `ms` at list position `start`, `start + 1`, ... */
  function Assign(m: map<string, nat>, ms: seq<string>, start: nat): map<string, nat>
  {
    if ms == [] then m
    else Assign(m, ms[..|ms| - 1], start)[ms[|ms| - 1] := start + |ms| - 1]
  }

  /** The missing names are exactly the names not already known. */
  lemma {:induction false} MissingMembers(ns: seq<string>, known: set<string>)
    ensures forall n :: n in Missing(ns, known) <==> n in ns && n !in known
  {
    if ns != [] {
      var init := ns[..|ns| - 1];
      MissingMembers(init, known);
      assert ns == init + [ns[|ns| - 1]];
    }
  }

  /** The state after registering the missing names of `ns` into the
      state `order0`, `locks0`, `positions0`. */
  ghost predicate Registered(ns: seq<string>, order0: seq<string>, locks0: seq<Lock>, positions0: map<string, nat>,
                             order: seq<string>, locks: seq<Lock>, positions: map<string, nat>)
  {
    order == order0 + Missing(ns, positions0.Keys)
    && locks == locks0 + NewLocks(Missing(ns, positions0.Keys), |locks0|)
    && positions == Assign(positions0, Missing(ns, positions0.Keys), |locks0|)
  }

  /** One turn of the registering loop keeps `Registered`. */
  lemma RegisterStep(names: seq<string>, i: nat, order0: seq<string>, locks0: seq<Lock>, positions0: map<string, nat>,
                     orderB: seq<string>, locksB: seq<Lock>, positionsB: map<string, nat>,
                     orderA: seq<string>, locksA: seq<Lock>, positionsA: map<string, nat>)
    requires Distinct(names) && i < |names|
    requires Registered(names[..i], order0, locks0, positions0, orderB, locksB, positionsB)
    requires names[i] in positionsB ==> orderA == orderB && locksA == locksB && positionsA == positionsB
    requires names[i] !in positionsB ==>
               orderA == orderB + [names[i]] && locksA == locksB + [Lock(names[i], |locksB| - 1)]
               && positionsA == positionsB[names[i] := |locksB|]
    ensures Registered(names[..i + 1], order0, locks0, positions0, orderA, locksA, positionsA)
  {
    var ms := Missing(names[..i], positions0.Keys);
    RegisteredKnows(names, i, order0, locks0, positions0, orderB, locksB, positionsB);
    MissingStep(names, i, positions0.Keys);
    if names[i] !in positions0 {
      AppendRegistered(order0, locks0, positions0, ms, names[i], orderB, locksB, positionsB);
      assert Missing(names[..i + 1], positions0.Keys) == ms + [names[i]];
    } else {
      assert Missing(names[..i + 1], positions0.Keys) == ms;
    }
  }

  /** Registering the missing names keeps positions growing along the
      index: each gets a position past every earlier one. */
  lemma RegisteredOrdered(names: seq<string>, order0: seq<string>, locks0: seq<Lock>, positions0: map<string, nat>)
    requires ConsistentState(locks0, order0, positions0) && Distinct(names)
    ensures var ms := Missing(names, positions0.Keys);
            OrderedState(order0, positions0) ==> OrderedState(order0 + ms, Assign(positions0, ms, |locks0|))
  {
    var ms := Missing(names, positions0.Keys);
    MissingMembers(names, positions0.Keys);
    MissingDistinct(names, positions0.Keys);
    if OrderedState(order0, positions0) {
      AssignOrdered(order0, positions0, ms, |locks0|);
    }
  }

  /** The missing names of distinct names are distinct. */
  lemma {:induction false} MissingDistinct(ns: seq<string>, known: set<string>)
    requires Distinct(ns)
    ensures Distinct(Missing(ns, known))
  {
    if ns != [] {
      var init := ns[..|ns| - 1];
      var last := ns[|ns| - 1];
      assert Distinct(init) by {
        assert forall i | 0 <= i < |init| :: init[i] == ns[i];
      }
      MissingDistinct(init, known);
      MissingMembers(init, known);
      assert last !in init by {
        assert forall i | 0 <= i < |init| :: init[i] == ns[i];
      }
    }
  }

  /** Positions assigned from `start` on, to names new to the index, go past
      every position below `start` and grow along the names. */
  lemma {:induction false} AssignOrdered(order0: seq<string>, positions0: map<string, nat>, ms: seq<string>, start: nat)
    requires OrderedState(order0, positions0)
    requires forall i | 0 <= i < |order0| :: order0[i] in positions0
    requires forall k | k in positions0 :: positions0[k] < start
    requires Distinct(ms) && forall m | m in ms :: m !in positions0
    ensures OrderedState(order0 + ms, Assign(positions0, ms, start))
    ensures forall k | k in Assign(positions0, ms, start) :: Assign(positions0, ms, start)[k] < start + |ms|
  {
    if ms != [] {
      var init := ms[..|ms| - 1];
      var n := ms[|ms| - 1];
      assert Distinct(init) && n !in init by {
        assert forall i | 0 <= i < |init| :: init[i] == ms[i];
      }
      AssignOrdered(order0, positions0, init, start);
      AssignKeys(positions0, init, start);
      var a := Assign(positions0, init, start);
      assert Assign(positions0, ms, start) == a[n := start + |init|];
      var o := order0 + init;
      assert forall i | 0 <= i < |o| :: o[i] in a by {
        forall i | 0 <= i < |o|
          ensures o[i] in a
        {
          if i >= |order0| {
            assert o[i] == init[i - |order0|];
          }
        }
      }
      assert n !in o;
      assert order0 + ms == o + [n];
      forall i, j | 0 <= i < j < |o + [n]|
        ensures (o + [n])[i] in a[n := start + |init|] && (o + [n])[j] in a[n := start + |init|]
                && a[n := start + |init|][(o + [n])[i]] < a[n := start + |init|][(o + [n])[j]]
      {
        assert (o + [n])[i] == o[i];
        if j < |o| {
          assert (o + [n])[j] == o[j];
        }
      }
    }
  }

  /** Registering one more name extends the three parts of the state the
      way one more missing name does. */
  lemma AppendRegistered(order0: seq<string>, locks0: seq<Lock>, positions0: map<string, nat>, ms: seq<string>, n: string,
                         order: seq<string>, locks: seq<Lock>, positions: map<string, nat>)
    requires order == order0 + ms && locks == locks0 + NewLocks(ms, |locks0|) && positions == Assign(positions0, ms, |locks0|)
    ensures order + [n] == order0 + (ms + [n])
    ensures locks + [Lock(n, |locks| - 1)] == locks0 + NewLocks(ms + [n], |locks0|)
    ensures positions[n := |locks|] == Assign(positions0, ms + [n], |locks0|)
  {
    AppendStep(positions0, ms, n, |locks0|);
    assert locks + [Lock(n, |locks| - 1)] == locks0 + (NewLocks(ms, |locks0|) + [Lock(n, |locks0| + |ms| - 1)]);
  }

  /** Before a turn of the registering loop, the next name is in the index
      just when it was there at the start, and one lock exists per name
      registered so far. */
  lemma RegisteredKnows(names: seq<string>, i: nat, order0: seq<string>, locks0: seq<Lock>, positions0: map<string, nat>,
                        order: seq<string>, locks: seq<Lock>, positions: map<string, nat>)
    requires Distinct(names) && i < |names|
    requires Registered(names[..i], order0, locks0, positions0, order, locks, positions)
    ensures names[i] in positions <==> names[i] in positions0
    ensures |locks| == |locks0| + |Missing(names[..i], positions0.Keys)|
  {
    var ms := Missing(names[..i], positions0.Keys);
    MissingMembers(names[..i], positions0.Keys);
    AssignKeys(positions0, ms, |locks0|);
    assert names[i] !in names[..i];
  }

  lemma MissingStep(ns: seq<string>, i: nat, known: set<string>)
    requires i < |ns|
    ensures Missing(ns[..i + 1], known) == Missing(ns[..i], known) + (if ns[i] in known then [] else [ns[i]])
  {
    assert ns[..i + 1][..i] == ns[..i];
  }

  lemma AppendStep(m: map<string, nat>, ms: seq<string>, n: string, start: nat)
    ensures NewLocks(ms + [n], start) == NewLocks(ms, start) + [Lock(n, start + |ms| - 1)]
    ensures Assign(m, ms + [n], start) == Assign(m, ms, start)[n := start + |ms|]
  {
    assert (ms + [n])[..|ms|] == ms;
  }

  /** Assigning positions adds exactly the assigned names and leaves the
      other entries alone. */
  lemma {:induction false} AssignKeys(m: map<string, nat>, ms: seq<string>, start: nat)
    ensures forall k :: k in Assign(m, ms, start) <==> k in m || k in ms
    ensures forall k | k in m && k !in ms :: Assign(m, ms, start)[k] == m[k]
  {
    if ms != [] {
      var init := ms[..|ms| - 1];
      AssignKeys(m, init, start);
      assert ms == init + [ms[|ms| - 1]];
    }
  }

  predicate SortedByIndex(ls: seq<Lock>)
  {
    forall i, j | 0 <= i < j < |ls| :: ls[i].index < ls[j].index
  }

  /** The registry's invariant: each lock's `index` is one less than its
      list position, the index has exactly the names of `order`, and each
      name points at a lock of that name. */
  ghost predicate ConsistentState(locks: seq<Lock>, order: seq<string>, positions: map<string, nat>)
  {
    (forall i | 0 <= i < |locks| :: locks[i].index == i - 1)
    && Distinct(order)
    && (forall i | 0 <= i < |order| :: order[i] in positions)
    && (forall k | k in positions :: k in order)
    && (forall k | k in positions :: positions[k] < |locks| && locks[positions[k]].name == k)
  }

  /** Positions grow along the index: true as long as every name was
      registered once. */
  ghost predicate OrderedState(order: seq<string>, positions: map<string, nat>)
  {
    forall i, j | 0 <= i < j < |order| ::
      order[i] in positions && order[j] in positions && positions[order[i]] < positions[order[j]]
  }

  /** `get_lock` keeps the registry's invariant, and, for a new name, the
      order of positions along the index. */
  lemma GetLockStep(locks: seq<Lock>, order: seq<string>, positions: map<string, nat>, name: string,
                    locks': seq<Lock>, order': seq<string>, positions': map<string, nat>)
    requires ConsistentState(locks, order, positions)
    requires locks' == locks + [Lock(name, |locks| - 1)]
    requires order' == if name in positions then order else order + [name]
    requires positions' == positions[name := |locks|]
    ensures ConsistentState(locks', order', positions')
    ensures name !in positions && OrderedState(order, positions) ==> OrderedState(order', positions')
  {
    LocksStep(locks, positions, name, locks', positions');
    OrderStep(order, positions, name, |locks|, order', positions');
  }

  /** The lock list side of `get_lock`: the appended lock has `index` one
      less than its position, and every name still points at its lock. */
  lemma LocksStep(locks: seq<Lock>, positions: map<string, nat>, name: string,
                  locks': seq<Lock>, positions': map<string, nat>)
    requires forall i | 0 <= i < |locks| :: locks[i].index == i - 1
    requires forall k | k in positions :: positions[k] < |locks| && locks[positions[k]].name == k
    requires locks' == locks + [Lock(name, |locks| - 1)]
    requires positions' == positions[name := |locks|]
    ensures forall i | 0 <= i < |locks'| :: locks'[i].index == i - 1
    ensures forall k | k in positions' :: positions'[k] < |locks'| && locks'[positions'[k]].name == k
  {
    assert forall i | 0 <= i < |locks| :: locks'[i] == locks[i];
  }

  /** The index side of `get_lock`: a new name joins the end of the order
      with a position past every other. */
  lemma OrderStep(order: seq<string>, positions: map<string, nat>, name: string, n: nat,
                  order': seq<string>, positions': map<string, nat>)
    requires Distinct(order)
    requires forall i | 0 <= i < |order| :: order[i] in positions
    requires forall k | k in positions :: k in order && positions[k] < n
    requires order' == if name in positions then order else order + [name]
    requires positions' == positions[name := n]
    ensures Distinct(order')
    ensures forall i | 0 <= i < |order'| :: order'[i] in positions'
    ensures forall k | k in positions' :: k in order'
    ensures name !in positions && OrderedState(order, positions) ==> OrderedState(order', positions')
  {
    if name !in positions {
      assert forall i | 0 <= i < |order| :: order'[i] == order[i];
      assert order'[|order|] == name;
    }
  }

  /** The registry right after `__init__`: the global lock alone, at position 0. */
  lemma InitialState()
    ensures ConsistentState([Lock(GlobalName, -1)], [GlobalName], map[GlobalName := 0])
    ensures OrderedState([GlobalName], map[GlobalName := 0])
  {
  }

  class Registry {
    /** `_locks`: every lock ever created, in creation order. */
    var locks: seq<Lock>
    /** The keys of `_locks_index`, in insertion order. */
    var order: seq<string>
    /** `_locks_index`: the list position of each name's lock. */
    var positions: map<string, nat>
    /** `global_lock`. */
    var globalLock: Lock

    ghost predicate Consistent()
      reads this
    {
      ConsistentState(locks, order, positions)
    }

    ghost predicate Valid()
      reads this
    {
      Consistent() && |locks| > 0 && globalLock == locks[0]
    }

    ghost predicate Ordered()
      reads this
    {
      OrderedState(order, positions)
    }

    /** `_SynchronizedType.__init__`: empty registry, then the global lock. */
    constructor ()
      ensures Valid() && Ordered()
      ensures locks == [Lock(GlobalName, -1)] && order == [GlobalName]
      ensures positions == map[GlobalName := 0] && globalLock == Lock(GlobalName, -1)
    {
      locks := [];
      order := [];
      positions := map[];
      globalLock := Lock(GlobalName, -1);
      new;
      globalLock := GetLock(GlobalName);
      InitialState();
    }

    /** `get_lock(name)`.  Its guard compares the name with lock objects, so
        it never holds: a new lock is always created and appended, with
        `index` one less than its position, and the name is pointed at it. */
    method GetLock(name: string) returns (l: Lock)
      requires Consistent()
      modifies this
      ensures Consistent()
      ensures l == Lock(name, |old(locks)| - 1)
      ensures locks == old(locks) + [l]
      ensures positions == old(positions)[name := |old(locks)|]
      ensures order == if name in old(positions) then old(order) else old(order) + [name]
      ensures globalLock == old(globalLock)
      ensures name !in old(positions) && old(Ordered()) ==> Ordered()
    {
      ghost var locks0, order0, positions0 := locks, order, positions;
      l := Lock(name, |locks| - 1);
      locks := locks + [l];
      if name !in positions {
        order := order + [name];
      }
      positions := positions[name := |locks| - 1];
      l := locks[positions[name]];
      GetLockStep(locks0, order0, positions0, name, locks, order, positions);
    }

    /** One step of the registering loop of `build_locks`: a lock for
        `name` unless the index already has one. */
    method Register(name: string)
      requires Valid()
      modifies this
      ensures Valid() && globalLock == old(globalLock)
      ensures name in old(positions) ==> order == old(order) && locks == old(locks) && positions == old(positions)
      ensures name !in old(positions) ==>
                order == old(order) + [name] && locks == old(locks) + [Lock(name, |old(locks)| - 1)]
                && positions == old(positions)[name := |old(locks)|]
      ensures old(Ordered()) ==> Ordered()
    {
      if name !in positions {
        var _ := GetLock(name);
      }
    }

    /** The registering loop of `build_locks`: a lock for every name not
        yet in the index, in the order given. */
    method RegisterMissing(names: seq<string>)
      requires Valid() && Distinct(names)
      modifies this
      ensures Valid() && globalLock == old(globalLock)
      ensures order == old(order) + Missing(names, old(positions).Keys)
      ensures locks == old(locks) + NewLocks(Missing(names, old(positions).Keys), |old(locks)|)
      ensures positions == Assign(old(positions), Missing(names, old(positions).Keys), |old(locks)|)
      ensures old(Ordered()) ==> Ordered()
    {
      ghost var order0, locks0, positions0 := order, locks, positions;
      var i := 0;
      // The `== true` keeps each predicate one opaque fact in the loop's
      // proof instead of letting the verifier split it into its conjuncts.
      while i < |names|
        invariant 0 <= i <= |names|
        invariant Valid() == true && globalLock == old(globalLock)
        invariant Registered(names[..i], order0, locks0, positions0, order, locks, positions) == true
      {
        RegisterNext(names, i, order0, locks0, positions0);
        i := i + 1;
      }
      assert names[..i] == names;
      assert Registered(names, order0, locks0, positions0, order, locks, positions);
      RegisteredOrdered(names, order0, locks0, positions0);
    }

    /** One turn of the registering loop: `names[i]` gets a lock if it has none. */
    method RegisterNext(names: seq<string>, i: nat, ghost order0: seq<string>, ghost locks0: seq<Lock>,
                        ghost positions0: map<string, nat>)
      requires Valid() && Distinct(names) && i < |names|
      requires Registered(names[..i], order0, locks0, positions0, order, locks, positions)
      modifies this
      ensures Valid() && globalLock == old(globalLock)
      ensures Registered(names[..i + 1], order0, locks0, positions0, order, locks, positions)
    {
      ghost var orderB, locksB, positionsB := order, locks, positions;
      Register(names[i]);
      RegisterStep(names, i, order0, locks0, positions0, orderB, locksB, positionsB, order, locks, positions);
    }

    /** `build_locks(*names)`, with `names` the distinct names in the order
        the set of them is iterated.  No names: the global lock alone, and
        nothing changes.  Otherwise the missing names are registered in
        that order and the locks of all the names come back in index order. */
    method BuildLocks(names: seq<string>) returns (res: seq<Lock>)
      requires Valid() && Distinct(names)
      modifies this
      ensures Valid() && globalLock == old(globalLock)
      ensures names == [] ==>
                res == [globalLock] && order == old(order) && locks == old(locks) && positions == old(positions)
      ensures names != [] ==>
                order == old(order) + Missing(names, old(positions).Keys)
                && locks == old(locks) + NewLocks(Missing(names, old(positions).Keys), |old(locks)|)
                && positions == Assign(old(positions), Missing(names, old(positions).Keys), |old(locks)|)
                && res == Selected(order, positions, locks, names)
      ensures old(Ordered()) ==> Ordered()
    {
      if names == [] {
        return [globalLock];
      }
      RegisterMissing(names);
      res := Selected(order, positions, locks, names);
    }
  }

  /** A Python object: `None` or anything else. */
  datatype Value = NoneObject | Obj(id: nat)

  /** What a call of a `synchronized` instance gives back. */
  datatype CallOutcome =
    | ReturnsSelf
    | Forwarded(target: Value, args: seq<Value>, kwargs: map<string, Value>, held: seq<Lock>)
    | AssertionFailed

  class Synchronized {
    /** The locks held while the target runs. */
    var locks: seq<Lock>
    /** The wrapped function, once known. */
    var target: Option<Value>

    /** `synchronized(*names)`: its locks come from `build_locks`, which
        registers the missing names in the shared registry; no target yet. */
    constructor (registry: Registry, names: seq<string>)
      requires registry.Valid() && Distinct(names)
      modifies registry
      ensures registry.Valid() && registry.globalLock == old(registry.globalLock)
      ensures names == [] ==>
                locks == [registry.globalLock] && registry.order == old(registry.order)
                && registry.locks == old(registry.locks) && registry.positions == old(registry.positions)
      ensures names != [] ==>
                registry.order == old(registry.order) + Missing(names, old(registry.positions).Keys)
                && registry.locks == old(registry.locks) + NewLocks(Missing(names, old(registry.positions).Keys), |old(registry.locks)|)
                && registry.positions == Assign(old(registry.positions), Missing(names, old(registry.positions).Keys), |old(registry.locks)|)
                && locks == Selected(registry.order, registry.positions, registry.locks, names)
      ensures old(registry.Ordered()) ==> registry.Ordered()
      ensures target == None
    {
      var built := registry.BuildLocks(names);
      locks := built;
      target := None;
    }

    /** `__call__`: the first call must pass the one function to wrap,
        stores it and returns the instance; every later call is forwarded
        to that function under the locks.  A first call passing `None`
        leaves the instance still waiting for its target. */
    method Call(args: seq<Value>, kwargs: map<string, Value>) returns (r: CallOutcome)
      modifies this
      ensures locks == old(locks)
      ensures old(target).Some? ==> target == old(target) && r == Forwarded(old(target).value, args, kwargs, locks)
      ensures old(target).None? && !(|args| == 1 && kwargs == map[]) ==> target == None && r == AssertionFailed
      ensures old(target).None? && |args| == 1 && kwargs == map[] ==>
                r == ReturnsSelf && target == (if args[0] == NoneObject then None else Some(args[0]))
    {
      if target == None {
        if !(|args| == 1 && kwargs == map[]) {
          return AssertionFailed;
        }
        target := if args[0] == NoneObject then None else Some(args[0]);
        return ReturnsSelf;
      }
      r := Forwarded(target.value, args, kwargs, locks);
    }
  }

  // ---------------------------------------------------------------------
  // What `build_locks` returns
  // ---------------------------------------------------------------------

  /** The selection holds exactly the locks of the asked-for names found in the keys, each once. */
  lemma {:induction false} SelectedMembers(keys: seq<string>, positions: map<string, nat>, locks: seq<Lock>, names: seq<string>)
    requires forall k | k in keys :: k in positions && positions[k] < |locks| && locks[positions[k]].name == k
    requires Distinct(keys)
    ensures |Selected(keys, positions, locks, names)| == |set k | k in keys && k in names|
    ensures forall l | l in Selected(keys, positions, locks, names) :: l.name in keys && l.name in names
    ensures forall k | k in keys && k in names :: locks[positions[k]] in Selected(keys, positions, locks, names)
  {
    if keys != [] {
      var tail := keys[1..];
      SelectedMembers(tail, positions, locks, names);
      assert keys[0] !in tail;
      AskedStep(keys, names);
    }
  }

  /** The asked-for names among the keys: those of the tail, and the head if asked for. */
  lemma AskedStep(keys: seq<string>, names: seq<string>)
    requires keys != [] && keys[0] !in keys[1..]
    ensures |set k | k in keys && k in names| == |set k | k in keys[1..] && k in names| + if keys[0] in names then 1 else 0
  {
    var s := set k | k in keys && k in names;
    var t := set k | k in keys[1..] && k in names;
    assert keys == [keys[0]] + keys[1..];
    if keys[0] in names {
      assert s == t + {keys[0]};
    } else {
      assert s == t;
    }
  }

  /** When positions grow along the keys, the selected locks come back with
      strictly increasing `index`: every caller acquires them in one order. */
  lemma {:induction false} SelectedSorted(keys: seq<string>, positions: map<string, nat>, locks: seq<Lock>, names: seq<string>)
    requires forall k | k in keys :: k in positions && positions[k] < |locks|
    requires forall i | 0 <= i < |locks| :: locks[i].index == i - 1
    requires forall i, j | 0 <= i < j < |keys| :: positions[keys[i]] < positions[keys[j]]
    ensures SortedByIndex(Selected(keys, positions, locks, names))
    ensures forall l | l in Selected(keys, positions, locks, names) ::
              keys != [] && positions[keys[0]] - 1 <= l.index
  {
    if keys != [] {
      var tail := keys[1..];
      forall i, j | 0 <= i < j < |tail|
        ensures positions[tail[i]] < positions[tail[j]]
      {
        assert tail[i] == keys[i + 1] && tail[j] == keys[j + 1];
      }
      SelectedSorted(tail, positions, locks, names);
      var rest := Selected(tail, positions, locks, names);
      forall l | l in rest
        ensures positions[keys[0]] - 1 < l.index
      {
        assert keys[1] == tail[0];
      }
    }
  }

  /** `build_locks` gives one lock per asked-for name, named after it, and,
      on a registry where every name was registered once, in strictly
      increasing `index` order: two names always come back in the same
      relative order, whichever function asks for them. */
  lemma BuildLocksResult(r: Registry, names: seq<string>, res: seq<Lock>)
    requires r.Valid() && r.Ordered() && Distinct(names) && names != []
    requires forall n | n in names :: n in r.positions
    requires res == Selected(r.order, r.positions, r.locks, names)
    ensures |res| == |set n | n in names|
    ensures forall n | n in names :: exists l | l in res :: l.name == n
    ensures forall l | l in res :: l.name in names
    ensures SortedByIndex(res)
  {
    SelectedMembers(r.order, r.positions, r.locks, names);
    SelectedSorted(r.order, r.positions, r.locks, names);
    assert (set k | k in r.order && k in names) == (set n | n in names);
    forall n | n in names
      ensures exists l | l in res :: l.name == n
    {
      assert r.locks[r.positions[n]] in res;
    }
  }

  // ---------------------------------------------------------------------
  // `decorator`: how the outer decorator reads its arguments
  // ---------------------------------------------------------------------

  /** An argument of the outer decorator: a function, a type, or anything else. */
  datatype Arg = Function(fid: nat) | Type(tid: nat) | Other(oid: nat)

  /** The call the decorated `caller` finally receives. */
  datatype CallerCall = CallerCall(positional: seq<Arg>, keywords: map<string, Arg>)

  /** What `outer_decorator(*args, **kwargs)` does. */
  datatype Dispatch =
    | AppliedNow(call: CallerCall)                          // the caller ran on the one function
    | Deferred(args: seq<Arg>, kwargs: map<string, Arg>)    // a one-argument decorator
    | CallerItself                                          // the caller, undecorated

  function OuterDecorator(args: seq<Arg>, kwargs: map<string, Arg>): Dispatch
  {
    if |args| == 1 && kwargs == map[] && (args[0].Function? || args[0].Type?) then
      AppliedNow(CallerCall([args[0]], kwargs))
    else if |args| > 0 || |kwargs| > 0 then
      Deferred(args, kwargs)
    else
      CallerItself
  }

  /** `_decorator(func)`: the caller receives the function first, then the
      decorator's own arguments. */
  function ApplyDeferred(d: Dispatch, func: Arg): (c: CallerCall)
    requires d.Deferred?
    ensures |c.positional| == |d.args| + 1 && c.positional[0] == func && c.positional[1..] == d.args && c.keywords == d.kwargs
  {
    CallerCall([func] + d.args, d.kwargs)
  }

  /** The three cases are exactly: one function or type and no keywords;
      any other non-empty arguments; no arguments at all. */
  lemma DispatchCases(args: seq<Arg>, kwargs: map<string, Arg>)
    ensures OuterDecorator(args, kwargs).AppliedNow? <==>
              |args| == 1 && kwargs == map[] && (args[0].Function? || args[0].Type?)
    ensures OuterDecorator(args, kwargs).Deferred? <==>
              (|args| > 0 || kwargs != map[]) && !(|args| == 1 && kwargs == map[] && (args[0].Function? || args[0].Type?))
    ensures OuterDecorator(args, kwargs) == CallerItself <==> args == [] && kwargs == map[]
  {
    if kwargs != map[] {
      var k :| k in kwargs;
      assert |kwargs| > 0;
    }
  }

  /** Decorating `f` with `@dec` or with `@dec()` makes the same call `caller(f)`. */
  lemma ParenthesesOptional(f: Arg)
    requires f.Function?
    ensures OuterDecorator([f], map[]) == AppliedNow(CallerCall([f], map[]))
    ensures OuterDecorator([], map[]) == CallerItself
  {
  }

  /** A decorator given arguments defers: decorating `f` then calls the
      caller with `f` before those arguments. */
  lemma ArgumentsDefer(a: Arg, f: Arg)
    requires a.Other?
    ensures OuterDecorator([a], map[]).Deferred?
    ensures ApplyDeferred(OuterDecorator([a], map[]), f) == CallerCall([f, a], map[])
  {
  }

  /** The documented pitfall: a single function passed as the decorator's
      only argument is taken as the function to decorate, so the caller
      runs at once on it instead of deferring. */
  lemma FunctionArgumentRunsAtOnce(p: Arg)
    requires p.Function?
    ensures !OuterDecorator([p], map[]).Deferred?
    ensures OuterDecorator([p], map[]).call.positional == [p]
  {
  }
}
