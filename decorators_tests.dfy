/** The locking scenario of the `synchronized` tests, worked through on the model. */
module DecoratorExamples {
  import opened Decorators

  const Names := [GlobalName, "lock1", "lock2"]
  const Locks := [Lock(GlobalName, -1), Lock("lock1", 0), Lock("lock2", 1)]
  const Positions := map[GlobalName := 0, "lock1" := 1, "lock2" := 2]

  /** Asking for `lock1` and `lock2` on a fresh registry creates both, in that order. */
  lemma FirstRequest()
    ensures Distinct(["lock1", "lock2"])
    ensures [GlobalName] + Missing(["lock1", "lock2"], map[GlobalName := 0].Keys) == Names
    ensures [Lock(GlobalName, -1)] + NewLocks(["lock1", "lock2"], 1) == Locks
    ensures Missing(["lock1", "lock2"], map[GlobalName := 0].Keys) == ["lock1", "lock2"]
    ensures Assign(map[GlobalName := 0], ["lock1", "lock2"], 1) == Positions
  {
    assert map[GlobalName := 0].Keys == {GlobalName};
    assert ["lock1", "lock2"][..1] == ["lock1"];
    assert "lock1" != "lock2" && GlobalName != "lock1" && GlobalName != "lock2";
    assert Assign(map[GlobalName := 0], ["lock1"], 1) == map[GlobalName := 0]["lock1" := 1];
    assert Assign(map[GlobalName := 0], ["lock1", "lock2"], 1) == map[GlobalName := 0]["lock1" := 1]["lock2" := 2];
  }

  /** Asking again, in the other order, creates nothing. */
  lemma SecondRequest()
    ensures Distinct(["lock2", "lock1"])
    ensures Missing(["lock2", "lock1"], Positions.Keys) == []
    ensures Names + [] == Names && Locks + NewLocks([], |Locks|) == Locks && Assign(Positions, [], |Locks|) == Positions
  {
    assert Positions.Keys == {GlobalName, "lock1", "lock2"};
    assert ["lock2", "lock1"][..1] == ["lock2"];
  }

  /** Either way the two locks are selected in registration order. */
  lemma Selections()
    ensures Selected(Names, Positions, Locks, ["lock1", "lock2"]) == [Lock("lock1", 0), Lock("lock2", 1)]
    ensures Selected(Names, Positions, Locks, ["lock2", "lock1"]) == [Lock("lock1", 0), Lock("lock2", 1)]
  {
    assert "lock1" != "lock2" && GlobalName != "lock1" && GlobalName != "lock2";
    assert Names[1..] == ["lock1", "lock2"] && Names[1..][1..] == ["lock2"];
    assert Positions["lock1"] == 1 && Positions["lock2"] == 2;
    forall names | names == ["lock1", "lock2"] || names == ["lock2", "lock1"]
      ensures Selected(Names, Positions, Locks, names) == [Lock("lock1", 0), Lock("lock2", 1)]
    {
      assert Selected(["lock2"], Positions, Locks, names) == [Lock("lock2", 1)];
      assert Selected(["lock1", "lock2"], Positions, Locks, names) == [Lock("lock1", 0), Lock("lock2", 1)];
    }
  }

  /** Two functions asking for the same two locks, named in either order,
      get them in the same order; a function asking for none gets the
      global lock alone. */
  method SharedLocksSameOrder() returns (first: seq<Lock>, second: seq<Lock>, plain: seq<Lock>)
    ensures first == second == [Lock("lock1", 0), Lock("lock2", 1)]
    ensures plain == [Lock(GlobalName, -1)]
  {
    FirstRequest();
    SecondRequest();
    Selections();
    var registry := new Registry();
    var f := new Synchronized(registry, ["lock1", "lock2"]);
    assert registry.order == Names && registry.locks == Locks && registry.positions == Positions;
    var g := new Synchronized(registry, ["lock2", "lock1"]);
    assert registry.order == Names && registry.locks == Locks && registry.positions == Positions;
    var h := new Synchronized(registry, []);
    first, second, plain := f.locks, g.locks, h.locks;
  }
}
