/** Properties of the bounded-iteration protocol that hold for every run:
    every exit closes what it started, `whenall` / `whenany` are the AND / OR
    of their children, the call arguments reach every predicate of a tree,
    and a run stops exactly at the first value after which its predicate
    says stop. */
module BoundProperties {
  import opened Bound

  // ---------------------------------------------------------------------
  // Closing
  // ---------------------------------------------------------------------

  /** After `close()` nothing in the predicate is left suspended. */
  lemma {:induction false} CloseSettles(s: PredState)
    ensures Settled(Close(s))
    decreases s
  {
    match s
    case LeafState(_, _, _, _, _) =>
    case GroupState(all, cs, phase) =>
      var kids := seq(|cs|, i requires 0 <= i < |cs| => Close(cs[i]));
      forall c | c in kids
        ensures Settled(c)
      {
        var i :| 0 <= i < |cs| && kids[i] == c;
        CloseSettles(cs[i]);
      }
  }

  /** Every predicate, leaf or combinator, follows the generator protocol:
      once finished or closed it only ends again and does not change; before
      its priming `next` it refuses any other message with `TypeError`; and
      once primed it never goes back to its created phase. */
  lemma GeneratorProtocol(s: PredState, msg: Msg)
    ensures (s.phase.Finished? || s.phase.Closed?) ==> Advance(s, msg) == (s, Ended)
    ensures s.phase.Created? && !msg.Prime? ==> Advance(s, msg) == (s, Raised(TypeError))
    ensures msg.Prime? || !s.phase.Created? ==> !Advance(s, msg).0.phase.Created?
  {
  }

  /** Closing twice is closing once: a generator that has ended is left alone. */
  lemma {:induction false} CloseIdempotent(s: PredState)
    ensures Close(Close(s)) == Close(s)
    decreases s
  {
    match s
    case LeafState(_, _, _, _, _) =>
    case GroupState(all, cs, phase) =>
      var kids := seq(|cs|, i requires 0 <= i < |cs| => Close(cs[i]));
      forall i | 0 <= i < |cs|
        ensures Close(kids[i]) == kids[i]
      {
        CloseIdempotent(cs[i]);
      }
      assert seq(|kids|, i requires 0 <= i < |kids| => Close(kids[i])) == kids;
  }

  predicate DataSettled(p: DataProc)
  {
    p.phase.Finished? || p.phase.Closed?
  }

  /** Whatever the outcome, the predicate and the data process a run created
      are both closed or ended when it returns. */
  lemma RunSettles(data: DataArg, pred: PredArg, args: CallArgs, clock: nat -> nat, fuel: nat)
    ensures var o := Run(data, pred, args, clock, fuel);
            (o.pred.Some? ==> Settled(o.pred.value)) && (o.data.Some? ==> DataSettled(o.data.value))
  {
    match StartData(data, args)
    case None =>
    case Some(p) =>
      match InstantiateArg(pred)
      case None =>
      case Some(s) =>
        var (s', initial) := Handshake(s, args, clock);
        if !initial.Signal? || initial.stop {
          CloseSettles(s');
        } else {
          CyclesSettle(p, s', [], clock, fuel);
        }
  }

  lemma {:induction false} CyclesSettle(p: DataProc, s: PredState, values: seq<Value>, clock: nat -> nat, fuel: nat)
    ensures var o := Cycles(p, s, values, clock, fuel);
            o.pred.Some? && Settled(o.pred.value) && o.data.Some? && DataSettled(o.data.value)
    decreases fuel
  {
    if fuel == 0 {
      CloseSettles(s);
    } else {
      var (p', pulled) := Next(p);
      if !pulled.Yield? {
        CloseSettles(s);
      } else {
        var values' := values + [pulled.v];
        var (s', reply) := Advance(s, Cycle(pulled.v, clock(|values'|)));
        if !reply.Signal? || reply.stop {
          CloseSettles(s');
        } else {
          CyclesSettle(p', s', values', clock, fuel - 1);
        }
      }
    }
  }

  // ---------------------------------------------------------------------
  // Combinators
  // ---------------------------------------------------------------------

  /** Broadcasting succeeds exactly when every child answers with a signal,
      and then it is the children advanced one by one. */
  lemma BroadcastIsMap(s: PredState, i: nat, msg: Msg)
    requires s.GroupState? && i <= |s.children|
    ensures var r := BroadcastFrom(s, i, msg);
            (r.1.Signals? <==> forall j | i <= j < |s.children| :: Advance(s.children[j], msg).1.Signal?)
            && (r.1.Signals? ==> forall k | 0 <= k < |s.children| - i ::
                                   r.0[k] == Advance(s.children[i + k], msg).0
                                   && r.1.sigs[k] == Advance(s.children[i + k], msg).1.stop)
  {
    BroadcastSucceeds(s, i, msg);
    BroadcastValues(s, i, msg);
  }

  /** Broadcasting succeeds exactly when every child answers with a signal. */
  lemma {:induction false} BroadcastSucceeds(s: PredState, i: nat, msg: Msg)
    requires s.GroupState? && i <= |s.children|
    ensures BroadcastFrom(s, i, msg).1.Signals? <==> forall j | i <= j < |s.children| :: Advance(s.children[j], msg).1.Signal?
    decreases |s.children| - i
  {
    if i < |s.children| {
      BroadcastSucceeds(s, i + 1, msg);
    }
  }

  /** A successful broadcast holds the children advanced one by one, and their signals. */
  lemma BroadcastValues(s: PredState, i: nat, msg: Msg)
    requires s.GroupState? && i <= |s.children|
    ensures var r := BroadcastFrom(s, i, msg);
            r.1.Signals? ==> forall k | 0 <= k < |s.children| - i ::
                               Advance(s.children[i + k], msg) == (r.0[k], Signal(r.1.sigs[k]))
  {
    forall k | 0 <= k < |s.children| - i
      ensures var r := BroadcastFrom(s, i, msg);
              r.1.Signals? ==> Advance(s.children[i + k], msg) == (r.0[k], Signal(r.1.sigs[k]))
    {
      BroadcastAt(s, i, k, msg);
    }
  }

  /** The `k`-th entry of a successful broadcast from `i` is child `i + k` advanced. */
  lemma {:induction false} BroadcastAt(s: PredState, i: nat, k: nat, msg: Msg)
    requires s.GroupState? && i + k < |s.children|
    ensures var r := BroadcastFrom(s, i, msg);
            r.1.Signals? ==> Advance(s.children[i + k], msg) == (r.0[k], Signal(r.1.sigs[k]))
    decreases k
  {
    var (c, reply) := Advance(s.children[i], msg);
    if reply.Signal? && k > 0 {
      BroadcastAt(s, i + 1, k - 1, msg);
      assert i + 1 + (k - 1) == i + k;
    }
  }

  /** `whenall` stops exactly when every child says stop, `whenany` when
      some child does; a child that ends or raises ends the combinator. */
  lemma GroupSignal(all: bool, cs: seq<PredState>, msg: Msg)
    requires !msg.Prime?
    ensures var r := Advance(GroupState(all, cs, Suspended), msg);
            (r.1.Signal? <==> forall j | 0 <= j < |cs| :: Advance(cs[j], msg).1.Signal?)
            && (r.1.Signal? ==>
                  r.0 == GroupState(all, seq(|cs|, j requires 0 <= j < |cs| => Advance(cs[j], msg).0), Suspended)
                  && (all ==> (r.1.stop <==> forall j | 0 <= j < |cs| :: Advance(cs[j], msg).1.stop))
                  && (!all ==> (r.1.stop <==> exists j | 0 <= j < |cs| :: Advance(cs[j], msg).1.stop)))
  {
    var g := GroupState(all, cs, Suspended);
    BroadcastIsMap(g, 0, msg);
    var (kids, col) := BroadcastFrom(g, 0, msg);
    if col.Signals? {
      forall j | 0 <= j < |cs|
        ensures kids[j] == Advance(cs[j], msg).0 && col.sigs[j] == Advance(cs[j], msg).1.stop
      {
        assert cs[0 + j] == cs[j];
      }
      assert kids == seq(|cs|, j requires 0 <= j < |cs| => Advance(cs[j], msg).0);
      if all {
        assert (forall j | 0 <= j < |cs| :: col.sigs[j]) <==> (forall j | 0 <= j < |cs| :: Advance(cs[j], msg).1.stop);
      } else {
        assert (exists j | 0 <= j < |cs| :: col.sigs[j]) <==> (exists j | 0 <= j < |cs| :: Advance(cs[j], msg).1.stop);
      }
    }
  }

  /** Priming a combinator primes every child; it answers "go on" when they all do. */
  lemma GroupPrimeSignal(all: bool, cs: seq<PredState>)
    requires forall j | 0 <= j < |cs| :: Advance(cs[j], Prime).1.Signal?
    ensures Advance(GroupState(all, cs, Created), Prime)
            == (GroupState(all, seq(|cs|, j requires 0 <= j < |cs| => Advance(cs[j], Prime).0), Suspended), Signal(false))
  {
    var g := GroupState(all, cs, Created);
    BroadcastIsMap(g, 0, Prime);
    var kids := BroadcastFrom(g, 0, Prime).0;
    forall j | 0 <= j < |cs|
      ensures kids[j] == Advance(cs[j], Prime).0
    {
      assert cs[0 + j] == cs[j];
    }
    assert kids == seq(|cs|, j requires 0 <= j < |cs| => Advance(cs[j], Prime).0);
  }

  /** A combinator answers what its first child that does not answer with
      a signal answers. */
  lemma {:induction false} BroadcastFailsAt(s: PredState, i: nat, msg: Msg, j: nat)
    requires s.GroupState? && i <= j < |s.children|
    requires forall k | i <= k < j :: Advance(s.children[k], msg).1.Signal?
    requires !Advance(s.children[j], msg).1.Signal?
    ensures BroadcastFrom(s, i, msg).1 == Failure(Advance(s.children[j], msg).1)
    decreases j - i
  {
    if i < j {
      BroadcastFailsAt(s, i + 1, msg, j);
    }
  }

  lemma GroupFailsAt(all: bool, cs: seq<PredState>, phase: Phase, msg: Msg, j: nat)
    requires (phase.Created? && msg.Prime?) || (phase.Suspended? && !msg.Prime?)
    requires j < |cs| && forall k | 0 <= k < j :: Advance(cs[k], msg).1.Signal?
    requires !Advance(cs[j], msg).1.Signal?
    ensures Advance(GroupState(all, cs, phase), msg).1 == Advance(cs[j], msg).1
  {
    BroadcastFailsAt(GroupState(all, cs, phase), 0, msg, j);
  }

  // ---------------------------------------------------------------------
  // Call arguments
  // ---------------------------------------------------------------------

  /** Every leaf of the predicate has been handed the call arguments `a`. */
  predicate Received(s: PredState, a: CallArgs)
  {
    match s
    case LeafState(_, _, _, _, received) => received == Some(a)
    case GroupState(_, cs, _) => forall c | c in cs :: Received(c, a)
  }

  /** When the `(args, kwargs)` step succeeds, every predicate in the tree
      has received the arguments, whether it was given to a combinator as a
      factory or as an instance. */
  lemma {:induction false} ArgsReachEveryLeaf(s: PredState, a: CallArgs, t: nat)
    requires Advance(s, Args(a, t)).1.Signal?
    ensures Received(Advance(s, Args(a, t)).0, a)
    decreases s
  {
    match s
    case LeafState(_, _, _, _, _) =>
    case GroupState(all, cs, phase) =>
      GroupSignal(all, cs, Args(a, t));
      var kids := Advance(s, Args(a, t)).0.children;
      forall c | c in kids
        ensures Received(c, a)
      {
        var j :| 0 <= j < |cs| && kids[j] == c;
        ArgsReachEveryLeaf(cs[j], a, t);
      }
  }

  lemma HandshakeDeliversArgs(s: PredState, args: CallArgs, clock: nat -> nat)
    requires Handshake(s, args, clock).1.Signal?
    ensures Received(Handshake(s, args, clock).0, args)
  {
    var (s1, primed) := Advance(s, Prime);
    if primed.Signal? {
      ArgsReachEveryLeaf(s1, args, clock(0));
    } else {
      assert false;
    }
  }

  // ---------------------------------------------------------------------
  // Where a run stops
  // ---------------------------------------------------------------------

  /** The data process after `k` pulls, and the values they gave. */
  function Pull(p: DataProc, k: nat): (r: (DataProc, seq<Value>))
    ensures |r.1| == k
  {
    if k == 0 then (p, [])
    else
      var (q, vs) := Pull(p, k - 1);
      var (q', pulled) := Next(q);
      (q', vs + [if pulled.Yield? then pulled.v else NoneValue])
  }

  /** The first `m` pulls all yield a value. */
  predicate YieldsAtLeast(p: DataProc, m: nat)
  {
    forall k | 0 <= k < m :: Next(Pull(p, k).0).1.Yield?
  }

  /** The predicate after the cycles for `vals` (value `j` is sent at clock
      reading `clock(j)`, counting from 1), and its last answer; feeding stops
      at the first answer that is not a signal. */
  function Feed(s: PredState, vals: seq<Value>, clock: nat -> nat): (PredState, Reply)
  {
    if vals == [] then (s, Signal(false))
    else
      var (t, reply) := Feed(s, vals[..|vals| - 1], clock);
      if !reply.Signal? then (t, reply)
      else Advance(t, Cycle(vals[|vals| - 1], clock(|vals|)))
  }

  lemma PullPrefix(p: DataProc, k: nat, j: nat)
    requires j <= k
    ensures Pull(p, k).1[..j] == Pull(p, j).1
    decreases k
  {
    if j < k {
      PullPrefix(p, k - 1, j);
    }
  }

  /** If the predicate's answers after the first `m - 1` values are "go on"
      and after the `m`-th value "stop", the run returns exactly the first
      `m` values, provided the budget allows `m` cycles. */
  lemma StopsAtFirstStop(p: DataProc, s: PredState, clock: nat -> nat, m: nat, fuel: nat)
    requires 1 <= m <= fuel
    requires YieldsAtLeast(p, m)
    requires forall k | 1 <= k < m :: Feed(s, Pull(p, k).1, clock).1 == Signal(false)
    requires Feed(s, Pull(p, m).1, clock).1 == Signal(true)
    ensures Cycles(p, s, [], clock, fuel)
            == Finish(Produced(Pull(p, m).1), Feed(s, Pull(p, m).1, clock).0, Pull(p, m).0)
  {
    StopsFrom(p, s, clock, m, fuel, 0, p, [], s, Pull(p, m).0, Pull(p, m).1, Feed(s, Pull(p, m).1, clock).0);
  }

  /** The hypotheses of `StopsAtFirstStop`, with the `m`-th pull leaving
      the data process `qm` and the values `vsm`, and the predicate `tm`. */
  ghost predicate StopsAfter(p: DataProc, s: PredState, clock: nat -> nat, m: nat, qm: DataProc, vsm: seq<Value>, tm: PredState)
  {
    && YieldsAtLeast(p, m)
    && (forall k | 1 <= k < m :: Feed(s, Pull(p, k).1, clock).1 == Signal(false))
    && Pull(p, m) == (qm, vsm)
    && Feed(s, vsm, clock) == (tm, Signal(true))
  }

  /** After `k` pulls the data process is `q`, the values are `vs`, and the
      predicate, fed with them, is `t` and has answered with a signal. */
  ghost predicate PulledFed(p: DataProc, s: PredState, clock: nat -> nat, k: nat, q: DataProc, vs: seq<Value>, t: PredState)
  {
    Pull(p, k) == (q, vs) && Feed(s, vs, clock).0 == t && Feed(s, vs, clock).1.Signal?
  }

  /** The rest of such a run once `k < m` values were pulled. */
  lemma {:induction false} StopsFrom(p: DataProc, s: PredState, clock: nat -> nat, m: nat, fuel: nat, k: nat,
                                     q: DataProc, vs: seq<Value>, t: PredState,
                                     qm: DataProc, vsm: seq<Value>, tm: PredState)
    requires k < m <= fuel
    requires StopsAfter(p, s, clock, m, qm, vsm, tm) == true
    requires PulledFed(p, s, clock, k, q, vs, t) == true
    ensures Cycles(q, t, vs, clock, fuel - k) == Finish(Produced(vsm), tm, qm)
    decreases m - k
  {
    if k + 1 < m {
      var q', vs', t' := GoesOn(p, s, clock, m, fuel, k, q, vs, t, qm, vsm, tm);
      StopsFrom(p, s, clock, m, fuel, k + 1, q', vs', t', qm, vsm, tm);
    } else {
      StopsLast(p, s, clock, m, fuel, k, q, vs, t, qm, vsm, tm);
    }
  }

  /** A cycle before the `m`-th: the predicate answers "go on", and the run
      continues from the state after `k + 1` pulls. */
  lemma GoesOn(p: DataProc, s: PredState, clock: nat -> nat, m: nat, fuel: nat, k: nat,
               q: DataProc, vs: seq<Value>, t: PredState,
               qm: DataProc, vsm: seq<Value>, tm: PredState)
    returns (q': DataProc, vs': seq<Value>, t': PredState)
    requires k + 1 < m <= fuel
    requires StopsAfter(p, s, clock, m, qm, vsm, tm) == true
    requires PulledFed(p, s, clock, k, q, vs, t) == true
    ensures PulledFed(p, s, clock, k + 1, q', vs', t') == true
    ensures Cycles(q, t, vs, clock, fuel - k) == Cycles(q', t', vs', clock, fuel - (k + 1))
  {
    assert Next(Pull(p, k).0).1.Yield?;
    var v := Next(q).1.v;
    var j := k + 1;
    PullFeedStep(p, s, clock, k, j, q, vs, t);
    var next := Advance(t, Cycle(v, clock(j)));
    CycleThrough(q, t, vs, clock, fuel - k, fuel - j, Next(q).0, v, vs + [v], next);
    assert Feed(s, Pull(p, j).1, clock).1 == Signal(false);
    q', vs', t' := Next(q).0, vs + [v], next.0;
  }

  /** The cycle whose answer is "stop". */
  lemma StopsLast(p: DataProc, s: PredState, clock: nat -> nat, m: nat, fuel: nat, k: nat,
                  q: DataProc, vs: seq<Value>, t: PredState,
                  qm: DataProc, vsm: seq<Value>, tm: PredState)
    requires k + 1 == m <= fuel
    requires StopsAfter(p, s, clock, m, qm, vsm, tm) == true
    requires PulledFed(p, s, clock, k, q, vs, t) == true
    ensures Cycles(q, t, vs, clock, fuel - k) == Finish(Produced(vsm), tm, qm)
  {
    assert Next(Pull(p, k).0).1.Yield?;
    PullFeedStep(p, s, clock, k, m, q, vs, t);
    CycleStops(q, t, vs, clock, fuel - k, fuel - m, qm, Next(q).1.v, vsm, tm);
  }

  /** Pulling one more value and feeding it: the new value is the next one
      the data process yields, and the predicate's new state and answer are
      one cycle with it. */
  lemma PullFeedStep(p: DataProc, s: PredState, clock: nat -> nat, k: nat, j: nat, q: DataProc, vs: seq<Value>, t: PredState)
    requires j == k + 1 && Next(q).1.Yield?
    requires PulledFed(p, s, clock, k, q, vs, t) == true
    ensures Pull(p, j) == (Next(q).0, vs + [Next(q).1.v])
    ensures Feed(s, vs + [Next(q).1.v], clock) == Advance(t, Cycle(Next(q).1.v, clock(j)))
  {
    var vs' := vs + [Next(q).1.v];
    assert vs'[..|vs'| - 1] == vs;
  }

  lemma PullStep(p: DataProc, k: nat)
    requires Next(Pull(p, k).0).1.Yield?
    ensures Pull(p, k + 1).0 == Next(Pull(p, k).0).0
    ensures Pull(p, k + 1).1 == Pull(p, k).1 + [Next(Pull(p, k).0).1.v]
  {
  }

  /** One cycle of a run, with the data process's next state `p'` and value
      `v` and the predicate's answer `next` named by the caller. */
  lemma CycleThrough(p: DataProc, s: PredState, values: seq<Value>, clock: nat -> nat, fuel: nat, fuel': nat,
                     p': DataProc, v: Value, values': seq<Value>, next: (PredState, Reply))
    requires fuel == fuel' + 1 && Next(p) == (p', Yield(v)) && values' == values + [v]
    requires Advance(s, Cycle(v, clock(|values'|))) == next && next.1.Signal?
    ensures Cycles(p, s, values, clock, fuel)
            == if next.1.stop then Finish(Produced(values'), next.0, p') else Cycles(p', next.0, values', clock, fuel')
  {
  }

  /** The last cycle of a run: the predicate answers "stop". */
  lemma CycleStops(p: DataProc, s: PredState, values: seq<Value>, clock: nat -> nat, fuel: nat, fuel': nat,
                   p': DataProc, v: Value, values': seq<Value>, s': PredState)
    requires fuel == fuel' + 1 && Next(p) == (p', Yield(v)) && values' == values + [v]
    requires Advance(s, Cycle(v, clock(|values'|))) == (s', Signal(true))
    ensures Cycles(p, s, values, clock, fuel) == Finish(Produced(values'), s', p')
  {
  }

  /** One cycle of a run that yields a value the predicate answers with a signal. */
  lemma CyclesStep(p: DataProc, s: PredState, values: seq<Value>, clock: nat -> nat, fuel: nat)
    requires fuel > 0 && Next(p).1.Yield?
    requires Advance(s, Cycle(Next(p).1.v, clock(|values| + 1))).1.Signal?
    ensures var (p', v) := (Next(p).0, Next(p).1.v);
            var (s', reply) := Advance(s, Cycle(v, clock(|values| + 1)));
            Cycles(p, s, values, clock, fuel)
            == if reply.stop then Finish(Produced(values + [v]), s', p')
               else Cycles(p', s', values + [v], clock, fuel - 1)
  {
    assert |values + [Next(p).1.v]| == |values| + 1;
  }

  // ---------------------------------------------------------------------
  // The reference predicates, cycle by cycle
  // ---------------------------------------------------------------------

  /** `times(n)`: after `c` cycles the answer is "stop" exactly when `c >= n`. */
  lemma {:induction false} FeedTimes(n: int, steps: nat, rec: Option<CallArgs>, vals: seq<Value>, clock: nat -> nat)
    ensures Feed(LeafState(Times(n), Suspended, steps, 0, rec), vals, clock)
            == (LeafState(Times(n), Suspended, steps + |vals|, |vals|, rec),
                Signal(vals != [] && |vals| >= n))
    decreases |vals|
  {
    if vals != [] {
      FeedTimes(n, steps, rec, vals[..|vals| - 1], clock);
    }
  }

  /** `timed(limit)`: after a cycle the answer is "stop" exactly when the
      time elapsed has reached the limit. */
  lemma {:induction false} FeedTimed(limit: int, steps: nat, rec: Option<CallArgs>, vals: seq<Value>, clock: nat -> nat)
    ensures Feed(LeafState(Timed(limit), Suspended, steps, 0, rec), vals, clock)
            == (LeafState(Timed(limit), Suspended, steps + |vals|, 0, rec),
                Signal(vals != [] && clock(|vals|) >= limit))
    decreases |vals|
  {
    if vals != [] {
      FeedTimed(limit, steps, rec, vals[..|vals| - 1], clock);
    }
  }

  predicate AllNumbers(vals: seq<Value>)
  {
    forall i | 0 <= i < |vals| :: vals[i].Num?
  }

  /** The sum of the numbers among `vals`. */
  function Sum(vals: seq<Value>): int
  {
    if vals == [] then 0
    else Sum(vals[..|vals| - 1]) + (if vals[|vals| - 1].Num? then vals[|vals| - 1].n else 0)
  }

  /** `accumulated(threshold)`: the answer is "stop" exactly when the sum of
      the values so far has reached the threshold. */
  lemma {:induction false} FeedAccumulated(threshold: int, steps: nat, rec: Option<CallArgs>, vals: seq<Value>, clock: nat -> nat)
    requires AllNumbers(vals)
    ensures Feed(LeafState(Accumulated(threshold), Suspended, steps, 0, rec), vals, clock)
            == (LeafState(Accumulated(threshold), Suspended, steps + |vals|, Sum(vals), rec),
                Signal(vals != [] && Sum(vals) >= threshold))
    decreases |vals|
  {
    if vals != [] {
      FeedAccumulated(threshold, steps, rec, vals[..|vals| - 1], clock);
    }
  }

  /** A combinator whose children keep answering with signals answers, after
      each cycle, the AND / OR of what its children answer on their own. */
  lemma {:induction false} FeedGroup(all: bool, cs: seq<PredState>, vals: seq<Value>, clock: nat -> nat)
    requires forall c, j | c in cs && 0 <= j <= |vals| :: Feed(c, vals[..j], clock).1.Signal?
    ensures Feed(GroupState(all, cs, Suspended), vals, clock).0
            == GroupState(all, seq(|cs|, i requires 0 <= i < |cs| => Feed(cs[i], vals, clock).0), Suspended)
    ensures vals == [] ==> Feed(GroupState(all, cs, Suspended), vals, clock).1 == Signal(false)
    ensures vals != [] ==> Feed(GroupState(all, cs, Suspended), vals, clock).1
                           == Signal(Combine(all, seq(|cs|, i requires 0 <= i < |cs| => Feed(cs[i], vals, clock).1 == Signal(true))))
    decreases |vals|
  {
    var n := |vals|;
    if n == 0 {
      assert seq(|cs|, i requires 0 <= i < |cs| => Feed(cs[i], vals, clock).0) == cs;
    } else {
      var pre := vals[..n - 1];
      forall c, j | c in cs && 0 <= j <= |pre|
        ensures Feed(c, pre[..j], clock).1.Signal?
      {
        assert pre[..j] == vals[..j];
      }
      FeedGroup(all, cs, pre, clock);
      var kids := seq(|cs|, i requires 0 <= i < |cs| => Feed(cs[i], pre, clock).0);
      var msg := Cycle(vals[n - 1], clock(n));
      var after := seq(|cs|, i requires 0 <= i < |cs| => Feed(cs[i], vals, clock));
      assert vals[..n] == vals;
      forall i | 0 <= i < |cs|
        ensures Advance(kids[i], msg) == after[i] && after[i].1.Signal?
      {
        assert cs[i] in cs;
        assert Feed(cs[i], vals[..n - 1], clock).1.Signal?;
        assert Feed(cs[i], vals[..n], clock).1.Signal?;
      }
      GroupAdvance(all, kids, msg, after);
      assert seq(|kids|, i requires 0 <= i < |kids| => after[i].0)
          == seq(|cs|, i requires 0 <= i < |cs| => Feed(cs[i], vals, clock).0);
      assert seq(|kids|, i requires 0 <= i < |kids| => after[i].1 == Signal(true))
          == seq(|cs|, i requires 0 <= i < |cs| => Feed(cs[i], vals, clock).1 == Signal(true));
    }
  }

  /** One cycle of a combinator whose children all answer with signals:
      the children advance, and the combinator answers their AND / OR. */
  lemma GroupAdvance(all: bool, kids: seq<PredState>, msg: Msg, after: seq<(PredState, Reply)>)
    requires msg.Cycle? && |after| == |kids|
    requires forall i | 0 <= i < |kids| :: Advance(kids[i], msg) == after[i] && after[i].1.Signal?
    ensures Advance(GroupState(all, kids, Suspended), msg)
            == (GroupState(all, seq(|kids|, i requires 0 <= i < |kids| => after[i].0), Suspended),
                Signal(Combine(all, seq(|kids|, i requires 0 <= i < |kids| => after[i].1 == Signal(true)))))
  {
    GroupSignal(all, kids, msg);
    var sigs := seq(|kids|, i requires 0 <= i < |kids| => after[i].1 == Signal(true));
    forall j | 0 <= j < |kids|
      ensures sigs[j] == Advance(kids[j], msg).1.stop
    {
    }
    assert seq(|kids|, j requires 0 <= j < |kids| => Advance(kids[j], msg).0)
        == seq(|kids|, i requires 0 <= i < |kids| => after[i].0);
    if all {
      assert AllTrue(sigs) <==> forall j | 0 <= j < |kids| :: Advance(kids[j], msg).1.stop;
    } else {
      assert AnyTrue(sigs) <==> exists j | 0 <= j < |kids| :: Advance(kids[j], msg).1.stop;
    }
  }

  // ---------------------------------------------------------------------
  // Whole runs with one reference predicate
  // ---------------------------------------------------------------------

  /** The answer of a fresh reference predicate to the `(args, kwargs)` step. */
  function InitialStop(l: Leaf): bool
    requires !l.Scripted?
  {
    match l
    case Times(n) => n <= 0
    case Timed(limit) => limit <= 0
    case Accumulated(threshold) => threshold <= 0
  }

  lemma LeafHandshake(l: Leaf, args: CallArgs, clock: nat -> nat)
    requires !l.Scripted?
    ensures Handshake(LeafState(l, Created, 0, 0, None), args, clock)
            == (LeafState(l, Suspended, 2, 0, Some(args)), Signal(InitialStop(l)))
  {
  }

  /** A run whose handshake answers "go on" continues with its cycles. */
  lemma RunAfterHandshake(data: DataArg, pred: PredArg, args: CallArgs, clock: nat -> nat, fuel: nat)
    requires StartData(data, args).Some? && InstantiateArg(pred).Some?
    requires Handshake(InstantiateArg(pred).value, args, clock).1 == Signal(false)
    ensures Run(data, pred, args, clock, fuel)
            == Cycles(StartData(data, args).value, Handshake(InstantiateArg(pred).value, args, clock).0, [], clock, fuel)
  {
  }

  /** A reference predicate that says stop at the `(args, kwargs)` step
      makes the run produce nothing. */
  lemma StopsBeforeFirstValue(data: DataArg, l: Leaf, args: CallArgs, clock: nat -> nat, fuel: nat)
    requires StartData(data, args).Some? && !l.Scripted? && InitialStop(l)
    ensures Run(data, Factory(Leaf(l)), args, clock, fuel).result == Produced([])
  {
    assert InstantiateArg(Factory(Leaf(l))) == Some(LeafState(l, Created, 0, 0, None));
    LeafHandshake(l, args, clock);
  }

  /** A run with one reference predicate stops at the first value after
      which the predicate, fed on its own, says stop. */
  lemma LeafRunStops(data: DataArg, l: Leaf, args: CallArgs, clock: nat -> nat, fuel: nat, m: nat)
    requires StartData(data, args).Some? && !l.Scripted? && !InitialStop(l)
    requires 1 <= m <= fuel && YieldsAtLeast(StartData(data, args).value, m)
    requires forall k | 1 <= k < m ::
               Feed(LeafState(l, Suspended, 2, 0, Some(args)), Pull(StartData(data, args).value, k).1, clock).1 == Signal(false)
    requires Feed(LeafState(l, Suspended, 2, 0, Some(args)), Pull(StartData(data, args).value, m).1, clock).1 == Signal(true)
    ensures Run(data, Factory(Leaf(l)), args, clock, fuel).result == Produced(Pull(StartData(data, args).value, m).1)
  {
    assert InstantiateArg(Factory(Leaf(l))) == Some(LeafState(l, Created, 0, 0, None));
    LeafHandshake(l, args, clock);
    RunAfterHandshake(data, Factory(Leaf(l)), args, clock, fuel);
    StopsAtFirstStop(StartData(data, args).value, LeafState(l, Suspended, 2, 0, Some(args)), clock, m, fuel);
  }

  /** `times(n)`, for `n >= 1`, returns exactly the first `n` values of a
      data process that has that many. */
  lemma TimesTakesFirst(data: DataArg, n: int, args: CallArgs, clock: nat -> nat, fuel: nat)
    requires StartData(data, args).Some?
    requires 1 <= n <= fuel && YieldsAtLeast(StartData(data, args).value, n)
    ensures Run(data, Factory(Leaf(Times(n))), args, clock, fuel).result
            == Produced(Pull(StartData(data, args).value, n).1)
  {
    var p := StartData(data, args).value;
    forall k: nat | k <= n
      ensures Feed(LeafState(Times(n), Suspended, 2, 0, Some(args)), Pull(p, k).1, clock).1
              == Signal(k != 0 && k >= n)
    {
      FeedTimes(n, 2, Some(args), Pull(p, k).1, clock);
    }
    LeafRunStops(data, Times(n), args, clock, fuel, n);
  }

  /** `timed(limit)`, for `limit > 0`, returns the values up to the first one
      after which the time elapsed has reached the limit. */
  lemma TimedStopsAtDeadline(data: DataArg, limit: int, args: CallArgs, clock: nat -> nat, fuel: nat, m: nat)
    requires StartData(data, args).Some? && limit > 0
    requires 1 <= m <= fuel && YieldsAtLeast(StartData(data, args).value, m)
    requires forall k | 1 <= k < m :: clock(k) < limit
    requires clock(m) >= limit
    ensures Run(data, Factory(Leaf(Timed(limit))), args, clock, fuel).result
            == Produced(Pull(StartData(data, args).value, m).1)
  {
    var p := StartData(data, args).value;
    forall k: nat | k <= m
      ensures Feed(LeafState(Timed(limit), Suspended, 2, 0, Some(args)), Pull(p, k).1, clock).1
              == Signal(k != 0 && clock(k) >= limit)
    {
      FeedTimed(limit, 2, Some(args), Pull(p, k).1, clock);
    }
    LeafRunStops(data, Timed(limit), args, clock, fuel, m);
  }

  /** `accumulated(threshold)`, for `threshold > 0`, returns the shortest
      prefix of a stream of numbers whose sum reaches the threshold. */
  lemma AccumulatedStopsAtThreshold(data: DataArg, threshold: int, args: CallArgs, clock: nat -> nat, fuel: nat, m: nat)
    requires StartData(data, args).Some? && threshold > 0
    requires 1 <= m <= fuel && YieldsAtLeast(StartData(data, args).value, m)
    requires AllNumbers(Pull(StartData(data, args).value, m).1)
    requires forall k | 1 <= k < m :: Sum(Pull(StartData(data, args).value, k).1) < threshold
    requires Sum(Pull(StartData(data, args).value, m).1) >= threshold
    ensures Run(data, Factory(Leaf(Accumulated(threshold))), args, clock, fuel).result
            == Produced(Pull(StartData(data, args).value, m).1)
  {
    AccumulatedSignals(threshold, args, StartData(data, args).value, clock, m);
    LeafRunStops(data, Accumulated(threshold), args, clock, fuel, m);
  }

  /** Fed the values of a stream of numbers, `accumulated(threshold)` says
      "go on" while their sum is below the threshold and "stop" once it is reached. */
  lemma AccumulatedSignals(threshold: int, args: CallArgs, p: DataProc, clock: nat -> nat, m: nat)
    requires 1 <= m && AllNumbers(Pull(p, m).1)
    requires forall k | 1 <= k < m :: Sum(Pull(p, k).1) < threshold
    requires Sum(Pull(p, m).1) >= threshold
    ensures forall k | 1 <= k < m ::
              Feed(LeafState(Accumulated(threshold), Suspended, 2, 0, Some(args)), Pull(p, k).1, clock).1 == Signal(false)
    ensures Feed(LeafState(Accumulated(threshold), Suspended, 2, 0, Some(args)), Pull(p, m).1, clock).1 == Signal(true)
  {
    forall k | 1 <= k <= m
      ensures Feed(LeafState(Accumulated(threshold), Suspended, 2, 0, Some(args)), Pull(p, k).1, clock).1
              == Signal(Sum(Pull(p, k).1) >= threshold)
    {
      PullPrefix(p, m, k);
      FeedAccumulated(threshold, 2, Some(args), Pull(p, k).1, clock);
    }
  }

  // ---------------------------------------------------------------------
  // Combinators over reference predicates
  // ---------------------------------------------------------------------

  /** When a reference predicate, fed on its own, says stop after the
      values `vals` (at least one). */
  predicate LeafStop(l: Leaf, vals: seq<Value>, clock: nat -> nat)
    requires !l.Scripted?
  {
    match l
    case Times(n) => |vals| >= n
    case Timed(limit) => clock(|vals|) >= limit
    case Accumulated(threshold) => Sum(vals) >= threshold
  }

  lemma FeedLeaf(l: Leaf, args: CallArgs, vals: seq<Value>, clock: nat -> nat)
    requires !l.Scripted? && (l.Accumulated? ==> AllNumbers(vals))
    ensures Feed(LeafState(l, Suspended, 2, 0, Some(args)), vals, clock).1
            == Signal(vals != [] && LeafStop(l, vals, clock))
  {
    match l
    case Times(n) => FeedTimes(n, 2, Some(args), vals, clock);
    case Timed(limit) => FeedTimed(limit, 2, Some(args), vals, clock);
    case Accumulated(threshold) => FeedAccumulated(threshold, 2, Some(args), vals, clock);
  }

  predicate NoScripts(ls: seq<Leaf>)
  {
    forall i | 0 <= i < |ls| :: !ls[i].Scripted?
  }

  /** The leaves `ls`, each handed as a factory to a combinator. */
  function Factories(ls: seq<Leaf>): seq<PredArg>
  {
    seq(|ls|, i requires 0 <= i < |ls| => Factory(Leaf(ls[i])))
  }

  /** The leaves `ls` as freshly created generators. */
  function Fresh(ls: seq<Leaf>): seq<PredState>
  {
    seq(|ls|, i requires 0 <= i < |ls| => LeafState(ls[i], Created, 0, 0, None))
  }

  /** The leaves `ls` after the handshake with call arguments `args`. */
  function Ready(ls: seq<Leaf>, args: CallArgs): seq<PredState>
  {
    seq(|ls|, i requires 0 <= i < |ls| => LeafState(ls[i], Suspended, 2, 0, Some(args)))
  }

  lemma InstantiateFactories(all: bool, ls: seq<Leaf>)
    ensures InstantiateArg(Factory(if all then AllOf(Factories(ls)) else AnyOf(Factories(ls))))
            == Some(GroupState(all, Fresh(ls), Created))
  {
    var cs := Factories(ls);
    var kids := seq(|cs|, i requires 0 <= i < |cs| => InstantiateArg(cs[i]));
    forall i | 0 <= i < |cs|
      ensures kids[i] == Some(Fresh(ls)[i])
    {
      assert cs[i] == Factory(Leaf(ls[i]));
      assert InstantiateDef(Leaf(ls[i])) == Some(LeafState(ls[i], Created, 0, 0, None));
    }
    assert seq(|cs|, i requires 0 <= i < |cs| => kids[i].value) == Fresh(ls);
    assert InstantiateGroup(all, cs) == Some(GroupState(all, Fresh(ls), Created));
  }

  /** A combinator is created when each of its children is. */
  lemma InstantiateChildren(all: bool, cs: seq<PredArg>, states: seq<PredState>)
    requires |cs| == |states|
    requires forall i | 0 <= i < |cs| :: InstantiateArg(cs[i]) == Some(states[i])
    ensures InstantiateArg(Factory(if all then AllOf(cs) else AnyOf(cs))) == Some(GroupState(all, states, Created))
    ensures InstantiateArg(Instance(if all then AllOf(cs) else AnyOf(cs))) == Some(GroupState(all, states, Created))
  {
    var kids := seq(|cs|, i requires 0 <= i < |cs| => InstantiateArg(cs[i]));
    assert seq(|cs|, i requires 0 <= i < |cs| => kids[i].value) == states;
    assert InstantiateGroup(all, cs) == Some(GroupState(all, states, Created));
  }

  /** A combinator with a child that cannot be created is a `TypeError`. */
  lemma InstantiateChildFails(all: bool, cs: seq<PredArg>, i: nat)
    requires i < |cs| && InstantiateArg(cs[i]).None?
    ensures InstantiateArg(Factory(if all then AllOf(cs) else AnyOf(cs))).None?
  {
    var kids := seq(|cs|, i requires 0 <= i < |cs| => InstantiateArg(cs[i]));
    assert kids[i].None?;
    assert InstantiateGroup(all, cs).None?;
    if all {
      assert InstantiateArg(Factory(AllOf(cs))) == InstantiateGroup(true, cs);
    } else {
      assert InstantiateArg(Factory(AnyOf(cs))) == InstantiateGroup(false, cs);
    }
  }

  /** A cycle in which the data process is exhausted ends the run normally. */
  lemma CyclesExhausted(p: DataProc, s: PredState, values: seq<Value>, clock: nat -> nat, fuel: nat)
    requires fuel > 0 && Next(p).1.Exhausted?
    ensures Cycles(p, s, values, clock, fuel) == Finish(Produced(values), s, Next(p).0)
  {
  }

  /** The leaves `ls` after priming. */
  function Primed(ls: seq<Leaf>): seq<PredState>
  {
    seq(|ls|, i requires 0 <= i < |ls| => LeafState(ls[i], Suspended, 1, 0, None))
  }

  lemma GroupPrime(all: bool, ls: seq<Leaf>)
    requires NoScripts(ls)
    ensures Advance(GroupState(all, Fresh(ls), Created), Prime) == (GroupState(all, Primed(ls), Suspended), Signal(false))
  {
    var g := GroupState(all, Fresh(ls), Created);
    BroadcastIsMap(g, 0, Prime);
    forall i | 0 <= i < |ls|
      ensures Advance(Fresh(ls)[i], Prime) == (Primed(ls)[i], Signal(false))
    {
    }
    assert BroadcastFrom(g, 0, Prime).0 == Primed(ls);
  }

  lemma GroupArgs(all: bool, ls: seq<Leaf>, args: CallArgs, t: nat)
    requires NoScripts(ls)
    ensures Advance(GroupState(all, Primed(ls), Suspended), Args(args, t))
            == (GroupState(all, Ready(ls, args), Suspended),
                Signal(Combine(all, seq(|ls|, i requires 0 <= i < |ls| => InitialStop(ls[i])))))
  {
    var primed := Primed(ls);
    var msg := Args(args, t);
    GroupSignal(all, primed, msg);
    var sigs := seq(|ls|, i requires 0 <= i < |ls| => InitialStop(ls[i]));
    forall i | 0 <= i < |ls|
      ensures Advance(primed[i], msg) == (Ready(ls, args)[i], Signal(InitialStop(ls[i])))
      ensures sigs[i] == Advance(primed[i], msg).1.stop
    {
    }
    assert seq(|primed|, j requires 0 <= j < |primed| => Advance(primed[j], msg).0) == Ready(ls, args);
    if all {
      assert AllTrue(sigs) <==> forall j | 0 <= j < |primed| :: Advance(primed[j], msg).1.stop;
    } else {
      assert AnyTrue(sigs) <==> exists j | 0 <= j < |primed| :: Advance(primed[j], msg).1.stop;
    }
  }

  /** A combinator over reference predicates answers the handshake with the
      AND / OR of their initial answers. */
  lemma GroupHandshake(all: bool, ls: seq<Leaf>, args: CallArgs, clock: nat -> nat)
    requires NoScripts(ls)
    ensures Handshake(GroupState(all, Fresh(ls), Created), args, clock)
            == (GroupState(all, Ready(ls, args), Suspended),
                Signal(Combine(all, seq(|ls|, i requires 0 <= i < |ls| => InitialStop(ls[i])))))
  {
    GroupPrime(all, ls);
    GroupArgs(all, ls, args, clock(0));
  }

  /** After each cycle a combinator over reference predicates answers the
      AND / OR of what each would answer on its own. */
  lemma FeedLeafGroup(all: bool, ls: seq<Leaf>, args: CallArgs, vals: seq<Value>, clock: nat -> nat)
    requires NoScripts(ls) && AllNumbers(vals)
    ensures Feed(GroupState(all, Ready(ls, args), Suspended), vals, clock).1
            == Signal(vals != [] && Combine(all, seq(|ls|, i requires 0 <= i < |ls| => LeafStop(ls[i], vals, clock))))
  {
    var cs := Ready(ls, args);
    forall c, j | c in cs && 0 <= j <= |vals|
      ensures Feed(c, vals[..j], clock).1.Signal?
    {
      var i :| 0 <= i < |ls| && cs[i] == c;
      FeedLeaf(ls[i], args, vals[..j], clock);
    }
    FeedGroup(all, cs, vals, clock);
    if vals != [] {
      forall i | 0 <= i < |ls|
        ensures (Feed(cs[i], vals, clock).1 == Signal(true)) == LeafStop(ls[i], vals, clock)
      {
        FeedLeaf(ls[i], args, vals, clock);
      }
      assert seq(|cs|, i requires 0 <= i < |cs| => Feed(cs[i], vals, clock).1 == Signal(true))
             == seq(|ls|, i requires 0 <= i < |ls| => LeafStop(ls[i], vals, clock));
    }
  }
}
