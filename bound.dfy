/** The bounded-iteration protocol exercised by tests/test_bound.py.

    A data process produces values; a predicate answers, after every value,
    whether the run must stop.  Python runs both as generators.  Here each is
    an explicit state machine: a datatype value with a `phase` field and an
    `Advance` (predicate) or `Next` (data process) function that returns the
    successor state together with what the generator yields.  The runner,
    `BoundRun`, is a loop over those machines; `Run` is the function it is
    proved to compute. */
module Bound {

  datatype Option<T> = None | Some(value: T)

  /** The values that flow through a run. */
  datatype Value = Num(n: int) | NoneValue | Text(s: string)

  /** `(args, kwargs)` of one call of a bounded function. */
  datatype CallArgs = CallArgs(positional: seq<Value>, keywords: map<string, Value>)

  datatype Error = RuntimeError | TypeError | AssertionError

  /** Where a generator stands: not yet started, stopped at a `yield`,
      run to its end (or raised), or closed from outside. */
  datatype Phase = Created | Suspended | Finished | Closed

  // ---------------------------------------------------------------------
  // Predicates
  // ---------------------------------------------------------------------

  /** The leaf predicates.  `Times`, `Timed` and `Accumulated` are the
      configured reference predicates; `Scripted` is a `@boundary` generator
      of the test suite that yields `script` in order (the first one at the
      priming step), then `loop` forever if it is `Some`, and otherwise ends.
      When `expected` is `Some`, it asserts that the call arguments it
      receives equal it. */
  datatype Leaf =
    | Times(n: int)
    | Timed(limit: int)
    | Accumulated(threshold: int)
    | Scripted(script: seq<bool>, loop: Option<bool>, expected: Option<CallArgs>)

  /** What a predicate factory builds: a leaf, or `whenall` / `whenany` over children. */
  datatype PredDef = Leaf(leaf: Leaf) | AllOf(children: seq<PredArg>) | AnyOf(children: seq<PredArg>)

  /** How a predicate is handed to `boundary`, `whenall` or `whenany`: as a
      factory, as an already created generator, as a function that is not a
      generator function, or as a reference predicate that was never given
      its configuration (`whenall(times)`). */
  datatype PredArg = Factory(def: PredDef) | Instance(def: PredDef) | NotAGenerator | Unconfigured

  /** A running predicate.  For a leaf, `steps` counts the `yield`s reached,
      `total` is the count of `Times` or the running sum of `Accumulated`,
      and `received` records the call arguments delivered to it. */
  datatype PredState =
    | LeafState(leaf: Leaf, phase: Phase, steps: nat, total: int, received: Option<CallArgs>)
    | GroupState(all: bool, children: seq<PredState>, phase: Phase)

  /** What the runner sends: the priming `next`, the `(args, kwargs)` step
      and one value per cycle.  `elapsed` is the time since the run started,
      as read by `timed` (an abstract clock: no wall clock is modelled). */
  datatype Msg = Prime | Args(args: CallArgs, elapsed: nat) | Cycle(v: Value, elapsed: nat)

  /** What a predicate answers: the stop signal it yields, the end of its
      generator (`StopIteration`), or an exception. */
  datatype Reply = Signal(stop: bool) | Ended | Raised(err: Error)

  /** The answers collected from the children of a combinator. */
  datatype Collected = Signals(sigs: seq<bool>) | Failure(reply: Reply)

  /** Creates the generator of a predicate; `None` is the `TypeError` of a
      predicate that is not a generator or not configured. */
  function InstantiateDef(d: PredDef): (r: Option<PredState>)
    ensures r.Some? && d.Leaf? ==> r.value.LeafState?
    ensures r.Some? && !d.Leaf? ==> r.value.GroupState? && r.value.all == d.AllOf?
                                    && |r.value.children| == |d.children|
  {
    match d
    case Leaf(l) => Some(LeafState(l, Created, 0, 0, None))
    case AllOf(cs) => InstantiateGroup(true, cs)
    case AnyOf(cs) => InstantiateGroup(false, cs)
  }

  function InstantiateGroup(all: bool, cs: seq<PredArg>): (r: Option<PredState>)
    ensures r.Some? ==> r.value.GroupState? && r.value.all == all && |r.value.children| == |cs|
    decreases cs, 0
  {
    var kids := seq(|cs|, i requires 0 <= i < |cs| => InstantiateArg(cs[i]));
    if forall i | 0 <= i < |cs| :: kids[i].Some? then
      Some(GroupState(all, seq(|cs|, i requires 0 <= i < |cs| => kids[i].value), Created))
    else
      None
  }

  function InstantiateArg(a: PredArg): Option<PredState>
    decreases a, 1
  {
    match a
    case Factory(d) => InstantiateDef(d)
    case Instance(d) => InstantiateDef(d)
    case NotAGenerator => None
    case Unconfigured => None
  }

  function Rank(s: PredState): nat
  {
    if s.GroupState? then |s.children| + 1 else 0
  }

  /** The value a `Scripted` generator yields at its `k`-th `yield`, if it gets there. */
  function ScriptedYield(ys: seq<bool>, loop: Option<bool>, k: nat): Option<bool>
  {
    if k < |ys| then Some(ys[k]) else loop
  }

  /** One resumption of a leaf predicate. */
  function LeafAdvance(s: PredState, msg: Msg): (PredState, Reply)
    requires s.LeafState?
  {
    var LeafState(leaf, phase, steps, total, received) := s;
    if phase.Finished? || phase.Closed? then
      (s, Ended)
    else if phase.Created? != msg.Prime? then
      (s, Raised(TypeError))
    else if msg.Prime? then
      if leaf.Scripted? && ScriptedYield(leaf.script, leaf.loop, 0).None? then
        (LeafState(leaf, Finished, steps, total, received), Ended)
      else
        (LeafState(leaf, Suspended, 1, total, received), Signal(false))
    else
      var received := if msg.Args? then Some(msg.args) else received;
      match leaf
      case Times(n) =>
        if msg.Args? then (LeafState(leaf, phase, steps + 1, 0, received), Signal(n <= 0))
        else (LeafState(leaf, phase, steps + 1, total + 1, received), Signal(total + 1 >= n))
      case Timed(limit) =>
        if msg.Args? then (LeafState(leaf, phase, steps + 1, total, received), Signal(limit <= 0))
        else (LeafState(leaf, phase, steps + 1, total, received), Signal(msg.elapsed >= limit))
      case Accumulated(threshold) =>
        if msg.Args? then (LeafState(leaf, phase, steps + 1, 0, received), Signal(threshold <= 0))
        else if msg.v.Num? then
          (LeafState(leaf, phase, steps + 1, total + msg.v.n, received), Signal(total + msg.v.n >= threshold))
        else
          (LeafState(leaf, Finished, steps, total, received), Raised(TypeError))
      case Scripted(ys, loop, expected) =>
        if msg.Args? && expected.Some? && expected.value != msg.args then
          (LeafState(leaf, Finished, steps, total, received), Raised(AssertionError))
        else
          match ScriptedYield(ys, loop, steps)
          case None => (LeafState(leaf, Finished, steps, total, received), Ended)
          case Some(b) => (LeafState(leaf, phase, steps + 1, total, received), Signal(b))
  }

  /** `all(sigs)` when `all`, `any(sigs)` otherwise. */
  function Combine(all: bool, sigs: seq<bool>): bool
  {
    if all then AllTrue(sigs) else AnyTrue(sigs)
  }

  function AllTrue(sigs: seq<bool>): (r: bool)
    ensures r <==> forall i | 0 <= i < |sigs| :: sigs[i]
  {
    if sigs == [] then true else sigs[0] && AllTrue(sigs[1..])
  }

  function AnyTrue(sigs: seq<bool>): (r: bool)
    ensures r <==> exists i | 0 <= i < |sigs| :: sigs[i]
  {
    if sigs == [] then false else sigs[0] || AnyTrue(sigs[1..])
  }

  /** One resumption of any predicate.  A combinator forwards the message to
      every child in order; the first child that ends or raises ends the
      combinator with the same answer; otherwise it answers the AND (`whenall`)
      or OR (`whenany`) of the children's signals. */
  function Advance(s: PredState, msg: Msg): (r: (PredState, Reply))
    ensures s.LeafState? <==> r.0.LeafState?
    ensures s.LeafState? ==> r.0.leaf == s.leaf
    ensures s.GroupState? ==> r.0.all == s.all && |r.0.children| == |s.children|
    decreases s, Rank(s)
  {
    match s
    case LeafState(_, _, _, _, _) => LeafAdvance(s, msg)
    case GroupState(all, cs, phase) =>
      if phase.Finished? || phase.Closed? then
        (s, Ended)
      else if phase.Created? != msg.Prime? then
        (s, Raised(TypeError))
      else
        var (kids, col) := BroadcastFrom(s, 0, msg);
        match col
        case Failure(reply) => (GroupState(all, kids, Finished), reply)
        case Signals(sigs) =>
          (GroupState(all, kids, Suspended), if msg.Prime? then Signal(false) else Signal(Combine(all, sigs)))
  }

  /** Sends `msg` to the children of `s` from index `i` on; returns their new
      states and their signals, or the first answer that is not a signal
      (the children after that one are left untouched). */
  function BroadcastFrom(s: PredState, i: nat, msg: Msg): (r: (seq<PredState>, Collected))
    requires s.GroupState? && i <= |s.children|
    ensures |r.0| == |s.children| - i
    ensures r.1.Signals? ==> |r.1.sigs| == |s.children| - i
    ensures r.1.Failure? ==> !r.1.reply.Signal?
    decreases s, |s.children| - i
  {
    if i == |s.children| then
      ([], Signals([]))
    else
      var (c, reply) := Advance(s.children[i], msg);
      if !reply.Signal? then
        ([c] + s.children[i + 1..], Failure(reply))
      else
        var (rest, col) := BroadcastFrom(s, i + 1, msg);
        ([c] + rest, if col.Signals? then Signals([reply.stop] + col.sigs) else col)
  }

  /** `close()`: every generator that has not ended is closed; one that has
      ended is left as it is (closing it is a no-op). */
  function Close(s: PredState): (r: PredState)
    ensures s.LeafState? <==> r.LeafState?
    decreases s
  {
    match s
    case LeafState(leaf, phase, steps, total, received) =>
      if phase.Created? || phase.Suspended? then LeafState(leaf, Closed, steps, total, received) else s
    case GroupState(all, cs, phase) =>
      GroupState(all, seq(|cs|, i requires 0 <= i < |cs| => Close(cs[i])),
                 if phase.Finished? then Finished else Closed)
  }

  /** No generator in the predicate is still waiting to be resumed. */
  predicate Settled(s: PredState)
  {
    match s
    case LeafState(_, phase, _, _, _) => phase.Finished? || phase.Closed?
    case GroupState(_, cs, phase) =>
      (phase.Finished? || phase.Closed?) && forall c | c in cs :: Settled(c)
  }

  // ---------------------------------------------------------------------
  // Data processes
  // ---------------------------------------------------------------------

  /** The data processes of the test suite: `fibonacci`, a `while True:
      yield v` loop (`anyArgs` says whether it takes `*args, **kwargs`), the
      counter that yields 0 .. atmost-1 and then fails an assertion,
      `magic_number(a)`, and a plain function that is not a generator. */
  datatype DataDef =
    | Fibonacci
    | Repeat(v: Value, anyArgs: bool)
    | CountUpTo(atmost: int)
    | MagicNumber
    | PlainFunction

  /** A running data process; `a` and `b` are the local variables of
      `fibonacci` (`a` is the `passes` counter of `CountUpTo`), `arg` is the
      argument of `magic_number`. */
  datatype DataProc = DataProc(def: DataDef, phase: Phase, a: int, b: int, arg: Value)

  /** A data process handed to the runner: a generator function, called with
      the call arguments, or an already created generator, used as it is. */
  datatype DataArg = DataFactory(def: DataDef) | DataInstance(proc: DataProc)

  /** What one `next` on a data process gives. */
  datatype Pulled = Yield(v: Value) | Exhausted | Raise(err: Error)

  /** `magic_number(a)` for an integer `a`: `0` below 1, else `a + magic_number(a - 1)`. */
  function Magic(a: int): (r: int)
    ensures a >= 0 ==> 2 * r == a * (a + 1)
    ensures a < 1 ==> r == 0
    decreases if a < 1 then 0 else a
  {
    if a < 1 then 0 else a + Magic(a - 1)
  }

  /** The argument of `magic_number` found in the call, if the call fits `magic_number(a)`. */
  function MagicArgument(args: CallArgs): Option<Value>
  {
    if |args.positional| == 1 && args.keywords == map[] then Some(args.positional[0])
    else if |args.positional| == 0 && args.keywords.Keys == {"a"} then Some(args.keywords["a"])
    else None
  }

  /** Calls a generator function with the call arguments: `None` is the
      `TypeError` Python raises when the arguments do not fit its signature. */
  function Call(def: DataDef, args: CallArgs): Option<DataProc>
  {
    var noArgs := args.positional == [] && args.keywords == map[];
    match def
    case Fibonacci =>
      if (|args.positional| == 0 && args.keywords.Keys <= {"wait"})
         || (|args.positional| == 1 && args.keywords == map[])
      then Some(DataProc(def, Created, 0, 0, NoneValue)) else None
    case Repeat(_, anyArgs) =>
      if anyArgs || noArgs then Some(DataProc(def, Created, 0, 0, NoneValue)) else None
    case CountUpTo(_) =>
      if noArgs then Some(DataProc(def, Created, 0, 0, NoneValue)) else None
    case MagicNumber =>
      var a := MagicArgument(args);
      if a.Some? then Some(DataProc(def, Created, 0, 0, a.value)) else None
    case PlainFunction =>
      if noArgs then Some(DataProc(def, Created, 0, 0, NoneValue)) else None
  }

  function StartData(d: DataArg, args: CallArgs): Option<DataProc>
  {
    match d
    case DataFactory(def) => Call(def, args)
    case DataInstance(p) => Some(p)
  }

  /** One `next` on a data process. */
  function Next(p: DataProc): (DataProc, Pulled)
  {
    if p.phase.Finished? || p.phase.Closed? then
      (p, Exhausted)
    else
      var started := p.phase.Suspended?;
      match p.def
      case Fibonacci =>
        if !started then (p.(phase := Suspended, a := 1, b := 1), Yield(Num(1)))
        else (p.(a := p.b, b := p.a + p.b), Yield(Num(p.b)))
      case Repeat(v, _) =>
        (p.(phase := Suspended), Yield(v))
      case CountUpTo(atmost) =>
        var passes := if started then p.a + 1 else 0;
        if passes < atmost then (p.(phase := Suspended, a := passes), Yield(Num(passes)))
        else (p.(phase := Finished), Raise(AssertionError))
      case MagicNumber =>
        if started then (p.(phase := Finished), Exhausted)
        else if p.arg.Num? then (p.(phase := Suspended), Yield(Num(Magic(p.arg.n))))
        else (p.(phase := Finished), Raise(TypeError))
      case PlainFunction =>
        (p.(phase := Finished), Raise(TypeError))
  }

  function CloseData(p: DataProc): (r: DataProc)
    ensures r.phase.Finished? || r.phase.Closed?
  {
    if p.phase.Finished? then p else p.(phase := Closed)
  }

  // ---------------------------------------------------------------------
  // The runner
  // ---------------------------------------------------------------------

  /** How a run ends: with the values produced, with an exception, or (a
      device of the model, not of the source) with its cycle budget spent. */
  datatype RunResult = Produced(values: seq<Value>) | Failed(err: Error) | OutOfFuel(values: seq<Value>)

  /** A finished run together with the final states of what it drove. */
  datatype Outcome = Outcome(result: RunResult, pred: Option<PredState>, data: Option<DataProc>)

  /** Every exit of a run closes the predicate and the data process. */
  function Finish(res: RunResult, s: PredState, p: DataProc): Outcome
  {
    Outcome(res, Some(Close(s)), Some(CloseData(p)))
  }

  /** A predicate that ends while a stop signal is expected is a `RuntimeError`. */
  function ReplyError(r: Reply): Error
    requires !r.Signal?
  {
    if r.Ended? then RuntimeError else r.err
  }

  /** The cycles of a run, from data process `p`, predicate `s` and the
      values produced so far; at most `fuel` more values are pulled. */
  function Cycles(p: DataProc, s: PredState, values: seq<Value>, clock: nat -> nat, fuel: nat): Outcome
    decreases fuel
  {
    if fuel == 0 then
      Finish(OutOfFuel(values), s, p)
    else
      var (p', pulled) := Next(p);
      match pulled
      case Exhausted => Finish(Produced(values), s, p')
      case Raise(e) => Finish(Failed(e), s, p')
      case Yield(v) =>
        var values' := values + [v];
        var (s', reply) := Advance(s, Cycle(v, clock(|values'|)));
        if !reply.Signal? then Finish(Failed(ReplyError(reply)), s', p')
        else if reply.stop then Finish(Produced(values'), s', p')
        else Cycles(p', s', values', clock, fuel - 1)
  }

  /** The handshake: prime the predicate, send it the call arguments, and
      read the initial stop signal. */
  function Handshake(s: PredState, args: CallArgs, clock: nat -> nat): (PredState, Reply)
  {
    var (s1, primed) := Advance(s, Prime);
    if !primed.Signal? then (s1, primed)
    else Advance(s1, Args(args, clock(0)))
  }

  /** One complete bounded run. */
  function Run(data: DataArg, pred: PredArg, args: CallArgs, clock: nat -> nat, fuel: nat): Outcome
  {
    match StartData(data, args)
    case None => Outcome(Failed(TypeError), None, None)
    case Some(p) =>
      match InstantiateArg(pred)
      case None => Outcome(Failed(TypeError), None, Some(CloseData(p)))
      case Some(s) =>
        var (s', initial) := Handshake(s, args, clock);
        if !initial.Signal? then Finish(Failed(ReplyError(initial)), s', p)
        else if initial.stop then Finish(Produced([]), s', p)
        else Cycles(p, s', [], clock, fuel)
  }

  /** The runner: instantiate, handshake, then pull values and ask the
      predicate after each one until it says stop, the data process ends,
      or something raises; close both on every exit. */
  method BoundRun(data: DataArg, pred: PredArg, args: CallArgs, clock: nat -> nat, fuel: nat)
    returns (out: Outcome)
    ensures out == Run(data, pred, args, clock, fuel)
  {
    var started := StartData(data, args);
    if started.None? {
      return Outcome(Failed(TypeError), None, None);
    }
    var p := started.value;
    var created := InstantiateArg(pred);
    if created.None? {
      return Outcome(Failed(TypeError), None, Some(CloseData(p)));
    }
    var s, initial := Handshake(created.value, args, clock).0, Handshake(created.value, args, clock).1;
    if !initial.Signal? {
      return Finish(Failed(ReplyError(initial)), s, p);
    }
    if initial.stop {
      return Finish(Produced([]), s, p);
    }
    ghost var goal := Cycles(p, s, [], clock, fuel);
    var values: seq<Value> := [];
    var left := fuel;
    while true
      invariant Cycles(p, s, values, clock, left) == goal
      decreases left
    {
      if left == 0 {
        return Finish(OutOfFuel(values), s, p);
      }
      var p', pulled := Next(p).0, Next(p).1;
      if pulled.Exhausted? {
        return Finish(Produced(values), s, p');
      }
      if pulled.Raise? {
        return Finish(Failed(pulled.err), s, p');
      }
      values := values + [pulled.v];
      var s', reply := Advance(s, Cycle(pulled.v, clock(|values|))).0, Advance(s, Cycle(pulled.v, clock(|values|))).1;
      if !reply.Signal? {
        return Finish(Failed(ReplyError(reply)), s', p');
      }
      if reply.stop {
        return Finish(Produced(values), s', p');
      }
      p, s, left := p', s', left - 1;
    }
  }

  // ---------------------------------------------------------------------
  // The binder surface
  // ---------------------------------------------------------------------

  /** `boundary(pred)(data)`: a bounded function. */
  datatype Bounded = Bounded(data: DataArg, pred: PredArg)

  datatype Answer<T> = Ok(value: T) | Err(error: Error) | Unfinished

  function Last(values: seq<Value>): Option<Value>
  {
    if values == [] then None else Some(values[|values| - 1])
  }

  /** Calling a bounded function: the last value produced, or `None`. */
  function Invoke(b: Bounded, args: CallArgs, clock: nat -> nat, fuel: nat): Answer<Option<Value>>
  {
    match Run(b.data, b.pred, args, clock, fuel).result
    case Produced(vs) => Ok(Last(vs))
    case Failed(e) => Err(e)
    case OutOfFuel(_) => Unfinished
  }

  /** `.generate()`: the whole bounded sequence. */
  function Generate(b: Bounded, args: CallArgs, clock: nat -> nat, fuel: nat): Answer<seq<Value>>
  {
    match Run(b.data, b.pred, args, clock, fuel).result
    case Produced(vs) => Ok(vs)
    case Failed(e) => Err(e)
    case OutOfFuel(_) => Unfinished
  }
}
