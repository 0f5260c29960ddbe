/** Kernel, ring and lord together: the producer's steps interleave at will with the lord's endless loop, which drains
    the ring until it finds it empty and then schedules once. */
module LordOnRing {
  import opened Kernel
  import opened Lord
  import ShootArea
  import R = MessageRing
  import FifoModel
  import FifoTheorems
  import ShinjukuModel
  import ShinjukuInvariants

  /** In `consume_message`, or between its return and the end of `schedule`. */
  datatype Phase = Draining | Deciding

  /** `log` is history: what the lord has handled, in order. `seen` is history too: how many messages were published
      when the ring was last found empty. */
  datatype System<V> = System(ring: R.Ring, phase: Phase, log: seq<Input<V>>, seen: int)

  datatype Act<V> = Produce(move: R.Move) | FindEmpty | Read | Take | Decide(v: V)

  predicate Enabled<V>(y: System<V>, a: Act<V>) {
    match a
    case Produce(move) => (move.Write? || move.MoveHead?) && R.Enabled(y.ring, move)
    case FindEmpty => y.phase.Draining? && y.ring.read.Nothing? && y.ring.tail == y.ring.head
    case Read => y.phase.Draining? && R.Enabled(y.ring, R.ReadSlot)
    case Take => y.phase.Draining? && R.Enabled(y.ring, R.MoveTail)
    case Decide(_) => y.phase.Deciding?
  }

  /** What the lord handles in this step: the message it takes off the ring, a schedule, or nothing. */
  function Handled<V>(y: System<V>, a: Act<V>): seq<Input<V>>
    requires Enabled(y, a)
  {
    match a
    case Take => [Message(y.ring.read.m)]
    case Decide(v) => [Turn(v)]
    case _ => []
  }

  function After<V>(y: System<V>, a: Act<V>): System<V>
    requires Enabled(y, a) && |y.ring.data| == MQ_DATA_SIZE
  {
    var log := y.log + Handled(y, a);
    match a
    case Produce(move) => y.(ring := R.After(y.ring, move))
    case FindEmpty => y.(phase := Deciding, seen := R.Published(y.ring))
    case Read => y.(ring := R.After(y.ring, R.ReadSlot))
    case Take => y.(ring := R.After(y.ring, R.MoveTail), log := log)
    case Decide(_) => y.(phase := Draining, log := log)
  }

  function Delivered<V>(log: seq<Input<V>>): seq<Msg>
    decreases |log|
  {
    if log == [] then []
    else
      var e := log[|log| - 1];
      Delivered(log[..|log| - 1]) + if e.Message? then [e.m] else []
  }

  lemma DeliveredOneMore<V>(log: seq<Input<V>>, e: Input<V>)
    ensures Delivered(log + [e]) == Delivered(log) + if e.Message? then [e.m] else []
  {
    assert (log + [e])[..|log|] == log;
  }

  /** What was handled is exactly what was delivered; a schedule comes after all that was published when the ring was
      found empty. */
  ghost predicate Inv<V>(y: System<V>) {
    && R.Inv(y.ring)
    && Delivered(y.log) == y.ring.consumed
    && (y.phase.Deciding? ==> y.ring.read.Nothing? && |y.ring.consumed| == y.seen)
  }

  lemma StepKeepsInv<V>(y: System<V>, a: Act<V>)
    requires Inv(y) && Enabled(y, a)
    requires a.Produce? && a.move.Write? ==> R.HasRoom(y.ring)
    ensures Inv(After(y, a))
  {
    match a
    case Produce(move) => R.MoveKeepsInv(y.ring, move);
    case FindEmpty => R.SameCounter(|y.ring.consumed|, R.Published(y.ring));
    case Read => R.MoveKeepsInv(y.ring, R.ReadSlot);
    case Take =>
      R.MoveKeepsInv(y.ring, R.MoveTail);
      DeliveredOneMore(y.log, Message(y.ring.read.m));
    case Decide(v) => DeliveredOneMore(y.log, Turn(v));
  }

  ghost predicate Follows<V>(y: System<V>, a: Act<V>, z: System<V>) {
    |y.ring.data| == MQ_DATA_SIZE && Enabled(y, a) && z == After(y, a)
  }

  /** Any interleaving, of any length, from the empty ring. */
  ghost predicate Run<V(!new)>(ys: seq<System<V>>, acts: seq<Act<V>>) {
    && |ys| == |acts| + 1
    && ys[0].phase.Draining? && ys[0].log == [] && R.Run([ys[0].ring], [])
    && forall k :: 0 <= k < |acts| ==> Follows(ys[k], acts[k], ys[k + 1])
  }

  /** The producer left room with each of its first `n` writes. */
  ghost predicate RoomLeft<V(!new)>(ys: seq<System<V>>, acts: seq<Act<V>>, n: nat) {
    n < |ys| == |acts| + 1 &&
    forall k :: 0 <= k < n && acts[k].Produce? && acts[k].move.Write? ==> R.HasRoom(ys[k].ring)
  }

  lemma {:induction false} RunKeepsInv<V(!new)>(ys: seq<System<V>>, acts: seq<Act<V>>, n: nat)
    requires Run(ys, acts) && RoomLeft(ys, acts, n)
    ensures Inv(ys[n])
  {
    if n > 0 {
      RunKeepsInv(ys, acts, n - 1);
      assert Follows(ys[n - 1], acts[n - 1], ys[n]);
      StepKeepsInv(ys[n - 1], acts[n - 1]);
    } else {
      R.DeliveredInOrder([ys[0].ring], [], 0);
    }
  }

  // ---------------------------------------------------------------- what the loop does, and when

  /** The schedules in a log, in order. */
  function Turns<V>(log: seq<Input<V>>): seq<V>
    decreases |log|
  {
    if log == [] then []
    else
      var e := log[|log| - 1];
      Turns(log[..|log| - 1]) + if e.Turn? then [e.v] else []
  }

  /** What the lord decided in the first `n` steps. */
  function Decided<V>(acts: seq<Act<V>>, n: nat): seq<V>
    requires n <= |acts|
  {
    if n == 0 then []
    else Decided(acts, n - 1) + if acts[n - 1].Decide? then [acts[n - 1].v] else []
  }

  lemma TurnsOneMore<V>(log: seq<Input<V>>, e: Input<V>)
    ensures Turns(log + [e]) == Turns(log) + if e.Turn? then [e.v] else []
  {
    assert (log + [e])[..|log|] == log;
  }

  lemma StepLogsItsTurn<V>(y: System<V>, a: Act<V>, z: System<V>)
    requires Follows(y, a, z)
    ensures Turns(z.log) == Turns(y.log) + if a.Decide? then [a.v] else []
  {
    match a
    case Take => TurnsOneMore(y.log, Message(y.ring.read.m));
    case Decide(v) => TurnsOneMore(y.log, Turn(v));
    case _ =>
  }

  lemma RunFollows<V(!new)>(ys: seq<System<V>>, acts: seq<Act<V>>, k: nat)
    requires Run(ys, acts) && k < |acts|
    ensures Follows(ys[k], acts[k], ys[k + 1])
  {
  }

  /** Over every run: the lord has scheduled exactly as often as its loop came to it, with just those answers, in
      order. */
  lemma {:induction false} EachDecisionIsATurn<V(!new)>(ys: seq<System<V>>, acts: seq<Act<V>>, n: nat)
    requires Run(ys, acts) && n < |ys|
    ensures Turns(ys[n].log) == Decided(acts, n)
  {
    if n > 0 {
      EachDecisionIsATurn(ys, acts, n - 1);
      RunFollows(ys, acts, n - 1);
      StepLogsItsTurn(ys[n - 1], acts[n - 1], ys[n]);
    }
  }

  /** Where the lord is about to schedule it has found the ring empty, and since then only the producer has moved. */
  lemma {:induction false} DecidesAfterFindingEmpty<V(!new)>(ys: seq<System<V>>, acts: seq<Act<V>>, n: nat)
    returns (m: nat)
    requires Run(ys, acts) && n < |ys| && ys[n].phase.Deciding?
    ensures m < n && acts[m].FindEmpty? && forall k :: m < k < n ==> acts[k].Produce?
    ensures ys[n].log == ys[m].log && ys[n].seen == R.Published(ys[m].ring)
  {
    assert Follows(ys[n - 1], acts[n - 1], ys[n]);
    if acts[n - 1].FindEmpty? {
      m := n - 1;
    } else {
      m := DecidesAfterFindingEmpty(ys, acts, n - 1);
    }
  }

  /** So over every run a schedule stands in the log right after all that was published when the ring was last found
      empty, and between two schedules the ring is drained again. */
  lemma EachTurnFollowsADrain<V(!new)>(ys: seq<System<V>>, acts: seq<Act<V>>, n: nat) returns (m: nat)
    requires Run(ys, acts) && n < |acts| && acts[n].Decide? && RoomLeft(ys, acts, n)
    ensures m < n && acts[m].FindEmpty? && forall k :: m < k < n ==> acts[k].Produce?
    ensures |Delivered(ys[n].log)| == R.Published(ys[m].ring)
    ensures ys[n + 1].log == ys[n].log + [Turn(acts[n].v)] && ys[n + 1].phase.Draining?
  {
    assert Follows(ys[n], acts[n], ys[n + 1]);
    m := DecidesAfterFindingEmpty(ys, acts, n);
    RunKeepsInv(ys, acts, n);
  }

  /** The lord's own next step: there is always one, and just one but for the answer of a schedule. */
  function NextAct<V>(y: System<V>, v: V): Act<V> {
    if y.phase.Deciding? then Decide(v)
    else if y.ring.read.Got? then Take
    else if y.ring.tail == y.ring.head then FindEmpty
    else Read
  }

  lemma LordIsNeverStuck<V>(y: System<V>, v: V, a: Act<V>)
    requires Inv(y)
    ensures Enabled(y, NextAct(y, v))
    ensures !a.Produce? && Enabled(y, a) ==> a == NextAct(y, if a.Decide? then a.v else v)
  {
  }

  /** The lord alone for some steps. */
  function Alone<V>(y: System<V>, v: V, steps: nat): System<V>
    decreases steps
  {
    if steps == 0 || !Enabled(y, NextAct(y, v)) || |y.ring.data| != MQ_DATA_SIZE then y
    else Alone(After(y, NextAct(y, v)), v, steps - 1)
  }

  lemma AloneNext<V>(y: System<V>, v: V, steps: nat)
    requires Inv(y)
    ensures Enabled(y, NextAct(y, v)) && Inv(After(y, NextAct(y, v)))
    ensures Alone(y, v, steps + 1) == Alone(After(y, NextAct(y, v)), v, steps)
  {
    LordIsNeverStuck(y, v, NextAct(y, v));
    StepKeepsInv(y, NextAct(y, v));
  }

  function Messages<V>(ms: seq<Msg>): seq<Input<V>> {
    seq(|ms|, i requires 0 <= i < |ms| => Message(ms[i]))
  }

  /** What is published and not delivered. */
  function Waiting<V>(y: System<V>): seq<Msg> {
    if |y.ring.consumed| <= R.Published(y.ring) then y.ring.produced[|y.ring.consumed|..R.Published(y.ring)] else []
  }

  lemma WaitingMeansNotEmpty<V>(y: System<V>)
    requires Inv(y)
    ensures Waiting(y) == [] <==> y.ring.tail == y.ring.head
  {
    R.SameCounter(|y.ring.consumed|, R.Published(y.ring));
  }

  /** With a message waiting the lord reads it ... */
  lemma ReadsTheFirst<V>(y: System<V>, v: V) returns (z: System<V>)
    requires Inv(y) && y.phase.Draining? && y.ring.read.Nothing? && Waiting(y) != []
    ensures forall n: nat :: Alone(y, v, n + 1) == Alone(z, v, n)
    ensures Inv(z) && z.phase.Draining? && z.ring.read.Got? && z.log == y.log && Waiting(z) == Waiting(y)
  {
    WaitingMeansNotEmpty(y);
    z := After(y, NextAct(y, v));
    forall n: nat
      ensures Alone(y, v, n + 1) == Alone(z, v, n)
    {
      AloneNext(y, v, n);
    }
    AloneNext(y, v, 0);
  }

  /** ... and handles it: it is the first of those waiting. */
  lemma TakesTheFirst<V>(y: System<V>, v: V) returns (z: System<V>)
    requires Inv(y) && y.phase.Draining? && y.ring.read.Got?
    ensures forall n: nat :: Alone(y, v, n + 1) == Alone(z, v, n)
    ensures Inv(z) && z.phase.Draining? && z.ring.read.Nothing?
    ensures Waiting(y) != [] && z.log == y.log + [Message(Waiting(y)[0])] && Waiting(z) == Waiting(y)[1..]
  {
    z := After(y, NextAct(y, v));
    forall n: nat
      ensures Alone(y, v, n + 1) == Alone(z, v, n)
    {
      AloneNext(y, v, n);
    }
    AloneNext(y, v, 0);
  }

  /** With nothing waiting it schedules. */
  lemma SchedulesOnEmpty<V>(y: System<V>, v: V)
    requires Inv(y) && y.phase.Draining? && y.ring.read.Nothing? && Waiting(y) == []
    ensures var z := Alone(y, v, 2);
            && z.phase.Draining? && z.ring.read.Nothing? && z.ring.tail == z.ring.head && z.log == y.log + [Turn(v)]
  {
    WaitingMeansNotEmpty(y);
    AloneNext(y, v, 1);
    var x := After(y, FindEmpty);
    AloneNext(x, v, 0);
    assert Alone(x, v, 1) == Alone(After(x, Decide(v)), v, 0);
  }

  /** The lord has come to the end of a round: it has handled these messages, scheduled, and is about to drain again. */
  ghost predicate RoundDone<V>(y: System<V>, ms: seq<Msg>, v: V, z: System<V>) {
    && z.phase.Draining? && z.ring.read.Nothing? && z.ring.tail == z.ring.head
    && z.log == y.log + Messages(ms) + [Turn(v)]
  }

  lemma RoundGoesOn<V>(y: System<V>, x: System<V>, ms: seq<Msg>, v: V, z: System<V>)
    requires ms != [] && x.log == y.log + [Message(ms[0])] && RoundDone(x, ms[1..], v, z)
    ensures RoundDone(y, ms, v, z)
  {
    var first: seq<Input<V>> := [Message(ms[0])];
    assert Messages<V>(ms) == first + Messages(ms[1..]);
    assert y.log + first + Messages(ms[1..]) == y.log + (first + Messages(ms[1..]));
  }

  lemma EmptyRound<V>(y: System<V>, v: V)
    requires Inv(y) && y.phase.Draining? && y.ring.read.Nothing? && Waiting(y) == []
    ensures RoundDone(y, [], v, Alone(y, v, 2))
  {
    SchedulesOnEmpty(y, v);
    assert y.log + Messages([]) == y.log;
  }

  /** Left alone, the lord handles every message that waits, each once and in order, then schedules, and drains
      again. */
  lemma {:induction false} LordAloneDrainsAndSchedules<V>(y: System<V>, v: V) returns (steps: nat)
    requires Inv(y) && y.phase.Draining?
    ensures RoundDone(y, Waiting(y), v, Alone(y, v, steps))
    decreases |Waiting(y)|, if y.ring.read.Nothing? then 1 else 0
  {
    if y.ring.read.Nothing? && Waiting(y) == [] {
      EmptyRound(y, v);
      steps := 2;
    } else if y.ring.read.Nothing? {
      var z := ReadsTheFirst(y, v);
      var n := LordAloneDrainsAndSchedules(z, v);
      steps := n + 1;
    } else {
      var z := TakesTheFirst(y, v);
      var n := LordAloneDrainsAndSchedules(z, v);
      RoundGoesOn(y, z, Waiting(y), v, Alone(z, v, n));
      steps := n + 1;
    }
  }

  // ---------------------------------------------------------------- the FIFO lord

  /** In each step that handles something the lord, if it still runs, makes the step of its model. */
  ghost predicate FifoMoves(cfg: Config, l: Outcome<FifoModel.State>, y: System<Verdict>, a: Act<Verdict>,
                            m: Outcome<FifoModel.State>)
  {
    && Enabled(y, a)
    && if Handled(y, a) == [] then m == l
       else l.Run? && FifoModel.WellFormed(cfg, l.s) && m == FifoModel.Step(cfg, l.s, Handled(y, a)[0])
  }

  ghost predicate FifoRun(cfg: Config, area: seq<ShootArg>, ys: seq<System<Verdict>>, acts: seq<Act<Verdict>>,
                          lords: seq<Outcome<FifoModel.State>>)
  {
    && cfg.cpuNum <= |area| && Run(ys, acts) && |lords| == |ys|
    && lords[0] == Outcome.Run(FifoModel.Init(cfg, area))
    && forall k :: 0 <= k < |acts| ==> FifoMoves(cfg, lords[k], ys[k], acts[k], lords[k + 1])
  }

  lemma FifoStepIsTheRun(cfg: Config, i: FifoModel.State, l: Outcome<FifoModel.State>, y: System<Verdict>,
                       a: Act<Verdict>, z: System<Verdict>, m: Outcome<FifoModel.State>)
    requires FifoModel.WellFormed(cfg, i) && Follows(y, a, z) && FifoMoves(cfg, l, y, a, m)
    requires l == FifoModel.Exec(cfg, i, y.log)
    ensures m == FifoModel.Exec(cfg, i, z.log)
  {
    if Handled(y, a) != [] {
      FifoModel.ExecOneMore(cfg, i, y.log, Handled(y, a)[0]);
      assert Handled(y, a) == [Handled(y, a)[0]];
    }
  }

  lemma FifoRunMoves(
      cfg: Config, area: seq<ShootArg>, ys: seq<System<Verdict>>, acts: seq<Act<Verdict>>,
      lords: seq<Outcome<FifoModel.State>>, k: nat)
    requires FifoRun(cfg, area, ys, acts, lords) && k < |acts|
    ensures FifoMoves(cfg, lords[k], ys[k], acts[k], lords[k + 1])
  {
  }

  lemma FifoOneMore(
      cfg: Config, area: seq<ShootArg>, ys: seq<System<Verdict>>, acts: seq<Act<Verdict>>,
      lords: seq<Outcome<FifoModel.State>>, k: nat)
    requires FifoRun(cfg, area, ys, acts, lords) && k < |acts|
    requires lords[k] == FifoModel.Exec(cfg, FifoModel.Init(cfg, area), ys[k].log)
    ensures lords[k + 1] == FifoModel.Exec(cfg, FifoModel.Init(cfg, area), ys[k + 1].log)
  {
    RunFollows(ys, acts, k);
    FifoRunMoves(cfg, area, ys, acts, lords, k);
    FifoStepIsTheRun(cfg, FifoModel.Init(cfg, area), lords[k], ys[k], acts[k], ys[k + 1], lords[k + 1]);
  }

  lemma {:induction false} FifoStateIsTheRun(
      cfg: Config, area: seq<ShootArg>, ys: seq<System<Verdict>>, acts: seq<Act<Verdict>>,
      lords: seq<Outcome<FifoModel.State>>, n: nat)
    requires FifoRun(cfg, area, ys, acts, lords) && n < |ys|
    ensures lords[n] == FifoModel.Exec(cfg, FifoModel.Init(cfg, area), ys[n].log)
  {
    if n > 0 {
      FifoStateIsTheRun(cfg, area, ys, acts, lords, n - 1);
      FifoOneMore(cfg, area, ys, acts, lords, n - 1);
    }
  }

  /** Over every interleaving of a producer that leaves room with the FIFO lord's loop: the lord has handled exactly the
      oldest of the messages produced, in order, and its state is that of the run made of them and its schedules; so
      the invariant holds and the lord stops for a kernel error only. */
  lemma FifoSystemIsSafe(cfg: Config, area: seq<ShootArg>, ys: seq<System<Verdict>>, acts: seq<Act<Verdict>>,
                         lords: seq<Outcome<FifoModel.State>>, n: nat)
    requires FifoRun(cfg, area, ys, acts, lords) && RoomLeft(ys, acts, n) && ShootArea.Clean(area, cfg.cpuNum)
    ensures Delivered(ys[n].log) == ys[n].ring.consumed <= ys[n].ring.produced
    ensures ys[n].phase.Deciding? ==> |Delivered(ys[n].log)| == ys[n].seen
    ensures lords[n] == FifoModel.Exec(cfg, FifoModel.Init(cfg, area), ys[n].log)
    ensures lords[n].Run? ==> FifoTheorems.Inv(cfg, lords[n].s)
    ensures lords[n].Halt? ==> FifoTheorems.KernelsFault(lords[n].cause)
  {
    RunKeepsInv(ys, acts, n);
    FifoStateIsTheRun(cfg, area, ys, acts, lords, n);
    FifoTheorems.InitInv(cfg, area);
    FifoTheorems.EveryRunIsSafe(cfg, FifoModel.Init(cfg, area), ys[n].log);
  }

  // ---------------------------------------------------------------- the Shinjuku lord

  ghost predicate ShinjukuMoves(cfg: Config, l: Outcome<ShinjukuModel.State>, y: System<ShinjukuModel.Env>,
                                a: Act<ShinjukuModel.Env>, m: Outcome<ShinjukuModel.State>)
  {
    && Enabled(y, a)
    && if Handled(y, a) == [] then m == l
       else l.Run? && ShinjukuModel.WellFormed(cfg, l.s) && m == ShinjukuModel.Step(cfg, l.s, Handled(y, a)[0])
  }

  ghost predicate ShinjukuRun(cfg: Config, area: seq<ShootArg>, ys: seq<System<ShinjukuModel.Env>>,
                              acts: seq<Act<ShinjukuModel.Env>>, lords: seq<Outcome<ShinjukuModel.State>>)
  {
    && cfg.cpuNum <= |area| && Run(ys, acts) && |lords| == |ys|
    && lords[0] == Outcome.Run(ShinjukuModel.Init(cfg, area))
    && forall k :: 0 <= k < |acts| ==> ShinjukuMoves(cfg, lords[k], ys[k], acts[k], lords[k + 1])
  }

  lemma ShinjukuStepIsTheRun(
      cfg: Config, i: ShinjukuModel.State, l: Outcome<ShinjukuModel.State>, y: System<ShinjukuModel.Env>,
      a: Act<ShinjukuModel.Env>, z: System<ShinjukuModel.Env>, m: Outcome<ShinjukuModel.State>)
    requires ShinjukuModel.WellFormed(cfg, i) && Follows(y, a, z) && ShinjukuMoves(cfg, l, y, a, m)
    requires l == ShinjukuModel.Exec(cfg, i, y.log)
    ensures m == ShinjukuModel.Exec(cfg, i, z.log)
  {
    if Handled(y, a) != [] {
      ShinjukuModel.ExecOneMore(cfg, i, y.log, Handled(y, a)[0]);
      assert Handled(y, a) == [Handled(y, a)[0]];
    }
  }

  lemma ShinjukuRunMoves(
      cfg: Config, area: seq<ShootArg>, ys: seq<System<ShinjukuModel.Env>>, acts: seq<Act<ShinjukuModel.Env>>,
      lords: seq<Outcome<ShinjukuModel.State>>, k: nat)
    requires ShinjukuRun(cfg, area, ys, acts, lords) && k < |acts|
    ensures ShinjukuMoves(cfg, lords[k], ys[k], acts[k], lords[k + 1])
  {
  }

  lemma ShinjukuOneMore(
      cfg: Config, area: seq<ShootArg>, ys: seq<System<ShinjukuModel.Env>>, acts: seq<Act<ShinjukuModel.Env>>,
      lords: seq<Outcome<ShinjukuModel.State>>, k: nat)
    requires ShinjukuRun(cfg, area, ys, acts, lords) && k < |acts|
    requires lords[k] == ShinjukuModel.Exec(cfg, ShinjukuModel.Init(cfg, area), ys[k].log)
    ensures lords[k + 1] == ShinjukuModel.Exec(cfg, ShinjukuModel.Init(cfg, area), ys[k + 1].log)
  {
    RunFollows(ys, acts, k);
    ShinjukuRunMoves(cfg, area, ys, acts, lords, k);
    ShinjukuStepIsTheRun(cfg, ShinjukuModel.Init(cfg, area), lords[k], ys[k], acts[k], ys[k + 1], lords[k + 1]);
  }

  lemma {:induction false} ShinjukuStateIsTheRun(
      cfg: Config, area: seq<ShootArg>, ys: seq<System<ShinjukuModel.Env>>, acts: seq<Act<ShinjukuModel.Env>>,
      lords: seq<Outcome<ShinjukuModel.State>>, n: nat)
    requires ShinjukuRun(cfg, area, ys, acts, lords) && n < |ys|
    ensures lords[n] == ShinjukuModel.Exec(cfg, ShinjukuModel.Init(cfg, area), ys[n].log)
  {
    if n > 0 {
      ShinjukuStateIsTheRun(cfg, area, ys, acts, lords, n - 1);
      ShinjukuOneMore(cfg, area, ys, acts, lords, n - 1);
    }
  }

  /** The same for the Shinjuku lord: agreement over every such interleaving; and if the messages it has handled are
      disciplined it still runs and ownership holds. */
  lemma ShinjukuSystemIsSafe(cfg: Config, area: seq<ShootArg>, ys: seq<System<ShinjukuModel.Env>>,
                             acts: seq<Act<ShinjukuModel.Env>>, lords: seq<Outcome<ShinjukuModel.State>>, n: nat)
    requires ShinjukuRun(cfg, area, ys, acts, lords) && RoomLeft(ys, acts, n) && ShootArea.Clean(area, cfg.cpuNum)
    ensures Delivered(ys[n].log) == ys[n].ring.consumed <= ys[n].ring.produced
    ensures ys[n].phase.Deciding? ==> |Delivered(ys[n].log)| == ys[n].seen
    ensures lords[n] == ShinjukuModel.Exec(cfg, ShinjukuModel.Init(cfg, area), ys[n].log)
    ensures lords[n].Run? ==> ShinjukuInvariants.Core(cfg, lords[n].s)
    ensures lords[n].Halt? ==> ShinjukuInvariants.Reachable(lords[n].cause)
    ensures ShinjukuInvariants.Disciplined(cfg, ShinjukuModel.Init(cfg, area), ys[n].log) ==>
              lords[n].Run? && ShinjukuInvariants.Inv(cfg, lords[n].s)
  {
    var i := ShinjukuModel.Init(cfg, area);
    RunKeepsInv(ys, acts, n);
    ShinjukuStateIsTheRun(cfg, area, ys, acts, lords, n);
    ShinjukuInvariants.InitCore(cfg, area);
    ShinjukuInvariants.EveryRunAgrees(cfg, i, ys[n].log);
    if ShinjukuInvariants.Disciplined(cfg, i, ys[n].log) {
      ShinjukuInvariants.DisciplinedRunsAreTheGoodOnes(cfg, i, ys[n].log);
      ShinjukuInvariants.GoodRunsEndGood(cfg, i, ys[n].log);
    }
  }
}
