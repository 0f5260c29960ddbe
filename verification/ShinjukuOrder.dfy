/** The order of the Shinjuku queue over whole runs: who can overtake whom, and how long a task waits. */
module ShinjukuOrder {
  import opened Kernel
  import opened RunQueue
  import opened ShootArea
  import opened Lord
  import opened ShinjukuModel
  import opened ShinjukuEffect
  import opened ShinjukuInvariants

  lemma {:induction false} FilterSplits(q: seq<u32>, idle: set<u32>)
    ensures |Filter(q, idle, false)| + |Filter(q, idle, true)| == |q|
  {
    if q != [] {
      FilterSplits(q[1..], idle);
    }
  }

  /** The pick loop takes a prefix of the queue off: the tasks it picks and those it sets aside. */
  lemma RestIsACut(rq: seq<u32>, free: seq<int>, idle: set<u32>)
    ensures var k := PickLoop(rq, free, idle);
            && |k.shots| + |k.skipped| <= |rq| && k.rest == rq[|k.shots| + |k.skipped|..]
            && forall x :: x in k.skipped ==> x in idle
  {
    var m := Scanned(rq, free, idle);
    PickLoopRefines(rq, free, idle);
    FilterAt(rq[..m], idle, true);
    FilterSplits(rq[..m], idle);
    assert |Pids(PickLoop(rq, free, idle).shots)| == |PickLoop(rq, free, idle).shots|;
  }

  /** The queue after a schedule: what was not scanned, then the tasks set aside, then those refused. */
  lemma QueueAfterSchedule(cfg: Config, s: State, env: Env)
    requires Core(cfg, s) && Schedule(cfg, s, env).Run?
    ensures var k, t := Picks(cfg, s, env), Schedule(cfg, s, env).s;
            t.rq == k.rest + (k.skipped + Back(cfg, s, env)) && NoDup(t.rq)
  {
    ScheduleKeepsCore(cfg, s, env);
    FineExactlyWhenEntriesRun(cfg, s, env, cfg.cpuNum);
    ScheduleSettles(cfg, s, env);
  }

  /** A schedule, for a task that is not read as idle and not refused a CPU itself, and is still queued afterwards: it
      moves up by exactly the tasks that were picked or set aside; those and the refused ones are behind it or gone. */
  lemma TurnMovesUp(cfg: Config, s: State, env: Env, p: u32)
    requires Core(cfg, s) && Schedule(cfg, s, env).Run? && p !in Back(cfg, s, env)
    requires p in s.rq && p !in env.taskIdle && p in Schedule(cfg, s, env).s.rq
    ensures Pos(Schedule(cfg, s, env).s.rq, p) + |Shots(cfg, s, env)| + |Picks(cfg, s, env).skipped| == Pos(s.rq, p)
  {
    var k := Picks(cfg, s, env);
    RestIsACut(s.rq, Free(cfg, s, env), env.taskIdle);
    QueueAfterSchedule(cfg, s, env);
    assert p in k.rest;
    CutMovesUp(s.rq, |k.shots| + |k.skipped|, p);
    PosInFront(k.rest, k.skipped + Back(cfg, s, env), p);
  }

  lemma MessageTouchesItsTaskOnly(cfg: Config, s: State, m: Msg)
    requires Core(cfg, s) && Consume(cfg, s, m).Run?
    ensures EditedAt(s.rq, Consume(cfg, s, m).s.rq, m.pid)
  {
    if m.pid != cfg.lordPid {
      MessageEffect(cfg, s, m);
    }
  }

  lemma StepKeepsCore(cfg: Config, s: State, e: Event)
    requires Core(cfg, s) && Step(cfg, s, e).Run?
    ensures Core(cfg, Step(cfg, s, e).s)
  {
    match e
    case Message(m) => MessageKeepsCore(cfg, s, m);
    case Turn(env) => ScheduleKeepsCore(cfg, s, env);
  }

  /** Along the whole run these tasks never leave the queue, and none of them is refused a CPU or read as idle. */
  ghost predicate StayQueued(cfg: Config, s: State, es: seq<Event>, ps: set<u32>)
    requires WellFormed(cfg, s)
    decreases |es|
  {
    && (forall p :: p in ps ==> p in s.rq)
    && (es != [] ==>
          && (es[0].Turn? ==> forall p :: p in ps ==> p !in Back(cfg, s, es[0].v) && p !in es[0].v.taskIdle)
          && var r := Step(cfg, s, es[0]);
             r.Run? ==> StayQueued(cfg, r.s, es[1..], ps))
  }

  /** How many tasks one event picks, those that are refused included. */
  function Dispatched(cfg: Config, s: State, e: Event): nat
    requires WellFormed(cfg, s)
  {
    if e.Turn? then |Shots(cfg, s, e.v)| else 0
  }

  /** How many tasks a run picks. */
  function Dispatches(cfg: Config, s: State, es: seq<Event>): nat
    requires WellFormed(cfg, s)
    decreases |es|
  {
    if es == [] then 0
    else
      match Step(cfg, s, es[0])
      case Halt(_) => Dispatched(cfg, s, es[0])
      case Run(t) => Dispatched(cfg, s, es[0]) + Dispatches(cfg, t, es[1..])
  }

  lemma StepMovesUp(cfg: Config, s: State, e: Event, p: u32)
    requires Core(cfg, s) && Step(cfg, s, e).Run?
    requires e.Turn? ==> p !in Back(cfg, s, e.v) && p !in e.v.taskIdle
    requires p in s.rq && p in Step(cfg, s, e).s.rq
    ensures Pos(Step(cfg, s, e).s.rq, p) + Dispatched(cfg, s, e) <= Pos(s.rq, p)
  {
    match e
    case Turn(env) => TurnMovesUp(cfg, s, env, p);
    case Message(m) =>
      MessageTouchesItsTaskOnly(cfg, s, m);
      EditMovesUp(s.rq, Consume(cfg, s, m).s.rq, m.pid, p);
  }

  lemma StepKeepsOrder(cfg: Config, s: State, e: Event, p: u32, r: u32)
    requires Core(cfg, s) && Step(cfg, s, e).Run?
    requires e.Turn? ==> p !in Back(cfg, s, e.v) && p !in e.v.taskIdle
    requires e.Turn? ==> r !in Back(cfg, s, e.v) && r !in e.v.taskIdle
    requires p in s.rq && r in s.rq && Pos(s.rq, p) < Pos(s.rq, r)
    requires p in Step(cfg, s, e).s.rq && r in Step(cfg, s, e).s.rq
    ensures Pos(Step(cfg, s, e).s.rq, p) < Pos(Step(cfg, s, e).s.rq, r)
  {
    match e
    case Turn(env) =>
      TurnMovesUp(cfg, s, env, p);
      TurnMovesUp(cfg, s, env, r);
    case Message(m) =>
      MessageTouchesItsTaskOnly(cfg, s, m);
      EditKeepsOrder(s.rq, Consume(cfg, s, m).s.rq, m.pid, p, r);
  }

  /** Waiting is bounded, over every run of any messages: a task at index i that stays queued, and is never read as idle
      nor refused itself, sees at most i picks, whoever else is refused, and each of them moves it up. */
  lemma {:induction false} WaitIsBounded(cfg: Config, s: State, es: seq<Event>, p: u32)
    requires Core(cfg, s) && StayQueued(cfg, s, es, {p}) && Exec(cfg, s, es).Run?
    ensures p in s.rq && p in Exec(cfg, s, es).s.rq
    ensures Dispatches(cfg, s, es) + Pos(Exec(cfg, s, es).s.rq, p) <= Pos(s.rq, p)
    decreases |es|
  {
    assert p in {p};
    if es != [] {
      var t := Step(cfg, s, es[0]).s;
      assert StayQueued(cfg, t, es[1..], {p});
      StepKeepsCore(cfg, s, es[0]);
      StepMovesUp(cfg, s, es[0], p);
      WaitIsBounded(cfg, t, es[1..], p);
    }
  }

  /** No overtaking, over the same runs: two such tasks keep their order, whatever is set aside or displaced. */
  lemma {:induction false} NoOvertaking(cfg: Config, s: State, es: seq<Event>, p: u32, r: u32)
    requires Core(cfg, s) && StayQueued(cfg, s, es, {p, r}) && Exec(cfg, s, es).Run?
    requires p in s.rq && r in s.rq && Pos(s.rq, p) < Pos(s.rq, r)
    ensures p in Exec(cfg, s, es).s.rq && r in Exec(cfg, s, es).s.rq
    ensures Pos(Exec(cfg, s, es).s.rq, p) < Pos(Exec(cfg, s, es).s.rq, r)
    decreases |es|
  {
    assert p in {p, r} && r in {p, r};
    if es != [] {
      var t := Step(cfg, s, es[0]).s;
      assert StayQueued(cfg, t, es[1..], {p, r});
      StepKeepsCore(cfg, s, es[0]);
      StepKeepsOrder(cfg, s, es[0], p, r);
      NoOvertaking(cfg, t, es[1..], p, r);
    }
  }
}
