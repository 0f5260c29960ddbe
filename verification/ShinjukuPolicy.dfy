/** What a Shinjuku schedule guarantees to the tasks: rollback as a transaction, slices, no wasted CPU. */
module ShinjukuPolicy {
  import opened Kernel
  import opened ShootArea
  import opened Lord
  import opened ShinjukuModel
  import opened ShinjukuEffect
  import opened ShinjukuInvariants

  // ---------------------------------------------------------------- rollback

  /** The CPUs the kernel really switched. */
  function Granted(cfg: Config, s: State, env: Env): set<int>
    requires WellFormed(cfg, s)
  {
    set c | c in Cpus(Shots(cfg, s, env)) && !Refused(env.verdict, c)
  }

  /** No ownership is needed to know the whole effect of a schedule that the lord survives. */
  lemma SurvivedSettles(cfg: Config, s: State, env: Env)
    requires Core(cfg, s) && Schedule(cfg, s, env).Run?
    ensures Settled(cfg, s, env, Schedule(cfg, s, env).s)
    ensures forall c :: 0 <= c < cfg.cpuNum ==> EntryRuns(s, c)
  {
    FineExactlyWhenEntriesRun(cfg, s, env, cfg.cpuNum);
    ScheduleSettles(cfg, s, env);
  }

  /** A task that was to be displaced from a refused CPU still owns it, untouched; one displaced from a
      granted CPU is still recorded there, without owning it. */
  lemma OldOwnersAfterwards(cfg: Config, s: State, env: Env, c: int)
    requires Core(cfg, s) && Schedule(cfg, s, env).Run?
    requires c in Cpus(Shots(cfg, s, env)) && s.cpus[c].kind.COS?
    requires s.cpus[c].pid in s.tasks ==> s.tasks[s.cpus[c].pid].cpuId == c
    ensures var t, p := Schedule(cfg, s, env).s, s.cpus[c].pid;
            && p in s.tasks && p in t.tasks && t.tasks[p] == s.tasks[p]
            && (if c in Granted(cfg, s, env) then Displaced(t, p) else Owner(t, p))
  {
    var a, p := Shots(cfg, s, env), s.cpus[c].pid;
    SurvivedSettles(cfg, s, env);
    PicksPairUp(cfg, s, env);
    PicksSplitTheQueue(cfg, s, env);
    assert EntryRuns(s, c);
    assert p !in Pids(a);
    assert PidOn(a)[c] in Pids(a);
  }

  /** A task is not picked for the CPU whose entry names it already. */
  lemma NewOwnersAreNew(cfg: Config, s: State, env: Env, c: int)
    requires Core(cfg, s) && Schedule(cfg, s, env).Run? && c in Cpus(Shots(cfg, s, env))
    ensures c in PidOn(Shots(cfg, s, env)) && 0 <= c < |s.cpus|
    ensures s.cpus[c] != Cpu(COS, PidOn(Shots(cfg, s, env))[c])
  {
    var a := Shots(cfg, s, env);
    SurvivedSettles(cfg, s, env);
    PicksPairUp(cfg, s, env);
    PicksSplitTheQueue(cfg, s, env);
    assert PidOn(a)[c] in Pids(a);
    assert EntryRuns(s, c);
  }

  /** For every answer of the kernel, in every schedule that the lord survives, the CPU table changes exactly on the
      granted CPUs. */
  lemma RollbackIsTransactional(cfg: Config, s: State, env: Env)
    requires Core(cfg, s) && Schedule(cfg, s, env).Run?
    ensures |Schedule(cfg, s, env).s.cpus| == |s.cpus|
    ensures forall c :: 0 <= c < |s.cpus| ==>
              (Schedule(cfg, s, env).s.cpus[c] != s.cpus[c] <==> c in Granted(cfg, s, env))
    ensures forall i :: 0 <= i < |Shots(cfg, s, env)| && Shots(cfg, s, env)[i].cpu in Granted(cfg, s, env) ==>
              var shot := Shots(cfg, s, env)[i]; Schedule(cfg, s, env).s.cpus[shot.cpu] == Cpu(COS, shot.arg.pid)
  {
    PidOnAt(Shots(cfg, s, env));
    SurvivedSettles(cfg, s, env);
    forall c | c in Granted(cfg, s, env)
      ensures 0 <= c < |s.cpus| && s.cpus[c] != Cpu(COS, PidOn(Shots(cfg, s, env))[c])
    {
      NewOwnersAreNew(cfg, s, env, c);
    }
  }

  /** Refused tasks are queued again at the tail: in the order of assignment when the call failed, by ascending
      CPU when the kernel refused some of them. */
  lemma RefusedTasksGoToTheTail(cfg: Config, s: State, env: Env)
    requires Core(cfg, s) && Schedule(cfg, s, env).Run?
    ensures var t, p := Schedule(cfg, s, env).s, Picks(cfg, s, env);
            var fs := Undone(s.area, cfg.cpuNum, p.shots, env.verdict);
            && t.rq == p.rest + p.skipped + FailPids(fs)
            && (forall f :: f in fs <==> RefusedPick(p.shots, env.verdict, f))
            && (env.verdict.Failed? ==> FailPids(fs) == Pids(p.shots))
            && (env.verdict.Replied? ==> Ascending(fs))
            && (forall x :: x in FailPids(fs) ==> x in t.tasks && t.tasks[x].state.Queued?)
  {
    SurvivedSettles(cfg, s, env);
    PicksPairUp(cfg, s, env);
    PicksSplitTheQueue(cfg, s, env);
    RoundTrip(s.area, cfg.cpuNum, Shots(cfg, s, env), env.verdict);
    assert env.verdict.Failed? ==> Back(cfg, s, env) == Pids(Shots(cfg, s, env));
  }

  /** What a schedule leaves of each task: a picked one is recorded on its CPU, running or queued again as the kernel
      answered, with the time of this schedule; every other one is untouched, displaced or not. */
  lemma EachPickSettles(cfg: Config, s: State, env: Env)
    requires Core(cfg, s) && Schedule(cfg, s, env).Run?
    ensures var a, t := Shots(cfg, s, env), Schedule(cfg, s, env).s;
            && t.tasks.Keys == s.tasks.Keys
            && (forall i :: 0 <= i < |a| ==>
                  && a[i].arg.pid in t.tasks
                  && t.tasks[a[i].arg.pid] ==
                     Task(if Refused(env.verdict, a[i].cpu) then Queued else OnCpu, a[i].cpu, env.now))
            && (forall p :: p in s.tasks && p !in Pids(a) ==> t.tasks[p] == s.tasks[p])
  {
    var a := Shots(cfg, s, env);
    SurvivedSettles(cfg, s, env);
    PicksSplitTheQueue(cfg, s, env);
    PlaceOfAt(a);
    forall i | 0 <= i < |a|
      ensures a[i].arg.pid in s.tasks
    {
      assert Pids(a)[i] in Pids(a);
      assert a[i].arg.pid in s.rq;
    }
  }

  /** ... and of the shoot area: the pids of its picks, and nothing else, are new. */
  lemma AreaAfterSchedule(cfg: Config, s: State, env: Env)
    requires Core(cfg, s) && Schedule(cfg, s, env).Run?
    ensures var a, t := Shots(cfg, s, env), Schedule(cfg, s, env).s;
            && |t.area| == |s.area|
            && (forall i :: 0 <= i < |a| ==> t.area[a[i].cpu] == ShootArg(a[i].arg.pid, SA_RIGHT))
            && (forall c :: 0 <= c < |s.area| && c !in Cpus(a) ==> t.area[c] == s.area[c])
  {
    SurvivedSettles(cfg, s, env);
    AreaAfterRound(s.area, cfg.cpuNum, Shots(cfg, s, env), env.verdict);
  }

  // ---------------------------------------------------------------- slices and idle CPUs

  /** No task was shot later than `clock`. */
  ghost predicate Timely(s: State, clock: int) {
    forall p :: p in s.tasks ==> s.tasks[p].lastShoot <= clock
  }

  /** What makes a scheduled CPU usable: it runs no task of the lord, or the task its entry names had its slice, in true
      time, or the epistle calls that task idle (which the lord never asks about pid 0). */
  ghost predicate Usable(s: State, env: Env, c: int)
    requires 0 <= c < |s.cpus| && EntryRuns(s, c)
  {
    || !s.cpus[c].kind.COS?
    || env.now - s.tasks[s.cpus[c].pid].lastShoot >= PREEMPT_TIME_SLICE
    || (c in env.cpuIdle && s.cpus[c].pid != 0)
  }

  /** The free CPUs are exactly the scheduled ones that are usable. */
  lemma FreeExactlyWhenUsable(cfg: Config, s: State, env: Env, c: int)
    requires WellFormed(cfg, s) && Timely(s, env.now) && 0 <= c < |s.cpus| && EntryRuns(s, c)
    ensures c in Free(cfg, s, env) <==> Scheduled(cfg, c) && Usable(s, env, c)
  {
    FreeSound(cfg, s, env);
    if s.cpus[c].kind.COS? {
      var task := s.tasks[s.cpus[c].pid];
      assert Elapsed(env.now, task) == env.now - task.lastShoot;
    }
  }

  function RankOf(kind: ThreadType): nat {
    match kind
    case IDLE => 0
    case CFS => 1
    case COS => 2
  }

  /** Idle CPUs go first, then those of CFS, then those with a task to displace; among equals the lower number. */
  predicate GoesFirst(s: State, c: int, d: int) {
    && 0 <= c < |s.cpus| && 0 <= d < |s.cpus|
    && var r, q := RankOf(s.cpus[c].kind), RankOf(s.cpus[d].kind);
       r < q || (r == q && c < d)
  }

  lemma {:induction false} CollectedKind(cfg: Config, s: State, env: Env, hi: nat, wanted: Class)
    requires hi <= |s.cpus|
    ensures forall c :: c in Collect(cfg, s, env, hi, wanted) ==>
              && 0 <= c < hi
              && (wanted.Idle? ==> s.cpus[c].kind.IDLE?)
              && (wanted.OfCfs? ==> s.cpus[c].kind.CFS?)
              && (wanted.Preemptible? ==> s.cpus[c].kind.COS?)
  {
    CollectSound(cfg, s, env, hi, wanted);
  }

  lemma ListsInOrder(s: State, a: seq<int>, b: seq<int>)
    requires InOrder(s, a) && InOrder(s, b)
    requires forall c, d :: c in a && d in b ==> GoesFirst(s, c, d)
    ensures InOrder(s, a + b)
  {
    forall i, j | 0 <= i < j < |a + b|
      ensures GoesFirst(s, (a + b)[i], (a + b)[j])
    {
      if i < |a| <= j {
        assert a[i] in a && b[j - |a|] in b;
      }
    }
  }

  ghost predicate InOrder(s: State, q: seq<int>) {
    && (forall c :: c in q ==> 0 <= c < |s.cpus|)
    && forall i, j :: 0 <= i < j < |q| ==> GoesFirst(s, q[i], q[j])
  }

  lemma CollectInOrder(cfg: Config, s: State, env: Env, wanted: Class)
    requires WellFormed(cfg, s) && wanted in {Idle, OfCfs, Preemptible}
    ensures InOrder(s, Collect(cfg, s, env, cfg.cpuNum, wanted))
  {
    var q := Collect(cfg, s, env, cfg.cpuNum, wanted);
    CollectSound(cfg, s, env, cfg.cpuNum, wanted);
    CollectedKind(cfg, s, env, cfg.cpuNum, wanted);
    forall i, j | 0 <= i < j < |q|
      ensures GoesFirst(s, q[i], q[j])
    {
      assert q[i] in q && q[j] in q;
    }
  }

  /** In every state the free CPUs stand in that order. */
  lemma FreeIsInOrder(cfg: Config, s: State, env: Env)
    requires WellFormed(cfg, s)
    ensures InOrder(s, Free(cfg, s, env))
  {
    var n := cfg.cpuNum;
    var i, f, p := Collect(cfg, s, env, n, Idle), Collect(cfg, s, env, n, OfCfs), Collect(cfg, s, env, n, Preemptible);
    CollectInOrder(cfg, s, env, Idle);
    CollectInOrder(cfg, s, env, OfCfs);
    CollectInOrder(cfg, s, env, Preemptible);
    CollectedKind(cfg, s, env, n, Idle);
    CollectedKind(cfg, s, env, n, OfCfs);
    CollectedKind(cfg, s, env, n, Preemptible);
    ListsInOrder(s, i, f);
    ListsInOrder(s, i + f, p);
  }

  /** So a free CPU that goes before a picked one has been picked before it. */
  lemma PickedInOrder(cfg: Config, s: State, env: Env, i: nat, d: int) returns (j: nat)
    requires WellFormed(cfg, s) && i < |Shots(cfg, s, env)| && d in Free(cfg, s, env)
    requires GoesFirst(s, d, Shots(cfg, s, env)[i].cpu)
    ensures j < i && Shots(cfg, s, env)[j].cpu == d
  {
    var free := Free(cfg, s, env);
    FreeIsInOrder(cfg, s, env);
    PickedAreTheFirst(cfg, s, env);
    j :| 0 <= j < |free| && free[j] == d;
    assert !(j > i) by {
      assert j > i ==> GoesFirst(s, free[i], free[j]);
    }
  }

  /** In every state: when a CPU is taken from CFS, every idle CPU has been given a task first. */
  lemma IdleBeforeCfs(cfg: Config, s: State, env: Env, i: nat, d: int) returns (j: nat)
    requires WellFormed(cfg, s) && i < |Shots(cfg, s, env)| && s.cpus[Shots(cfg, s, env)[i].cpu].kind.CFS?
    requires Scheduled(cfg, d) && s.cpus[d].kind.IDLE?
    ensures j < i && Shots(cfg, s, env)[j].cpu == d
  {
    FreeSound(cfg, s, env);
    j := PickedInOrder(cfg, s, env, i, d);
  }

  /** The picked CPUs are the first of the free ones. */
  lemma PickedAreTheFirst(cfg: Config, s: State, env: Env)
    requires WellFormed(cfg, s)
    ensures var a, free := Shots(cfg, s, env), Free(cfg, s, env);
            |a| <= |free| && forall i :: 0 <= i < |a| ==> a[i].cpu == free[i] && free[i] in free
  {
    PickLoopRefines(s.rq, Free(cfg, s, env), env.taskIdle);
  }

  /** A COS CPU is picked only when the slice of the task its entry names is over, in true time, or the epistle says
      that this task is idle. */
  lemma SliceIsOver(cfg: Config, s: State, env: Env, c: int)
    requires WellFormed(cfg, s) && Timely(s, env.now)
    requires c in Cpus(Shots(cfg, s, env)) && s.cpus[c].kind.COS?
    ensures Running(s, s.cpus[c].pid)
    ensures env.now - s.tasks[s.cpus[c].pid].lastShoot >= PREEMPT_TIME_SLICE || c in env.cpuIdle
  {
    PickedAreTheFirst(cfg, s, env);
    FreeSound(cfg, s, env);
    assert c in Free(cfg, s, env);
  }

  /** The idle CPUs and those of CFS: they come first among the free ones. */
  lemma FirstOfTheFree(cfg: Config, s: State, env: Env) returns (first: seq<int>)
    requires WellFormed(cfg, s)
    ensures first <= Free(cfg, s, env)
    ensures forall c :: Scheduled(cfg, c) && !s.cpus[c].kind.COS? ==> c in first
    ensures forall c :: c in first ==> 0 <= c < |s.cpus| && !s.cpus[c].kind.COS?
  {
    var n := cfg.cpuNum;
    CollectSound(cfg, s, env, n, Idle);
    CollectSound(cfg, s, env, n, OfCfs);
    first := Collect(cfg, s, env, n, Idle) + Collect(cfg, s, env, n, OfCfs);
    assert Free(cfg, s, env) == first + Collect(cfg, s, env, n, Preemptible);
  }

  /** ... and only when all other usable CPUs have been picked already. */
  lemma OthersComeFirst(cfg: Config, s: State, env: Env, c: int, d: int)
    requires WellFormed(cfg, s)
    requires c in Cpus(Shots(cfg, s, env)) && s.cpus[c].kind.COS?
    requires Scheduled(cfg, d) && !s.cpus[d].kind.COS?
    ensures d in Cpus(Shots(cfg, s, env))
  {
    var a, free := Shots(cfg, s, env), Free(cfg, s, env);
    PickedAreTheFirst(cfg, s, env);
    var first := FirstOfTheFree(cfg, s, env);
    var i :| 0 <= i < |a| && a[i].cpu == c;
    assert i >= |first|;
    var j :| 0 <= j < |first| && first[j] == d;
    assert a[j].cpu == d;
  }

  /** In every state whatsoever: a task is displaced only when its slice is over, in true time, or the epistle says it
      is idle; and only when every idle CPU and every CPU of CFS has been used already. */
  lemma DisplacementIsJustified(cfg: Config, s: State, env: Env, c: int)
    requires WellFormed(cfg, s) && Timely(s, env.now)
    requires c in Cpus(Shots(cfg, s, env)) && s.cpus[c].kind.COS?
    ensures Running(s, s.cpus[c].pid)
    ensures env.now - s.tasks[s.cpus[c].pid].lastShoot >= PREEMPT_TIME_SLICE || c in env.cpuIdle
    ensures forall d :: Scheduled(cfg, d) && !s.cpus[d].kind.COS? ==> d in Cpus(Shots(cfg, s, env))
  {
    SliceIsOver(cfg, s, env, c);
    forall d | Scheduled(cfg, d) && !s.cpus[d].kind.COS?
      ensures d in Cpus(Shots(cfg, s, env))
    {
      OthersComeFirst(cfg, s, env, c, d);
    }
  }

  /** In every state whatsoever: if the pick loop leaves a task queued that is not idle, then every free CPU, and so
      every usable one, has been used (or pid 0 heads what is left, which reads as the end of the queue). */
  lemma NoTaskWaitsForAFreeCpu(cfg: Config, s: State, env: Env, x: u32)
    requires WellFormed(cfg, s)
    requires x in Placed(s, env.now, Picks(cfg, s, env)).rq && x !in env.taskIdle
    ensures Picks(cfg, s, env).rest != []
    ensures Picks(cfg, s, env).rest[0] == 0 ||
            forall c :: c in Free(cfg, s, env) ==> c in Cpus(Shots(cfg, s, env))
    ensures Picks(cfg, s, env).rest[0] == 0 || (Timely(s, env.now) ==>
              forall c :: Scheduled(cfg, c) && EntryRuns(s, c) && Usable(s, env, c) ==> c in Cpus(Shots(cfg, s, env)))
  {
    var free := Free(cfg, s, env);
    var p := Picks(cfg, s, env);
    PickLoopRefines(s.rq, free, env.taskIdle);
    FilterAt(s.rq[..Scanned(s.rq, free, env.taskIdle)], env.taskIdle, true);
    if p.rest[0] != 0 {
      forall c | c in free
        ensures c in Cpus(p.shots)
      {
        var i :| 0 <= i < |free| && free[i] == c;
        assert p.shots[i].cpu == c;
      }
      if Timely(s, env.now) {
        forall c | Scheduled(cfg, c) && EntryRuns(s, c) && Usable(s, env, c)
          ensures c in Cpus(p.shots)
        {
          FreeExactlyWhenUsable(cfg, s, env, c);
        }
      }
    }
  }

  // ---------------------------------------------------------------- time over runs

  /** The clock never goes back. */
  ghost predicate Clocked(es: seq<Event>, clock: int)
    decreases |es|
  {
    es != [] ==>
      match es[0]
      case Message(_) => Clocked(es[1..], clock)
      case Turn(env) => clock <= env.now && Clocked(es[1..], env.now)
  }

  function LastClock(es: seq<Event>, clock: int): int
    decreases |es|
  {
    if es == [] then clock
    else LastClock(es[1..], if es[0].Turn? then es[0].v.now else clock)
  }

  lemma StepIsTimely(cfg: Config, s: State, e: Event, clock: int)
    requires Core(cfg, s) && Timely(s, clock) && Step(cfg, s, e).Run? && 0 <= clock
    requires e.Turn? ==> clock <= e.v.now
    ensures Timely(Step(cfg, s, e).s, if e.Turn? then e.v.now else clock)
  {
    if e.Turn? {
      ScheduleKeepsCore(cfg, s, e.v);
      FineExactlyWhenEntriesRun(cfg, s, e.v, cfg.cpuNum);
      ScheduleSettles(cfg, s, e.v);
    }
  }

  /** Over every run under a clock that does not go back, no task carries a shoot time in the future, so
      the u64 subtraction never wraps. */
  lemma {:induction false} RunsAreTimely(cfg: Config, s: State, es: seq<Event>, clock: int)
    requires Core(cfg, s) && Timely(s, clock) && Clocked(es, clock) && 0 <= clock
    ensures Exec(cfg, s, es).Run? ==> Timely(Exec(cfg, s, es).s, LastClock(es, clock))
    decreases |es|
  {
    if es != [] {
      var r := Step(cfg, s, es[0]);
      if r.Run? {
        match es[0] {
          case Message(m) => MessageKeepsCore(cfg, s, m);
          case Turn(env) => ScheduleKeepsCore(cfg, s, env);
        }
        StepIsTimely(cfg, s, es[0], clock);
        RunsAreTimely(cfg, r.s, es[1..], if es[0].Turn? then es[0].v.now else clock);
      }
    }
  }

  /** From the start, after every run that the lord survives, whatever the messages, under a clock that does not go
      back: the next schedule displaces a task only after a full slice since that task was last shot, or because it is
      idle, and only when every idle CPU and every CPU of CFS has been used. */
  lemma SlicesAreRespected(cfg: Config, area: seq<ShootArg>, es: seq<Event>, env: Env, c: int)
    requires cfg.cpuNum <= |area| && Clean(area, cfg.cpuNum)
    requires Exec(cfg, Init(cfg, area), es).Run?
    requires Clocked(es, 0) && LastClock(es, 0) <= env.now
    ensures var s := Exec(cfg, Init(cfg, area), es).s;
            c in Cpus(Shots(cfg, s, env)) && s.cpus[c].kind.COS? ==>
              var p := s.cpus[c].pid;
              && Running(s, p)
              && (env.now - s.tasks[p].lastShoot >= PREEMPT_TIME_SLICE || c in env.cpuIdle)
              && forall d :: Scheduled(cfg, d) && !s.cpus[d].kind.COS? ==> d in Cpus(Shots(cfg, s, env))
  {
    var i := Init(cfg, area);
    InitCore(cfg, area);
    RunsAreTimely(cfg, i, es, 0);
    var s := Exec(cfg, i, es).s;
    if c in Cpus(Shots(cfg, s, env)) && s.cpus[c].kind.COS? {
      DisplacementIsJustified(cfg, s, env, c);
    }
  }
}
