/** What the Shinjuku scheduler keeps: for every stream of messages whatsoever, and, exactly under a
    discipline on the messages, the ownership of CPUs. */
module ShinjukuInvariants {
  import opened Kernel
  import opened RunQueue
  import opened ShootArea
  import opened Lord
  import opened ShinjukuModel
  import opened ShinjukuEffect

  // ---------------------------------------------------------------- any stream of messages

  /** The queue holds exactly the alive tasks in state Queued, each once. */
  ghost predicate Agreement(s: State) {
    && NoDup(s.rq)
    && forall p :: p in s.rq <==> p in s.tasks && s.tasks[p].state.Queued?
  }

  ghost predicate Running(s: State, p: u32) {
    p in s.tasks && s.tasks[p].state.OnCpu?
  }

  predicate Scheduled(cfg: Config, cpu: int) {
    FIRST_CPU <= cpu < cfg.cpuNum && cpu != cfg.lordCpu
  }

  ghost predicate Core(cfg: Config, s: State) {
    && WellFormed(cfg, s)
    && Agreement(s)
    && Clean(s.area, cfg.cpuNum)
    && (forall p :: Running(s, p) ==> Scheduled(cfg, s.tasks[p].cpuId))
    && (forall c :: 0 <= c < cfg.cpuNum && !Scheduled(cfg, c) ==> s.cpus[c] == Cpu(IDLE, 0))
    && (forall c :: 0 <= c < cfg.cpuNum && s.cpus[c].kind.COS? ==> s.cpus[c].pid != 0)
  }

  lemma SettledKeepsAgreement(cfg: Config, s: State, env: Env, t: State)
    requires Core(cfg, s) && Settled(cfg, s, env, t)
    ensures Agreement(t)
  {
    var p := Picks(cfg, s, env);
    PicksSplitTheQueue(cfg, s, env);
    PicksPairUp(cfg, s, env);
    NoDupConcat(p.rest + p.skipped, Back(cfg, s, env));
  }

  lemma ShotsAreFree(cfg: Config, s: State, env: Env)
    requires WellFormed(cfg, s)
    ensures forall c :: c in Cpus(Shots(cfg, s, env)) ==> c in Free(cfg, s, env)
  {
    var a, free := Shots(cfg, s, env), Free(cfg, s, env);
    PickLoopRefines(s.rq, free, env.taskIdle);
    forall c | c in Cpus(a)
      ensures c in free
    {
      var i :| 0 <= i < |a| && a[i].cpu == c;
      assert free[i] in free;
    }
  }

  lemma ShotsAreScheduled(cfg: Config, s: State, env: Env)
    requires Core(cfg, s)
    ensures forall c :: c in Cpus(Shots(cfg, s, env)) ==>
              Scheduled(cfg, c) && ClassOf(cfg, s, env, c) in {Idle, OfCfs, Preemptible}
    ensures forall c :: c in PidOn(Shots(cfg, s, env)) ==> PidOn(Shots(cfg, s, env))[c] != 0
    ensures PidOn(Shots(cfg, s, env)).Keys == Cpus(Shots(cfg, s, env))
  {
    FreeSound(cfg, s, env);
    ShotsAreFree(cfg, s, env);
    PicksSplitTheQueue(cfg, s, env);
    PicksPairUp(cfg, s, env);
  }

  lemma SettledKeepsCore(cfg: Config, s: State, env: Env, t: State)
    requires Core(cfg, s) && Settled(cfg, s, env, t)
    ensures Core(cfg, t)
  {
    SettledKeepsAgreement(cfg, s, env, t);
    ShotsAreScheduled(cfg, s, env);
    PicksPairUp(cfg, s, env);
    forall p | Running(t, p)
      ensures Scheduled(cfg, t.tasks[p].cpuId)
    {
      if p !in PlaceOf(Shots(cfg, s, env)) {
        assert Running(s, p);
      }
    }
  }

  /** The task that the entry of this COS CPU names is alive and running. */
  ghost predicate EntryRuns(s: State, c: int)
    requires 0 <= c < |s.cpus|
  {
    s.cpus[c].kind.COS? ==> Running(s, s.cpus[c].pid)
  }

  /** The first loop stops the lord exactly when the entry of some COS CPU below `hi` names a task that is missing
      or not running. */
  lemma {:induction false} FineExactlyWhenEntriesRun(cfg: Config, s: State, env: Env, hi: nat)
    requires Core(cfg, s) && hi <= cfg.cpuNum
    ensures FirstBroken(cfg, s, env, hi).Fine? <==> forall c :: 0 <= c < hi ==> EntryRuns(s, c)
    ensures FirstBroken(cfg, s, env, hi).Stuck? ==>
              FirstBroken(cfg, s, env, hi).cause in {NullTask, RunningTaskNotOnCpu}
  {
    if hi > FIRST_CPU {
      FineExactlyWhenEntriesRun(cfg, s, env, hi - 1);
      assert EntryRuns(s, hi - 1) <==> !ClassOf(cfg, s, env, hi - 1).Broken?;
    } else {
      assert forall c :: 0 <= c < hi ==> EntryRuns(s, c);
    }
  }

  predicate Reachable(c: Cause) {
    c in {SameNewThread, DeadBeforeNew, PreemptBeforeNew, PreemptedWhileBlocked,
          CpuNotCos, NullTask, RunningTaskNotOnCpu}
  }

  lemma ScheduleKeepsCore(cfg: Config, s: State, env: Env)
    requires Core(cfg, s)
    ensures var r := Schedule(cfg, s, env);
            && (r.Run? ==> Core(cfg, r.s))
            && (r.Halt? ==> Reachable(r.cause))
            && (r.Run? <==> forall c :: 0 <= c < cfg.cpuNum ==> EntryRuns(s, c))
  {
    FineExactlyWhenEntriesRun(cfg, s, env, cfg.cpuNum);
    if FirstBroken(cfg, s, env, cfg.cpuNum).Fine? {
      ScheduleSettles(cfg, s, env);
      SettledKeepsCore(cfg, s, env, Schedule(cfg, s, env).s);
    }
  }

  /** A message touches its own task, the CPU entry of that task if it is running, and the task's place in the
      queue, and nothing else. A task that becomes queued goes to the tail, one that stays queued keeps its
      place. */
  ghost predicate Effected(s: State, m: Msg, t: State) {
    var p: u32 := m.pid;
    && (forall q :: q != p ==> (q in t.tasks <==> q in s.tasks))
    && (forall q :: q != p && q in s.tasks ==> t.tasks[q] == s.tasks[q])
    && (p in s.tasks && m.kind in {MSG_TASK_RUNNABLE, MSG_TASK_PREEMPT, MSG_TASK_COS_PREEMPT} ==>
          p in t.tasks && t.tasks[p] == s.tasks[p].(state := Queued))
    && (p in s.tasks && m.kind == MSG_TASK_BLOCKED ==> p in t.tasks && t.tasks[p] == s.tasks[p].(state := Blocked))
    && (p in s.tasks && (m.kind < MSG_TASK_RUNNABLE || m.kind > MSG_TASK_COS_PREEMPT ||
                         m.kind == MSG_TASK_NEW || m.kind == MSG_TASK_NEW_BLOCKED) ==>
          p in t.tasks && t.tasks[p] == s.tasks[p])
    && (p in s.tasks && m.kind == MSG_TASK_DEAD ==> p !in t.tasks)
    && (p !in s.tasks && m.kind == MSG_TASK_NEW ==> p in t.tasks && t.tasks[p] == Task(Queued, -1, 0))
    && (p !in s.tasks && m.kind == MSG_TASK_NEW_BLOCKED ==> p in t.tasks && t.tasks[p] == Task(Blocked, -1, 0))
    && (p !in s.tasks && m.kind !in {MSG_TASK_NEW, MSG_TASK_NEW_BLOCKED} ==> p !in t.tasks)
    && |t.cpus| == |s.cpus|
    && (forall c :: 0 <= c < |s.cpus| && Running(s, p) && s.tasks[p].cpuId == c ==>
          t.cpus[c] == if m.kind in {MSG_TASK_BLOCKED, MSG_TASK_DEAD} then Cpu(IDLE, 0)
                       else if m.kind == MSG_TASK_PREEMPT then s.cpus[c].(kind := CFS)
                       else s.cpus[c])
    && (forall c :: 0 <= c < |s.cpus| && !(Running(s, p) && s.tasks[p].cpuId == c) ==> t.cpus[c] == s.cpus[c])
    && t.rq == QueueAfter(s.rq, p, p in t.tasks && t.tasks[p].state.Queued?)
    && t.lastSeq == m.seqNo && t.area == s.area && t.areaSeq == s.areaSeq
  }

  /** A message the lord survives has exactly this effect. */
  lemma MessageEffect(cfg: Config, s: State, m: Msg)
    requires Core(cfg, s) && m.pid != cfg.lordPid && Consume(cfg, s, m).Run?
    ensures Effected(s, m, Consume(cfg, s, m).s)
  {
  }

  lemma EffectKeepsAgreement(s: State, m: Msg, t: State)
    requires Agreement(s) && Effected(s, m, t)
    ensures Agreement(t)
  {
    QueueAfterIsRight(s.rq, m.pid, m.pid in t.tasks && t.tasks[m.pid].state.Queued?);
  }

  /** The messages on which the lord stops: a second NEW, DEAD or a preemption of a task that is not alive, a
      preemption of a blocked task, or COS_PREEMPT of a task recorded as running on a CPU that is not COS. */
  ghost predicate Stops(cfg: Config, s: State, m: Msg)
    requires Core(cfg, s)
  {
    && m.pid != cfg.lordPid
    && var alive := m.pid in s.tasks;
       || (m.kind in {MSG_TASK_NEW, MSG_TASK_NEW_BLOCKED} && alive)
       || (m.kind == MSG_TASK_DEAD && !alive)
       || (m.kind in {MSG_TASK_PREEMPT, MSG_TASK_COS_PREEMPT} && (!alive || s.tasks[m.pid].state.Blocked?))
       || (m.kind == MSG_TASK_COS_PREEMPT && Running(s, m.pid) && !s.cpus[s.tasks[m.pid].cpuId].kind.COS?)
  }

  lemma MessageKeepsCore(cfg: Config, s: State, m: Msg)
    requires Core(cfg, s)
    ensures var r := Consume(cfg, s, m);
            && (r.Run? ==> Core(cfg, r.s))
            && (r.Halt? ==> Reachable(r.cause))
            && (r.Halt? <==> Stops(cfg, s, m))
  {
    if Consume(cfg, s, m).Run? && m.pid != cfg.lordPid {
      MessageEffect(cfg, s, m);
      EffectKeepsAgreement(s, m, Consume(cfg, s, m).s);
    }
  }

  lemma InitCore(cfg: Config, area: seq<ShootArg>)
    requires Clean(area, cfg.cpuNum)
    ensures Core(cfg, Init(cfg, area))
  {
  }

  /** Over every run, for messages without any discipline, every epistle and every answer of the kernel:
      the queue holds exactly the queued tasks, no index leaves the CPU table, the lord's CPU and
      the reserved ones are never used; the lord never erases an unqueued task nor picks an unknown one. */
  lemma {:induction false} EveryRunAgrees(cfg: Config, s: State, es: seq<Event>)
    requires Core(cfg, s)
    ensures var r := Exec(cfg, s, es);
            && (r.Run? ==> Core(cfg, r.s))
            && (r.Halt? ==> Reachable(r.cause))
    decreases |es|
  {
    if es != [] {
      match es[0] {
        case Message(m) => MessageKeepsCore(cfg, s, m);
        case Turn(env) => ScheduleKeepsCore(cfg, s, env);
      }
      var r := Step(cfg, s, es[0]);
      if r.Run? {
        EveryRunAgrees(cfg, r.s, es[1..]);
      }
    }
  }

  /** When the lord stops on a message, it says why. */
  lemma StopsForItsReason(cfg: Config, s: State, m: Msg)
    requires Core(cfg, s) && Consume(cfg, s, m).Halt?
    ensures match Consume(cfg, s, m).cause
            case SameNewThread => m.pid in s.tasks && m.kind in {MSG_TASK_NEW, MSG_TASK_NEW_BLOCKED}
            case DeadBeforeNew => m.pid !in s.tasks && m.kind == MSG_TASK_DEAD
            case PreemptBeforeNew => m.pid !in s.tasks && m.kind in {MSG_TASK_PREEMPT, MSG_TASK_COS_PREEMPT}
            case PreemptedWhileBlocked => m.pid in s.tasks && s.tasks[m.pid].state.Blocked?
            case CpuNotCos => Running(s, m.pid) && m.kind == MSG_TASK_COS_PREEMPT
            case _ => false
  {
  }

  // ---------------------------------------------------------------- the lord's own messages

  /** Draining handles the messages as if the lord's own were not among them. */
  lemma {:induction false} DrainSkipsOwn(cfg: Config, s: State, ms: seq<Msg>)
    requires WellFormed(cfg, s)
    ensures Drain(cfg, s, ms) == Drain(cfg, s, Foreign(cfg.lordPid, ms))
    decreases |ms|
  {
    if ms != [] {
      var rest := Foreign(cfg.lordPid, ms[1..]);
      if ms[0].pid == cfg.lordPid {
        assert Foreign(cfg.lordPid, ms) == rest;
        DrainSkipsOwn(cfg, s, ms[1..]);
      } else {
        assert Foreign(cfg.lordPid, ms)[1..] == rest;
        var r := Consume(cfg, s, ms[0]);
        if r.Run? {
          DrainSkipsOwn(cfg, r.s, ms[1..]);
        }
      }
    }
  }

  /** The lord is no task of its own. */
  lemma StepLeavesTheLordOut(cfg: Config, s: State, e: Event)
    requires Core(cfg, s) && cfg.lordPid !in s.tasks && Step(cfg, s, e).Run?
    ensures Core(cfg, Step(cfg, s, e).s) && cfg.lordPid !in Step(cfg, s, e).s.tasks
  {
    match e
    case Message(m) =>
      MessageKeepsCore(cfg, s, m);
      if m.pid != cfg.lordPid {
        MessageEffect(cfg, s, m);
      }
    case Turn(env) =>
      ScheduleKeepsCore(cfg, s, env);
      FineExactlyWhenEntriesRun(cfg, s, env, cfg.cpuNum);
      ScheduleSettles(cfg, s, env);
  }

  /** So over every run the lord is never known, queued or picked, whatever messages it gets about itself. */
  lemma {:induction false} LordIsNeverScheduled(cfg: Config, s: State, es: seq<Event>, env: Env)
    requires Core(cfg, s) && cfg.lordPid !in s.tasks && Exec(cfg, s, es).Run?
    ensures var t := Exec(cfg, s, es).s;
            && cfg.lordPid !in t.tasks && cfg.lordPid !in t.rq && cfg.lordPid !in Pids(Shots(cfg, t, env))
    decreases |es|
  {
    if es == [] {
      PicksSplitTheQueue(cfg, s, env);
      assert cfg.lordPid !in s.rq;
    } else {
      StepLeavesTheLordOut(cfg, s, es[0]);
      LordIsNeverScheduled(cfg, Step(cfg, s, es[0]).s, es[1..], env);
    }
  }

  // ---------------------------------------------------------------- draining

  /** Draining the ring is a run of the messages in it: each is applied once, in order. So what holds over every run
      holds after a drain. `seq_` is then that of the last message that is not the lord's own. */
  lemma {:induction false} DrainIsARun(cfg: Config, s: State, ms: seq<Msg>)
    requires WellFormed(cfg, s)
    ensures Drain(cfg, s, ms) == Exec(cfg, s, Events(ms))
    ensures Drain(cfg, s, ms).Run? ==> Drain(cfg, s, ms).s.lastSeq == LastSeq(cfg.lordPid, ms, s.lastSeq)
    decreases |ms|
  {
    if ms != [] {
      var r := Consume(cfg, s, ms[0]);
      assert Events<Env>(ms)[1..] == Events(ms[1..]);
      LastSeqFromTheFront(cfg.lordPid, ms, s.lastSeq);
      if r.Run? {
        ConsumeSetsSeq(cfg, s, ms[0]);
        DrainIsARun(cfg, r.s, ms[1..]);
      }
    }
  }

  lemma ConsumeSetsSeq(cfg: Config, s: State, m: Msg)
    requires WellFormed(cfg, s) && Consume(cfg, s, m).Run?
    ensures Consume(cfg, s, m).s.lastSeq == if m.pid == cfg.lordPid then s.lastSeq else m.seqNo
  {
  }

  /** One turn of the main loop: the number committed to the kernel is the last one seen, cut to 16 bits. */
  lemma CommitsTheLastSeq(cfg: Config, s: State, ms: seq<Msg>, env: Env)
    requires Core(cfg, s) && Drain(cfg, s, ms).Run?
    requires Schedule(cfg, Drain(cfg, s, ms).s, env).Run? && Shots(cfg, Drain(cfg, s, ms).s, env) != []
    ensures Schedule(cfg, Drain(cfg, s, ms).s, env).s.areaSeq == LastSeq(cfg.lordPid, ms, s.lastSeq) % TWO16
  {
    DrainIsARun(cfg, s, ms);
    EveryRunAgrees(cfg, s, Events(ms));
    ScheduleKeepsCore(cfg, Drain(cfg, s, ms).s, env);
    FineExactlyWhenEntriesRun(cfg, Drain(cfg, s, ms).s, env, cfg.cpuNum);
    ScheduleSettles(cfg, Drain(cfg, s, ms).s, env);
  }

  // ---------------------------------------------------------------- ownership

  /** Each COS CPU is owned by the running task its entry names; each running task sits on a COS CPU, as its
      owner or displaced from it and waiting for its COS_PREEMPT. */
  ghost predicate Owned(s: State) {
    && (forall c :: 0 <= c < |s.cpus| && s.cpus[c].kind.COS? ==>
          Running(s, s.cpus[c].pid) && s.tasks[s.cpus[c].pid].cpuId == c)
    && (forall p :: Running(s, p) ==> 0 <= s.tasks[p].cpuId < |s.cpus| && s.cpus[s.tasks[p].cpuId].kind.COS?)
  }

  ghost predicate Inv(cfg: Config, s: State) {
    Core(cfg, s) && Owned(s)
  }

  ghost predicate Owner(s: State, p: u32) {
    Running(s, p) && 0 <= s.tasks[p].cpuId < |s.cpus| && s.cpus[s.tasks[p].cpuId].pid == p
  }

  ghost predicate Displaced(s: State, p: u32) {
    Running(s, p) && !Owner(s, p)
  }

  /** No other running task is recorded on the CPU of `p`. */
  ghost predicate Alone(s: State, p: u32) {
    p in s.tasks && forall q :: Running(s, q) && q != p ==> s.tasks[q].cpuId != s.tasks[p].cpuId
  }

  /** The discipline, message by message: no RUNNABLE for the owner of a CPU; COS_PREEMPT only for a queued or
      displaced task; BLOCKED, DEAD and PREEMPT of a running task only when no other task is recorded on its
      CPU; NEW only for unknown tasks, DEAD and both preemptions only for known ones. */
  ghost predicate Safe(cfg: Config, s: State, m: Msg) {
    var p: u32 := m.pid;
    if p == cfg.lordPid then true
    else if m.kind == MSG_TASK_RUNNABLE then !Owner(s, p)
    else if m.kind == MSG_TASK_BLOCKED then Running(s, p) ==> Alone(s, p)
    else if m.kind == MSG_TASK_NEW || m.kind == MSG_TASK_NEW_BLOCKED then p !in s.tasks
    else if m.kind == MSG_TASK_DEAD then p in s.tasks && (Running(s, p) ==> Alone(s, p))
    else if m.kind == MSG_TASK_PREEMPT then
      p in s.tasks && !s.tasks[p].state.Blocked? && (Running(s, p) ==> Alone(s, p))
    else if m.kind == MSG_TASK_COS_PREEMPT then p in s.tasks && !s.tasks[p].state.Blocked? && !Owner(s, p)
    else true
  }

  lemma SafeIsSurvived(cfg: Config, s: State, m: Msg)
    requires Inv(cfg, s) && Safe(cfg, s, m)
    ensures !Stops(cfg, s, m)
  {
  }

  lemma SafeEffectKeepsOwned(cfg: Config, s: State, m: Msg, t: State)
    requires Inv(cfg, s) && Safe(cfg, s, m) && m.pid != cfg.lordPid && Effected(s, m, t)
    ensures Owned(t)
  {
    forall c | 0 <= c < |t.cpus| && t.cpus[c].kind.COS?
      ensures Running(t, t.cpus[c].pid) && t.tasks[t.cpus[c].pid].cpuId == c
    {
      assert Running(s, s.cpus[c].pid) && s.tasks[s.cpus[c].pid].cpuId == c;
    }
    forall p | Running(t, p)
      ensures 0 <= t.tasks[p].cpuId < |t.cpus| && t.cpus[t.tasks[p].cpuId].kind.COS?
    {
      assert Running(s, p) && s.tasks[p].cpuId == t.tasks[p].cpuId;
    }
  }

  lemma SafeMessageKeepsOwned(cfg: Config, s: State, m: Msg)
    requires Inv(cfg, s) && Safe(cfg, s, m)
    ensures Consume(cfg, s, m).Run? && Owned(Consume(cfg, s, m).s)
  {
    SafeIsSurvived(cfg, s, m);
    MessageKeepsCore(cfg, s, m);
    if m.pid != cfg.lordPid {
      MessageEffect(cfg, s, m);
      SafeEffectKeepsOwned(cfg, s, m, Consume(cfg, s, m).s);
    }
  }

  /** The reason why nothing weaker would do: every other message stops the lord or leaves a CPU or
      a task on its own. */
  lemma UnsafeMessageBreaks(cfg: Config, s: State, m: Msg)
    requires Inv(cfg, s) && !Safe(cfg, s, m) && Consume(cfg, s, m).Run?
    ensures !Owned(Consume(cfg, s, m).s)
  {
    var t := Consume(cfg, s, m).s;
    var c := s.tasks[m.pid].cpuId;
    if m.kind in {MSG_TASK_RUNNABLE, MSG_TASK_COS_PREEMPT} {
      assert t.cpus[c].kind.COS? && t.cpus[c].pid == m.pid && !Running(t, m.pid);
    } else {
      var q :| Running(s, q) && q != m.pid && s.tasks[q].cpuId == c;
      assert Running(t, q) && !t.cpus[c].kind.COS?;
    }
  }

  /** From a good state the discipline is exactly what keeps the lord alive and the state good. */
  lemma DisciplineIsExact(cfg: Config, s: State, m: Msg)
    requires Inv(cfg, s)
    ensures Safe(cfg, s, m) <==> Consume(cfg, s, m).Run? && Inv(cfg, Consume(cfg, s, m).s)
  {
    MessageKeepsCore(cfg, s, m);
    if Safe(cfg, s, m) {
      SafeMessageKeepsOwned(cfg, s, m);
    } else if Consume(cfg, s, m).Run? {
      UnsafeMessageBreaks(cfg, s, m);
    }
  }

  lemma SettledCpuIsOwned(cfg: Config, s: State, env: Env, t: State, c: int)
    requires Inv(cfg, s) && Settled(cfg, s, env, t) && 0 <= c < |t.cpus| && t.cpus[c].kind.COS?
    ensures Running(t, t.cpus[c].pid) && t.tasks[t.cpus[c].pid].cpuId == c
  {
    var a := Shots(cfg, s, env);
    PicksPairUp(cfg, s, env);
    PicksSplitTheQueue(cfg, s, env);
    if c in PidOn(a) && !Refused(env.verdict, c) {
      assert PidOn(a)[c] in Pids(a);
    } else {
      assert Running(s, s.cpus[c].pid);
      assert s.cpus[c].pid !in Pids(a);
    }
  }

  lemma SettledTaskIsOnCos(cfg: Config, s: State, env: Env, t: State, p: u32)
    requires Inv(cfg, s) && Settled(cfg, s, env, t) && Running(t, p)
    ensures 0 <= t.tasks[p].cpuId < |t.cpus| && t.cpus[t.tasks[p].cpuId].kind.COS?
  {
    PicksPairUp(cfg, s, env);
    if p in PlaceOf(Shots(cfg, s, env)) {
      assert PlaceOf(Shots(cfg, s, env))[p] in Cpus(Shots(cfg, s, env));
    } else {
      assert Running(s, p) && t.tasks[p] == s.tasks[p];
    }
  }

  lemma SettledKeepsOwned(cfg: Config, s: State, env: Env, t: State)
    requires Inv(cfg, s) && Settled(cfg, s, env, t)
    ensures Owned(t)
  {
    forall c | 0 <= c < |t.cpus| && t.cpus[c].kind.COS?
      ensures Running(t, t.cpus[c].pid) && t.tasks[t.cpus[c].pid].cpuId == c
    {
      SettledCpuIsOwned(cfg, s, env, t, c);
    }
    forall p | Running(t, p)
      ensures 0 <= t.tasks[p].cpuId < |t.cpus| && t.cpus[t.tasks[p].cpuId].kind.COS?
    {
      SettledTaskIsOnCos(cfg, s, env, t, p);
    }
  }

  /** From a good state every schedule succeeds and leaves a good state, whatever the epistle and the
      kernel say: the task looked up for a COS CPU is there and running. */
  lemma ScheduleKeepsInv(cfg: Config, s: State, env: Env)
    requires Inv(cfg, s)
    ensures Schedule(cfg, s, env).Run? && Inv(cfg, Schedule(cfg, s, env).s)
    ensures Settled(cfg, s, env, Schedule(cfg, s, env).s)
  {
    FineExactlyWhenEntriesRun(cfg, s, env, cfg.cpuNum);
    ScheduleSettles(cfg, s, env);
    SettledKeepsCore(cfg, s, env, Schedule(cfg, s, env).s);
    SettledKeepsOwned(cfg, s, env, Schedule(cfg, s, env).s);
  }

  /** Every message of the run is safe in the state in which it arrives. */
  ghost predicate Disciplined(cfg: Config, s: State, es: seq<Event>)
    requires WellFormed(cfg, s)
    decreases |es|
  {
    es != [] ==>
      && (es[0].Message? ==> Safe(cfg, s, es[0].m))
      && (Step(cfg, s, es[0]).Run? ==> Disciplined(cfg, Step(cfg, s, es[0]).s, es[1..]))
  }

  /** The lord survives the run and every state on the way is good. */
  ghost predicate StaysGood(cfg: Config, s: State, es: seq<Event>)
    requires WellFormed(cfg, s)
    decreases |es|
  {
    && Inv(cfg, s)
    && (es != [] ==> Step(cfg, s, es[0]).Run? && StaysGood(cfg, Step(cfg, s, es[0]).s, es[1..]))
  }

  /** Over every run, every epistle and every answer of the kernel: ownership holds throughout and no exit or assert
      fires if and only if the messages are disciplined. */
  lemma {:induction false} DisciplinedRunsAreTheGoodOnes(cfg: Config, s: State, es: seq<Event>)
    requires Inv(cfg, s)
    ensures Disciplined(cfg, s, es) <==> StaysGood(cfg, s, es)
    decreases |es|
  {
    if es != [] {
      match es[0] {
        case Message(m) => DisciplineIsExact(cfg, s, m);
        case Turn(env) => ScheduleKeepsInv(cfg, s, env);
      }
      var r := Step(cfg, s, es[0]);
      if r.Run? && Inv(cfg, r.s) {
        DisciplinedRunsAreTheGoodOnes(cfg, r.s, es[1..]);
      }
    }
  }

  lemma {:induction false} GoodRunsEndGood(cfg: Config, s: State, es: seq<Event>)
    requires WellFormed(cfg, s) && StaysGood(cfg, s, es)
    ensures Exec(cfg, s, es).Run? && Inv(cfg, Exec(cfg, s, es).s)
    decreases |es|
  {
    if es != [] {
      GoodRunsEndGood(cfg, Step(cfg, s, es[0]).s, es[1..]);
    }
  }

  /** In a good state a CPU has one owner at most, and every other task recorded on it is displaced. */
  lemma OneOwner(cfg: Config, s: State, p: u32, q: u32)
    requires Inv(cfg, s) && Running(s, p) && Running(s, q) && p != q && s.tasks[p].cpuId == s.tasks[q].cpuId
    ensures Displaced(s, p) || Displaced(s, q)
    ensures var c := s.tasks[p].cpuId; Owner(s, s.cpus[c].pid) && s.tasks[s.cpus[c].pid].cpuId == c
  {
    var c := s.tasks[p].cpuId;
    assert s.cpus[c].kind.COS?;
    assert Running(s, s.cpus[c].pid);
  }

  /** Over every run of any messages CPUs 0, 1 and 2 and the lord's are left alone. */
  lemma ReservedCpusAreLeftAlone(cfg: Config, s: State, es: seq<Event>, c: int)
    requires Core(cfg, s) && Exec(cfg, s, es).Run? && 0 <= c < cfg.cpuNum && (c < 3 || c == cfg.lordCpu)
    ensures var t := Exec(cfg, s, es).s;
            && |t.cpus| == cfg.cpuNum && t.cpus[c] == Cpu(IDLE, 0)
            && forall p :: Running(t, p) ==> t.tasks[p].cpuId != c
  {
    EveryRunAgrees(cfg, s, es);
  }

  // ---------------------------------------------------------------- a run without discipline

  /** Four CPUs, the lord on CPU 2: CPU 3 is the only one scheduled. */
  const FOUR_CPUS := Config(4, 2, 1000)

  /** Nothing is idle and nothing is refused. */
  function AllGranted(now: u64): Env {
    Env(now, {}, {}, Replied(map[]))
  }

  lemma OnlyCpu3(s: State, env: Env, wanted: Class)
    requires WellFormed(FOUR_CPUS, s)
    ensures Collect(FOUR_CPUS, s, env, 4, wanted) == if ClassOf(FOUR_CPUS, s, env, 3) == wanted then [3] else []
  {
    assert Collect(FOUR_CPUS, s, env, 3, wanted) == [];
  }

  lemma PicksOne(s: State, env: Env, p: u32)
    requires WellFormed(FOUR_CPUS, s) && s.rq == [p] && p != 0 && env.taskIdle == {}
    requires ClassOf(FOUR_CPUS, s, env, 3) in {Idle, Preemptible}
    ensures Picks(FOUR_CPUS, s, env) == Picked([Shot(3, ShootArg(p, SA_RIGHT))], [], [])
  {
    OnlyCpu3(s, env, Idle);
    OnlyCpu3(s, env, OfCfs);
    OnlyCpu3(s, env, Preemptible);
    assert Free(FOUR_CPUS, s, env) == [3];
    assert s.rq[1..] == [] && [3][1..] == [];
    assert PickLoop([], [], {}) == Picked([], [], []);
  }

  lemma OneTaskSettles(s: State, env: Env, p: u32, t: State)
    requires Inv(FOUR_CPUS, s) && s.rq == [p] && Settled(FOUR_CPUS, s, env, t) && env.verdict == Replied(map[])
    requires Picks(FOUR_CPUS, s, env) == Picked([Shot(3, ShootArg(p, SA_RIGHT))], [], [])
    ensures p in s.tasks && t.tasks == s.tasks[p := Task(OnCpu, 3, env.now)] && t.cpus[3] == Cpu(COS, p)
  {
    var a := [Shot(3, ShootArg(p, SA_RIGHT))];
    assert a[..0] == [];
    assert PlaceOf(a) == map[p := 3] && PidOn(a) == map[3 := p];
    assert p in s.rq;
  }

  /** A schedule with one task queued and CPU 3 usable. */
  lemma OneTaskOneCpu(s: State, now: u64, p: u32)
    requires Inv(FOUR_CPUS, s) && s.rq == [p] && p != 0
    requires ClassOf(FOUR_CPUS, s, AllGranted(now), 3) in {Idle, Preemptible}
    ensures var r := Schedule(FOUR_CPUS, s, AllGranted(now));
            && r.Run? && Inv(FOUR_CPUS, r.s)
            && p in s.tasks && r.s.tasks == s.tasks[p := Task(OnCpu, 3, now)]
            && r.s.cpus[3] == Cpu(COS, p) && r.s.rq == []
  {
    var env := AllGranted(now);
    ScheduleKeepsInv(FOUR_CPUS, s, env);
    PicksOne(s, env, p);
    OneTaskSettles(s, env, p, Schedule(FOUR_CPUS, s, env).s);
    NothingComesBack(FOUR_CPUS, s, env);
  }

  /** 7 was displaced from CPU 3, and 8 owns it now. */
  ghost predicate SevenUnderEight(s: State) {
    && s.tasks == map[7 := Task(OnCpu, 3, 1), 8 := Task(OnCpu, 3, 400001)]
    && Inv(FOUR_CPUS, s) && s.cpus[3] == Cpu(COS, 8)
  }

  lemma SevenIsNew(area: seq<ShootArg>) returns (s: State)
    requires |area| == SHOOT_AREA_SIZE && Clean(area, SHOOT_AREA_SIZE)
    ensures Step(FOUR_CPUS, Init(FOUR_CPUS, area), Message(Msg(7, MSG_TASK_NEW, 1))) == Run(s)
    ensures Inv(FOUR_CPUS, s) && s.rq == [7] && s.tasks == map[7 := Task(Queued, -1, 0)] && s.cpus[3] == Cpu(IDLE, 0)
  {
    var i, m := Init(FOUR_CPUS, area), Msg(7, MSG_TASK_NEW, 1);
    InitCore(FOUR_CPUS, area);
    DisciplineIsExact(FOUR_CPUS, i, m);
    s := Consume(FOUR_CPUS, i, m).s;
  }

  lemma SevenRuns(area: seq<ShootArg>) returns (s: State)
    requires |area| == SHOOT_AREA_SIZE && Clean(area, SHOOT_AREA_SIZE)
    ensures Exec(FOUR_CPUS, Init(FOUR_CPUS, area), [Message(Msg(7, MSG_TASK_NEW, 1)), Turn(AllGranted(1))]) == Run(s)
    ensures Inv(FOUR_CPUS, s) && s.rq == [] && s.tasks == map[7 := Task(OnCpu, 3, 1)] && s.cpus[3] == Cpu(COS, 7)
  {
    var i, e, f := Init(FOUR_CPUS, area), Message(Msg(7, MSG_TASK_NEW, 1)), Turn(AllGranted(1));
    var t := SevenIsNew(area);
    OneTaskOneCpu(t, 1, 7);
    s := Schedule(FOUR_CPUS, t, AllGranted(1)).s;
    assert Exec(FOUR_CPUS, i, [] + [e] + [f]) == Run(s) by {
      ExecOneMore(FOUR_CPUS, i, [], e);
      ExecOneMore(FOUR_CPUS, i, [] + [e], f);
    }
    assert [] + [e] + [f] == [e, f];
  }

  lemma EightIsNew(s: State) returns (t: State)
    requires Inv(FOUR_CPUS, s) && s.rq == [] && s.tasks == map[7 := Task(OnCpu, 3, 1)] && s.cpus[3] == Cpu(COS, 7)
    ensures Step(FOUR_CPUS, s, Message(Msg(8, MSG_TASK_NEW, 2))) == Run(t)
    ensures Inv(FOUR_CPUS, t) && t.rq == [8] && t.cpus[3] == Cpu(COS, 7)
    ensures t.tasks == map[7 := Task(OnCpu, 3, 1), 8 := Task(Queued, -1, 0)]
  {
    var m := Msg(8, MSG_TASK_NEW, 2);
    DisciplineIsExact(FOUR_CPUS, s, m);
    t := Consume(FOUR_CPUS, s, m).s;
  }

  /** One nanosecond before 7 had its 400 microseconds, 8 is not given its CPU. */
  lemma EightMustWait(s: State)
    requires Inv(FOUR_CPUS, s) && s.rq == [8] && s.cpus[3] == Cpu(COS, 7)
    requires s.tasks == map[7 := Task(OnCpu, 3, 1), 8 := Task(Queued, -1, 0)]
    ensures Shots(FOUR_CPUS, s, AllGranted(400000)) == []
  {
    var env := AllGranted(400000);
    OnlyCpu3(s, env, Idle);
    OnlyCpu3(s, env, OfCfs);
    OnlyCpu3(s, env, Preemptible);
    assert Free(FOUR_CPUS, s, env) == [];
  }

  lemma EightTakesOver(s: State) returns (u: State)
    requires Inv(FOUR_CPUS, s) && s.rq == [] && s.tasks == map[7 := Task(OnCpu, 3, 1)] && s.cpus[3] == Cpu(COS, 7)
    ensures var r := Step(FOUR_CPUS, s, Message(Msg(8, MSG_TASK_NEW, 2)));
            r.Run? && Step(FOUR_CPUS, r.s, Turn(AllGranted(400001))) == Run(u)
    ensures SevenUnderEight(u)
  {
    var t := EightIsNew(s);
    OneTaskOneCpu(t, 400001, 8);
    u := Schedule(FOUR_CPUS, t, AllGranted(400001)).s;
  }

  lemma SevenBlocks(s: State)
    requires SevenUnderEight(s)
    ensures var m := Msg(7, MSG_TASK_BLOCKED, 3);
            && Displaced(s, 7) && Owner(s, 8) && !Safe(FOUR_CPUS, s, m)
            && var t := Consume(FOUR_CPUS, s, m);
               t.Run? && !Owned(t.s) && Running(t.s, 8) && t.s.tasks[8].cpuId == 3 && t.s.cpus[3] == Cpu(IDLE, 0)
  {
    var m := Msg(7, MSG_TASK_BLOCKED, 3);
    assert Running(s, 8);
    assert !Alone(s, 7);
    UnsafeMessageBreaks(FOUR_CPUS, s, m);
  }

  /** Why the discipline is needed. 7 runs on CPU 3, its slice ends, 8 takes the CPU over, and 7 blocks before its
      COS_PREEMPT was sent. From the start every step but the last is good; the last takes CPU 3 from 8, which still
      runs on it, and offers it to the next task. */
  lemma DisplacedTaskBlocks(area: seq<ShootArg>)
    requires |area| == SHOOT_AREA_SIZE && Clean(area, SHOOT_AREA_SIZE)
    ensures var es := [Message(Msg(7, MSG_TASK_NEW, 1)), Turn(AllGranted(1)),
                       Message(Msg(8, MSG_TASK_NEW, 2)), Turn(AllGranted(400001))];
            var r, m := Exec(FOUR_CPUS, Init(FOUR_CPUS, area), es), Msg(7, MSG_TASK_BLOCKED, 3);
            && r.Run? && Inv(FOUR_CPUS, r.s) && Displaced(r.s, 7) && Owner(r.s, 8) && !Safe(FOUR_CPUS, r.s, m)
            && var t := Consume(FOUR_CPUS, r.s, m);
               t.Run? && !Owned(t.s) && Running(t.s, 8) && t.s.tasks[8].cpuId == 3 && t.s.cpus[3] == Cpu(IDLE, 0)
  {
    var i, e, f := Init(FOUR_CPUS, area), Message(Msg(8, MSG_TASK_NEW, 2)), Turn(AllGranted(400001));
    var es := [Message(Msg(7, MSG_TASK_NEW, 1)), Turn(AllGranted(1))];
    var s := SevenRuns(area);
    var u := EightTakesOver(s);
    assert Exec(FOUR_CPUS, i, es + [e] + [f]) == Run(u) by {
      ExecOneMore(FOUR_CPUS, i, es, e);
      ExecOneMore(FOUR_CPUS, i, es + [e], f);
    }
    assert es + [e] + [f] == [es[0], es[1], e, f];
    SevenBlocks(u);
  }
}
