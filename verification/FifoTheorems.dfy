/** What the FIFO scheduler keeps, for every stream of messages and every answer of the kernel. */
module FifoTheorems {
  import opened Kernel
  import opened RunQueue
  import opened ShootArea
  import opened Lord
  import opened FifoModel

  /** The queue holds exactly the alive tasks in state Queued, each once. */
  ghost predicate Agreement(s: State) {
    && NoDup(s.rq)
    && forall p :: p in s.rq <==> p in s.tasks && s.tasks[p].state.Queued?
  }

  ghost predicate Running(s: State, p: u32) {
    p in s.tasks && s.tasks[p].state.OnCpu?
  }

  /** Every running task sits on a COS CPU of its own, never on the lord's. */
  ghost predicate Exclusive(cfg: Config, s: State) {
    && (forall p :: Running(s, p) ==>
          var c := s.tasks[p].cpuId;
          0 <= c < |s.cpus| && c != cfg.lordCpu && s.cpus[c].COS?)
    && (forall p, q :: Running(s, p) && Running(s, q) && p != q ==> s.tasks[p].cpuId != s.tasks[q].cpuId)
  }

  ghost predicate Inv(cfg: Config, s: State) {
    && WellFormed(cfg, s)
    && Agreement(s)
    && Exclusive(cfg, s)
    && Clean(s.area, cfg.cpuNum)
  }

  // ---------------------------------------------------------------- the effect of one schedule

  lemma {:induction false} MarkOnCpuAt(tasks: map<u32, Task>, a: seq<Shot>)
    ensures MarkOnCpu(tasks, a).Keys == tasks.Keys + PlaceOf(a).Keys
    ensures forall p :: p in MarkOnCpu(tasks, a) ==>
              MarkOnCpu(tasks, a)[p] == if p in PlaceOf(a) then Task(OnCpu, PlaceOf(a)[p]) else tasks[p]
    decreases |a|
  {
    if a != [] {
      MarkOnCpuAt(tasks, a[..|a| - 1]);
    }
  }

  lemma {:induction false} MarkCosAt(cpus: seq<CpuState>, a: seq<Shot>)
    requires CpusBelow(a, |cpus|)
    ensures forall c :: 0 <= c < |cpus| ==> MarkCos(cpus, a)[c] == if c in Cpus(a) then COS else cpus[c]
    decreases |a|
  {
    if a != [] {
      var k := |a| - 1;
      MarkCosAt(cpus, a[..k]);
      assert Cpus(a) == Cpus(a[..k]) + {a[k].cpu} by {
        assert forall i :: 0 <= i < k ==> a[..k][i] == a[i];
        assert a[k].cpu in Cpus(a);
      }
    }
  }

  /** The rollback of the CPU table writes back what is already there. */
  lemma RollbackIsIdentity(cpus: seq<CpuState>, a: seq<Shot>, fs: seq<Failure>)
    requires CpusBelow(a, |cpus|) && DistinctCpus(a)
    requires FailsBelow(fs, |cpus|) && forall f :: f in fs ==> f.cpu in Cpus(a)
    requires forall i :: 0 <= i < |a| ==> cpus[a[i].cpu].COS?
    ensures Restore(cpus, SavedAfterOverwrite(a)) == cpus
    ensures RestoreEach(cpus, SavedAfterOverwrite(a), fs) == cpus
  {
    var saved := SavedAfterOverwrite(a);
    RestoreAt(cpus, saved);
    forall c | 0 <= c < |cpus|
      ensures Restore(cpus, saved)[c] == cpus[c]
    {
      if HasSaved(saved, c) {
        var i :| 0 <= i < |saved| && saved[i].cpu == c;
        assert saved[i].was == cpus[a[i].cpu];
      }
    }
    forall k | 0 <= k < |fs|
      ensures HasSaved(saved, fs[k].cpu)
    {
      assert fs[k] in fs;
      var i :| 0 <= i < |a| && a[i].cpu == fs[k].cpu;
      assert saved[i].cpu == fs[k].cpu;
    }
    RestoreEachAt(cpus, saved, fs);
    forall c | 0 <= c < |cpus|
      ensures RestoreEach(cpus, saved, fs)[c] == cpus[c]
    {
      if HasFailed(fs, c) {
        var k :| 0 <= k < |fs| && fs[k].cpu == c;
        assert HasSaved(saved, fs[k].cpu);
        var i :| 0 <= i < |saved| && saved[i].cpu == c;
        assert saved[i].was == cpus[a[i].cpu];
      }
    }
  }

  function Back(cfg: Config, s: State, v: Verdict): seq<u32>
    requires WellFormed(cfg, s)
  {
    FailPids(Undone(s.area, cfg.cpuNum, Picks(cfg, s), v))
  }

  function TaskAfter(s: State, a: seq<Shot>, v: Verdict, p: u32): Task
    requires p in s.tasks
  {
    if p !in PlaceOf(a) then s.tasks[p]
    else Task(if Refused(v, PlaceOf(a)[p]) then Queued else OnCpu, PlaceOf(a)[p])
  }

  /** The whole effect of a schedule, said of the states before and after. */
  ghost predicate Settled(cfg: Config, s: State, v: Verdict, t: State)
    requires WellFormed(cfg, s)
  {
    var a := Picks(cfg, s);
    && t.rq == s.rq[|a|..] + Back(cfg, s, v)
    && t.tasks.Keys == s.tasks.Keys
    && (forall p :: p in s.tasks ==> t.tasks[p] == TaskAfter(s, a, v, p))
    && |t.cpus| == |s.cpus|
    && (forall c :: 0 <= c < |s.cpus| ==> t.cpus[c] == if c in Cpus(a) then COS else s.cpus[c])
    && t.lastSeq == s.lastSeq
    && t.areaSeq == (if a == [] then s.areaSeq else s.lastSeq % TWO16)
    && |t.area| == |s.area| && Clean(t.area, cfg.cpuNum)
  }

  lemma PicksHaveTheirPlaces(cfg: Config, s: State)
    requires Inv(cfg, s)
    ensures var a := Picks(cfg, s);
            && NoDup(Pids(a)) && Pids(a) == s.rq[..|a|]
            && (forall p :: p in PlaceOf(a) <==> p in Pids(a))
            && (forall p :: p in PlaceOf(a) ==> PlaceOf(a)[p] in Cpus(a))
            && (forall p, q :: p in PlaceOf(a) && q in PlaceOf(a) && p != q ==> PlaceOf(a)[p] != PlaceOf(a)[q])
  {
    var a := Picks(cfg, s);
    assert Pids(a) == s.rq[..|a|];
    PlacesPairUp(a);
  }

  lemma UndoneArePicked(cfg: Config, s: State, v: Verdict)
    requires Inv(cfg, s)
    ensures forall f :: f in Undone(s.area, cfg.cpuNum, Picks(cfg, s), v) ==> f.cpu in Cpus(Picks(cfg, s))
  {
    var a := Picks(cfg, s);
    RoundTrip(s.area, cfg.cpuNum, a, v);
    forall f | RefusedPick(a, v, f)
      ensures f.cpu in Cpus(a)
    {
      var i :| 0 <= i < |a| && f == Fail(a[i]) && Refused(v, a[i].cpu);
    }
  }

  /** The picks are the head of the queue, on distinct CPUs; those refused come back, each once. */
  lemma PicksAreTheHead(cfg: Config, s: State, v: Verdict)
    requires Inv(cfg, s)
    ensures var a := Picks(cfg, s);
            && NoDup(Pids(a)) && Pids(a) == s.rq[..|a|]
            && (forall p :: p in PlaceOf(a) <==> p in Pids(a))
            && (forall p :: p in PlaceOf(a) ==> PlaceOf(a)[p] in Cpus(a))
            && (forall p, q :: p in PlaceOf(a) && q in PlaceOf(a) && p != q ==> PlaceOf(a)[p] != PlaceOf(a)[q])
            && NoDup(Back(cfg, s, v))
            && (forall p :: p in Back(cfg, s, v) <==> p in PlaceOf(a) && Refused(v, PlaceOf(a)[p]))
            && (forall f :: f in Undone(s.area, cfg.cpuNum, a, v) ==> f.cpu in Cpus(a))
  {
    var a := Picks(cfg, s);
    PicksHaveTheirPlaces(cfg, s);
    UndoneArePicked(cfg, s, v);
    RoundTrip(s.area, cfg.cpuNum, a, v);
    UndonePids(a, v, Undone(s.area, cfg.cpuNum, a, v));
  }

  lemma TasksSettle(cfg: Config, s: State, v: Verdict)
    requires Inv(cfg, s)
    ensures var a := Picks(cfg, s);
            && AllKnown(s.tasks, Pids(a))
            && AllKnown(MarkOnCpu(s.tasks, a), Back(cfg, s, v))
            && var tasks := Marked(MarkOnCpu(s.tasks, a), Back(cfg, s, v), ToQueued);
               && tasks.Keys == s.tasks.Keys
               && forall p :: p in s.tasks ==> tasks[p] == TaskAfter(s, a, v, p)
  {
    var a := Picks(cfg, s);
    PicksAreTheHead(cfg, s, v);
    assert AllKnown(s.tasks, Pids(a));
    MarkOnCpuAt(s.tasks, a);
    assert AllKnown(MarkOnCpu(s.tasks, a), Back(cfg, s, v));
    MarkedAt(MarkOnCpu(s.tasks, a), Back(cfg, s, v), ToQueued);
  }

  ghost predicate CpusSettled(before: seq<CpuState>, a: seq<Shot>, fs: seq<Failure>)
    requires CpusBelow(a, |before|)
  {
    var cpus := MarkCos(before, a);
    && FailsBelow(fs, |cpus|)
    && (forall c :: 0 <= c < |cpus| ==> cpus[c] == if c in Cpus(a) then COS else before[c])
    && Restore(cpus, SavedAfterOverwrite(a)) == cpus
    && RestoreEach(cpus, SavedAfterOverwrite(a), fs) == cpus
  }

  lemma CpusSettleFor(before: seq<CpuState>, a: seq<Shot>, fs: seq<Failure>)
    requires CpusBelow(a, |before|) && DistinctCpus(a) && forall f :: f in fs ==> f.cpu in Cpus(a)
    ensures CpusSettled(before, a, fs)
  {
    MarkCosAt(before, a);
    forall k | 0 <= k < |fs|
      ensures 0 <= fs[k].cpu < |before|
    {
      assert fs[k] in fs;
    }
    assert forall i :: 0 <= i < |a| ==> a[i].cpu in Cpus(a);
    RollbackIsIdentity(MarkCos(before, a), a, fs);
  }

  lemma CpusSettle(cfg: Config, s: State, v: Verdict)
    requires Inv(cfg, s)
    ensures CpusSettled(s.cpus, Picks(cfg, s), Undone(s.area, cfg.cpuNum, Picks(cfg, s), v))
  {
    var a := Picks(cfg, s);
    PicksAreTheHead(cfg, s, v);
    CpusSettleFor(s.cpus, a, Undone(s.area, cfg.cpuNum, a, v));
  }

  /** From a good state no schedule stops the lord, whatever the kernel answers, and it has
      exactly this effect. */
  lemma ScheduleSettles(cfg: Config, s: State, v: Verdict)
    requires Inv(cfg, s)
    ensures Schedule(cfg, s, v).Run? && Settled(cfg, s, v, Schedule(cfg, s, v).s)
  {
    var a := Picks(cfg, s);
    TasksSettle(cfg, s, v);
    CpusSettle(cfg, s, v);
    RoundTrip(s.area, cfg.cpuNum, a, v);
    if a == [] {
      PicksAreTheHead(cfg, s, v);
    }
  }

  /** What a schedule leaves of each task: a picked one is recorded on its CPU, running or queued again as the kernel
      answered; every other one is untouched. */
  lemma EachPickSettles(cfg: Config, s: State, v: Verdict)
    requires Inv(cfg, s)
    ensures var a, t := Picks(cfg, s), Schedule(cfg, s, v);
            && t.Run? && t.s.tasks.Keys == s.tasks.Keys
            && (forall i :: 0 <= i < |a| ==>
                  && a[i].arg.pid in t.s.tasks
                  && t.s.tasks[a[i].arg.pid] == Task(if Refused(v, a[i].cpu) then Queued else OnCpu, a[i].cpu))
            && (forall p :: p in s.tasks && p !in Pids(a) ==> t.s.tasks[p] == s.tasks[p])
  {
    var a := Picks(cfg, s);
    ScheduleSettles(cfg, s, v);
    PicksAreTheHead(cfg, s, v);
    PlaceOfAt(a);
    forall i | 0 <= i < |a|
      ensures a[i].arg.pid in s.tasks
    {
      assert s.rq[i] in s.rq;
    }
  }

  /** ... and of the shoot area: the pids of its picks, and nothing else, are new. */
  lemma AreaAfterSchedule(cfg: Config, s: State, v: Verdict)
    requires Inv(cfg, s)
    ensures var a, t := Picks(cfg, s), Schedule(cfg, s, v);
            && t.Run? && |t.s.area| == |s.area|
            && (forall i :: 0 <= i < |a| ==> t.s.area[a[i].cpu] == ShootArg(a[i].arg.pid, SA_RIGHT))
            && (forall c :: 0 <= c < |s.area| && c !in Cpus(a) ==> t.s.area[c] == s.area[c])
  {
    ScheduleKeepsInv(cfg, s, v);
    AreaAfterRound(s.area, cfg.cpuNum, Picks(cfg, s), v);
  }

  // ---------------------------------------------------------------- invariants over every run

  lemma SettledKeepsAgreement(cfg: Config, s: State, v: Verdict, t: State)
    requires Inv(cfg, s) && Settled(cfg, s, v, t)
    ensures Agreement(t)
  {
    var a := Picks(cfg, s);
    PicksAreTheHead(cfg, s, v);
    NoDupSplit(s.rq, |a|);
    NoDupConcat(s.rq[|a|..], Back(cfg, s, v));
  }

  /** A task that runs after a schedule ran before it, on its CPU, or was given a CPU that was free. */
  lemma SettledRunning(cfg: Config, s: State, v: Verdict, t: State, p: u32)
    requires Inv(cfg, s) && Settled(cfg, s, v, t) && Running(t, p)
    ensures var a, c := Picks(cfg, s), t.tasks[p].cpuId;
            && 0 <= c < |s.cpus| && c != cfg.lordCpu && t.cpus[c].COS?
            && if p in PlaceOf(a) then PlaceOf(a)[p] == c && !s.cpus[c].COS?
               else Running(s, p) && s.tasks[p].cpuId == c && s.cpus[c].COS?
  {
    var a := Picks(cfg, s);
    PicksAreTheHead(cfg, s, v);
    if p in PlaceOf(a) {
      var i :| 0 <= i < |a| && a[i].cpu == PlaceOf(a)[p];
    } else {
      assert t.tasks[p] == s.tasks[p];
    }
  }

  lemma SettledKeepsExclusive(cfg: Config, s: State, v: Verdict, t: State)
    requires Inv(cfg, s) && Settled(cfg, s, v, t)
    ensures Exclusive(cfg, t)
  {
    forall p | Running(t, p)
      ensures 0 <= t.tasks[p].cpuId < |t.cpus| && t.tasks[p].cpuId != cfg.lordCpu && t.cpus[t.tasks[p].cpuId].COS?
    {
      SettledRunning(cfg, s, v, t, p);
    }
    forall p, q | Running(t, p) && Running(t, q) && p != q
      ensures t.tasks[p].cpuId != t.tasks[q].cpuId
    {
      SettledRunning(cfg, s, v, t, p);
      SettledRunning(cfg, s, v, t, q);
      PicksAreTheHead(cfg, s, v);
    }
  }

  lemma ScheduleKeepsInv(cfg: Config, s: State, v: Verdict)
    requires Inv(cfg, s)
    ensures Schedule(cfg, s, v).Run? && Inv(cfg, Schedule(cfg, s, v).s)
  {
    ScheduleSettles(cfg, s, v);
    SettledKeepsAgreement(cfg, s, v, Schedule(cfg, s, v).s);
    SettledKeepsExclusive(cfg, s, v, Schedule(cfg, s, v).s);
  }

  /** A message touches its own task, the CPU entry of that task if it is running, and the task's place in the
      queue, and nothing else. A task that becomes queued goes to the tail, one that stays queued keeps its
      place. */
  ghost predicate Effected(s: State, m: Msg, t: State) {
    var p: u32 := m.pid;
    && (forall q :: q != p ==> (q in t.tasks <==> q in s.tasks))
    && (forall q :: q != p && q in s.tasks ==> t.tasks[q] == s.tasks[q])
    && (p in s.tasks && m.kind in {MSG_TASK_RUNNABLE, MSG_TASK_PREEMPT, MSG_TASK_COS_PREEMPT} ==>
          p in t.tasks && t.tasks[p] == s.tasks[p].(state := Queued))
    && (p in s.tasks && m.kind == MSG_TASK_BLOCKED ==> p in t.tasks && t.tasks[p] == s.tasks[p].(state := Blocked))
    && (p in s.tasks && (m.kind < MSG_TASK_RUNNABLE || m.kind > MSG_TASK_COS_PREEMPT ||
                         m.kind == MSG_TASK_NEW || m.kind == MSG_TASK_NEW_BLOCKED) ==>
          p in t.tasks && t.tasks[p] == s.tasks[p])
    && (p in s.tasks && m.kind == MSG_TASK_DEAD ==> p !in t.tasks)
    && (p !in s.tasks && m.kind == MSG_TASK_NEW ==> p in t.tasks && t.tasks[p] == Task(Queued, -1))
    && (p !in s.tasks && m.kind == MSG_TASK_NEW_BLOCKED ==> p in t.tasks && t.tasks[p] == Task(Blocked, -1))
    && (p !in s.tasks && m.kind !in {MSG_TASK_NEW, MSG_TASK_NEW_BLOCKED} ==> p !in t.tasks)
    && |t.cpus| == |s.cpus|
    && (forall c :: 0 <= c < |s.cpus| && Running(s, p) && s.tasks[p].cpuId == c ==>
          t.cpus[c] == if m.kind in {MSG_TASK_BLOCKED, MSG_TASK_DEAD} then IDLE
                       else if m.kind == MSG_TASK_PREEMPT then NOCOS
                       else s.cpus[c])
    && (forall c :: 0 <= c < |s.cpus| && !(Running(s, p) && s.tasks[p].cpuId == c) ==> t.cpus[c] == s.cpus[c])
    && t.rq == QueueAfter(s.rq, p, p in t.tasks && t.tasks[p].state.Queued?)
    && t.lastSeq == m.seqNo && t.area == s.area && t.areaSeq == s.areaSeq
  }

  /** A message the lord survives has exactly this effect. */
  lemma MessageEffect(cfg: Config, s: State, m: Msg)
    requires Inv(cfg, s) && m.pid != cfg.lordPid && Consume(cfg, s, m).Run?
    ensures Effected(s, m, Consume(cfg, s, m).s)
  {
  }

  lemma EffectKeepsAgreement(s: State, m: Msg, t: State)
    requires Agreement(s) && Effected(s, m, t)
    ensures Agreement(t)
  {
    QueueAfterIsRight(s.rq, m.pid, m.pid in t.tasks && t.tasks[m.pid].state.Queued?);
  }

  lemma EffectKeepsExclusive(cfg: Config, s: State, m: Msg, t: State)
    requires Exclusive(cfg, s) && Effected(s, m, t)
    ensures Exclusive(cfg, t)
  {
    assert forall p :: Running(t, p) ==> Running(s, p) && t.tasks[p].cpuId == s.tasks[p].cpuId;
  }

  lemma MessageKeepsInv(cfg: Config, s: State, m: Msg)
    requires Inv(cfg, s)
    ensures Consume(cfg, s, m).Run? ==> Inv(cfg, Consume(cfg, s, m).s)
    ensures Consume(cfg, s, m).Halt? <==> KernelBug(cfg, s, m)
    ensures Consume(cfg, s, m).Halt? ==> KernelsFault(Consume(cfg, s, m).cause)
  {
    if Consume(cfg, s, m).Run? && m.pid != cfg.lordPid {
      MessageEffect(cfg, s, m);
      EffectKeepsAgreement(s, m, Consume(cfg, s, m).s);
      EffectKeepsExclusive(cfg, s, m, Consume(cfg, s, m).s);
    }
  }

  predicate KernelsFault(c: Cause) {
    c.SameNewThread? || c.DeadBeforeNew? || c.PreemptBeforeNew? || c.PreemptedWhileBlocked?
  }

  /** The messages on which the lord stops: a second NEW, or DEAD or a preemption of a task that is not
      alive, or a preemption of a blocked task. */
  ghost predicate KernelBug(cfg: Config, s: State, m: Msg) {
    && m.pid != cfg.lordPid
    && var alive := m.pid in s.tasks;
       || (m.kind in {MSG_TASK_NEW, MSG_TASK_NEW_BLOCKED} && alive)
       || (m.kind == MSG_TASK_DEAD && !alive)
       || (m.kind in {MSG_TASK_PREEMPT, MSG_TASK_COS_PREEMPT} && (!alive || s.tasks[m.pid].state.Blocked?))
  }

  lemma InitInv(cfg: Config, area: seq<ShootArg>)
    requires Clean(area, cfg.cpuNum)
    ensures Inv(cfg, Init(cfg, area))
  {
  }

  /** Over every run: queue, task table and CPU table agree, no two tasks share a CPU; the lord can stop
      only on one of the four kernel errors, so it never fails the CPU assert, erases an unqueued task,
      picks an unknown one or leaves the CPU table. */
  lemma {:induction false} EveryRunIsSafe(cfg: Config, s: State, es: seq<Event>)
    requires Inv(cfg, s)
    ensures var r := Exec(cfg, s, es);
            && (r.Run? ==> Inv(cfg, r.s))
            && (r.Halt? ==> KernelsFault(r.cause))
    decreases |es|
  {
    if es != [] {
      match es[0] {
        case Message(m) => MessageKeepsInv(cfg, s, m);
        case Turn(v) => ScheduleKeepsInv(cfg, s, v);
      }
      var r := Step(cfg, s, es[0]);
      if r.Run? {
        EveryRunIsSafe(cfg, r.s, es[1..]);
      }
    }
  }

  /** When the lord stops on a message, it says why. */
  lemma StopsForItsReason(cfg: Config, s: State, m: Msg)
    requires Inv(cfg, s) && Consume(cfg, s, m).Halt?
    ensures match Consume(cfg, s, m).cause
            case SameNewThread => m.pid in s.tasks && m.kind in {MSG_TASK_NEW, MSG_TASK_NEW_BLOCKED}
            case DeadBeforeNew => m.pid !in s.tasks && m.kind == MSG_TASK_DEAD
            case PreemptBeforeNew => m.pid !in s.tasks && m.kind in {MSG_TASK_PREEMPT, MSG_TASK_COS_PREEMPT}
            case PreemptedWhileBlocked => m.pid in s.tasks && s.tasks[m.pid].state.Blocked?
            case CpuNotCos => false
            case _ => false
  {
  }

  // ---------------------------------------------------------------- the lord's own messages

  /** Draining handles the messages as if the lord's own were not among them. */
  lemma {:induction false} DrainSkipsOwn(cfg: Config, s: State, ms: seq<Msg>)
    requires WellFormed(cfg, s)
    ensures Drain(cfg, s, ms) == Drain(cfg, s, Foreign(cfg.lordPid, ms))
    decreases |ms|
  {
    if ms != [] {
      var rest := Foreign(cfg.lordPid, ms[1..]);
      if ms[0].pid == cfg.lordPid {
        assert Foreign(cfg.lordPid, ms) == rest;
        DrainSkipsOwn(cfg, s, ms[1..]);
      } else {
        assert Foreign(cfg.lordPid, ms)[1..] == rest;
        var r := Consume(cfg, s, ms[0]);
        if r.Run? {
          DrainSkipsOwn(cfg, r.s, ms[1..]);
        }
      }
    }
  }

  /** The lord is no task of its own. */
  lemma StepLeavesTheLordOut(cfg: Config, s: State, e: Event)
    requires Inv(cfg, s) && cfg.lordPid !in s.tasks && Step(cfg, s, e).Run?
    ensures Inv(cfg, Step(cfg, s, e).s) && cfg.lordPid !in Step(cfg, s, e).s.tasks
  {
    match e
    case Message(m) =>
      MessageKeepsInv(cfg, s, m);
      if m.pid != cfg.lordPid {
        MessageEffect(cfg, s, m);
      }
    case Turn(v) =>
      ScheduleKeepsInv(cfg, s, v);
      ScheduleSettles(cfg, s, v);
  }

  /** So over every run the lord is never known, queued or picked, whatever messages it gets about itself. */
  lemma {:induction false} LordIsNeverScheduled(cfg: Config, s: State, es: seq<Event>, v: Verdict)
    requires Inv(cfg, s) && cfg.lordPid !in s.tasks && Exec(cfg, s, es).Run?
    ensures var t := Exec(cfg, s, es).s;
            && cfg.lordPid !in t.tasks && cfg.lordPid !in t.rq && cfg.lordPid !in Pids(Picks(cfg, t))
    decreases |es|
  {
    if es == [] {
      PicksAreTheHead(cfg, s, v);
      assert cfg.lordPid !in s.rq[..|Picks(cfg, s)|];
    } else {
      StepLeavesTheLordOut(cfg, s, es[0]);
      LordIsNeverScheduled(cfg, Step(cfg, s, es[0]).s, es[1..], v);
    }
  }

  // ---------------------------------------------------------------- draining

  /** Draining the ring is a run of the messages in it: each is applied once, in order. So what holds over every run
      holds after a drain. `seq_` is then that of the last message that is not the lord's own. */
  lemma {:induction false} DrainIsARun(cfg: Config, s: State, ms: seq<Msg>)
    requires WellFormed(cfg, s)
    ensures Drain(cfg, s, ms) == Exec(cfg, s, Events(ms))
    ensures Drain(cfg, s, ms).Run? ==> Drain(cfg, s, ms).s.lastSeq == LastSeq(cfg.lordPid, ms, s.lastSeq)
    decreases |ms|
  {
    if ms != [] {
      var r := Consume(cfg, s, ms[0]);
      assert Events<Verdict>(ms)[1..] == Events(ms[1..]);
      LastSeqFromTheFront(cfg.lordPid, ms, s.lastSeq);
      if r.Run? {
        ConsumeSetsSeq(cfg, s, ms[0]);
        DrainIsARun(cfg, r.s, ms[1..]);
      }
    }
  }

  lemma ConsumeSetsSeq(cfg: Config, s: State, m: Msg)
    requires WellFormed(cfg, s) && Consume(cfg, s, m).Run?
    ensures Consume(cfg, s, m).s.lastSeq == if m.pid == cfg.lordPid then s.lastSeq else m.seqNo
  {
  }

  /** One turn of the main loop: the number committed to the kernel is the last one seen, cut to 16 bits. */
  lemma CommitsTheLastSeq(cfg: Config, s: State, ms: seq<Msg>, v: Verdict)
    requires Inv(cfg, s) && Drain(cfg, s, ms).Run? && Picks(cfg, Drain(cfg, s, ms).s) != []
    ensures Schedule(cfg, Drain(cfg, s, ms).s, v).Run?
    ensures Schedule(cfg, Drain(cfg, s, ms).s, v).s.areaSeq == LastSeq(cfg.lordPid, ms, s.lastSeq) % TWO16
  {
    DrainIsARun(cfg, s, ms);
    EveryRunIsSafe(cfg, s, Events(ms));
    ScheduleSettles(cfg, Drain(cfg, s, ms).s, v);
  }

  // ---------------------------------------------------------------- schedule is a zip

  /** The free CPUs, upwards: not the lord's, not COS. */
  function FreeFrom(cfg: Config, cpus: seq<CpuState>, cpu: nat): seq<int>
    requires |cpus| == cfg.cpuNum
    decreases cfg.cpuNum - cpu
  {
    if cpu >= cfg.cpuNum then []
    else if cpu == cfg.lordCpu || cpus[cpu].COS? then FreeFrom(cfg, cpus, cpu + 1)
    else [cpu] + FreeFrom(cfg, cpus, cpu + 1)
  }

  lemma {:induction false} FreeAreTheFreeCpus(cfg: Config, cpus: seq<CpuState>, cpu: nat)
    requires |cpus| == cfg.cpuNum
    ensures forall c :: c in FreeFrom(cfg, cpus, cpu) <==>
              cpu <= c < cfg.cpuNum && c != cfg.lordCpu && !cpus[c].COS?
    ensures forall i, j :: 0 <= i < j < |FreeFrom(cfg, cpus, cpu)| ==>
              FreeFrom(cfg, cpus, cpu)[i] < FreeFrom(cfg, cpus, cpu)[j]
    decreases cfg.cpuNum - cpu
  {
    if cpu < cfg.cpuNum {
      FreeAreTheFreeCpus(cfg, cpus, cpu + 1);
      var rest := FreeFrom(cfg, cpus, cpu + 1);
      assert forall i :: 0 <= i < |rest| ==> rest[i] in rest;
    }
  }

  /** How many tasks stand before the first pid 0, which reads as the end of the queue. */
  function Ready(rq: seq<u32>): (n: nat)
    ensures n <= |rq| && (n < |rq| ==> rq[n] == 0) && 0 !in rq[..n]
  {
    if Front(rq) == 0 then 0 else 1 + Ready(rq[1..])
  }

  /** The CPU loop pairs the queue with the free CPUs, both in order, until one of them ends. */
  lemma {:induction false} PicksZipQueueWithFreeCpus(cfg: Config, cpus: seq<CpuState>, rq: seq<u32>, cpu: nat)
    requires |cpus| == cfg.cpuNum
    ensures var a := PickFrom(cfg, cpus, rq, cpu);
            var free := FreeFrom(cfg, cpus, cpu);
            && |a| == (if |free| < Ready(rq) then |free| else Ready(rq))
            && forall i :: 0 <= i < |a| ==> a[i] == Shot(free[i], ShootArg(rq[i], SA_RIGHT))
    decreases cfg.cpuNum - cpu
  {
    if cpu < cfg.cpuNum {
      if cpu == cfg.lordCpu || cpus[cpu].COS? || Front(rq) == 0 {
        PicksZipQueueWithFreeCpus(cfg, cpus, rq, cpu + 1);
      } else {
        PicksZipQueueWithFreeCpus(cfg, cpus, rq[1..], cpu + 1);
      }
    }
  }

  /** No CPU idles while a task waits: after the picks either the queue reads as empty or every CPU
      but the lord's is COS. */
  lemma WorkConserving(cfg: Config, s: State)
    requires WellFormed(cfg, s)
    ensures var t := Placed(s, Picks(cfg, s));
            Front(t.rq) == 0 || forall c :: 0 <= c < cfg.cpuNum && c != cfg.lordCpu ==> t.cpus[c].COS?
  {
    MarkCosAt(s.cpus, Picks(cfg, s));
    if Front(s.rq[|Picks(cfg, s)|..]) != 0 {
      AllFreeArePicked(cfg, s);
    }
  }

  lemma AllFreeArePicked(cfg: Config, s: State)
    requires WellFormed(cfg, s) && Front(s.rq[|Picks(cfg, s)|..]) != 0
    ensures forall c :: 0 <= c < cfg.cpuNum && c != cfg.lordCpu && !s.cpus[c].COS? ==> c in Cpus(Picks(cfg, s))
  {
    var a := Picks(cfg, s);
    var free := FreeFrom(cfg, s.cpus, 0);
    PicksZipQueueWithFreeCpus(cfg, s.cpus, s.rq, 0);
    FreeAreTheFreeCpus(cfg, s.cpus, 0);
    forall c | 0 <= c < cfg.cpuNum && c != cfg.lordCpu && !s.cpus[c].COS?
      ensures c in Cpus(a)
    {
      var i :| 0 <= i < |free| && free[i] == c;
      assert a[i].cpu == c;
    }
  }

  // ---------------------------------------------------------------- the rollback that does not restore

  /** What the rollback is for: every refused CPU is back in the state it had before the picks. */
  ghost predicate RefusedCpusRestored(cfg: Config, s: State, v: Verdict, t: State)
    requires WellFormed(cfg, s) && |t.cpus| == |s.cpus|
  {
    forall i :: 0 <= i < |Picks(cfg, s)| && Refused(v, Picks(cfg, s)[i].cpu) ==>
      t.cpus[Picks(cfg, s)[i].cpu] == s.cpus[Picks(cfg, s)[i].cpu]
  }

  /** Because the old state is saved after it was overwritten, the rollback restores the refused CPUs
      exactly when there are none. */
  lemma RestoresOnlyIfNothingRefused(cfg: Config, s: State, v: Verdict)
    requires Inv(cfg, s)
    ensures Schedule(cfg, s, v).Run?
    ensures RefusedCpusRestored(cfg, s, v, Schedule(cfg, s, v).s) <==>
            forall i :: 0 <= i < |Picks(cfg, s)| ==> !Refused(v, Picks(cfg, s)[i].cpu)
  {
    ScheduleSettles(cfg, s, v);
    var a := Picks(cfg, s);
    forall i | 0 <= i < |a| && Refused(v, a[i].cpu)
      ensures Schedule(cfg, s, v).s.cpus[a[i].cpu] != s.cpus[a[i].cpu]
    {
      assert a[i].cpu in Cpus(a);
    }
  }

  /** The lord on CPU 2 of four, a shoot area of 511 slots, one task announced, one failed call: the CPU is not given
      back. */
  lemma RestorationFails(area: seq<ShootArg>)
    requires |area| == SHOOT_AREA_SIZE && Clean(area, SHOOT_AREA_SIZE)
    ensures var cfg := Config(4, 2, 1000);
            var r := Exec(cfg, Init(cfg, area), [Message(Msg(7, MSG_TASK_NEW, 1))]);
            && r.Run? && Inv(cfg, r.s)
            && Schedule(cfg, r.s, Failed).Run?
            && !RefusedCpusRestored(cfg, r.s, Failed, Schedule(cfg, r.s, Failed).s)
  {
    var cfg, m := Config(4, 2, 1000), Msg(7, MSG_TASK_NEW, 1);
    var i := Init(cfg, area);
    var s := Consume(cfg, i, m).s;
    InitInv(cfg, area);
    MessageKeepsInv(cfg, i, m);
    assert Exec(cfg, i, [Message(m)]) == Exec(cfg, s, []);
    assert s.rq == [7] && !s.cpus[0].COS?;
    var a := Picks(cfg, s);
    assert a[0].cpu == 0;
    RestoresOnlyIfNothingRefused(cfg, s, Failed);
    assert Refused(Failed, a[0].cpu);
  }

  /** A CPU that is marked COS while no task runs on it. */
  ghost predicate Leaked(s: State, cpu: int) {
    && 0 <= cpu < |s.cpus| && s.cpus[cpu].COS?
    && forall p :: Running(s, p) ==> s.tasks[p].cpuId != cpu
  }

  /** A refused CPU is leaked, and ... */
  lemma RefusalLeaks(cfg: Config, s: State, v: Verdict, i: nat)
    requires Inv(cfg, s) && i < |Picks(cfg, s)| && Refused(v, Picks(cfg, s)[i].cpu)
    ensures Schedule(cfg, s, v).Run? && Leaked(Schedule(cfg, s, v).s, Picks(cfg, s)[i].cpu)
  {
    var a := Picks(cfg, s);
    ScheduleSettles(cfg, s, v);
    PicksAreTheHead(cfg, s, v);
    assert a[i].cpu in Cpus(a);
  }

  lemma TurnKeepsLeak(cfg: Config, s: State, v: Verdict, cpu: int)
    requires Inv(cfg, s) && Leaked(s, cpu)
    ensures Schedule(cfg, s, v).Run? && Leaked(Schedule(cfg, s, v).s, cpu)
  {
    ScheduleSettles(cfg, s, v);
    var t := Schedule(cfg, s, v).s;
    forall p | Running(t, p)
      ensures t.tasks[p].cpuId != cpu
    {
      SettledRunning(cfg, s, v, t, p);
    }
  }

  lemma MessageKeepsLeak(cfg: Config, s: State, m: Msg, cpu: int)
    requires Inv(cfg, s) && Leaked(s, cpu) && Consume(cfg, s, m).Run?
    ensures Leaked(Consume(cfg, s, m).s, cpu)
  {
    if m.pid != cfg.lordPid {
      MessageEffect(cfg, s, m);
    } else {
      assert forall p :: Running(Consume(cfg, s, m).s, p) ==> Running(s, p);
    }
  }

  /** ... no run ever gives a leaked CPU back. */
  lemma {:induction false} LeaksAreForEver(cfg: Config, s: State, es: seq<Event>, cpu: int)
    requires Inv(cfg, s) && Leaked(s, cpu)
    ensures Exec(cfg, s, es).Run? ==> Leaked(Exec(cfg, s, es).s, cpu)
    decreases |es|
  {
    if es != [] && Step(cfg, s, es[0]).Run? {
      match es[0] {
        case Message(m) =>
          MessageKeepsInv(cfg, s, m);
          MessageKeepsLeak(cfg, s, m, cpu);
        case Turn(v) =>
          ScheduleKeepsInv(cfg, s, v);
          TurnKeepsLeak(cfg, s, v, cpu);
      }
      LeaksAreForEver(cfg, Step(cfg, s, es[0]).s, es[1..], cpu);
    }
  }

  /** So one failed call that covered every free CPU stops the scheduler for good: in every later
      state of every run there is nothing to pick for, whatever is queued. */
  lemma OneTotalRefusalCanStarveForEver(cfg: Config, s: State, es: seq<Event>)
    requires Inv(cfg, s) && Schedule(cfg, s, Failed).Run?
    requires forall c :: 0 <= c < cfg.cpuNum && c != cfg.lordCpu ==> c in Cpus(Picks(cfg, s))
    ensures Exec(cfg, Schedule(cfg, s, Failed).s, es).Run? ==>
              Picks(cfg, Exec(cfg, Schedule(cfg, s, Failed).s, es).s) == []
  {
    var t := Schedule(cfg, s, Failed).s;
    ScheduleKeepsInv(cfg, s, Failed);
    var r := Exec(cfg, t, es);
    if r.Run? {
      forall c | 0 <= c < cfg.cpuNum && c != cfg.lordCpu
        ensures Leaked(r.s, c)
      {
        assert c in Cpus(Picks(cfg, s));
        var i :| 0 <= i < |Picks(cfg, s)| && Picks(cfg, s)[i].cpu == c;
        RefusalLeaks(cfg, s, Failed, i);
        LeaksAreForEver(cfg, t, es, c);
      }
      var a := Picks(cfg, r.s);
      assert a != [] ==> Leaked(r.s, a[0].cpu);
    }
  }

  // ---------------------------------------------------------------- order

  /** A failed call of k picks rotates the queue by k. */
  lemma TotalRefusalRotates(cfg: Config, s: State)
    requires Inv(cfg, s)
    ensures var k := |Picks(cfg, s)|;
            Schedule(cfg, s, Failed).Run? && Schedule(cfg, s, Failed).s.rq == s.rq[k..] + s.rq[..k]
  {
    ScheduleSettles(cfg, s, Failed);
    assert Back(cfg, s, Failed) == s.rq[..|Picks(cfg, s)|];
  }

  /** Along the whole run these tasks never leave the queue, and none of them is refused a CPU. */
  ghost predicate StayQueued(cfg: Config, s: State, es: seq<Event>, ps: set<u32>)
    requires WellFormed(cfg, s)
    decreases |es|
  {
    && (forall p :: p in ps ==> p in s.rq)
    && (es != [] ==>
          && (es[0].Turn? ==> forall p :: p in ps ==> p !in Back(cfg, s, es[0].v))
          && var r := Step(cfg, s, es[0]);
             r.Run? ==> StayQueued(cfg, r.s, es[1..], ps))
  }

  /** How many tasks a run picks, those that are refused included. */
  function Dispatches(cfg: Config, s: State, es: seq<Event>): nat
    requires WellFormed(cfg, s)
    decreases |es|
  {
    if es == [] then 0
    else
      var here := if es[0].Turn? then |Picks(cfg, s)| else 0;
      match Step(cfg, s, es[0])
      case Halt(_) => here
      case Run(t) => here + Dispatches(cfg, t, es[1..])
  }

  /** A schedule moves a task that is queued before and after it, and was not refused a CPU itself, up by exactly the
      tasks it picked: those refused go behind it. */
  lemma TurnMovesUp(cfg: Config, s: State, v: Verdict, p: u32)
    requires Inv(cfg, s) && p in s.rq && p !in Back(cfg, s, v)
    ensures Schedule(cfg, s, v).Run? && Inv(cfg, Schedule(cfg, s, v).s)
    ensures p in Schedule(cfg, s, v).s.rq ==> Pos(Schedule(cfg, s, v).s.rq, p) + |Picks(cfg, s)| == Pos(s.rq, p)
  {
    var k := |Picks(cfg, s)|;
    ScheduleKeepsInv(cfg, s, v);
    ScheduleSettles(cfg, s, v);
    if p in Schedule(cfg, s, v).s.rq {
      CutMovesUp(s.rq, k, p);
      PosInFront(s.rq[k..], Back(cfg, s, v), p);
    }
  }

  /** A message appends its task, erases it, or leaves the queue alone. */
  lemma MessageTouchesItsTaskOnly(cfg: Config, s: State, m: Msg)
    requires Inv(cfg, s) && Consume(cfg, s, m).Run?
    ensures EditedAt(s.rq, Consume(cfg, s, m).s.rq, m.pid)
  {
    if m.pid != cfg.lordPid {
      MessageEffect(cfg, s, m);
    }
  }

  /** A task that stays queued through a step moves up by at least the tasks that the step picks. */
  lemma StepMovesUp(cfg: Config, s: State, e: Event, p: u32)
    requires Inv(cfg, s) && Step(cfg, s, e).Run? && (e.Turn? ==> p !in Back(cfg, s, e.v))
    requires p in s.rq && p in Step(cfg, s, e).s.rq
    ensures Inv(cfg, Step(cfg, s, e).s)
    ensures Pos(Step(cfg, s, e).s.rq, p) + (if e.Turn? then |Picks(cfg, s)| else 0) <= Pos(s.rq, p)
  {
    match e
    case Turn(v) => TurnMovesUp(cfg, s, v, p);
    case Message(m) =>
      MessageKeepsInv(cfg, s, m);
      MessageTouchesItsTaskOnly(cfg, s, m);
      EditMovesUp(s.rq, Consume(cfg, s, m).s.rq, m.pid, p);
  }

  lemma StepKeepsOrder(cfg: Config, s: State, e: Event, p: u32, r: u32)
    requires Inv(cfg, s) && Step(cfg, s, e).Run?
    requires e.Turn? ==> p !in Back(cfg, s, e.v) && r !in Back(cfg, s, e.v)
    requires p in s.rq && r in s.rq && Pos(s.rq, p) < Pos(s.rq, r)
    requires p in Step(cfg, s, e).s.rq && r in Step(cfg, s, e).s.rq
    ensures Inv(cfg, Step(cfg, s, e).s)
    ensures Pos(Step(cfg, s, e).s.rq, p) < Pos(Step(cfg, s, e).s.rq, r)
  {
    match e
    case Turn(v) =>
      TurnMovesUp(cfg, s, v, p);
      TurnMovesUp(cfg, s, v, r);
    case Message(m) =>
      MessageKeepsInv(cfg, s, m);
      MessageTouchesItsTaskOnly(cfg, s, m);
      EditKeepsOrder(s.rq, Consume(cfg, s, m).s.rq, m.pid, p, r);
  }

  /** Waiting is bounded, over every run: a task at index i, whoever stands behind it and whoever else is refused, sees
      at most i picks while it stays queued and is not refused itself, and each of them moves it up. */
  lemma {:induction false} WaitIsBounded(cfg: Config, s: State, es: seq<Event>, p: u32)
    requires Inv(cfg, s) && StayQueued(cfg, s, es, {p}) && Exec(cfg, s, es).Run?
    ensures p in s.rq && p in Exec(cfg, s, es).s.rq
    ensures Dispatches(cfg, s, es) + Pos(Exec(cfg, s, es).s.rq, p) <= Pos(s.rq, p)
    decreases |es|
  {
    assert p in {p};
    if es != [] {
      var t := Step(cfg, s, es[0]).s;
      assert StayQueued(cfg, t, es[1..], {p});
      StepMovesUp(cfg, s, es[0], p);
      WaitIsBounded(cfg, t, es[1..], p);
    }
  }

  /** No overtaking, over every run: two tasks that stay queued and are not refused themselves keep their order. */
  lemma {:induction false} NoOvertaking(cfg: Config, s: State, es: seq<Event>, p: u32, r: u32)
    requires Inv(cfg, s) && StayQueued(cfg, s, es, {p, r}) && Exec(cfg, s, es).Run?
    requires p in s.rq && r in s.rq && Pos(s.rq, p) < Pos(s.rq, r)
    ensures p in Exec(cfg, s, es).s.rq && r in Exec(cfg, s, es).s.rq
    ensures Pos(Exec(cfg, s, es).s.rq, p) < Pos(Exec(cfg, s, es).s.rq, r)
    decreases |es|
  {
    if es != [] {
      var t := Step(cfg, s, es[0]).s;
      assert StayQueued(cfg, t, es[1..], {p, r});
      assert p in {p, r} && r in {p, r};
      StepKeepsOrder(cfg, s, es[0], p, r);
      NoOvertaking(cfg, t, es[1..], p, r);
    }
  }
}
