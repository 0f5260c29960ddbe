/** When the FIFO scheduler loses a CPU: its entry stays COS though no task runs on it. */
module FifoLeaks {
  import opened Kernel
  import opened RunQueue
  import opened ShootArea
  import opened Lord
  import opened FifoModel
  import opened FifoTheorems

  /** Each COS CPU has a running task. */
  ghost predicate Covered(s: State) {
    forall c :: !Leaked(s, c)
  }

  ghost predicate SomeRefused(cfg: Config, s: State, v: Verdict)
    requires WellFormed(cfg, s)
  {
    exists i :: 0 <= i < |Picks(cfg, s)| && Refused(v, Picks(cfg, s)[i].cpu)
  }

  lemma PickedIsCovered(cfg: Config, s: State, v: Verdict, t: State, i: nat)
    requires Inv(cfg, s) && Settled(cfg, s, v, t) && !SomeRefused(cfg, s, v) && i < |Picks(cfg, s)|
    ensures !Leaked(t, Picks(cfg, s)[i].cpu)
  {
    var a := Picks(cfg, s);
    PicksAreTheHead(cfg, s, v);
    PlaceOfAt(a);
    assert Pids(a)[i] == a[i].arg.pid && a[i].arg.pid in s.rq[..|a|];
    assert a[i].arg.pid in s.rq;
    assert !Refused(v, a[i].cpu);
    assert Running(t, a[i].arg.pid);
  }

  lemma OthersStayCovered(cfg: Config, s: State, v: Verdict, t: State, p: u32)
    requires Inv(cfg, s) && Settled(cfg, s, v, t) && Running(s, p)
    ensures Running(t, p) && t.tasks[p] == s.tasks[p]
  {
    PicksAreTheHead(cfg, s, v);
    assert p !in s.rq;
    assert p !in s.rq[..|Picks(cfg, s)|];
  }

  lemma SettledIsCovered(cfg: Config, s: State, v: Verdict, t: State, c: int)
    requires Inv(cfg, s) && Covered(s) && Settled(cfg, s, v, t) && !SomeRefused(cfg, s, v)
    ensures !Leaked(t, c)
  {
    var a := Picks(cfg, s);
    if c in Cpus(a) {
      var i :| 0 <= i < |a| && a[i].cpu == c;
      PickedIsCovered(cfg, s, v, t, i);
    } else if 0 <= c < |t.cpus| && t.cpus[c].COS? {
      assert !Leaked(s, c);
      var p :| Running(s, p) && s.tasks[p].cpuId == c;
      OthersStayCovered(cfg, s, v, t, p);
    }
  }

  /** A schedule keeps every COS CPU covered if and only if the kernel refuses none of its picks. */
  lemma ScheduleLeaksExactlyOnRefusal(cfg: Config, s: State, v: Verdict)
    requires Inv(cfg, s) && Covered(s)
    ensures Schedule(cfg, s, v).Run?
    ensures Covered(Schedule(cfg, s, v).s) <==> !SomeRefused(cfg, s, v)
  {
    ScheduleSettles(cfg, s, v);
    var t := Schedule(cfg, s, v).s;
    if SomeRefused(cfg, s, v) {
      var i :| 0 <= i < |Picks(cfg, s)| && Refused(v, Picks(cfg, s)[i].cpu);
      RefusalLeaks(cfg, s, v, i);
    } else {
      forall c
        ensures !Leaked(t, c)
      {
        SettledIsCovered(cfg, s, v, t, c);
      }
    }
  }

  /** RUNNABLE or COS_PREEMPT of a task recorded as running: it is queued again and its CPU entry is left as it is. */
  ghost predicate LeavesItsCpu(cfg: Config, s: State, m: Msg) {
    m.pid != cfg.lordPid && m.kind in {MSG_TASK_RUNNABLE, MSG_TASK_COS_PREEMPT} && Running(s, m.pid)
  }

  lemma EffectedIsCovered(cfg: Config, s: State, m: Msg, t: State, c: int)
    requires Inv(cfg, s) && Covered(s) && Effected(s, m, t)
    requires Running(s, m.pid) ==> m.kind !in {MSG_TASK_RUNNABLE, MSG_TASK_COS_PREEMPT}
    ensures !Leaked(t, c)
  {
    if 0 <= c < |t.cpus| && t.cpus[c].COS? {
      assert s.cpus[c].COS? && !Leaked(s, c);
      var p :| Running(s, p) && s.tasks[p].cpuId == c;
      assert Running(t, p) && t.tasks[p].cpuId == c;
    }
  }

  /** A message that the lord survives keeps every COS CPU covered if and only if it is not one of those. */
  lemma MessageLeaksExactlyWhenItLeaves(cfg: Config, s: State, m: Msg)
    requires Inv(cfg, s) && Covered(s) && Consume(cfg, s, m).Run?
    ensures Covered(Consume(cfg, s, m).s) <==> !LeavesItsCpu(cfg, s, m)
  {
    var t := Consume(cfg, s, m).s;
    if m.pid != cfg.lordPid {
      MessageEffect(cfg, s, m);
      if LeavesItsCpu(cfg, s, m) {
        assert Leaked(t, s.tasks[m.pid].cpuId);
      } else {
        forall c
          ensures !Leaked(t, c)
        {
          EffectedIsCovered(cfg, s, m, t, c);
        }
      }
    } else {
      assert forall c :: Leaked(t, c) ==> Leaked(s, c);
    }
  }

  /** This event loses a CPU. */
  ghost predicate Leaks(cfg: Config, s: State, e: Event)
    requires WellFormed(cfg, s)
  {
    match e
    case Message(m) => LeavesItsCpu(cfg, s, m)
    case Turn(v) => SomeRefused(cfg, s, v)
  }

  /** No event of the run does. */
  ghost predicate LeakFree(cfg: Config, s: State, es: seq<Event>)
    requires WellFormed(cfg, s)
    decreases |es|
  {
    es != [] ==>
      && !Leaks(cfg, s, es[0])
      && (Step(cfg, s, es[0]).Run? ==> LeakFree(cfg, Step(cfg, s, es[0]).s, es[1..]))
  }

  lemma StepLeaksExactly(cfg: Config, s: State, e: Event)
    requires Inv(cfg, s) && Covered(s) && Step(cfg, s, e).Run?
    ensures Inv(cfg, Step(cfg, s, e).s)
    ensures Covered(Step(cfg, s, e).s) <==> !Leaks(cfg, s, e)
  {
    match e
    case Message(m) =>
      MessageKeepsInv(cfg, s, m);
      MessageLeaksExactlyWhenItLeaves(cfg, s, m);
    case Turn(v) =>
      ScheduleKeepsInv(cfg, s, v);
      ScheduleLeaksExactlyOnRefusal(cfg, s, v);
  }

  /** Over every run that the lord survives: each COS CPU has a running task in the end if and only if nothing was
      refused and no RUNNABLE or COS_PREEMPT came for a running task; what is lost once is lost for ever. */
  lemma {:induction false} CoveredExactlyWithoutLeaks(cfg: Config, s: State, es: seq<Event>)
    requires Inv(cfg, s) && Covered(s) && Exec(cfg, s, es).Run?
    ensures Covered(Exec(cfg, s, es).s) <==> LeakFree(cfg, s, es)
    decreases |es|
  {
    if es != [] {
      var t := Step(cfg, s, es[0]).s;
      StepLeaksExactly(cfg, s, es[0]);
      if Covered(t) {
        CoveredExactlyWithoutLeaks(cfg, t, es[1..]);
      } else {
        var c :| Leaked(t, c);
        LeaksAreForEver(cfg, t, es[1..], c);
      }
    }
  }

  lemma InitIsCovered(cfg: Config, area: seq<ShootArg>)
    requires cfg.cpuNum <= |area|
    ensures Covered(Init(cfg, area))
  {
  }

  /** Once all CPUs but the lord's are lost, in every later state of every run there is nothing to pick for, whatever is
      queued. */
  lemma LosingAllStarvesForEver(cfg: Config, s: State, es: seq<Event>)
    requires Inv(cfg, s) && Exec(cfg, s, es).Run?
    requires forall c :: 0 <= c < cfg.cpuNum && c != cfg.lordCpu ==> Leaked(s, c)
    ensures Picks(cfg, Exec(cfg, s, es).s) == []
  {
    var r := Exec(cfg, s, es).s;
    forall c | 0 <= c < cfg.cpuNum && c != cfg.lordCpu
      ensures Leaked(r, c)
    {
      LeaksAreForEver(cfg, s, es, c);
    }
    var a := Picks(cfg, r);
    assert a != [] ==> Leaked(r, a[0].cpu);
  }

  // ---------------------------------------------------------------- a lost CPU with nothing refused

  const FOUR_CPUS := Config(4, 2, 1000)

  lemma SevenIsNew(area: seq<ShootArg>) returns (s: State)
    requires |area| == SHOOT_AREA_SIZE && Clean(area, SHOOT_AREA_SIZE)
    ensures Step(FOUR_CPUS, Init(FOUR_CPUS, area), Message(Msg(7, MSG_TASK_NEW, 1))) == Run(s)
    ensures Inv(FOUR_CPUS, s) && s.rq == [7] && s.tasks == map[7 := Task(Queued, -1)] && s.cpus[0].IDLE?
  {
    var i, m := Init(FOUR_CPUS, area), Msg(7, MSG_TASK_NEW, 1);
    InitInv(FOUR_CPUS, area);
    MessageKeepsInv(FOUR_CPUS, i, m);
    s := Consume(FOUR_CPUS, i, m).s;
  }

  lemma PicksSeven(s: State)
    requires WellFormed(FOUR_CPUS, s) && s.rq == [7] && s.cpus[0].IDLE?
    ensures Picks(FOUR_CPUS, s) == [Shot(0, ShootArg(7, SA_RIGHT))]
  {
    var a := Picks(FOUR_CPUS, s);
    assert a != [];
    assert a[0].cpu == 0;
    assert a == [a[0]];
  }

  lemma SevenSettles(s: State, t: State)
    requires Inv(FOUR_CPUS, s) && s.rq == [7] && s.tasks == map[7 := Task(Queued, -1)]
    requires Picks(FOUR_CPUS, s) == [Shot(0, ShootArg(7, SA_RIGHT))] && Settled(FOUR_CPUS, s, Replied(map[]), t)
    ensures t.tasks == map[7 := Task(OnCpu, 0)] && t.cpus[0].COS?
  {
    var a := [Shot(0, ShootArg(7, SA_RIGHT))];
    assert a[..0] == [] && a[0].cpu == 0;
    assert PlaceOf(a) == map[7 := 0];
    assert 0 in Cpus(a);
  }

  lemma SevenRuns(s: State)
    requires Inv(FOUR_CPUS, s) && s.rq == [7] && s.tasks == map[7 := Task(Queued, -1)] && s.cpus[0].IDLE?
    ensures var r := Schedule(FOUR_CPUS, s, Replied(map[]));
            && r.Run? && Inv(FOUR_CPUS, r.s)
            && r.s.tasks == map[7 := Task(OnCpu, 0)] && r.s.cpus[0].COS?
  {
    PicksSeven(s);
    ScheduleKeepsInv(FOUR_CPUS, s, Replied(map[]));
    ScheduleSettles(FOUR_CPUS, s, Replied(map[]));
    SevenSettles(s, Schedule(FOUR_CPUS, s, Replied(map[])).s);
  }

  lemma SevenLeavesCpu0(s: State, m: Msg)
    requires Inv(FOUR_CPUS, s) && s.tasks == map[7 := Task(OnCpu, 0)] && s.cpus[0].COS?
    requires m.pid == 7 && m.kind in {MSG_TASK_RUNNABLE, MSG_TASK_COS_PREEMPT}
    ensures Consume(FOUR_CPUS, s, m).Run? && Leaked(Consume(FOUR_CPUS, s, m).s, 0)
  {
    assert Running(s, 7);
    MessageKeepsInv(FOUR_CPUS, s, m);
    MessageEffect(FOUR_CPUS, s, m);
  }

  /** 7 is announced, runs on CPU 0, and is reported runnable, or preempted by COS: it is queued again, and CPU 0 is
      lost. */
  lemma LostWithNothingRefused(area: seq<ShootArg>, kind: u16)
    requires |area| == SHOOT_AREA_SIZE && Clean(area, SHOOT_AREA_SIZE)
    requires kind in {MSG_TASK_RUNNABLE, MSG_TASK_COS_PREEMPT}
    ensures var es := [Message(Msg(7, MSG_TASK_NEW, 1)), Turn(Replied(map[])), Message(Msg(7, kind, 2))];
            var r := Exec(FOUR_CPUS, Init(FOUR_CPUS, area), es);
            r.Run? && Leaked(r.s, 0)
  {
    var i, e, f, g := Init(FOUR_CPUS, area), Message(Msg(7, MSG_TASK_NEW, 1)), Turn(Replied(map[])), Msg(7, kind, 2);
    var s := SevenIsNew(area);
    SevenRuns(s);
    var t := Schedule(FOUR_CPUS, s, Replied(map[])).s;
    assert Exec(FOUR_CPUS, i, [] + [e] + [f] + [Message(g)]) == Consume(FOUR_CPUS, t, g) by {
      ExecOneMore(FOUR_CPUS, i, [], e);
      ExecOneMore(FOUR_CPUS, i, [] + [e], f);
      ExecOneMore(FOUR_CPUS, i, [] + [e] + [f], Message(g));
    }
    assert [] + [e] + [f] + [Message(g)] == [e, f, Message(g)];
    SevenLeavesCpu0(t, g);
  }
}
