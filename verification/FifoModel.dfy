/** The FIFO scheduler's steps as functions on its whole state. */
module FifoModel {
  import opened Kernel
  import opened RunQueue
  import opened ShootArea
  import opened Lord

  datatype CpuState = IDLE | COS | NOCOS

  datatype Task = Task(state: RunState, cpuId: int)

  /** `lastSeq` is the lord's `seq_`; `area` and `areaSeq` are the shoot area. */
  datatype State = State(
    rq: seq<u32>,
    tasks: map<u32, Task>,
    cpus: seq<CpuState>,
    lastSeq: u32,
    area: seq<ShootArg>,
    areaSeq: u64)

  predicate WellFormed(cfg: Config, s: State) {
    |s.cpus| == cfg.cpuNum <= |s.area|
  }

  function Init(cfg: Config, area: seq<ShootArg>): (s: State)
    requires cfg.cpuNum <= |area|
    ensures WellFormed(cfg, s)
  {
    State([], map[], seq(cfg.cpuNum, _ => IDLE), 0, area, 0)
  }

  // ---------------------------------------------------------------- messages

  function Requeue(s: State, tid: u32): State
    requires tid in s.tasks
  {
    s.(rq := s.rq + [tid], tasks := s.tasks[tid := s.tasks[tid].(state := Queued)])
  }

  function OnRunnable(s: State, tid: u32): Outcome<State> {
    if tid !in s.tasks || s.tasks[tid].state.Queued? then Run(s)
    else Run(Requeue(s, tid))
  }

  /** Takes the task off the queue, or off its CPU, as blocked and dead tasks are. */
  function Detach(s: State, tid: u32): Outcome<State>
    requires tid in s.tasks
  {
    var task := s.tasks[tid];
    if task.state.Queued? then
      if tid in s.rq then Run(s.(rq := Without(s.rq, tid))) else Halt(RemovedUnqueued)
    else if task.state.OnCpu? then
      if 0 <= task.cpuId < |s.cpus| then Run(s.(cpus := s.cpus[task.cpuId := IDLE])) else Halt(CpuOutOfTable)
    else Run(s)
  }

  function OnBlocked(s: State, tid: u32): Outcome<State> {
    if tid !in s.tasks then Run(s)
    else
      match Detach(s, tid)
      case Halt(c) => Halt(c)
      case Run(t) => Run(t.(tasks := t.tasks[tid := s.tasks[tid].(state := Blocked)]))
  }

  function OnNew(s: State, tid: u32): Outcome<State> {
    if tid in s.tasks then Halt(SameNewThread)
    else Run(s.(rq := s.rq + [tid], tasks := s.tasks[tid := Task(Queued, -1)]))
  }

  function OnNewBlocked(s: State, tid: u32): Outcome<State> {
    if tid in s.tasks then Halt(SameNewThread)
    else Run(s.(tasks := s.tasks[tid := Task(Blocked, -1)]))
  }

  function OnDead(s: State, tid: u32): Outcome<State> {
    if tid !in s.tasks then Halt(DeadBeforeNew)
    else
      match Detach(s, tid)
      case Halt(c) => Halt(c)
      case Run(t) => Run(t.(tasks := t.tasks - {tid}))
  }

  function OnPreempt(s: State, tid: u32): Outcome<State> {
    if tid !in s.tasks then Halt(PreemptBeforeNew)
    else
      match s.tasks[tid].state
      case Blocked => Halt(PreemptedWhileBlocked)
      case Queued => Run(s)
      case OnCpu =>
        var cpu := s.tasks[tid].cpuId;
        if 0 <= cpu < |s.cpus| then Run(Requeue(s, tid).(cpus := s.cpus[cpu := NOCOS])) else Halt(CpuOutOfTable)
  }

  function OnPreemptCos(s: State, tid: u32): Outcome<State> {
    if tid !in s.tasks then Halt(PreemptBeforeNew)
    else
      match s.tasks[tid].state
      case Blocked => Halt(PreemptedWhileBlocked)
      case Queued => Run(s)
      case OnCpu =>
        var cpu := s.tasks[tid].cpuId;
        if !(0 <= cpu < |s.cpus|) then Halt(CpuOutOfTable)
        else if s.cpus[cpu].COS? then Run(Requeue(s, tid))
        else Halt(CpuNotCos)
  }

  function Dispatch(s: State, m: Msg): Outcome<State> {
    if m.kind == MSG_TASK_RUNNABLE then OnRunnable(s, m.pid)
    else if m.kind == MSG_TASK_BLOCKED then OnBlocked(s, m.pid)
    else if m.kind == MSG_TASK_NEW then OnNew(s, m.pid)
    else if m.kind == MSG_TASK_DEAD then OnDead(s, m.pid)
    else if m.kind == MSG_TASK_PREEMPT then OnPreempt(s, m.pid)
    else if m.kind == MSG_TASK_NEW_BLOCKED then OnNewBlocked(s, m.pid)
    else if m.kind == MSG_TASK_COS_PREEMPT then OnPreemptCos(s, m.pid)
    else Run(s)
  }

  /** One turn of the drain loop: the lord's own messages are skipped whole. */
  function Consume(cfg: Config, s: State, m: Msg): (r: Outcome<State>)
    requires WellFormed(cfg, s)
    ensures r.Run? ==> WellFormed(cfg, r.s)
  {
    if m.pid == cfg.lordPid then Run(s)
    else Dispatch(s.(lastSeq := m.seqNo), m)
  }

  /** The drain loop: handlers applied to the messages, in order, once each. */
  function Drain(cfg: Config, s: State, ms: seq<Msg>): (r: Outcome<State>)
    requires WellFormed(cfg, s)
    ensures r.Run? ==> WellFormed(cfg, r.s)
    decreases |ms|
  {
    if ms == [] then Run(s)
    else
      match Consume(cfg, s, ms[0])
      case Halt(c) => Halt(c)
      case Run(t) => Drain(cfg, t, ms[1..])
  }

  // ---------------------------------------------------------------- schedule

  /** The picks of the CPU loop from `cpu` on: each free CPU takes the head of the queue. */
  function PickFrom(cfg: Config, cpus: seq<CpuState>, rq: seq<u32>, cpu: nat): (a: seq<Shot>)
    requires |cpus| == cfg.cpuNum
    decreases cfg.cpuNum - cpu
  {
    if cpu >= cfg.cpuNum then []
    else if cpu == cfg.lordCpu || cpus[cpu].COS? then PickFrom(cfg, cpus, rq, cpu + 1)
    else if Front(rq) == 0 then []
    else [Shot(cpu, ShootArg(rq[0], SA_RIGHT))] + PickFrom(cfg, cpus, rq[1..], cpu + 1)
  }

  /** The picks take the head of the queue, in order, to ascending free CPUs. */
  lemma {:induction false} PickFromSound(cfg: Config, cpus: seq<CpuState>, rq: seq<u32>, cpu: nat)
    requires |cpus| == cfg.cpuNum
    ensures var a := PickFrom(cfg, cpus, rq, cpu);
            && |a| <= |rq|
            && (forall i :: 0 <= i < |a| ==>
                  cpu <= a[i].cpu < cfg.cpuNum && a[i].cpu != cfg.lordCpu && !cpus[a[i].cpu].COS?)
            && (forall i :: 0 <= i < |a| ==> a[i].arg == ShootArg(rq[i], SA_RIGHT))
            && (forall i, j :: 0 <= i < j < |a| ==> a[i].cpu < a[j].cpu)
    decreases cfg.cpuNum - cpu
  {
    if cpu < cfg.cpuNum {
      if cpu == cfg.lordCpu || cpus[cpu].COS? {
        PickFromSound(cfg, cpus, rq, cpu + 1);
      } else if Front(rq) != 0 {
        PickFromSound(cfg, cpus, rq[1..], cpu + 1);
      }
    }
  }

  /** One turn of the CPU loop that finds a free CPU and a task. */
  lemma PickFromStep(cfg: Config, cpus: seq<CpuState>, rq: seq<u32>, cpu: nat, k: nat)
    requires cpu < |cpus| == cfg.cpuNum && k <= |rq| && Front(rq[k..]) != 0
    requires cpu != cfg.lordCpu && !cpus[cpu].COS?
    ensures k < |rq|
    ensures PickFrom(cfg, cpus, rq[k..], cpu) ==
            [Shot(cpu, ShootArg(rq[k], SA_RIGHT))] + PickFrom(cfg, cpus, rq[k + 1..], cpu + 1)
  {
    assert rq[k..][1..] == rq[k + 1..];
  }

  function MarkOnCpu(tasks: map<u32, Task>, a: seq<Shot>): map<u32, Task>
    decreases |a|
  {
    if a == [] then tasks
    else
      var k := |a| - 1;
      MarkOnCpu(tasks, a[..k])[a[k].arg.pid := Task(OnCpu, a[k].cpu)]
  }

  function MarkCos(cpus: seq<CpuState>, a: seq<Shot>): (r: seq<CpuState>)
    requires CpusBelow(a, |cpus|)
    ensures |r| == |cpus|
    decreases |a|
  {
    if a == [] then cpus
    else
      var k := |a| - 1;
      MarkCos(cpus, a[..k])[a[k].cpu := COS]
  }

  function ToQueued(task: Task): Task {
    task.(state := Queued)
  }

  function PutAllBack(s: State, pids: seq<u32>): State
    requires AllKnown(s.tasks, pids)
  {
    s.(rq := s.rq + pids, tasks := Marked(s.tasks, pids, ToQueued))
  }

  /** The saved CPU states. Each is read back from the table after it was overwritten, so it
      is always COS. */
  function SavedAfterOverwrite(a: seq<Shot>): (r: seq<Saved<CpuState>>)
    ensures |r| == |a|
    ensures forall i :: 0 <= i < |a| ==> r[i] == Saved(a[i].cpu, COS)
  {
    seq(|a|, i requires 0 <= i < |a| => Saved(a[i].cpu, COS))
  }

  /** The state when all picks are made, before the shoot. */
  function Placed(s: State, a: seq<Shot>): State
    requires |a| <= |s.rq| && CpusBelow(a, |s.cpus|)
  {
    s.(rq := s.rq[|a|..], tasks := MarkOnCpu(s.tasks, a), cpus := MarkCos(s.cpus, a))
  }

  /** One pick: the head of the queue goes to `shot.cpu`. */
  function PlaceOne(s: State, shot: Shot): State
    requires s.rq != [] && 0 <= shot.cpu < |s.cpus|
  {
    s.(rq := s.rq[1..], tasks := s.tasks[shot.arg.pid := Task(OnCpu, shot.cpu)], cpus := s.cpus[shot.cpu := COS])
  }

  lemma PlacedStep(s: State, a: seq<Shot>, shot: Shot)
    requires |a| < |s.rq| && CpusBelow(a, |s.cpus|) && 0 <= shot.cpu < |s.cpus|
    ensures CpusBelow(a + [shot], |s.cpus|)
    ensures PlaceOne(Placed(s, a), shot) == Placed(s, a + [shot])
  {
    assert (a + [shot])[..|a|] == a;
  }

  lemma PutAllBackStep(s: State, pids: seq<u32>, i: nat)
    requires i < |pids| && AllKnown(s.tasks, pids[..i + 1])
    ensures AllKnown(s.tasks, pids[..i])
    ensures Requeue(PutAllBack(s, pids[..i]), pids[i]) == PutAllBack(s, pids[..i + 1])
  {
    assert pids[..i + 1][..i] == pids[..i];
    assert pids[..i + 1] == pids[..i] + [pids[i]];
  }

  /** The rollback of the refused CPUs, after the first `i` of them. */
  function UndoneSoFar(s: State, saved: seq<Saved<CpuState>>, fail: seq<Failure>, i: nat): State
    requires i <= |fail| && FailsBelow(fail, |s.cpus|) && AllKnown(s.tasks, FailPids(fail)[..i])
  {
    PutAllBack(s, FailPids(fail)[..i]).(cpus := RestoreEach(s.cpus, saved, fail[..i]))
  }

  lemma UndoStep(s: State, saved: seq<Saved<CpuState>>, fail: seq<Failure>, i: nat)
    requires i < |fail| && FailsBelow(fail, |s.cpus|)
    requires AllKnown(s.tasks, FailPids(fail)[..i]) && fail[i].pid in s.tasks
    ensures AllKnown(s.tasks, FailPids(fail)[..i + 1])
    ensures var t := UndoneSoFar(s, saved, fail, i);
            Requeue(t, fail[i].pid).(cpus := RestoreOne(t.cpus, saved, fail[i].cpu)) ==
            UndoneSoFar(s, saved, fail, i + 1)
  {
    var pids := FailPids(fail);
    assert pids[..i + 1] == pids[..i] + [pids[i]];
    assert fail[..i + 1][..i] == fail[..i];
    PutAllBackStep(s, pids, i);
  }

  /** Commit, shoot, and undo what the kernel refused. */
  function Shoot(cfg: Config, s: State, a: seq<Shot>, v: Verdict): (r: Outcome<State>)
    requires WellFormed(cfg, s) && CpusBelow(a, cfg.cpuNum)
    ensures r.Run? ==> WellFormed(cfg, r.s)
  {
    var told := Told(s.area, a, v);
    var saved := SavedAfterOverwrite(a);
    var back := FailPids(Undone(s.area, cfg.cpuNum, a, v));
    if !AllKnown(s.tasks, back) then Halt(NullTask)
    else
      var t := PutAllBack(s, back).(areaSeq := s.lastSeq % TWO16);
      if v.Failed? then
        Run(t.(cpus := Restore(s.cpus, saved), area := told))
      else
        FailuresAreTheSetSlots(told, cfg.cpuNum);
        Run(t.(cpus := RestoreEach(s.cpus, saved, Failures(told, cfg.cpuNum)), area := Reset(told, cfg.cpuNum)))
  }

  function Picks(cfg: Config, s: State): (a: seq<Shot>)
    requires WellFormed(cfg, s)
    ensures |a| <= |s.rq|
    ensures forall i :: 0 <= i < |a| ==> 0 <= a[i].cpu < cfg.cpuNum && a[i].cpu != cfg.lordCpu && !s.cpus[a[i].cpu].COS?
    ensures forall i :: 0 <= i < |a| ==> a[i].arg == ShootArg(s.rq[i], SA_RIGHT)
    ensures forall i, j :: 0 <= i < j < |a| ==> a[i].cpu < a[j].cpu
  {
    PickFromSound(cfg, s.cpus, s.rq, 0);
    PickFrom(cfg, s.cpus, s.rq, 0)
  }

  /** The CPU loop before `cpu`, started in `s`, now in `t`: these picks made, these CPU states saved. */
  ghost predicate Picking(cfg: Config, s: State, cpu: nat, t: State, a: seq<Shot>, saved: seq<Saved<CpuState>>)
    requires WellFormed(cfg, s)
  {
    && |a| <= |s.rq| && CpusBelow(a, cfg.cpuNum)
    && Picks(cfg, s) == a + PickFrom(cfg, s.cpus, s.rq[|a|..], cpu)
    && AllKnown(s.tasks, Pids(a))
    && t == Placed(s, a)
    && (forall c :: cpu <= c < cfg.cpuNum ==> t.cpus[c] == s.cpus[c])
    && saved == SavedAfterOverwrite(a)
  }

  lemma PickingStarts(cfg: Config, s: State)
    requires WellFormed(cfg, s)
    ensures Picking(cfg, s, 0, s, [], [])
  {
  }

  lemma PickingSkips(cfg: Config, s: State, cpu: nat, t: State, a: seq<Shot>, saved: seq<Saved<CpuState>>)
    requires WellFormed(cfg, s) && Picking(cfg, s, cpu, t, a, saved) && cpu < cfg.cpuNum
    requires cpu == cfg.lordCpu || t.cpus[cpu].COS?
    ensures Picking(cfg, s, cpu + 1, t, a, saved)
  {
  }

  lemma PickingTakes(cfg: Config, s: State, cpu: nat, t: State, a: seq<Shot>, saved: seq<Saved<CpuState>>)
    requires WellFormed(cfg, s) && Picking(cfg, s, cpu, t, a, saved) && cpu < cfg.cpuNum
    requires cpu != cfg.lordCpu && !t.cpus[cpu].COS? && Front(t.rq) != 0
    ensures t.rq[0] in Pids(Picks(cfg, s))
    ensures t.rq[0] in s.tasks ==>
              var shot := Shot(cpu, ShootArg(t.rq[0], SA_RIGHT));
              Picking(cfg, s, cpu + 1, PlaceOne(t, shot), a + [shot], saved + [Saved(cpu, COS)])
  {
    var shot := Shot(cpu, ShootArg(t.rq[0], SA_RIGHT));
    var rest := PickFrom(cfg, s.cpus, s.rq[|a| + 1..], cpu + 1);
    PickFromStep(cfg, s.cpus, s.rq, cpu, |a|);
    assert Picks(cfg, s) == a + ([shot] + rest);
    assert Picks(cfg, s) == a + [shot] + rest;
    assert Pids(Picks(cfg, s))[|a|] == t.rq[0];
    assert Pids(a + [shot]) == Pids(a) + [t.rq[0]];
    PlacedStep(s, a, shot);
  }

  lemma PickingEnds(cfg: Config, s: State, cpu: nat, t: State, a: seq<Shot>, saved: seq<Saved<CpuState>>)
    requires WellFormed(cfg, s) && Picking(cfg, s, cpu, t, a, saved)
    requires cpu >= cfg.cpuNum || (cpu != cfg.lordCpu && !t.cpus[cpu].COS? && Front(t.rq) == 0)
    ensures Picks(cfg, s) == a && AllKnown(s.tasks, Pids(a))
    ensures t == Placed(s, a) && saved == SavedAfterOverwrite(a)
  {
  }

  function Schedule(cfg: Config, s: State, v: Verdict): (r: Outcome<State>)
    requires WellFormed(cfg, s)
    ensures r.Run? ==> WellFormed(cfg, r.s)
  {
    var a := Picks(cfg, s);
    if !AllKnown(s.tasks, Pids(a)) then Halt(PickedUnknown)
    else if a == [] then Run(s)
    else Shoot(cfg, Placed(s, a), a, v)
  }

  // ---------------------------------------------------------------- runs

  type Event = Input<Verdict>

  function Step(cfg: Config, s: State, e: Event): (r: Outcome<State>)
    requires WellFormed(cfg, s)
    ensures r.Run? ==> WellFormed(cfg, r.s)
  {
    match e
    case Message(m) => Consume(cfg, s, m)
    case Turn(v) => Schedule(cfg, s, v)
  }

  function Exec(cfg: Config, s: State, es: seq<Event>): (r: Outcome<State>)
    requires WellFormed(cfg, s)
    ensures r.Run? ==> WellFormed(cfg, r.s)
    decreases |es|
  {
    if es == [] then Run(s)
    else
      match Step(cfg, s, es[0])
      case Halt(c) => Halt(c)
      case Run(t) => Exec(cfg, t, es[1..])
  }

  /** A run one event longer is the run and then that event, if the lord survived so far. */
  lemma {:induction false} ExecOneMore(cfg: Config, s: State, es: seq<Event>, e: Event)
    requires WellFormed(cfg, s)
    ensures Exec(cfg, s, es + [e]) ==
            if Exec(cfg, s, es).Run? then Step(cfg, Exec(cfg, s, es).s, e) else Exec(cfg, s, es)
    decreases |es|
  {
    if es == [] {
      assert [e][1..] == [];
    } else {
      assert (es + [e])[1..] == es[1..] + [e];
      var r := Step(cfg, s, es[0]);
      if r.Run? {
        ExecOneMore(cfg, r.s, es[1..], e);
      }
    }
  }
}
