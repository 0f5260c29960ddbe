/** The Shinjuku scheduler's steps as functions on its whole state. */
module ShinjukuModel {
  import opened Kernel
  import opened RunQueue
  import opened ShootArea
  import opened Lord

  /** Nanoseconds a task may run before it can be displaced. */
  const PREEMPT_TIME_SLICE := 1000 * 400

  /** The CPUs below are never scheduled on. */
  const FIRST_CPU := 3

  datatype ThreadType = IDLE | COS | CFS

  datatype CpuState = Cpu(kind: ThreadType, pid: u32)

  datatype Task = Task(state: RunState, cpuId: int, lastShoot: u64)

  /** `lastSeq` is the lord's `seq_`; `area` and `areaSeq` are the shoot area. */
  datatype State = State(
    rq: seq<u32>,
    tasks: map<u32, Task>,
    cpus: seq<CpuState>,
    lastSeq: u32,
    area: seq<ShootArg>,
    areaSeq: u64)

  /** What one schedule sees of the outside: the clock, the answer of every read of the epistle (by CPU
      while the running tasks are examined, by task while the queue is scanned), the kernel's verdict. */
  datatype Env = Env(now: u64, cpuIdle: set<int>, taskIdle: set<u32>, verdict: Verdict)

  predicate WellFormed(cfg: Config, s: State) {
    |s.cpus| == cfg.cpuNum <= |s.area|
  }

  function Init(cfg: Config, area: seq<ShootArg>): (s: State)
    requires cfg.cpuNum <= |area|
    ensures WellFormed(cfg, s)
  {
    State([], map[], seq(cfg.cpuNum, _ => Cpu(IDLE, 0)), 0, area, 0)
  }

  // ---------------------------------------------------------------- messages

  function Requeue(s: State, tid: u32): State
    requires tid in s.tasks
  {
    s.(rq := s.rq + [tid], tasks := s.tasks[tid := s.tasks[tid].(state := Queued)])
  }

  function OnRunnable(s: State, tid: u32): Outcome<State> {
    if tid !in s.tasks || s.tasks[tid].state.Queued? then Run(s)
    else Run(Requeue(s, tid))
  }

  /** Takes the task off the queue, or off its CPU, as blocked and dead tasks are. */
  function Detach(s: State, tid: u32): Outcome<State>
    requires tid in s.tasks
  {
    var task := s.tasks[tid];
    if task.state.Queued? then
      if tid in s.rq then Run(s.(rq := Without(s.rq, tid))) else Halt(RemovedUnqueued)
    else if task.state.OnCpu? then
      if 0 <= task.cpuId < |s.cpus| then Run(s.(cpus := s.cpus[task.cpuId := Cpu(IDLE, 0)])) else Halt(CpuOutOfTable)
    else Run(s)
  }

  function OnBlocked(s: State, tid: u32): Outcome<State> {
    if tid !in s.tasks then Run(s)
    else
      match Detach(s, tid)
      case Halt(c) => Halt(c)
      case Run(t) => Run(t.(tasks := t.tasks[tid := s.tasks[tid].(state := Blocked)]))
  }

  function OnNew(s: State, tid: u32): Outcome<State> {
    if tid in s.tasks then Halt(SameNewThread)
    else Run(s.(rq := s.rq + [tid], tasks := s.tasks[tid := Task(Queued, -1, 0)]))
  }

  function OnNewBlocked(s: State, tid: u32): Outcome<State> {
    if tid in s.tasks then Halt(SameNewThread)
    else Run(s.(tasks := s.tasks[tid := Task(Blocked, -1, 0)]))
  }

  function OnDead(s: State, tid: u32): Outcome<State> {
    if tid !in s.tasks then Halt(DeadBeforeNew)
    else
      match Detach(s, tid)
      case Halt(c) => Halt(c)
      case Run(t) => Run(t.(tasks := t.tasks - {tid}))
  }

  /** Preempted by CFS: the CPU is CFS's now, its `pid` entry stays behind. */
  function OnPreempt(s: State, tid: u32): Outcome<State> {
    if tid !in s.tasks then Halt(PreemptBeforeNew)
    else
      match s.tasks[tid].state
      case Blocked => Halt(PreemptedWhileBlocked)
      case Queued => Run(s)
      case OnCpu =>
        var cpu := s.tasks[tid].cpuId;
        if 0 <= cpu < |s.cpus| then Run(Requeue(s, tid).(cpus := s.cpus[cpu := s.cpus[cpu].(kind := CFS)]))
        else Halt(CpuOutOfTable)
  }

  /** Preempted by another task of the lord. */
  function OnPreemptCos(s: State, tid: u32): Outcome<State> {
    if tid !in s.tasks then Halt(PreemptBeforeNew)
    else
      match s.tasks[tid].state
      case Blocked => Halt(PreemptedWhileBlocked)
      case Queued => Run(s)
      case OnCpu =>
        var cpu := s.tasks[tid].cpuId;
        if !(0 <= cpu < |s.cpus|) then Halt(CpuOutOfTable)
        else if s.cpus[cpu].kind.COS? then Run(Requeue(s, tid))
        else Halt(CpuNotCos)
  }

  function Dispatch(s: State, m: Msg): Outcome<State> {
    if m.kind == MSG_TASK_RUNNABLE then OnRunnable(s, m.pid)
    else if m.kind == MSG_TASK_BLOCKED then OnBlocked(s, m.pid)
    else if m.kind == MSG_TASK_NEW then OnNew(s, m.pid)
    else if m.kind == MSG_TASK_DEAD then OnDead(s, m.pid)
    else if m.kind == MSG_TASK_PREEMPT then OnPreempt(s, m.pid)
    else if m.kind == MSG_TASK_NEW_BLOCKED then OnNewBlocked(s, m.pid)
    else if m.kind == MSG_TASK_COS_PREEMPT then OnPreemptCos(s, m.pid)
    else Run(s)
  }

  /** One turn of the drain loop: the lord's own messages are skipped whole. */
  function Consume(cfg: Config, s: State, m: Msg): (r: Outcome<State>)
    requires WellFormed(cfg, s)
    ensures r.Run? ==> WellFormed(cfg, r.s)
  {
    if m.pid == cfg.lordPid then Run(s)
    else Dispatch(s.(lastSeq := m.seqNo), m)
  }

  /** The drain loop: handlers applied to the messages, in order, once each. */
  function Drain(cfg: Config, s: State, ms: seq<Msg>): (r: Outcome<State>)
    requires WellFormed(cfg, s)
    ensures r.Run? ==> WellFormed(cfg, r.s)
    decreases |ms|
  {
    if ms == [] then Run(s)
    else
      match Consume(cfg, s, ms[0])
      case Halt(c) => Halt(c)
      case Run(t) => Drain(cfg, t, ms[1..])
  }

  // ---------------------------------------------------------------- which CPUs can be used

  datatype Class = Idle | OfCfs | Preemptible | Busy | Broken(cause: Cause)

  /** The u64 difference to the time the task was last shot. */
  function Elapsed(now: u64, task: Task): u64 {
    (now - task.lastShoot) % TWO64
  }

  function ClassOf(cfg: Config, s: State, env: Env, cpu: nat): Class
    requires cpu < |s.cpus|
  {
    if cpu == cfg.lordCpu then Busy
    else
      match s.cpus[cpu].kind
      case IDLE => Idle
      case CFS => OfCfs
      case COS =>
        var pid := s.cpus[cpu].pid;
        if pid !in s.tasks then Broken(NullTask)
        else if !s.tasks[pid].state.OnCpu? then Broken(RunningTaskNotOnCpu)
        else if Elapsed(env.now, s.tasks[pid]) >= PREEMPT_TIME_SLICE then Preemptible
        else if pid == 0 then Broken(EpistleKeyZero)
        else if cpu in env.cpuIdle then Preemptible
        else Busy
  }

  /** The CPUs of one class below `hi`, upwards. */
  function Collect(cfg: Config, s: State, env: Env, hi: nat, wanted: Class): seq<int>
    requires hi <= |s.cpus|
  {
    if hi <= FIRST_CPU then []
    else Collect(cfg, s, env, hi - 1, wanted) + if ClassOf(cfg, s, env, hi - 1) == wanted then [hi - 1] else []
  }

  datatype Check = Fine | Stuck(cause: Cause)

  /** The first CPU below `hi` whose running task is missing or not running stops the lord. */
  function FirstBroken(cfg: Config, s: State, env: Env, hi: nat): Check
    requires hi <= |s.cpus|
  {
    if hi <= FIRST_CPU then Fine
    else
      match FirstBroken(cfg, s, env, hi - 1)
      case Stuck(c) => Stuck(c)
      case Fine =>
        match ClassOf(cfg, s, env, hi - 1)
        case Broken(c) => Stuck(c)
        case _ => Fine
  }

  /** The first loop before `hi`: no CPU has stopped it, and these are its three lists. */
  ghost predicate Classified(cfg: Config, s: State, env: Env, hi: nat, idle: seq<int>, cfs: seq<int>, cos: seq<int>)
    requires hi <= |s.cpus|
  {
    && FirstBroken(cfg, s, env, hi).Fine?
    && idle == Collect(cfg, s, env, hi, Idle)
    && cfs == Collect(cfg, s, env, hi, OfCfs)
    && cos == Collect(cfg, s, env, hi, Preemptible)
  }

  lemma ClassifiedNext(cfg: Config, s: State, env: Env, hi: nat, idle: seq<int>, cfs: seq<int>, cos: seq<int>)
    requires FIRST_CPU <= hi < |s.cpus| && Classified(cfg, s, env, hi, idle, cfs, cos)
    ensures match ClassOf(cfg, s, env, hi)
            case Idle => Classified(cfg, s, env, hi + 1, idle + [hi], cfs, cos)
            case OfCfs => Classified(cfg, s, env, hi + 1, idle, cfs + [hi], cos)
            case Preemptible => Classified(cfg, s, env, hi + 1, idle, cfs, cos + [hi])
            case Busy => Classified(cfg, s, env, hi + 1, idle, cfs, cos)
            case Broken(c) => FirstBroken(cfg, s, env, hi + 1) == Stuck(c)
  {
  }

  lemma {:induction false} StuckStays(cfg: Config, s: State, env: Env, lo: nat, hi: nat)
    requires lo <= hi <= |s.cpus| && FirstBroken(cfg, s, env, lo).Stuck?
    ensures FirstBroken(cfg, s, env, hi) == FirstBroken(cfg, s, env, lo)
  {
    if lo < hi {
      StuckStays(cfg, s, env, lo, hi - 1);
    }
  }

  /** The CPUs in the order in which the pick loop uses them up. */
  function Free(cfg: Config, s: State, env: Env): seq<int>
    requires WellFormed(cfg, s)
  {
    Collect(cfg, s, env, cfg.cpuNum, Idle) + Collect(cfg, s, env, cfg.cpuNum, OfCfs) +
    Collect(cfg, s, env, cfg.cpuNum, Preemptible)
  }

  // ---------------------------------------------------------------- the pick loop

  /** The picks, what is left of the queue, and the epistle-idle tasks set aside. */
  datatype Picked = Picked(shots: seq<Shot>, rest: seq<u32>, skipped: seq<u32>)

  function PickLoop(rq: seq<u32>, free: seq<int>, idle: set<u32>): Picked {
    if Front(rq) == 0 then Picked([], rq, [])
    else if rq[0] in idle then
      var p := PickLoop(rq[1..], free, idle);
      p.(skipped := [rq[0]] + p.skipped)
    else if free == [] then Picked([], rq, [])
    else
      var p := PickLoop(rq[1..], free[1..], idle);
      p.(shots := [Shot(free[0], ShootArg(rq[0], SA_RIGHT))] + p.shots)
  }

  function MarkOnCpu(tasks: map<u32, Task>, a: seq<Shot>, now: u64): map<u32, Task>
    decreases |a|
  {
    if a == [] then tasks
    else
      var k := |a| - 1;
      MarkOnCpu(tasks, a[..k], now)[a[k].arg.pid := Task(OnCpu, a[k].cpu, now)]
  }

  function MarkCos(cpus: seq<CpuState>, a: seq<Shot>): (r: seq<CpuState>)
    requires CpusBelow(a, |cpus|)
    ensures |r| == |cpus|
    decreases |a|
  {
    if a == [] then cpus
    else
      var k := |a| - 1;
      MarkCos(cpus, a[..k])[a[k].cpu := Cpu(COS, a[k].arg.pid)]
  }

  function ToQueued(task: Task): Task {
    task.(state := Queued)
  }

  function PutAllBack(s: State, pids: seq<u32>): State
    requires AllKnown(s.tasks, pids)
  {
    s.(rq := s.rq + pids, tasks := Marked(s.tasks, pids, ToQueued))
  }

  /** The CPU states, saved before each is overwritten. */
  function SavedBefore(cpus: seq<CpuState>, a: seq<Shot>): (r: seq<Saved<CpuState>>)
    requires CpusBelow(a, |cpus|)
    ensures |r| == |a|
    ensures forall i :: 0 <= i < |a| ==> r[i] == Saved(a[i].cpu, cpus[a[i].cpu])
  {
    seq(|a|, i requires 0 <= i < |a| => Saved(a[i].cpu, cpus[a[i].cpu]))
  }

  /** The state in the middle of the pick loop: these picks made, this queue left. */
  function Midway(s: State, now: u64, a: seq<Shot>, q: seq<u32>): State
    requires CpusBelow(a, |s.cpus|)
  {
    s.(rq := q, tasks := MarkOnCpu(s.tasks, a, now), cpus := MarkCos(s.cpus, a))
  }

  /** One pick: the head of the queue goes to `shot.cpu`. */
  function PlaceOne(s: State, now: u64, shot: Shot): State
    requires s.rq != [] && 0 <= shot.cpu < |s.cpus|
  {
    s.(rq := s.rq[1..], tasks := s.tasks[shot.arg.pid := Task(OnCpu, shot.cpu, now)],
       cpus := s.cpus[shot.cpu := Cpu(COS, shot.arg.pid)])
  }

  lemma MidwayStep(s: State, now: u64, a: seq<Shot>, shot: Shot, q: seq<u32>)
    requires q != [] && CpusBelow(a, |s.cpus|) && 0 <= shot.cpu < |s.cpus|
    requires forall i :: 0 <= i < |a| ==> a[i].cpu != shot.cpu
    ensures CpusBelow(a + [shot], |s.cpus|)
    ensures PlaceOne(Midway(s, now, a, q), now, shot) == Midway(s, now, a + [shot], q[1..])
    ensures SavedBefore(s.cpus, a + [shot]) ==
            SavedBefore(s.cpus, a) + [Saved(shot.cpu, Midway(s, now, a, q).cpus[shot.cpu])]
  {
    assert (a + [shot])[..|a|] == a;
    MarkCosElsewhere(s.cpus, a, shot.cpu);
  }

  lemma {:induction false} MarkCosElsewhere(cpus: seq<CpuState>, a: seq<Shot>, c: int)
    requires CpusBelow(a, |cpus|) && 0 <= c < |cpus|
    requires forall i :: 0 <= i < |a| ==> a[i].cpu != c
    ensures MarkCos(cpus, a)[c] == cpus[c]
    decreases |a|
  {
    if a != [] {
      MarkCosElsewhere(cpus, a[..|a| - 1], c);
    }
  }

  lemma PutAllBackStep(s: State, pids: seq<u32>, i: nat)
    requires i < |pids| && AllKnown(s.tasks, pids[..i + 1])
    ensures AllKnown(s.tasks, pids[..i])
    ensures Requeue(PutAllBack(s, pids[..i]), pids[i]) == PutAllBack(s, pids[..i + 1])
  {
    assert pids[..i + 1][..i] == pids[..i];
    assert pids[..i + 1] == pids[..i] + [pids[i]];
  }

  /** The state when all picks are made and the skipped tasks are back in the queue, before the shoot. */
  function Placed(s: State, now: u64, p: Picked): State
    requires CpusBelow(p.shots, |s.cpus|)
  {
    Midway(s, now, p.shots, p.rest + p.skipped)
  }

  // ---------------------------------------------------------------- schedule

  /** The rollback of the refused CPUs, after the first `i` of them. */
  function UndoneSoFar(s: State, saved: seq<Saved<CpuState>>, fail: seq<Failure>, i: nat): State
    requires i <= |fail| && FailsBelow(fail, |s.cpus|) && AllKnown(s.tasks, FailPids(fail)[..i])
  {
    PutAllBack(s, FailPids(fail)[..i]).(cpus := RestoreEach(s.cpus, saved, fail[..i]))
  }

  lemma UndoStep(s: State, saved: seq<Saved<CpuState>>, fail: seq<Failure>, i: nat)
    requires i < |fail| && FailsBelow(fail, |s.cpus|)
    requires AllKnown(s.tasks, FailPids(fail)[..i]) && fail[i].pid in s.tasks
    ensures AllKnown(s.tasks, FailPids(fail)[..i + 1])
    ensures var t := UndoneSoFar(s, saved, fail, i);
            Requeue(t, fail[i].pid).(cpus := RestoreOne(t.cpus, saved, fail[i].cpu)) ==
            UndoneSoFar(s, saved, fail, i + 1)
  {
    var pids := FailPids(fail);
    assert pids[..i + 1] == pids[..i] + [pids[i]];
    assert fail[..i + 1][..i] == fail[..i];
    PutAllBackStep(s, pids, i);
  }

  /** Commit, shoot, and undo what the kernel refused. */
  function Shoot(cfg: Config, s: State, a: seq<Shot>, saved: seq<Saved<CpuState>>, v: Verdict): (r: Outcome<State>)
    requires WellFormed(cfg, s) && CpusBelow(a, cfg.cpuNum) && SavedBelow(saved, cfg.cpuNum)
    ensures r.Run? ==> WellFormed(cfg, r.s)
  {
    var told := Told(s.area, a, v);
    var back := FailPids(Undone(s.area, cfg.cpuNum, a, v));
    if !AllKnown(s.tasks, back) then Halt(NullTask)
    else
      var t := PutAllBack(s, back).(areaSeq := s.lastSeq % TWO16);
      if v.Failed? then
        Run(t.(cpus := Restore(s.cpus, saved), area := told))
      else
        FailuresAreTheSetSlots(told, cfg.cpuNum);
        Run(t.(cpus := RestoreEach(s.cpus, saved, Failures(told, cfg.cpuNum)), area := Reset(told, cfg.cpuNum)))
  }

  lemma {:induction false} CollectSound(cfg: Config, s: State, env: Env, hi: nat, wanted: Class)
    requires hi <= |s.cpus|
    ensures forall c :: c in Collect(cfg, s, env, hi, wanted) <==>
              FIRST_CPU <= c < hi && ClassOf(cfg, s, env, c) == wanted
    ensures forall i, j :: 0 <= i < j < |Collect(cfg, s, env, hi, wanted)| ==>
              Collect(cfg, s, env, hi, wanted)[i] < Collect(cfg, s, env, hi, wanted)[j]
  {
    if hi > FIRST_CPU {
      CollectSound(cfg, s, env, hi - 1, wanted);
      var q := Collect(cfg, s, env, hi - 1, wanted);
      assert forall i :: 0 <= i < |q| ==> q[i] in q;
    }
  }

  /** The free CPUs: in the scheduled range, never the lord's, each once. */
  lemma FreeSound(cfg: Config, s: State, env: Env)
    requires WellFormed(cfg, s)
    ensures NoDup(Free(cfg, s, env))
    ensures forall c :: c in Free(cfg, s, env) <==>
              FIRST_CPU <= c < cfg.cpuNum && ClassOf(cfg, s, env, c) in {Idle, OfCfs, Preemptible}
  {
    var n := cfg.cpuNum;
    var i, f, p := Collect(cfg, s, env, n, Idle), Collect(cfg, s, env, n, OfCfs), Collect(cfg, s, env, n, Preemptible);
    CollectSound(cfg, s, env, n, Idle);
    CollectSound(cfg, s, env, n, OfCfs);
    CollectSound(cfg, s, env, n, Preemptible);
    assert forall c :: c in i ==> c !in f && c !in p;
    assert forall c :: c in f ==> c !in p;
    NoDupConcat(i, f);
    NoDupConcat(i + f, p);
  }

  /** The picks use a prefix of the free CPUs, in order. */
  lemma {:induction false} PickLoopCpus(rq: seq<u32>, free: seq<int>, idle: set<u32>)
    ensures var a := PickLoop(rq, free, idle).shots;
            |a| <= |free| && forall i :: 0 <= i < |a| ==> a[i].cpu == free[i] && a[i].arg.info == SA_RIGHT
  {
    if Front(rq) != 0 {
      if rq[0] in idle {
        PickLoopCpus(rq[1..], free, idle);
      } else if free != [] {
        PickLoopCpus(rq[1..], free[1..], idle);
      }
    }
  }

  function Picks(cfg: Config, s: State, env: Env): (p: Picked)
    requires WellFormed(cfg, s)
    ensures CpusBelow(p.shots, cfg.cpuNum) && DistinctCpus(p.shots)
    ensures forall i :: 0 <= i < |p.shots| ==> p.shots[i].arg.info == SA_RIGHT
  {
    var free := Free(cfg, s, env);
    FreeSound(cfg, s, env);
    assert forall i :: 0 <= i < |free| ==> free[i] in free;
    PickLoopCpus(s.rq, free, env.taskIdle);
    PickLoop(s.rq, free, env.taskIdle)
  }

  /** The pick loop at some turn, started in `s`, now in `t`: these picks made, these CPU states saved, these
      tasks set aside, these CPUs left. */
  ghost predicate Picking(cfg: Config, s: State, env: Env, t: State, a: seq<Shot>, saved: seq<Saved<CpuState>>,
                          skipped: seq<u32>, left: seq<int>)
    requires WellFormed(cfg, s)
  {
    var free, p := Free(cfg, s, env), PickLoop(t.rq, left, env.taskIdle);
    && Picks(cfg, s, env) == Picked(a + p.shots, p.rest, skipped + p.skipped)
    && |a| <= |free| && free[|a|..] == left
    && (forall i :: 0 <= i < |a| ==> a[i].cpu == free[i])
    && CpusBelow(a, cfg.cpuNum)
    && 0 !in skipped
    && AllKnown(s.tasks, Pids(a))
    && t == Midway(s, env.now, a, t.rq)
    && saved == SavedBefore(s.cpus, a)
  }

  lemma PickingStarts(cfg: Config, s: State, env: Env)
    requires WellFormed(cfg, s)
    ensures Picking(cfg, s, env, s, [], [], [], Free(cfg, s, env))
  {
  }

  lemma PickingSkips(cfg: Config, s: State, env: Env, t: State, a: seq<Shot>, saved: seq<Saved<CpuState>>,
                     skipped: seq<u32>, left: seq<int>)
    requires WellFormed(cfg, s) && Picking(cfg, s, env, t, a, saved, skipped, left)
    requires Front(t.rq) != 0 && t.rq[0] in env.taskIdle
    ensures Picking(cfg, s, env, t.(rq := t.rq[1..]), a, saved, skipped + [t.rq[0]], left)
  {
    var p := PickLoop(t.rq[1..], left, env.taskIdle);
    assert skipped + ([t.rq[0]] + p.skipped) == skipped + [t.rq[0]] + p.skipped;
  }

  /** The next pick, seen in the list of all picks. */
  lemma NextPick(cfg: Config, s: State, env: Env, t: State, a: seq<Shot>, saved: seq<Saved<CpuState>>,
                 skipped: seq<u32>, left: seq<int>)
    requires WellFormed(cfg, s) && Picking(cfg, s, env, t, a, saved, skipped, left)
    requires Front(t.rq) != 0 && t.rq[0] !in env.taskIdle && left != []
    ensures var p, shot := PickLoop(t.rq[1..], left[1..], env.taskIdle), Shot(left[0], ShootArg(t.rq[0], SA_RIGHT));
            && Picks(cfg, s, env) == Picked(a + [shot] + p.shots, p.rest, skipped + p.skipped)
            && t.rq[0] in Pids(Picks(cfg, s, env).shots)
  {
    var p, shot := PickLoop(t.rq[1..], left[1..], env.taskIdle), Shot(left[0], ShootArg(t.rq[0], SA_RIGHT));
    var all := Picks(cfg, s, env).shots;
    assert all == a + ([shot] + p.shots);
    assert a + ([shot] + p.shots) == a + [shot] + p.shots;
    assert all[|a|] == shot;
    assert Pids(all)[|a|] == t.rq[0];
  }

  lemma NextCpuIsNew(cfg: Config, s: State, env: Env, a: seq<Shot>, left: seq<int>)
    requires WellFormed(cfg, s) && left != []
    requires |a| <= |Free(cfg, s, env)| && Free(cfg, s, env)[|a|..] == left
    requires forall i :: 0 <= i < |a| ==> a[i].cpu == Free(cfg, s, env)[i]
    ensures 0 <= left[0] < cfg.cpuNum && left[0] == Free(cfg, s, env)[|a|]
    ensures Free(cfg, s, env)[|a| + 1..] == left[1..]
    ensures forall i :: 0 <= i < |a| ==> a[i].cpu != left[0]
  {
    var free := Free(cfg, s, env);
    FreeSound(cfg, s, env);
    assert left[0] == free[|a|] && free[|a|] in free;
  }

  lemma PickingTakes(cfg: Config, s: State, env: Env, t: State, a: seq<Shot>, saved: seq<Saved<CpuState>>,
                     skipped: seq<u32>, left: seq<int>)
    requires WellFormed(cfg, s) && Picking(cfg, s, env, t, a, saved, skipped, left)
    requires Front(t.rq) != 0 && t.rq[0] !in env.taskIdle && left != []
    ensures 0 <= left[0] < cfg.cpuNum == |t.cpus|
    ensures t.rq[0] in Pids(Picks(cfg, s, env).shots)
    ensures t.rq[0] in s.tasks ==>
              var shot := Shot(left[0], ShootArg(t.rq[0], SA_RIGHT));
              Picking(cfg, s, env, PlaceOne(t, env.now, shot), a + [shot], saved + [Saved(left[0], t.cpus[left[0]])],
                      skipped, left[1..])
  {
    var shot := Shot(left[0], ShootArg(t.rq[0], SA_RIGHT));
    NextPick(cfg, s, env, t, a, saved, skipped, left);
    NextCpuIsNew(cfg, s, env, a, left);
    assert Pids(a + [shot]) == Pids(a) + [t.rq[0]];
    MidwayStep(s, env.now, a, shot, t.rq);
  }

  lemma PickingEnds(cfg: Config, s: State, env: Env, t: State, a: seq<Shot>, saved: seq<Saved<CpuState>>,
                    skipped: seq<u32>, left: seq<int>)
    requires WellFormed(cfg, s) && Picking(cfg, s, env, t, a, saved, skipped, left)
    requires Front(t.rq) == 0 || (t.rq[0] !in env.taskIdle && left == [])
    ensures Picks(cfg, s, env) == Picked(a, t.rq, skipped)
    ensures CpusBelow(a, cfg.cpuNum) && AllKnown(s.tasks, Pids(a)) && 0 !in skipped
    ensures t == Midway(s, env.now, a, t.rq) && saved == SavedBefore(s.cpus, a)
  {
  }

  function Schedule(cfg: Config, s: State, env: Env): (r: Outcome<State>)
    requires WellFormed(cfg, s)
    ensures r.Run? ==> WellFormed(cfg, r.s)
  {
    match FirstBroken(cfg, s, env, cfg.cpuNum)
    case Stuck(c) => Halt(c)
    case Fine =>
      var p := Picks(cfg, s, env);
      if !AllKnown(s.tasks, Pids(p.shots)) then Halt(PickedUnknown)
      else if p.shots == [] then Run(Placed(s, env.now, p))
      else Shoot(cfg, Placed(s, env.now, p), p.shots, SavedBefore(s.cpus, p.shots), env.verdict)
  }

  // ---------------------------------------------------------------- runs

  type Event = Input<Env>

  function Step(cfg: Config, s: State, e: Event): (r: Outcome<State>)
    requires WellFormed(cfg, s)
    ensures r.Run? ==> WellFormed(cfg, r.s)
  {
    match e
    case Message(m) => Consume(cfg, s, m)
    case Turn(env) => Schedule(cfg, s, env)
  }

  function Exec(cfg: Config, s: State, es: seq<Event>): (r: Outcome<State>)
    requires WellFormed(cfg, s)
    ensures r.Run? ==> WellFormed(cfg, r.s)
    decreases |es|
  {
    if es == [] then Run(s)
    else
      match Step(cfg, s, es[0])
      case Halt(c) => Halt(c)
      case Run(t) => Exec(cfg, t, es[1..])
  }

  /** A run one event longer is the run and then that event, if the lord survived so far. */
  lemma {:induction false} ExecOneMore(cfg: Config, s: State, es: seq<Event>, e: Event)
    requires WellFormed(cfg, s)
    ensures Exec(cfg, s, es + [e]) ==
            if Exec(cfg, s, es).Run? then Step(cfg, Exec(cfg, s, es).s, e) else Exec(cfg, s, es)
    decreases |es|
  {
    if es == [] {
      assert [e][1..] == [];
    } else {
      assert (es + [e])[1..] == es[1..] + [e];
      var r := Step(cfg, s, es[0]);
      if r.Run? {
        ExecOneMore(cfg, r.s, es[1..], e);
      }
    }
  }
}
