/** The Shinjuku lord as the object it is: heap tasks, a queue object and a CPU table, updated in place.
    Every method computes the function of the same name in ShinjukuModel. */
module ShinjukuLord {
  import opened Kernel
  import RunQueue
  import ShootArea
  import MessageQueue
  import opened Lord
  import M = ShinjukuModel

  class ShinjukuTask {
    const pid: u32
    var state: RunState
    var cpuId: int
    var lastShoot: u64

    constructor (pid: u32)
      ensures this.pid == pid && Value() == M.Task(Blocked, -1, 0)
    {
      this.pid := pid;
      state := Blocked;
      cpuId := -1;
      lastShoot := 0;
    }

    function Value(): M.Task
      reads this
    {
      M.Task(state, cpuId, lastShoot)
    }
  }

  /** The abstract outcome and what the method left behind agree. */
  ghost predicate Matches(o: Outcome<M.State>, st: Status, now: M.State) {
    match o
    case Run(t) => st.Alive? && now == t
    case Halt(c) => st == Dead(c)
  }

  class ShinjukuLord {
    const cfg: Config
    const rq: RunQueue.RunQueue
    const mq: MessageQueue.MessageQueue
    const sa: ShootArea.ShootArea
    const cpus: array<M.CpuState>
    var lastSeq: u32
    var tasks: map<u32, ShinjukuTask>

    ghost predicate Valid()
      reads this, tasks.Values
    {
      && cpus.Length == cfg.cpuNum <= sa.area.Length
      && mq.Valid()
      && forall p :: p in tasks ==> tasks[p].pid == p
    }

    ghost function Abs(): (s: M.State)
      requires Valid()
      reads this, rq, sa, sa.area, cpus, tasks.Values
      ensures M.WellFormed(cfg, s)
    {
      M.State(rq.items, Values(), cpus[..], lastSeq, sa.area[..], sa.seq_)
    }

    ghost function Values(): map<u32, M.Task>
      reads this, tasks.Values
    {
      map p | p in tasks :: tasks[p].Value()
    }

    constructor (cfg: Config)
      requires cfg.cpuNum <= SHOOT_AREA_SIZE
      ensures Valid() && this.cfg == cfg
      ensures Abs() == M.Init(cfg, sa.area[..])
      ensures ShootArea.Clean(sa.area[..], cfg.cpuNum)
      ensures fresh(rq) && fresh(mq) && fresh(mq.data) && fresh(sa) && fresh(sa.area) && fresh(cpus)
    {
      this.cfg := cfg;
      rq := new RunQueue.RunQueue();
      mq := new MessageQueue.MessageQueue();
      sa := new ShootArea.ShootArea();
      cpus := new M.CpuState[cfg.cpuNum](_ => M.Cpu(M.IDLE, 0));
      lastSeq := 0;
      tasks := map[];
      new;
      assert cpus[..] == seq(cfg.cpuNum, _ => M.Cpu(M.IDLE, 0));
    }

    // -------------------------------------------------------------- messages

    method OnRunnable(tid: u32) returns (st: Status)
      requires Valid()
      modifies rq, tasks.Values
      ensures Valid() && tasks == old(tasks)
      ensures Matches(M.OnRunnable(old(Abs()), tid), st, Abs())
    {
      if tid !in tasks {
        return Alive;
      }
      var task := tasks[tid];
      if task.state == Queued {
        return Alive;
      }
      rq.Enqueue(tid);
      task.state := Queued;
      assert Abs() == M.Requeue(old(Abs()), tid);
      return Alive;
    }

    method OnBlocked(tid: u32) returns (st: Status)
      requires Valid()
      modifies rq, cpus, tasks.Values
      ensures Valid() && tasks == old(tasks)
      ensures Matches(M.OnBlocked(old(Abs()), tid), st, Abs())
    {
      if tid !in tasks {
        return Alive;
      }
      var task := tasks[tid];
      if task.state == Queued {
        var found := rq.RemoveFromRq(tid);
        if !found {
          return Dead(RemovedUnqueued);
        }
      } else if task.state == OnCpu {
        if !(0 <= task.cpuId < cpus.Length) {
          return Dead(CpuOutOfTable);
        }
        cpus[task.cpuId] := M.Cpu(M.IDLE, 0);
      }
      task.state := Blocked;
      assert Values() == old(Values())[tid := old(Values())[tid].(state := Blocked)];
      return Alive;
    }

    method OnNew(tid: u32) returns (st: Status)
      requires Valid()
      modifies this`tasks, rq
      ensures Valid() && fresh(tasks.Values - old(tasks.Values))
      ensures Matches(M.OnNew(old(Abs()), tid), st, Abs())
    {
      if tid in tasks {
        return Dead(SameNewThread);
      }
      var newTask := new ShinjukuTask(tid);
      tasks := tasks[tid := newTask];
      rq.Enqueue(tid);
      newTask.state := Queued;
      assert Values() == old(Values())[tid := M.Task(Queued, -1, 0)];
      return Alive;
    }

    method OnNewBlocked(tid: u32) returns (st: Status)
      requires Valid()
      modifies this`tasks
      ensures Valid() && fresh(tasks.Values - old(tasks.Values))
      ensures Matches(M.OnNewBlocked(old(Abs()), tid), st, Abs())
    {
      if tid in tasks {
        return Dead(SameNewThread);
      }
      var newTask := new ShinjukuTask(tid);
      tasks := tasks[tid := newTask];
      assert Values() == old(Values())[tid := M.Task(Blocked, -1, 0)];
      return Alive;
    }

    method OnDead(tid: u32) returns (st: Status)
      requires Valid()
      modifies this`tasks, rq, cpus
      ensures Valid() && tasks.Values <= old(tasks.Values)
      ensures Matches(M.OnDead(old(Abs()), tid), st, Abs())
    {
      if tid !in tasks {
        return Dead(DeadBeforeNew);
      }
      var task := tasks[tid];
      if task.state == Queued {
        var found := rq.RemoveFromRq(tid);
        if !found {
          return Dead(RemovedUnqueued);
        }
      } else if task.state == OnCpu {
        if !(0 <= task.cpuId < cpus.Length) {
          return Dead(CpuOutOfTable);
        }
        cpus[task.cpuId] := M.Cpu(M.IDLE, 0);
      }
      tasks := tasks - {tid};
      assert Values() == old(Values()) - {tid};
      return Alive;
    }

    method OnPreempt(tid: u32) returns (st: Status)
      requires Valid()
      modifies rq, cpus, tasks.Values
      ensures Valid() && tasks == old(tasks)
      ensures Matches(M.OnPreempt(old(Abs()), tid), st, Abs())
    {
      if tid !in tasks {
        return Dead(PreemptBeforeNew);
      }
      var task := tasks[tid];
      if task.state == Blocked {
        return Dead(PreemptedWhileBlocked);
      }
      if task.state == Queued {
        return Alive;
      }
      rq.Enqueue(tid);
      task.state := Queued;
      if !(0 <= task.cpuId < cpus.Length) {
        return Dead(CpuOutOfTable);
      }
      cpus[task.cpuId] := cpus[task.cpuId].(kind := M.CFS);
      assert Values() == M.Requeue(old(Abs()), tid).tasks;
      return Alive;
    }

    method OnPreemptCos(tid: u32) returns (st: Status)
      requires Valid()
      modifies rq, tasks.Values
      ensures Valid() && tasks == old(tasks)
      ensures Matches(M.OnPreemptCos(old(Abs()), tid), st, Abs())
    {
      if tid !in tasks {
        return Dead(PreemptBeforeNew);
      }
      var task := tasks[tid];
      if task.state == Blocked {
        return Dead(PreemptedWhileBlocked);
      }
      if task.state == Queued {
        return Alive;
      }
      rq.Enqueue(tid);
      task.state := Queued;
      if !(0 <= task.cpuId < cpus.Length) {
        return Dead(CpuOutOfTable);
      }
      if cpus[task.cpuId].kind != M.COS {
        return Dead(CpuNotCos);
      }
      assert Abs() == M.Requeue(old(Abs()), tid);
      return Alive;
    }

    method Dispatch(m: Msg) returns (st: Status)
      requires Valid()
      modifies this`tasks, rq, cpus, tasks.Values
      ensures Valid() && fresh(tasks.Values - old(tasks.Values))
      ensures Matches(M.Dispatch(old(Abs()), m), st, Abs())
    {
      st := Alive;
      if m.kind == MSG_TASK_RUNNABLE {
        st := OnRunnable(m.pid);
      } else if m.kind == MSG_TASK_BLOCKED {
        st := OnBlocked(m.pid);
      } else if m.kind == MSG_TASK_NEW {
        st := OnNew(m.pid);
      } else if m.kind == MSG_TASK_DEAD {
        st := OnDead(m.pid);
      } else if m.kind == MSG_TASK_PREEMPT {
        st := OnPreempt(m.pid);
      } else if m.kind == MSG_TASK_NEW_BLOCKED {
        st := OnNewBlocked(m.pid);
      } else if m.kind == MSG_TASK_COS_PREEMPT {
        st := OnPreemptCos(m.pid);
      }
    }

    /** One message, unless it is the lord's own. */
    method Handle(m: Msg) returns (st: Status)
      requires Valid()
      modifies this`tasks, this`lastSeq, rq, cpus, tasks.Values
      ensures Valid() && fresh(tasks.Values - old(tasks.Values))
      ensures Matches(M.Consume(cfg, old(Abs()), m), st, Abs())
    {
      if m.pid == cfg.lordPid {
        return Alive;
      }
      lastSeq := m.seqNo;
      ghost var s := Abs();
      assert s == old(Abs()).(lastSeq := m.seqNo);
      st := Dispatch(m);
    }

    method ConsumeOne() returns (st: Status)
      requires Valid() && mq.Messages() != []
      modifies this`tasks, this`lastSeq, rq, cpus, tasks.Values, mq`tail
      ensures Valid() && fresh(tasks.Values - old(tasks.Values))
      ensures Matches(M.Consume(cfg, old(Abs()), old(mq.Messages())[0]), st, Abs())
      ensures mq.Messages() == old(mq.Messages())[1..]
      ensures MessageQueue.InFlight(mq.head, mq.tail) < old(MessageQueue.InFlight(mq.head, mq.tail))
    {
      var msg := mq.ConsumeMsg();
      ghost var s := Abs();
      assert s == old(Abs());
      st := Handle(msg);
    }

    /** Drains the ring. With no producer step in between, the handlers have been applied to exactly the
        messages that were in it, in order, and the ring is empty. */
    method ConsumeMessage() returns (st: Status)
      requires Valid()
      modifies this`tasks, this`lastSeq, rq, cpus, tasks.Values, mq`tail
      ensures Valid() && fresh(tasks.Values - old(tasks.Values))
      ensures Matches(M.Drain(cfg, old(Abs()), old(mq.Messages())), st, Abs())
      ensures st.Alive? ==> mq.tail == mq.head
    {
      while !mq.Empty()
        invariant Valid() && fresh(tasks.Values - old(tasks.Values))
        invariant M.Drain(cfg, old(Abs()), old(mq.Messages())) == M.Drain(cfg, Abs(), mq.Messages())
        decreases MessageQueue.InFlight(mq.head, mq.tail)
      {
        st := ConsumeOne();
        if st.Dead? {
          return;
        }
      }
      return Alive;
    }

    // -------------------------------------------------------------- schedule

    /** A COS CPU is usable when its task had its slice or is idle. */
    method ClassifyCos(cpu: nat, env: M.Env) returns (st: Status, usable: bool)
      requires Valid() && cpu < cpus.Length && cpu != cfg.lordCpu && cpus[cpu].kind == M.COS
      ensures var kind := M.ClassOf(cfg, Abs(), env, cpu);
              && st == (if kind.Broken? then Dead(kind.cause) else Alive)
              && usable == kind.Preemptible?
      ensures M.ClassOf(cfg, Abs(), env, cpu).Broken? || M.ClassOf(cfg, Abs(), env, cpu) in {M.Preemptible, M.Busy}
    {
      ghost var s := Abs();
      var pid := cpus[cpu].pid;
      if pid !in tasks {
        return Dead(NullTask), false;
      }
      var task := tasks[pid];
      assert task.Value() == s.tasks[pid];
      if task.state != OnCpu {
        return Dead(RunningTaskNotOnCpu), false;
      }
      if (env.now - task.lastShoot) % TWO64 >= M.PREEMPT_TIME_SLICE {
        return Alive, true;
      }
      if task.pid == 0 {
        return Dead(EpistleKeyZero), false;
      }
      return Alive, cpu in env.cpuIdle;
    }

    /** The first loop: sorts the scheduled CPUs into idle ones, those of CFS, and those whose task may be displaced. */
    method Classify(env: M.Env) returns (st: Status, idleCpu: seq<int>, cosCpu: seq<int>, cfsCpu: seq<int>)
      requires Valid()
      ensures st.Dead? ==> M.FirstBroken(cfg, Abs(), env, cfg.cpuNum) == M.Stuck(st.cause)
      ensures st.Alive? ==> M.Classified(cfg, Abs(), env, cfg.cpuNum, idleCpu, cfsCpu, cosCpu)
    {
      ghost var s := Abs();
      st, idleCpu, cosCpu, cfsCpu := Alive, [], [], [];
      var cpu := M.FIRST_CPU;
      while cpu < cfg.cpuNum
        invariant M.FIRST_CPU <= cpu
        invariant cpu <= cfg.cpuNum || cpu == M.FIRST_CPU
        invariant st == Alive
        invariant M.Classified(cfg, s, env, if cpu <= cfg.cpuNum then cpu else cfg.cpuNum, idleCpu, cfsCpu, cosCpu)
      {
        M.ClassifiedNext(cfg, s, env, cpu, idleCpu, cfsCpu, cosCpu);
        if cpu == cfg.lordCpu {
          cpu := cpu + 1;
          continue;
        }
        if cpus[cpu].kind == M.IDLE {
          idleCpu := idleCpu + [cpu];
        } else if cpus[cpu].kind == M.CFS {
          cfsCpu := cfsCpu + [cpu];
        } else {
          var usable;
          st, usable := ClassifyCos(cpu, env);
          if usable {
            cosCpu := cosCpu + [cpu];
          }
          if st.Dead? {
            M.StuckStays(cfg, s, env, cpu + 1, cfg.cpuNum);
            return;
          }
        }
        cpu := cpu + 1;
      }
    }

    /** Gives the head of the queue to a CPU; the CPU's state is saved before it is overwritten. */
    method Place(next: ShinjukuTask, cpu: nat, now: u64) returns (was: Saved<M.CpuState>)
      requires Valid() && cpu < cpus.Length && rq.items != []
      requires next.pid in tasks && tasks[next.pid] == next
      modifies rq, cpus, tasks.Values
      ensures Valid() && tasks == old(tasks)
      ensures Abs() == M.PlaceOne(old(Abs()), now, Shot(cpu, ShootArg(next.pid, SA_RIGHT)))
      ensures was == Saved(cpu, old(Abs()).cpus[cpu])
    {
      next.state := OnCpu;
      next.cpuId := cpu;
      next.lastShoot := now;
      was := Saved(cpu, cpus[cpu]);
      cpus[cpu] := M.Cpu(M.COS, next.pid);
      rq.Dequeue();
      assert Values() == old(Values())[next.pid := M.Task(OnCpu, cpu, now)];
    }

    method DequeueOnly()
      requires Valid()
      modifies rq
      ensures Valid() && rq.items == if old(rq.items) == [] then [] else old(rq.items)[1..]
      ensures Abs() == old(Abs()).(rq := rq.items)
    {
      rq.Dequeue();
    }

    /** The next CPU in the order idle, CFS, displaceable. */
    static method NextCpu(idleCpu: seq<int>, cfsCpu: seq<int>, cosCpu: seq<int>)
      returns (found: bool, cpu: int, idle': seq<int>, cfs': seq<int>, cos': seq<int>)
      ensures found <==> idleCpu + cfsCpu + cosCpu != []
      ensures found ==> cpu == (idleCpu + cfsCpu + cosCpu)[0] && idle' + cfs' + cos' == (idleCpu + cfsCpu + cosCpu)[1..]
    {
      found, cpu, idle', cfs', cos' := true, -1, idleCpu, cfsCpu, cosCpu;
      if idleCpu != [] {
        cpu, idle' := idleCpu[0], idleCpu[1..];
      } else if cfsCpu != [] {
        cpu, cfs' := cfsCpu[0], cfsCpu[1..];
      } else if cosCpu != [] {
        cpu, cos' := cosCpu[0], cosCpu[1..];
      } else {
        found := false;
      }
    }

    /** The task at the head of the queue takes a CPU. */
    method Take(env: M.Env, cpu: int, shots: seq<Shot>, saved: seq<Saved<M.CpuState>>, onqueueIdle: RunQueue.RunQueue,
                ghost s: M.State, ghost left: seq<int>)
      returns (st: Status, shots': seq<Shot>, saved': seq<Saved<M.CpuState>>)
      requires Valid() && onqueueIdle != rq && M.WellFormed(cfg, s) && s.tasks.Keys == tasks.Keys
      requires M.Picking(cfg, s, env, Abs(), shots, saved, onqueueIdle.items, left)
      requires rq.Peek() != 0 && rq.items[0] !in env.taskIdle && left != [] && left[0] == cpu
      modifies rq, cpus, tasks.Values
      ensures Valid() && tasks == old(tasks)
      ensures st == if old(rq.items)[0] in tasks then Alive else Dead(PickedUnknown)
      ensures old(rq.items)[0] in ShootArea.Pids(M.Picks(cfg, s, env).shots)
      ensures st.Alive? ==> rq.items == old(rq.items)[1..]
      ensures st.Alive? ==> M.Picking(cfg, s, env, Abs(), shots', saved', onqueueIdle.items, left[1..])
    {
      ghost var t := Abs();
      var tid := rq.Peek();
      M.PickingTakes(cfg, s, env, t, shots, saved, onqueueIdle.items, left);
      if tid !in tasks {
        return Dead(PickedUnknown), shots, saved;
      }
      var was := Place(tasks[tid], cpu, env.now);
      return Alive, shots + [Shot(cpu, ShootArg(tid, SA_RIGHT))], saved + [was];
    }

    /** The task at the head of the queue is epistle-idle: it is set aside. */
    method SetAside(env: M.Env, shots: seq<Shot>, saved: seq<Saved<M.CpuState>>, onqueueIdle: RunQueue.RunQueue,
                    ghost s: M.State, ghost left: seq<int>)
      requires Valid() && onqueueIdle != rq && M.WellFormed(cfg, s)
      requires M.Picking(cfg, s, env, Abs(), shots, saved, onqueueIdle.items, left)
      requires rq.Peek() != 0 && rq.items[0] in env.taskIdle
      modifies rq, onqueueIdle
      ensures Valid() && rq.items == old(rq.items)[1..]
      ensures M.Picking(cfg, s, env, Abs(), shots, saved, onqueueIdle.items, left)
    {
      ghost var t := Abs();
      M.PickingSkips(cfg, s, env, t, shots, saved, onqueueIdle.items, left);
      var tid := rq.Peek();
      DequeueOnly();
      onqueueIdle.Enqueue(tid);
    }

    /** The pick loop: tasks the epistle calls idle are set aside, the others take the next CPU. */
    method Pick(env: M.Env, idle: seq<int>, cfs: seq<int>, cos: seq<int>, onqueueIdle: RunQueue.RunQueue)
      returns (st: Status, shots: seq<Shot>, saved: seq<Saved<M.CpuState>>)
      requires Valid() && idle + cfs + cos == M.Free(cfg, Abs(), env)
      requires onqueueIdle != rq && onqueueIdle.items == []
      modifies rq, cpus, tasks.Values, onqueueIdle
      ensures Valid() && tasks == old(tasks)
      ensures st == if AllKnown(old(Abs()).tasks, ShootArea.Pids(M.Picks(cfg, old(Abs()), env).shots))
                    then Alive else Dead(PickedUnknown)
      ensures st.Alive? ==> M.Picks(cfg, old(Abs()), env) == M.Picked(shots, rq.items, onqueueIdle.items)
      ensures st.Alive? ==> 0 !in onqueueIdle.items
      ensures st.Alive? ==> saved == M.SavedBefore(old(Abs()).cpus, shots)
      ensures st.Alive? ==> Abs() == M.Midway(old(Abs()), env.now, shots, rq.items)
    {
      ghost var s := Abs();
      M.PickingStarts(cfg, s, env);
      var idleCpu, cfsCpu, cosCpu := idle, cfs, cos;
      ghost var left := M.Free(cfg, s, env);
      shots, saved := [], [];
      while true
        invariant Valid() && tasks == old(tasks)
        invariant left == idleCpu + cfsCpu + cosCpu
        invariant M.Picking(cfg, s, env, Abs(), shots, saved, onqueueIdle.items, left)
        decreases |rq.items|
      {
        var tid := rq.Peek();
        if tid == 0 {
          break;
        }
        if tid in env.taskIdle {
          SetAside(env, shots, saved, onqueueIdle, s, left);
          continue;
        }
        var found, cpu, i', f', c' := NextCpu(idleCpu, cfsCpu, cosCpu);
        if !found {
          break;
        }
        idleCpu, cfsCpu, cosCpu := i', f', c';
        st, shots, saved := Take(env, cpu, shots, saved, onqueueIdle, s, left);
        if st.Dead? {
          return;
        }
        left := left[1..];
      }
      ghost var t := Abs();
      M.PickingEnds(cfg, s, env, t, shots, saved, onqueueIdle.items, left);
      st := Alive;
    }

    /** Puts the tasks that were set aside back at the tail. */
    method PutIdleBack(onqueueIdle: RunQueue.RunQueue)
      requires Valid() && onqueueIdle != rq && 0 !in onqueueIdle.items
      modifies rq, onqueueIdle
      ensures Valid() && Abs() == old(Abs()).(rq := old(rq.items) + old(onqueueIdle.items))
    {
      while onqueueIdle.Peek() != 0
        invariant Valid() && 0 !in onqueueIdle.items
        invariant rq.items + onqueueIdle.items == old(rq.items) + old(onqueueIdle.items)
        invariant Abs() == old(Abs()).(rq := rq.items)
        decreases |onqueueIdle.items|
      {
        rq.Enqueue(onqueueIdle.Peek());
        onqueueIdle.Dequeue();
      }
    }

    /** Puts one task back at the tail of the queue. */
    method PutBack(pid: u32) returns (st: Status)
      requires Valid()
      modifies rq, tasks.Values
      ensures Valid() && tasks == old(tasks)
      ensures st == if pid in tasks then Alive else Dead(NullTask)
      ensures st.Alive? ==> Abs() == M.Requeue(old(Abs()), pid)
    {
      rq.Enqueue(pid);
      if pid !in tasks {
        return Dead(NullTask);
      }
      var task := tasks[pid];
      task.state := Queued;
      assert Abs() == M.Requeue(old(Abs()), pid);
      return Alive;
    }

    method RestoreTable(saved: seq<Saved<M.CpuState>>)
      requires Valid() && SavedBelow(saved, cpus.Length)
      modifies cpus
      ensures Valid() && Abs() == old(Abs()).(cpus := Restore(old(cpus[..]), saved))
    {
      RestoreAll(cpus, saved);
    }

    method RestoreCpu(saved: seq<Saved<M.CpuState>>, cpu: int)
      requires Valid() && 0 <= cpu < cpus.Length
      modifies cpus
      ensures Valid() && Abs() == old(Abs()).(cpus := RestoreOne(old(cpus[..]), saved, cpu))
    {
      RestoreFirst(cpus, saved, cpu);
    }

    /** The rollback when `shoot_task` failed. */
    method UndoAll(shots: seq<Shot>, saved: seq<Saved<M.CpuState>>) returns (st: Status)
      requires Valid() && SavedBelow(saved, cpus.Length)
      modifies rq, cpus, tasks.Values
      ensures Valid() && tasks == old(tasks)
      ensures st == if AllKnown(old(Abs()).tasks, ShootArea.Pids(shots)) then Alive else Dead(NullTask)
      ensures st.Alive? ==>
                Abs() == M.PutAllBack(old(Abs()), ShootArea.Pids(shots)).(cpus := Restore(old(cpus[..]), saved))
    {
      ghost var s, pids := Abs(), ShootArea.Pids(shots);
      for i := 0 to |shots|
        invariant Valid() && tasks == old(tasks)
        invariant AllKnown(s.tasks, pids[..i])
        invariant Abs() == M.PutAllBack(s, pids[..i])
      {
        st := PutBack(shots[i].arg.pid);
        if st.Dead? {
          assert pids[i] in pids;
          return;
        }
        assert pids[..i + 1] == pids[..i] + [pids[i]];
        M.PutAllBackStep(s, pids, i);
      }
      assert pids[..|shots|] == pids;
      RestoreTable(saved);
      st := Alive;
    }

    method UndoOne(f: ShootArea.Failure, saved: seq<Saved<M.CpuState>>) returns (st: Status)
      requires Valid() && 0 <= f.cpu < cpus.Length
      modifies rq, cpus, tasks.Values
      ensures Valid() && tasks == old(tasks)
      ensures st == if f.pid in tasks then Alive else Dead(NullTask)
      ensures st.Alive? ==> Abs() == M.Requeue(old(Abs()), f.pid).(cpus := RestoreOne(old(cpus[..]), saved, f.cpu))
    {
      st := PutBack(f.pid);
      if st.Alive? {
        RestoreCpu(saved, f.cpu);
      }
    }

    /** The rollback of the CPUs the kernel refused. */
    method UndoFailed(fail: seq<ShootArea.Failure>, saved: seq<Saved<M.CpuState>>) returns (st: Status)
      requires Valid() && FailsBelow(fail, cpus.Length)
      modifies rq, cpus, tasks.Values
      ensures Valid() && tasks == old(tasks)
      ensures st == if AllKnown(old(Abs()).tasks, ShootArea.FailPids(fail)) then Alive else Dead(NullTask)
      ensures st.Alive? ==>
                Abs() == M.PutAllBack(old(Abs()), ShootArea.FailPids(fail)).(
                           cpus := RestoreEach(old(cpus[..]), saved, fail))
    {
      ghost var s, pids := Abs(), ShootArea.FailPids(fail);
      for i := 0 to |fail|
        invariant Valid() && tasks == old(tasks)
        invariant AllKnown(s.tasks, pids[..i])
        invariant Abs() == M.UndoneSoFar(s, saved, fail, i)
      {
        st := UndoOne(fail[i], saved);
        if st.Dead? {
          assert pids[i] in pids;
          return;
        }
        M.UndoStep(s, saved, fail, i);
      }
      assert pids[..|fail|] == pids && fail[..|fail|] == fail;
      st := Alive;
    }

    /** Writes the picks to the shoot area and calls `shoot_task`. */
    method CommitAndShoot(shots: seq<Shot>, v: Verdict)
      requires Valid() && ShootArea.CpusBelow(shots, cpus.Length)
      modifies sa, sa.area
      ensures Valid()
      ensures Abs() == old(Abs()).(area := ShootArea.Told(old(Abs()).area, shots, v), areaSeq := lastSeq % TWO16)
    {
      sa.CommitShootMessage(shots, lastSeq % TWO16);
      sa.KernelAnswer(ShootArea.Cpus(shots), v);
    }

    method CheckShootState() returns (fail: seq<ShootArea.Failure>)
      requires Valid()
      modifies sa.area
      ensures Valid() && FailsBelow(fail, cpus.Length)
      ensures fail == ShootArea.Failures(old(Abs()).area, cfg.cpuNum)
      ensures Abs() == old(Abs()).(area := ShootArea.Reset(old(Abs()).area, cfg.cpuNum))
    {
      ShootArea.FailuresAreTheSetSlots(sa.area[..], cfg.cpuNum);
      fail := sa.CheckShootState(cfg.cpuNum);
    }

    /** Commits, shoots, and undoes what the kernel refused. */
    method Shoot(shots: seq<Shot>, saved: seq<Saved<M.CpuState>>, v: Verdict) returns (st: Status)
      requires Valid() && ShootArea.CpusBelow(shots, cpus.Length) && SavedBelow(saved, cpus.Length)
      modifies rq, sa, sa.area, cpus, tasks.Values
      ensures Valid() && tasks == old(tasks)
      ensures Matches(M.Shoot(cfg, old(Abs()), shots, saved, v), st, Abs())
    {
      CommitAndShoot(shots, v);
      if v.Failed? {
        st := UndoAll(shots, saved);
        assert ShootArea.FailPids(ShootArea.Undone(old(Abs()).area, cfg.cpuNum, shots, v)) == ShootArea.Pids(shots);
      } else {
        var fail := CheckShootState();
        st := UndoFailed(fail, saved);
      }
    }

    method Schedule(env: M.Env) returns (st: Status)
      requires Valid()
      modifies rq, sa, sa.area, cpus, tasks.Values
      ensures Valid() && tasks == old(tasks)
      ensures Matches(M.Schedule(cfg, old(Abs()), env), st, Abs())
    {
      var idleCpu, cosCpu, cfsCpu, shots, saved;
      st, idleCpu, cosCpu, cfsCpu := Classify(env);
      if st.Dead? {
        return;
      }
      var onqueueIdle := new RunQueue.RunQueue();
      st, shots, saved := Pick(env, idleCpu, cfsCpu, cosCpu, onqueueIdle);
      if st.Dead? {
        return;
      }
      PutIdleBack(onqueueIdle);
      assert Abs() == M.Placed(old(Abs()), env.now, M.Picks(cfg, old(Abs()), env));
      if shots == [] {
        return;
      }
      st := Shoot(shots, saved, env.verdict);
    }
  }
}
