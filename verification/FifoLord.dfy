/** The FIFO lord as the object it is: heap tasks, a queue object and a CPU table, updated in place.
    Every method computes the function of the same name in FifoModel. */
module FifoLord {
  import opened Kernel
  import RunQueue
  import ShootArea
  import MessageQueue
  import opened Lord
  import M = FifoModel

  class FifoTask {
    const pid: u32
    var state: RunState
    var cpuId: int

    constructor (pid: u32)
      ensures this.pid == pid && Value() == M.Task(Blocked, -1)
    {
      this.pid := pid;
      state := Blocked;
      cpuId := -1;
    }

    function Value(): M.Task
      reads this
    {
      M.Task(state, cpuId)
    }
  }

  /** The abstract outcome and what the method left behind agree. */
  ghost predicate Matches(o: Outcome<M.State>, st: Status, now: M.State) {
    match o
    case Run(t) => st.Alive? && now == t
    case Halt(c) => st == Dead(c)
  }

  class FifoLord {
    const cfg: Config
    const rq: RunQueue.RunQueue
    const mq: MessageQueue.MessageQueue
    const sa: ShootArea.ShootArea
    const cpus: array<M.CpuState>
    var lastSeq: u32
    var tasks: map<u32, FifoTask>

    ghost predicate Valid()
      reads this, tasks.Values
    {
      && cpus.Length == cfg.cpuNum <= sa.area.Length
      && mq.Valid()
      && forall p :: p in tasks ==> tasks[p].pid == p
    }

    ghost function Abs(): (s: M.State)
      requires Valid()
      reads this, rq, sa, sa.area, cpus, tasks.Values
      ensures M.WellFormed(cfg, s)
    {
      M.State(rq.items, Values(), cpus[..], lastSeq, sa.area[..], sa.seq_)
    }

    ghost function Values(): map<u32, M.Task>
      reads this, tasks.Values
    {
      map p | p in tasks :: tasks[p].Value()
    }

    constructor (cfg: Config)
      requires cfg.cpuNum <= SHOOT_AREA_SIZE
      ensures Valid() && this.cfg == cfg
      ensures Abs() == M.Init(cfg, sa.area[..])
      ensures ShootArea.Clean(sa.area[..], cfg.cpuNum)
      ensures fresh(rq) && fresh(mq) && fresh(mq.data) && fresh(sa) && fresh(sa.area) && fresh(cpus)
    {
      this.cfg := cfg;
      rq := new RunQueue.RunQueue();
      mq := new MessageQueue.MessageQueue();
      sa := new ShootArea.ShootArea();
      cpus := new M.CpuState[cfg.cpuNum](_ => M.IDLE);
      lastSeq := 0;
      tasks := map[];
      new;
      assert cpus[..] == seq(cfg.cpuNum, _ => M.IDLE);
    }

    // -------------------------------------------------------------- messages

    method OnRunnable(tid: u32) returns (st: Status)
      requires Valid()
      modifies rq, tasks.Values
      ensures Valid() && tasks == old(tasks)
      ensures Matches(M.OnRunnable(old(Abs()), tid), st, Abs())
    {
      if tid !in tasks {
        return Alive;
      }
      var task := tasks[tid];
      if task.state == Queued {
        return Alive;
      }
      rq.Enqueue(tid);
      task.state := Queued;
      assert Abs() == M.Requeue(old(Abs()), tid);
      return Alive;
    }

    method OnBlocked(tid: u32) returns (st: Status)
      requires Valid()
      modifies rq, cpus, tasks.Values
      ensures Valid() && tasks == old(tasks)
      ensures Matches(M.OnBlocked(old(Abs()), tid), st, Abs())
    {
      if tid !in tasks {
        return Alive;
      }
      var task := tasks[tid];
      if task.state == Queued {
        var found := rq.RemoveFromRq(tid);
        if !found {
          return Dead(RemovedUnqueued);
        }
      } else if task.state == OnCpu {
        if !(0 <= task.cpuId < cpus.Length) {
          return Dead(CpuOutOfTable);
        }
        cpus[task.cpuId] := M.IDLE;
      }
      task.state := Blocked;
      assert Values() == old(Values())[tid := old(Values())[tid].(state := Blocked)];
      return Alive;
    }

    method OnNew(tid: u32) returns (st: Status)
      requires Valid()
      modifies this`tasks, rq
      ensures Valid() && fresh(tasks.Values - old(tasks.Values))
      ensures Matches(M.OnNew(old(Abs()), tid), st, Abs())
    {
      if tid in tasks {
        return Dead(SameNewThread);
      }
      var newTask := new FifoTask(tid);
      tasks := tasks[tid := newTask];
      rq.Enqueue(tid);
      newTask.state := Queued;
      assert Values() == old(Values())[tid := M.Task(Queued, -1)];
      return Alive;
    }

    method OnNewBlocked(tid: u32) returns (st: Status)
      requires Valid()
      modifies this`tasks
      ensures Valid() && fresh(tasks.Values - old(tasks.Values))
      ensures Matches(M.OnNewBlocked(old(Abs()), tid), st, Abs())
    {
      if tid in tasks {
        return Dead(SameNewThread);
      }
      var newTask := new FifoTask(tid);
      tasks := tasks[tid := newTask];
      assert Values() == old(Values())[tid := M.Task(Blocked, -1)];
      return Alive;
    }

    method OnDead(tid: u32) returns (st: Status)
      requires Valid()
      modifies this`tasks, rq, cpus
      ensures Valid() && tasks.Values <= old(tasks.Values)
      ensures Matches(M.OnDead(old(Abs()), tid), st, Abs())
    {
      if tid !in tasks {
        return Dead(DeadBeforeNew);
      }
      var task := tasks[tid];
      if task.state == Queued {
        var found := rq.RemoveFromRq(tid);
        if !found {
          return Dead(RemovedUnqueued);
        }
      } else if task.state == OnCpu {
        if !(0 <= task.cpuId < cpus.Length) {
          return Dead(CpuOutOfTable);
        }
        cpus[task.cpuId] := M.IDLE;
      }
      tasks := tasks - {tid};
      assert Values() == old(Values()) - {tid};
      return Alive;
    }

    method OnPreempt(tid: u32) returns (st: Status)
      requires Valid()
      modifies rq, cpus, tasks.Values
      ensures Valid() && tasks == old(tasks)
      ensures Matches(M.OnPreempt(old(Abs()), tid), st, Abs())
    {
      if tid !in tasks {
        return Dead(PreemptBeforeNew);
      }
      var task := tasks[tid];
      if task.state == Blocked {
        return Dead(PreemptedWhileBlocked);
      }
      if task.state == Queued {
        return Alive;
      }
      rq.Enqueue(tid);
      task.state := Queued;
      if !(0 <= task.cpuId < cpus.Length) {
        return Dead(CpuOutOfTable);
      }
      cpus[task.cpuId] := M.NOCOS;
      assert Values() == M.Requeue(old(Abs()), tid).tasks;
      return Alive;
    }

    method OnPreemptCos(tid: u32) returns (st: Status)
      requires Valid()
      modifies rq, tasks.Values
      ensures Valid() && tasks == old(tasks)
      ensures Matches(M.OnPreemptCos(old(Abs()), tid), st, Abs())
    {
      if tid !in tasks {
        return Dead(PreemptBeforeNew);
      }
      var task := tasks[tid];
      if task.state == Blocked {
        return Dead(PreemptedWhileBlocked);
      }
      if task.state == Queued {
        return Alive;
      }
      rq.Enqueue(tid);
      task.state := Queued;
      if !(0 <= task.cpuId < cpus.Length) {
        return Dead(CpuOutOfTable);
      }
      if cpus[task.cpuId] != M.COS {
        return Dead(CpuNotCos);
      }
      assert Abs() == M.Requeue(old(Abs()), tid);
      return Alive;
    }

    method Dispatch(m: Msg) returns (st: Status)
      requires Valid()
      modifies this`tasks, rq, cpus, tasks.Values
      ensures Valid() && fresh(tasks.Values - old(tasks.Values))
      ensures Matches(M.Dispatch(old(Abs()), m), st, Abs())
    {
      st := Alive;
      if m.kind == MSG_TASK_RUNNABLE {
        st := OnRunnable(m.pid);
      } else if m.kind == MSG_TASK_BLOCKED {
        st := OnBlocked(m.pid);
      } else if m.kind == MSG_TASK_NEW {
        st := OnNew(m.pid);
      } else if m.kind == MSG_TASK_DEAD {
        st := OnDead(m.pid);
      } else if m.kind == MSG_TASK_PREEMPT {
        st := OnPreempt(m.pid);
      } else if m.kind == MSG_TASK_NEW_BLOCKED {
        st := OnNewBlocked(m.pid);
      } else if m.kind == MSG_TASK_COS_PREEMPT {
        st := OnPreemptCos(m.pid);
      }
    }

    /** One message, unless it is the lord's own. */
    method Handle(m: Msg) returns (st: Status)
      requires Valid()
      modifies this`tasks, this`lastSeq, rq, cpus, tasks.Values
      ensures Valid() && fresh(tasks.Values - old(tasks.Values))
      ensures Matches(M.Consume(cfg, old(Abs()), m), st, Abs())
    {
      if m.pid == cfg.lordPid {
        return Alive;
      }
      lastSeq := m.seqNo;
      ghost var s := Abs();
      assert s == old(Abs()).(lastSeq := m.seqNo);
      st := Dispatch(m);
    }

    method ConsumeOne() returns (st: Status)
      requires Valid() && mq.Messages() != []
      modifies this`tasks, this`lastSeq, rq, cpus, tasks.Values, mq`tail
      ensures Valid() && fresh(tasks.Values - old(tasks.Values))
      ensures Matches(M.Consume(cfg, old(Abs()), old(mq.Messages())[0]), st, Abs())
      ensures mq.Messages() == old(mq.Messages())[1..]
      ensures MessageQueue.InFlight(mq.head, mq.tail) < old(MessageQueue.InFlight(mq.head, mq.tail))
    {
      var msg := mq.ConsumeMsg();
      ghost var s := Abs();
      assert s == old(Abs());
      st := Handle(msg);
    }

    /** Drains the ring. With no producer step in between, the handlers have been applied to exactly the
        messages that were in it, in order, and the ring is empty. */
    method ConsumeMessage() returns (st: Status)
      requires Valid()
      modifies this`tasks, this`lastSeq, rq, cpus, tasks.Values, mq`tail
      ensures Valid() && fresh(tasks.Values - old(tasks.Values))
      ensures Matches(M.Drain(cfg, old(Abs()), old(mq.Messages())), st, Abs())
      ensures st.Alive? ==> mq.tail == mq.head
    {
      while !mq.Empty()
        invariant Valid() && fresh(tasks.Values - old(tasks.Values))
        invariant M.Drain(cfg, old(Abs()), old(mq.Messages())) == M.Drain(cfg, Abs(), mq.Messages())
        decreases MessageQueue.InFlight(mq.head, mq.tail)
      {
        st := ConsumeOne();
        if st.Dead? {
          return;
        }
      }
      return Alive;
    }

    // -------------------------------------------------------------- schedule

    /** Gives the head of the queue to a CPU. The saved state is read back after the overwrite. */
    method Place(next: FifoTask, cpu: nat) returns (was: Saved<M.CpuState>)
      requires Valid() && cpu < cpus.Length && rq.items != []
      requires next.pid in tasks && tasks[next.pid] == next
      modifies rq, cpus, tasks.Values
      ensures Valid() && tasks == old(tasks)
      ensures Abs() == M.PlaceOne(old(Abs()), Shot(cpu, ShootArg(next.pid, SA_RIGHT)))
      ensures was == Saved(cpu, M.COS)
    {
      next.state := OnCpu;
      next.cpuId := cpu;
      cpus[cpu] := M.COS;
      was := Saved(cpu, cpus[cpu]);
      rq.Dequeue();
      assert Values() == old(Values())[next.pid := M.Task(OnCpu, cpu)];
    }

    /** The CPU loop. */
    method Pick() returns (st: Status, shots: seq<Shot>, saved: seq<Saved<M.CpuState>>)
      requires Valid()
      modifies rq, cpus, tasks.Values
      ensures Valid() && tasks == old(tasks)
      ensures st == if AllKnown(old(Abs()).tasks, ShootArea.Pids(M.Picks(cfg, old(Abs()))))
                    then Alive else Dead(PickedUnknown)
      ensures st.Alive? ==>
                && shots == M.Picks(cfg, old(Abs())) && saved == M.SavedAfterOverwrite(shots)
                && Abs() == M.Placed(old(Abs()), shots)
    {
      ghost var s := Abs();
      M.PickingStarts(cfg, s);
      shots, saved := [], [];
      var cpu := 0;
      while cpu < cfg.cpuNum
        invariant Valid() && tasks == old(tasks) && cpu <= cfg.cpuNum
        invariant M.Picking(cfg, s, cpu, Abs(), shots, saved)
      {
        ghost var t := Abs();
        if cpu == cfg.lordCpu || cpus[cpu] == M.COS {
          M.PickingSkips(cfg, s, cpu, t, shots, saved);
          cpu := cpu + 1;
          continue;
        }
        var tid := rq.Peek();
        if tid == 0 {
          break;
        }
        M.PickingTakes(cfg, s, cpu, t, shots, saved);
        if tid !in tasks {
          assert tid !in s.tasks;
          return Dead(PickedUnknown), shots, saved;
        }
        var was := Place(tasks[tid], cpu);
        shots := shots + [Shot(cpu, ShootArg(tid, SA_RIGHT))];
        saved := saved + [was];
        cpu := cpu + 1;
      }
      ghost var t := Abs();
      M.PickingEnds(cfg, s, cpu, t, shots, saved);
      st := Alive;
    }

    /** Puts one task back at the tail of the queue. */
    method PutBack(pid: u32) returns (st: Status)
      requires Valid()
      modifies rq, tasks.Values
      ensures Valid() && tasks == old(tasks)
      ensures st == if pid in tasks then Alive else Dead(NullTask)
      ensures st.Alive? ==> Abs() == M.Requeue(old(Abs()), pid)
    {
      rq.Enqueue(pid);
      if pid !in tasks {
        return Dead(NullTask);
      }
      var task := tasks[pid];
      task.state := Queued;
      assert Abs() == M.Requeue(old(Abs()), pid);
      return Alive;
    }

    method RestoreTable(saved: seq<Saved<M.CpuState>>)
      requires Valid() && SavedBelow(saved, cpus.Length)
      modifies cpus
      ensures Valid() && Abs() == old(Abs()).(cpus := Restore(old(cpus[..]), saved))
    {
      RestoreAll(cpus, saved);
    }

    method RestoreCpu(saved: seq<Saved<M.CpuState>>, cpu: int)
      requires Valid() && 0 <= cpu < cpus.Length
      modifies cpus
      ensures Valid() && Abs() == old(Abs()).(cpus := RestoreOne(old(cpus[..]), saved, cpu))
    {
      RestoreFirst(cpus, saved, cpu);
    }

    /** The rollback when `shoot_task` failed. */
    method UndoAll(shots: seq<Shot>, saved: seq<Saved<M.CpuState>>) returns (st: Status)
      requires Valid() && SavedBelow(saved, cpus.Length)
      modifies rq, cpus, tasks.Values
      ensures Valid() && tasks == old(tasks)
      ensures st == if AllKnown(old(Abs()).tasks, ShootArea.Pids(shots)) then Alive else Dead(NullTask)
      ensures st.Alive? ==>
                Abs() == M.PutAllBack(old(Abs()), ShootArea.Pids(shots)).(cpus := Restore(old(cpus[..]), saved))
    {
      ghost var s, pids := Abs(), ShootArea.Pids(shots);
      for i := 0 to |shots|
        invariant Valid() && tasks == old(tasks)
        invariant AllKnown(s.tasks, pids[..i])
        invariant Abs() == M.PutAllBack(s, pids[..i])
      {
        st := PutBack(shots[i].arg.pid);
        if st.Dead? {
          assert pids[i] in pids;
          return;
        }
        assert pids[..i + 1] == pids[..i] + [pids[i]];
        M.PutAllBackStep(s, pids, i);
      }
      assert pids[..|shots|] == pids;
      RestoreTable(saved);
      st := Alive;
    }

    method UndoOne(f: ShootArea.Failure, saved: seq<Saved<M.CpuState>>) returns (st: Status)
      requires Valid() && 0 <= f.cpu < cpus.Length
      modifies rq, cpus, tasks.Values
      ensures Valid() && tasks == old(tasks)
      ensures st == if f.pid in tasks then Alive else Dead(NullTask)
      ensures st.Alive? ==> Abs() == M.Requeue(old(Abs()), f.pid).(cpus := RestoreOne(old(cpus[..]), saved, f.cpu))
    {
      st := PutBack(f.pid);
      if st.Alive? {
        RestoreCpu(saved, f.cpu);
      }
    }

    /** The rollback of the CPUs the kernel refused. */
    method UndoFailed(fail: seq<ShootArea.Failure>, saved: seq<Saved<M.CpuState>>) returns (st: Status)
      requires Valid() && FailsBelow(fail, cpus.Length)
      modifies rq, cpus, tasks.Values
      ensures Valid() && tasks == old(tasks)
      ensures st == if AllKnown(old(Abs()).tasks, ShootArea.FailPids(fail)) then Alive else Dead(NullTask)
      ensures st.Alive? ==>
                Abs() == M.PutAllBack(old(Abs()), ShootArea.FailPids(fail)).(
                           cpus := RestoreEach(old(cpus[..]), saved, fail))
    {
      ghost var s, pids := Abs(), ShootArea.FailPids(fail);
      for i := 0 to |fail|
        invariant Valid() && tasks == old(tasks)
        invariant AllKnown(s.tasks, pids[..i])
        invariant Abs() == M.UndoneSoFar(s, saved, fail, i)
      {
        st := UndoOne(fail[i], saved);
        if st.Dead? {
          assert pids[i] in pids;
          return;
        }
        M.UndoStep(s, saved, fail, i);
      }
      assert pids[..|fail|] == pids && fail[..|fail|] == fail;
      st := Alive;
    }

    /** Writes the picks to the shoot area and calls `shoot_task`. */
    method CommitAndShoot(shots: seq<Shot>, v: Verdict)
      requires Valid() && ShootArea.CpusBelow(shots, cpus.Length)
      modifies sa, sa.area
      ensures Valid()
      ensures Abs() == old(Abs()).(area := ShootArea.Told(old(Abs()).area, shots, v), areaSeq := lastSeq % TWO16)
    {
      sa.CommitShootMessage(shots, lastSeq % TWO16);
      sa.KernelAnswer(ShootArea.Cpus(shots), v);
    }

    method CheckShootState() returns (fail: seq<ShootArea.Failure>)
      requires Valid()
      modifies sa.area
      ensures Valid() && FailsBelow(fail, cpus.Length)
      ensures fail == ShootArea.Failures(old(Abs()).area, cfg.cpuNum)
      ensures Abs() == old(Abs()).(area := ShootArea.Reset(old(Abs()).area, cfg.cpuNum))
    {
      ShootArea.FailuresAreTheSetSlots(sa.area[..], cfg.cpuNum);
      fail := sa.CheckShootState(cfg.cpuNum);
    }

    /** Commits, shoots, and undoes what the kernel refused. */
    method Shoot(shots: seq<Shot>, saved: seq<Saved<M.CpuState>>, v: Verdict) returns (st: Status)
      requires Valid() && ShootArea.CpusBelow(shots, cpus.Length) && saved == M.SavedAfterOverwrite(shots)
      modifies rq, sa, sa.area, cpus, tasks.Values
      ensures Valid() && tasks == old(tasks)
      ensures Matches(M.Shoot(cfg, old(Abs()), shots, v), st, Abs())
    {
      CommitAndShoot(shots, v);
      if v.Failed? {
        st := UndoAll(shots, saved);
        assert ShootArea.FailPids(ShootArea.Undone(old(Abs()).area, cfg.cpuNum, shots, v)) == ShootArea.Pids(shots);
      } else {
        var fail := CheckShootState();
        st := UndoFailed(fail, saved);
      }
    }

    method Schedule(v: Verdict) returns (st: Status)
      requires Valid()
      modifies rq, sa, sa.area, cpus, tasks.Values
      ensures Valid() && tasks == old(tasks)
      ensures Matches(M.Schedule(cfg, old(Abs()), v), st, Abs())
    {
      var shots, saved;
      st, shots, saved := Pick();
      if st.Dead? || shots == [] {
        return;
      }
      st := Shoot(shots, saved, v);
    }
  }
}
