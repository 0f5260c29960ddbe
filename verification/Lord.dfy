/** What the two lords share: outcomes of a step, the machine they run on, and the two ways
    in which a saved CPU table is written back after a refused shoot. */
module Lord {
  import opened Kernel
  import opened RunQueue
  import opened ShootArea

  datatype RunState = Queued | OnCpu | Blocked

  /** Why the process stops: a logged error followed by exit, a failed assert, a null task,
      or an index outside the CPU table. */
  datatype Cause =
    | SameNewThread
    | DeadBeforeNew
    | PreemptBeforeNew
    | PreemptedWhileBlocked
    | CpuNotCos
    | RunningTaskNotOnCpu
    | RemovedUnqueued
    | PickedUnknown
    | NullTask
    | CpuOutOfTable
    | EpistleKeyZero

  datatype Outcome<+S> = Run(s: S) | Halt(cause: Cause)

  datatype Status = Alive | Dead(cause: Cause)

  /** `lordPid` sends no scheduling events; `lordCpu` is never given to a task. */
  datatype Config = Config(cpuNum: nat, lordCpu: int, lordPid: u32)

  /** The `seq_` left by a drained list of messages: that of the last one that is not the lord's own. */
  function LastSeq(lordPid: u32, ms: seq<Msg>, before: u32): u32
    decreases |ms|
  {
    if ms == [] then before
    else
      var m := ms[|ms| - 1];
      if m.pid != lordPid then m.seqNo else LastSeq(lordPid, ms[..|ms| - 1], before)
  }

  lemma {:induction false} LastSeqFromTheFront(lordPid: u32, ms: seq<Msg>, before: u32)
    requires ms != []
    ensures LastSeq(lordPid, ms, before) ==
            LastSeq(lordPid, ms[1..], if ms[0].pid == lordPid then before else ms[0].seqNo)
    decreases |ms|
  {
    if |ms| > 1 && ms[|ms| - 1].pid == lordPid {
      LastSeqFromTheFront(lordPid, ms[..|ms| - 1], before);
      assert ms[..|ms| - 1][1..] == ms[1..][..|ms| - 2];
    } else if |ms| == 1 {
      assert ms[..0] == [] == ms[1..];
    }
  }

  /** What happens to a lord: a message it receives, or a schedule, with what that schedule sees of the outside. */
  datatype Input<V> = Message(m: Msg) | Turn(v: V)

  function Events<V>(ms: seq<Msg>): seq<Input<V>> {
    seq(|ms|, i requires 0 <= i < |ms| => Message(ms[i]))
  }

  predicate AllKnown<T>(tasks: map<u32, T>, pids: seq<u32>) {
    forall p :: p in pids ==> p in tasks
  }

  /** The task table after each of these tasks was changed in turn. */
  function Marked<T>(tasks: map<u32, T>, pids: seq<u32>, mark: T -> T): (r: map<u32, T>)
    requires AllKnown(tasks, pids)
    ensures r.Keys == tasks.Keys
    decreases |pids|
  {
    if pids == [] then tasks
    else
      var k := |pids| - 1;
      var before := Marked(tasks, pids[..k], mark);
      assert pids[k] in pids;
      before[pids[k] := mark(before[pids[k]])]
  }

  lemma {:induction false} MarkedAt<T>(tasks: map<u32, T>, pids: seq<u32>, mark: T -> T)
    requires AllKnown(tasks, pids) && NoDup(pids)
    ensures forall p :: p in tasks ==> Marked(tasks, pids, mark)[p] == if p in pids then mark(tasks[p]) else tasks[p]
    decreases |pids|
  {
    if pids != [] {
      var k := |pids| - 1;
      assert pids == pids[..k] + [pids[k]];
      MarkedAt(tasks, pids[..k], mark);
    }
  }

  /** The messages without the lord's own. */
  function Foreign(lordPid: u32, ms: seq<Msg>): seq<Msg> {
    if ms == [] then []
    else (if ms[0].pid == lordPid then [] else [ms[0]]) + Foreign(lordPid, ms[1..])
  }

  lemma {:induction false} ForeignAt(lordPid: u32, ms: seq<Msg>)
    ensures forall m :: m in Foreign(lordPid, ms) <==> m in ms && m.pid != lordPid
  {
    if ms != [] {
      ForeignAt(lordPid, ms[1..]);
      assert ms == [ms[0]] + ms[1..];
    }
  }

  datatype Saved<C> = Saved(cpu: int, was: C)

  ghost predicate SavedBelow<C>(saved: seq<Saved<C>>, n: int) {
    forall i :: 0 <= i < |saved| ==> 0 <= saved[i].cpu < n
  }

  ghost predicate SavedOnce<C>(saved: seq<Saved<C>>) {
    forall i, j :: 0 <= i < j < |saved| ==> saved[i].cpu != saved[j].cpu
  }

  ghost predicate FailsBelow(fs: seq<Failure>, n: int) {
    forall i :: 0 <= i < |fs| ==> 0 <= fs[i].cpu < n
  }

  ghost predicate HasSaved<C>(saved: seq<Saved<C>>, cpu: int) {
    exists i :: 0 <= i < |saved| && saved[i].cpu == cpu
  }

  ghost predicate HasFailed(fs: seq<Failure>, cpu: int) {
    exists k :: 0 <= k < |fs| && fs[k].cpu == cpu
  }

  /** Rollback after a total failure: every saved entry is written back. */
  function Restore<C>(cpus: seq<C>, saved: seq<Saved<C>>): (r: seq<C>)
    requires SavedBelow(saved, |cpus|)
    ensures |r| == |cpus|
    decreases |saved|
  {
    if saved == [] then cpus
    else
      var k := |saved| - 1;
      Restore(cpus, saved[..k])[saved[k].cpu := saved[k].was]
  }

  /** Rollback of one refused CPU: the first saved entry for it is written back. */
  function RestoreOne<C>(cpus: seq<C>, saved: seq<Saved<C>>, cpu: int): (r: seq<C>)
    requires 0 <= cpu < |cpus|
    ensures |r| == |cpus|
  {
    if saved == [] then cpus
    else if saved[0].cpu == cpu then cpus[cpu := saved[0].was]
    else RestoreOne(cpus, saved[1..], cpu)
  }

  /** Rollback after a partial failure. */
  function RestoreEach<C>(cpus: seq<C>, saved: seq<Saved<C>>, fs: seq<Failure>): (r: seq<C>)
    requires FailsBelow(fs, |cpus|)
    ensures |r| == |cpus|
    decreases |fs|
  {
    if fs == [] then cpus
    else
      var k := |fs| - 1;
      RestoreOne(RestoreEach(cpus, saved, fs[..k]), saved, fs[k].cpu)
  }

  lemma {:induction false} RestoreAt<C>(cpus: seq<C>, saved: seq<Saved<C>>)
    requires SavedBelow(saved, |cpus|) && SavedOnce(saved)
    ensures forall i :: 0 <= i < |saved| ==> Restore(cpus, saved)[saved[i].cpu] == saved[i].was
    ensures forall c :: 0 <= c < |cpus| && !HasSaved(saved, c) ==>
              Restore(cpus, saved)[c] == cpus[c]
    decreases |saved|
  {
    if saved != [] {
      var k := |saved| - 1;
      RestoreAt(cpus, saved[..k]);
      forall c | HasSaved(saved[..k], c)
        ensures HasSaved(saved, c)
      {
        var i :| 0 <= i < k && saved[..k][i].cpu == c;
        assert saved[i].cpu == c;
      }
      assert HasSaved(saved, saved[k].cpu);
    }
  }

  lemma {:induction false} RestoreOneAt<C>(cpus: seq<C>, saved: seq<Saved<C>>, i: nat)
    requires i < |saved| && SavedOnce(saved) && 0 <= saved[i].cpu < |cpus|
    ensures RestoreOne(cpus, saved, saved[i].cpu) == cpus[saved[i].cpu := saved[i].was]
  {
    if i > 0 {
      RestoreOneAt(cpus, saved[1..], i - 1);
    }
  }

  /** A partial rollback gives each refused CPU its saved entry and leaves every other CPU alone. */
  lemma {:induction false} RestoreEachAt<C>(cpus: seq<C>, saved: seq<Saved<C>>, fs: seq<Failure>)
    requires SavedBelow(saved, |cpus|) && SavedOnce(saved) && FailsBelow(fs, |cpus|)
    requires forall k :: 0 <= k < |fs| ==> HasSaved(saved, fs[k].cpu)
    ensures forall i :: 0 <= i < |saved| && HasFailed(fs, saved[i].cpu) ==>
              RestoreEach(cpus, saved, fs)[saved[i].cpu] == saved[i].was
    ensures forall c :: 0 <= c < |cpus| && !HasFailed(fs, c) ==>
              RestoreEach(cpus, saved, fs)[c] == cpus[c]
    decreases |fs|
  {
    if fs != [] {
      var k := |fs| - 1;
      forall m | 0 <= m < k
        ensures HasSaved(saved, fs[..k][m].cpu)
      {
        assert HasSaved(saved, fs[m].cpu);
      }
      RestoreEachAt(cpus, saved, fs[..k]);
      assert HasFailed(fs, fs[k].cpu);
      forall c | HasFailed(fs[..k], c)
        ensures HasFailed(fs, c)
      {
        var m :| 0 <= m < k && fs[..k][m].cpu == c;
        assert fs[m].cpu == c;
      }
      assert HasSaved(saved, fs[k].cpu);
      var i :| 0 <= i < |saved| && saved[i].cpu == fs[k].cpu;
      RestoreOneAt(RestoreEach(cpus, saved, fs[..k]), saved, i);
      forall j | 0 <= j < |saved| && HasFailed(fs, saved[j].cpu)
        ensures RestoreEach(cpus, saved, fs)[saved[j].cpu] == saved[j].was
      {
        if j != i {
          var m :| 0 <= m < |fs| && fs[m].cpu == saved[j].cpu;
          assert fs[..k][m].cpu == saved[j].cpu;
        }
      }
    }
  }

  method RestoreAll<C>(cpus: array<C>, saved: seq<Saved<C>>)
    requires SavedBelow(saved, cpus.Length)
    modifies cpus
    ensures cpus[..] == Restore(old(cpus[..]), saved)
  {
    for i := 0 to |saved|
      invariant cpus[..] == Restore(old(cpus[..]), saved[..i])
    {
      assert saved[..i + 1][..i] == saved[..i];
      cpus[saved[i].cpu] := saved[i].was;
    }
    assert saved[..|saved|] == saved;
  }

  method RestoreFirst<C>(cpus: array<C>, saved: seq<Saved<C>>, cpu: int)
    requires 0 <= cpu < cpus.Length
    modifies cpus
    ensures cpus[..] == RestoreOne(old(cpus[..]), saved, cpu)
  {
    for i := 0 to |saved|
      invariant cpus[..] == old(cpus[..])
      invariant RestoreOne(cpus[..], saved, cpu) == RestoreOne(cpus[..], saved[i..], cpu)
    {
      assert saved[i..][1..] == saved[i + 1..];
      if saved[i].cpu == cpu {
        cpus[cpu] := saved[i].was;
        return;
      }
    }
  }
}
