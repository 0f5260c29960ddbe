/** The whole effect of one Shinjuku schedule, for every queue, every epistle and every answer of the kernel. */
module ShinjukuEffect {
  import opened Kernel
  import opened RunQueue
  import opened ShootArea
  import opened Lord
  import opened ShinjukuModel

  // ---------------------------------------------------------------- the pick loop against its specification

  /** The tasks of the queue that are idle (or not), in order. */
  function Filter(q: seq<u32>, idle: set<u32>, wanted: bool): seq<u32> {
    if q == [] then []
    else (if (q[0] in idle) == wanted then [q[0]] else []) + Filter(q[1..], idle, wanted)
  }

  lemma {:induction false} FilterAt(q: seq<u32>, idle: set<u32>, wanted: bool)
    ensures forall p :: p in Filter(q, idle, wanted) <==> p in q && (p in idle) == wanted
    ensures NoDup(q) ==> NoDup(Filter(q, idle, wanted))
  {
    if q != [] {
      FilterAt(q[1..], idle, wanted);
      assert q == [q[0]] + q[1..];
      if NoDup(q) {
        NoDupSplit(q, 1);
        NoDupConcat(if (q[0] in idle) == wanted then [q[0]] else [], Filter(q[1..], idle, wanted));
      }
    }
  }

  /** How far the loop scanned the queue. */
  function Scanned(rq: seq<u32>, free: seq<int>, idle: set<u32>): int {
    |rq| - |PickLoop(rq, free, idle).rest|
  }

  /** What the pick loop is to do, having scanned `m` tasks of the queue: its picks are the non-idle ones of them,
      in order, on the first free CPUs, in order; the idle ones are set aside, in order; the rest is untouched.
      It stops only where the queue reads as empty or where a task wants a CPU and none is left. */
  ghost predicate PickedAsSpecified(rq: seq<u32>, free: seq<int>, idle: set<u32>, m: int, p: Picked) {
    && 0 <= m <= |rq| && 0 !in rq[..m]
    && p.rest == rq[m..]
    && Pids(p.shots) == Filter(rq[..m], idle, false)
    && p.skipped == Filter(rq[..m], idle, true)
    && |p.shots| <= |free|
    && (forall i :: 0 <= i < |p.shots| ==> p.shots[i].cpu == free[i])
    && (Front(p.rest) == 0 || (p.rest[0] !in idle && |p.shots| == |free|))
  }

  lemma SpecifiedSkip(rq: seq<u32>, free: seq<int>, idle: set<u32>, m: int, p: Picked)
    requires Front(rq) != 0 && rq[0] in idle && PickedAsSpecified(rq[1..], free, idle, m, p)
    ensures PickedAsSpecified(rq, free, idle, m + 1, p.(skipped := [rq[0]] + p.skipped))
  {
    assert rq[..m + 1] == [rq[0]] + rq[1..][..m];
    assert rq[1..][m..] == rq[m + 1..];
  }

  lemma SpecifiedTake(rq: seq<u32>, free: seq<int>, idle: set<u32>, m: int, p: Picked, shot: Shot)
    requires Front(rq) != 0 && rq[0] !in idle && free != [] && PickedAsSpecified(rq[1..], free[1..], idle, m, p)
    requires shot == Shot(free[0], ShootArg(rq[0], SA_RIGHT))
    ensures PickedAsSpecified(rq, free, idle, m + 1, p.(shots := [shot] + p.shots))
  {
    assert rq[..m + 1] == [rq[0]] + rq[1..][..m];
    assert rq[1..][m..] == rq[m + 1..];
    assert Pids([shot] + p.shots) == [rq[0]] + Pids(p.shots);
  }

  /** For every queue, every list of free CPUs and every epistle the loop does that for the prefix it scans. */
  lemma {:induction false} PickLoopRefines(rq: seq<u32>, free: seq<int>, idle: set<u32>)
    ensures PickedAsSpecified(rq, free, idle, Scanned(rq, free, idle), PickLoop(rq, free, idle))
  {
    if Front(rq) == 0 || (rq[0] !in idle && free == []) {
      assert rq[..0] == [];
    } else if rq[0] in idle {
      PickLoopRefines(rq[1..], free, idle);
      SpecifiedSkip(rq, free, idle, Scanned(rq[1..], free, idle), PickLoop(rq[1..], free, idle));
    } else {
      PickLoopRefines(rq[1..], free[1..], idle);
      SpecifiedTake(rq, free, idle, Scanned(rq[1..], free[1..], idle), PickLoop(rq[1..], free[1..], idle),
                    Shot(free[0], ShootArg(rq[0], SA_RIGHT)));
    }
  }

  /** No task is lost or doubled: each task of the queue is picked, set aside or left, and just one of them. */
  lemma PicksSplitTheQueue(cfg: Config, s: State, env: Env)
    requires WellFormed(cfg, s) && NoDup(s.rq)
    ensures var p := Picks(cfg, s, env);
            && NoDup(Pids(p.shots)) && NoDup(p.rest + p.skipped)
            && (forall x :: x in p.rest + p.skipped <==> x in s.rq && x !in Pids(p.shots))
            && (forall x :: x in Pids(p.shots) ==> x in s.rq && x != 0)
  {
    var free := Free(cfg, s, env);
    var p := Picks(cfg, s, env);
    var m := Scanned(s.rq, free, env.taskIdle);
    PickLoopRefines(s.rq, free, env.taskIdle);
    NoDupSplit(s.rq, m);
    FilterAt(s.rq[..m], env.taskIdle, true);
    FilterAt(s.rq[..m], env.taskIdle, false);
    assert s.rq == s.rq[..m] + s.rq[m..];
    NoDupConcat(p.rest, p.skipped);
  }

  // ---------------------------------------------------------------- the tables

  lemma {:induction false} MarkOnCpuAt(tasks: map<u32, Task>, a: seq<Shot>, now: u64)
    ensures MarkOnCpu(tasks, a, now).Keys == tasks.Keys + PlaceOf(a).Keys
    ensures forall p :: p in MarkOnCpu(tasks, a, now) ==>
              MarkOnCpu(tasks, a, now)[p] == if p in PlaceOf(a) then Task(OnCpu, PlaceOf(a)[p], now) else tasks[p]
    decreases |a|
  {
    if a != [] {
      MarkOnCpuAt(tasks, a[..|a| - 1], now);
    }
  }

  lemma {:induction false} MarkCosAt(cpus: seq<CpuState>, a: seq<Shot>)
    requires CpusBelow(a, |cpus|)
    ensures forall c :: 0 <= c < |cpus| ==>
              MarkCos(cpus, a)[c] == if c in PidOn(a) then Cpu(COS, PidOn(a)[c]) else cpus[c]
    decreases |a|
  {
    if a != [] {
      var k := |a| - 1;
      MarkCosAt(cpus, a[..k]);
    }
  }

  /** The CPU table after the rollback: new owners exactly where the kernel agreed. */
  ghost predicate CpusSettled(before: seq<CpuState>, a: seq<Shot>, v: Verdict, after: seq<CpuState>) {
    && |after| == |before|
    && forall c :: 0 <= c < |before| ==>
         after[c] == if c in PidOn(a) && !Refused(v, c) then Cpu(COS, PidOn(a)[c]) else before[c]
  }

  lemma RolledBackAt(before: seq<CpuState>, a: seq<Shot>, c: int)
    requires CpusBelow(a, |before|) && DistinctCpus(a) && 0 <= c < |before|
    ensures Restore(MarkCos(before, a), SavedBefore(before, a))[c] == before[c]
  {
    var saved := SavedBefore(before, a);
    RestoreAt(MarkCos(before, a), saved);
    if HasSaved(saved, c) {
      var i :| 0 <= i < |saved| && saved[i].cpu == c;
      assert saved[i] == Saved(c, before[c]);
    } else {
      forall i | 0 <= i < |a|
        ensures a[i].cpu != c
      {
        assert saved[i].cpu == a[i].cpu;
      }
      MarkCosElsewhere(before, a, c);
    }
  }

  lemma TotalRollback(before: seq<CpuState>, a: seq<Shot>)
    requires CpusBelow(a, |before|) && DistinctCpus(a)
    ensures CpusSettled(before, a, Failed, Restore(MarkCos(before, a), SavedBefore(before, a)))
  {
    forall c | 0 <= c < |before|
      ensures Restore(MarkCos(before, a), SavedBefore(before, a))[c] == before[c]
    {
      RolledBackAt(before, a, c);
    }
  }

  /** A CPU is among the failed ones exactly when it was picked and refused. */
  lemma FailedAreRefused(a: seq<Shot>, v: Verdict, fs: seq<Failure>, c: int)
    requires forall f :: f in fs <==> RefusedPick(a, v, f)
    ensures HasFailed(fs, c) <==> c in Cpus(a) && Refused(v, c)
  {
    if HasFailed(fs, c) {
      var k :| 0 <= k < |fs| && fs[k].cpu == c;
      assert fs[k] in fs;
    }
    if c in Cpus(a) && Refused(v, c) {
      var i :| 0 <= i < |a| && a[i].cpu == c;
      assert RefusedPick(a, v, Fail(a[i]));
      var k :| 0 <= k < |fs| && fs[k] == Fail(a[i]);
    }
  }

  lemma FailedAreSaved(before: seq<CpuState>, a: seq<Shot>, v: Verdict, fs: seq<Failure>)
    requires CpusBelow(a, |before|) && forall f :: f in fs <==> RefusedPick(a, v, f)
    ensures forall k :: 0 <= k < |fs| ==> HasSaved(SavedBefore(before, a), fs[k].cpu)
  {
    var saved := SavedBefore(before, a);
    forall k | 0 <= k < |fs|
      ensures HasSaved(saved, fs[k].cpu)
    {
      assert fs[k] in fs;
      var i :| 0 <= i < |a| && fs[k] == Fail(a[i]);
      assert saved[i].cpu == fs[k].cpu;
    }
  }

  lemma PartlyRolledBackAt(before: seq<CpuState>, a: seq<Shot>, v: Verdict, fs: seq<Failure>, c: int)
    requires CpusBelow(a, |before|) && DistinctCpus(a) && FailsBelow(fs, |before|)
    requires forall f :: f in fs <==> RefusedPick(a, v, f)
    requires 0 <= c < |before|
    ensures RestoreEach(MarkCos(before, a), SavedBefore(before, a), fs)[c] ==
            if c in Cpus(a) && Refused(v, c) then before[c] else MarkCos(before, a)[c]
  {
    var saved := SavedBefore(before, a);
    FailedAreSaved(before, a, v, fs);
    RestoreEachAt(MarkCos(before, a), saved, fs);
    FailedAreRefused(a, v, fs, c);
    if c in Cpus(a) && Refused(v, c) {
      var i :| 0 <= i < |a| && a[i].cpu == c;
      assert saved[i] == Saved(c, before[c]);
    }
  }

  lemma PartialRollback(before: seq<CpuState>, a: seq<Shot>, v: Verdict, fs: seq<Failure>)
    requires CpusBelow(a, |before|) && DistinctCpus(a) && v.Replied?
    requires forall f :: f in fs <==> RefusedPick(a, v, f)
    requires FailsBelow(fs, |before|)
    ensures CpusSettled(before, a, v, RestoreEach(MarkCos(before, a), SavedBefore(before, a), fs))
  {
    MarkCosAt(before, a);
    PidOnAt(a);
    forall c | 0 <= c < |before|
      ensures RestoreEach(MarkCos(before, a), SavedBefore(before, a), fs)[c] ==
              if c in PidOn(a) && !Refused(v, c) then Cpu(COS, PidOn(a)[c]) else before[c]
    {
      PartlyRolledBackAt(before, a, v, fs, c);
    }
  }

  // ---------------------------------------------------------------- one schedule

  /** What every schedule needs: the queue holds alive tasks, each once, and the area is clean. */
  ghost predicate Ready(cfg: Config, s: State) {
    && WellFormed(cfg, s)
    && NoDup(s.rq) && AllKnown(s.tasks, s.rq)
    && Clean(s.area, cfg.cpuNum)
  }

  function Shots(cfg: Config, s: State, env: Env): seq<Shot>
    requires WellFormed(cfg, s)
  {
    Picks(cfg, s, env).shots
  }

  /** The pids put back into the queue, in order. */
  function Back(cfg: Config, s: State, env: Env): seq<u32>
    requires WellFormed(cfg, s)
  {
    FailPids(Undone(s.area, cfg.cpuNum, Shots(cfg, s, env), env.verdict))
  }

  function TaskAfter(s: State, a: seq<Shot>, env: Env, p: u32): Task
    requires p in s.tasks
  {
    if p !in PlaceOf(a) then s.tasks[p]
    else Task(if Refused(env.verdict, PlaceOf(a)[p]) then Queued else OnCpu, PlaceOf(a)[p], env.now)
  }

  /** The whole effect of a schedule, said of the states before and after. */
  ghost predicate Settled(cfg: Config, s: State, env: Env, t: State)
    requires WellFormed(cfg, s)
  {
    var p := Picks(cfg, s, env);
    && t.rq == p.rest + p.skipped + Back(cfg, s, env)
    && t.tasks.Keys == s.tasks.Keys
    && (forall x :: x in s.tasks ==> t.tasks[x] == TaskAfter(s, p.shots, env, x))
    && CpusSettled(s.cpus, p.shots, env.verdict, t.cpus)
    && t.lastSeq == s.lastSeq
    && t.areaSeq == (if p.shots == [] then s.areaSeq else s.lastSeq % TWO16)
    && |t.area| == |s.area| && Clean(t.area, cfg.cpuNum)
  }

  /** The picks pair tasks and CPUs one to one; those refused come back, each once. */
  lemma PicksPairUp(cfg: Config, s: State, env: Env)
    requires Ready(cfg, s)
    ensures var a := Shots(cfg, s, env);
            && NoDup(Pids(a))
            && (forall x :: x in PlaceOf(a) <==> x in Pids(a))
            && (forall x :: x in PlaceOf(a) ==> PlaceOf(a)[x] in PidOn(a) && PidOn(a)[PlaceOf(a)[x]] == x)
            && (forall c :: c in PidOn(a) ==> PidOn(a)[c] in PlaceOf(a) && PlaceOf(a)[PidOn(a)[c]] == c)
            && PidOn(a).Keys == Cpus(a)
            && NoDup(Back(cfg, s, env))
            && (forall x :: x in Back(cfg, s, env) <==> x in PlaceOf(a) && Refused(env.verdict, PlaceOf(a)[x]))
  {
    var a := Shots(cfg, s, env);
    PicksSplitTheQueue(cfg, s, env);
    PlacesPairUp(a);
    RoundTrip(s.area, cfg.cpuNum, a, env.verdict);
    UndonePids(a, env.verdict, Undone(s.area, cfg.cpuNum, a, env.verdict));
  }

  lemma TasksSettle(cfg: Config, s: State, env: Env)
    requires Ready(cfg, s)
    ensures var a := Shots(cfg, s, env);
            && AllKnown(s.tasks, Pids(a))
            && AllKnown(MarkOnCpu(s.tasks, a, env.now), Back(cfg, s, env))
            && var tasks := Marked(MarkOnCpu(s.tasks, a, env.now), Back(cfg, s, env), ToQueued);
               && tasks.Keys == s.tasks.Keys
               && forall x :: x in s.tasks ==> tasks[x] == TaskAfter(s, a, env, x)
  {
    var a := Shots(cfg, s, env);
    PicksPairUp(cfg, s, env);
    PicksSplitTheQueue(cfg, s, env);
    MarkOnCpuAt(s.tasks, a, env.now);
    assert AllKnown(MarkOnCpu(s.tasks, a, env.now), Back(cfg, s, env));
    MarkedAt(MarkOnCpu(s.tasks, a, env.now), Back(cfg, s, env), ToQueued);
  }

  /** The kernel refuses none of the picks. */
  ghost predicate NothingRefused(cfg: Config, s: State, env: Env)
    requires WellFormed(cfg, s)
  {
    forall c :: c in Cpus(Shots(cfg, s, env)) ==> !Refused(env.verdict, c)
  }

  lemma NothingComesBack(cfg: Config, s: State, env: Env)
    requires Ready(cfg, s) && NothingRefused(cfg, s, env)
    ensures Back(cfg, s, env) == []
  {
    var a := Shots(cfg, s, env);
    RoundTrip(s.area, cfg.cpuNum, a, env.verdict);
    assert forall i :: 0 <= i < |a| ==> a[i].cpu in Cpus(a);
    NoFailures(Undone(s.area, cfg.cpuNum, a, env.verdict), a, env.verdict);
  }

  lemma NoFailures(fs: seq<Failure>, a: seq<Shot>, v: Verdict)
    requires forall f :: f in fs <==> RefusedPick(a, v, f)
    requires forall i :: 0 <= i < |a| ==> !Refused(v, a[i].cpu)
    ensures fs == []
  {
    assert forall f :: !RefusedPick(a, v, f);
    if fs != [] {
      SomeElement(fs);
    }
  }

  lemma FailuresBelow(area: seq<ShootArg>, n: nat)
    requires n <= |area|
    ensures FailsBelow(Failures(area, n), n)
  {
    FailuresAreTheSetSlots(area, n);
  }

  /** With every running task accounted for, no schedule stops the lord, whatever the epistle and the
      kernel say, and it has exactly this effect. */
  lemma ScheduleSettles(cfg: Config, s: State, env: Env)
    requires Ready(cfg, s) && FirstBroken(cfg, s, env, cfg.cpuNum).Fine?
    ensures Schedule(cfg, s, env).Run? && Settled(cfg, s, env, Schedule(cfg, s, env).s)
  {
    var a := Shots(cfg, s, env);
    var v := env.verdict;
    TasksSettle(cfg, s, env);
    RoundTrip(s.area, cfg.cpuNum, a, v);
    if a == [] {
      NothingComesBack(cfg, s, env);
    } else if v.Failed? {
      TotalRollback(s.cpus, a);
    } else {
      FailuresBelow(Told(s.area, a, v), cfg.cpuNum);
      PartialRollback(s.cpus, a, v, Undone(s.area, cfg.cpuNum, a, v));
    }
  }
}
