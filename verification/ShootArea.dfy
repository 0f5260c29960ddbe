/** The shared page through which picks are committed and refusals reported. */
module ShootArea {
  import opened Kernel
  import opened RunQueue

  datatype Failure = Failure(cpu: int, pid: u32)

  function Pids(a: seq<Shot>): (r: seq<u32>)
    ensures |r| == |a|
  {
    seq(|a|, i requires 0 <= i < |a| => a[i].arg.pid)
  }

  function Cpus(a: seq<Shot>): (r: set<int>) {
    set i | 0 <= i < |a| :: a[i].cpu
  }

  ghost predicate DistinctCpus(a: seq<Shot>) {
    forall i, j :: 0 <= i < j < |a| ==> a[i].cpu != a[j].cpu
  }

  ghost predicate CpusBelow(a: seq<Shot>, n: int) {
    forall i :: 0 <= i < |a| ==> 0 <= a[i].cpu < n
  }

  /** The slots after the picks were written in order. */
  function Committed(area: seq<ShootArg>, a: seq<Shot>): (r: seq<ShootArg>)
    requires CpusBelow(a, |area|)
    ensures |r| == |area|
    decreases |a|
  {
    if a == [] then area
    else
      var k := |a| - 1;
      Committed(area, a[..k])[a[k].cpu := a[k].arg]
  }

  /** The slots after the kernel's answer: `info` words change on masked CPUs only. */
  function Answered(area: seq<ShootArg>, mask: set<int>, v: Verdict): (r: seq<ShootArg>)
    ensures |r| == |area|
  {
    if v.Failed? then area
    else seq(|area|, c requires 0 <= c < |area| =>
           if c in mask && c in v.info then area[c].(info := v.info[c]) else area[c])
  }

  /** The refusals among the first `n` slots, scanned upwards. */
  function Failures(area: seq<ShootArg>, n: nat): seq<Failure>
    requires n <= |area|
  {
    if n == 0 then []
    else
      Failures(area, n - 1) +
      if area[n - 1].info != SA_RIGHT then [Failure(n - 1, area[n - 1].pid)] else []
  }

  /** The slots after the scan reset the `info` words below `n`. */
  function Reset(area: seq<ShootArg>, n: nat): (r: seq<ShootArg>)
    requires n <= |area|
    ensures |r| == |area|
  {
    seq(|area|, c requires 0 <= c < |area| => if c < n then area[c].(info := SA_RIGHT) else area[c])
  }

  ghost predicate Clean(area: seq<ShootArg>, n: nat) {
    n <= |area| && forall c :: 0 <= c < n ==> area[c].info == SA_RIGHT
  }

  lemma {:induction false} CommittedAt(area: seq<ShootArg>, a: seq<Shot>)
    requires CpusBelow(a, |area|) && DistinctCpus(a)
    ensures forall i :: 0 <= i < |a| ==> Committed(area, a)[a[i].cpu] == a[i].arg
    ensures forall c :: 0 <= c < |area| && c !in Cpus(a) ==> Committed(area, a)[c] == area[c]
    decreases |a|
  {
    if a != [] {
      var k := |a| - 1;
      CommittedAt(area, a[..k]);
      assert forall i :: 0 <= i < k ==> a[..k][i] == a[i];
      assert forall c :: c in Cpus(a[..k]) ==> c in Cpus(a);
      assert a[k].cpu in Cpus(a);
    }
  }

  /** The scan reports exactly the slots whose `info` is set, each once, upwards, with the pid
      that stands in the slot. */
  lemma {:induction false} FailuresAreTheSetSlots(area: seq<ShootArg>, n: nat)
    requires n <= |area|
    ensures forall k :: 0 <= k < |Failures(area, n)| ==>
              var f := Failures(area, n)[k];
              0 <= f.cpu < n && area[f.cpu].info != SA_RIGHT && f.pid == area[f.cpu].pid
    ensures forall j, k :: 0 <= j < k < |Failures(area, n)| ==>
              Failures(area, n)[j].cpu < Failures(area, n)[k].cpu
    ensures forall c :: 0 <= c < n && area[c].info != SA_RIGHT ==>
              Failure(c, area[c].pid) in Failures(area, n)
  {
    if n > 0 {
      FailuresAreTheSetSlots(area, n - 1);
    }
  }

  /** The slots when `shoot_task` has returned. */
  function Told(area: seq<ShootArg>, a: seq<Shot>, v: Verdict): (r: seq<ShootArg>)
    requires CpusBelow(a, |area|)
    ensures |r| == |area|
  {
    Answered(Committed(area, a), Cpus(a), v)
  }

  function Fail(shot: Shot): Failure {
    Failure(shot.cpu, shot.arg.pid)
  }

  /** The picks to be undone, in the order the lord undoes them: all of them, as assigned, when the
      call fails; otherwise those the scan of the area reports. */
  function Undone(area: seq<ShootArg>, n: nat, a: seq<Shot>, v: Verdict): (fs: seq<Failure>)
    requires n <= |area| && CpusBelow(a, |area|)
  {
    if v.Failed? then seq(|a|, i requires 0 <= i < |a| => Fail(a[i]))
    else Failures(Told(area, a, v), n)
  }

  ghost predicate Ascending(fs: seq<Failure>) {
    forall j, k :: 0 <= j < k < |fs| ==> fs[j].cpu < fs[k].cpu
  }

  /** The kernel turned this pick down. */
  predicate Refused(v: Verdict, cpu: int) {
    v.Failed? || Refuses(v, cpu)
  }

  /** The kernel's answer marks this CPU as refused. */
  predicate Refuses(v: Verdict, cpu: int) {
    v.Replied? && cpu in v.info && v.info[cpu] != SA_RIGHT
  }

  ghost predicate RefusedPick(a: seq<Shot>, v: Verdict, f: Failure) {
    exists i :: 0 <= i < |a| && f == Fail(a[i]) && Refused(v, a[i].cpu)
  }

  lemma TotalRefusal(area: seq<ShootArg>, n: nat, a: seq<Shot>, f: Failure)
    requires n <= |area| && CpusBelow(a, |area|)
    ensures f in Undone(area, n, a, Failed) <==> RefusedPick(a, Failed, f)
  {
    var fs := Undone(area, n, a, Failed);
    if f in fs {
      var k :| 0 <= k < |fs| && fs[k] == f;
      assert f == Fail(a[k]);
    }
    if RefusedPick(a, Failed, f) {
      var i :| 0 <= i < |a| && f == Fail(a[i]);
      assert fs[i] == f;
    }
  }

  lemma ReportedIsRefused(area: seq<ShootArg>, n: nat, a: seq<Shot>, v: Verdict, f: Failure)
    requires Clean(area, n) && CpusBelow(a, n) && DistinctCpus(a) && v.Replied?
    requires forall i :: 0 <= i < |a| ==> a[i].arg.info == SA_RIGHT
    requires f in Failures(Told(area, a, v), n)
    ensures RefusedPick(a, v, f)
  {
    CommittedAt(area, a);
    var told := Told(area, a, v);
    FailuresAreTheSetSlots(told, n);
    var k :| 0 <= k < n && f == Failure(k, told[k].pid) && told[k].info != SA_RIGHT;
    assert k in Cpus(a);
    var i :| 0 <= i < |a| && a[i].cpu == k;
    assert f == Fail(a[i]);
  }

  lemma RefusedIsReported(area: seq<ShootArg>, n: nat, a: seq<Shot>, v: Verdict, i: nat)
    requires Clean(area, n) && CpusBelow(a, n) && DistinctCpus(a) && v.Replied?
    requires i < |a| && Refused(v, a[i].cpu)
    ensures Fail(a[i]) in Failures(Told(area, a, v), n)
  {
    CommittedAt(area, a);
    var told := Told(area, a, v);
    FailuresAreTheSetSlots(told, n);
    assert a[i].cpu in Cpus(a);
    assert told[a[i].cpu] == a[i].arg.(info := v.info[a[i].cpu]);
  }

  lemma PartialRefusal(area: seq<ShootArg>, n: nat, a: seq<Shot>, v: Verdict, f: Failure)
    requires Clean(area, n) && CpusBelow(a, n) && DistinctCpus(a) && v.Replied?
    requires forall i :: 0 <= i < |a| ==> a[i].arg.info == SA_RIGHT
    ensures f in Undone(area, n, a, v) <==> RefusedPick(a, v, f)
  {
    if f in Failures(Told(area, a, v), n) {
      ReportedIsRefused(area, n, a, v, f);
    }
    if RefusedPick(a, v, f) {
      var i :| 0 <= i < |a| && f == Fail(a[i]) && Refused(v, a[i].cpu);
      RefusedIsReported(area, n, a, v, i);
    }
  }

  /** One round on a clean area, for every set of picks and every answer: what is undone are exactly the
      picks the kernel refused, each once, carrying the pid committed in this round (by ascending CPU
      if the area was scanned); no stale pid of another CPU can appear, and the area is clean again. */
  lemma RoundTrip(area: seq<ShootArg>, n: nat, a: seq<Shot>, v: Verdict)
    requires Clean(area, n) && CpusBelow(a, n) && DistinctCpus(a)
    requires forall i :: 0 <= i < |a| ==> a[i].arg.info == SA_RIGHT
    ensures v.Failed? ==> Clean(Told(area, a, v), n)
    ensures Clean(Reset(Told(area, a, v), n), n)
    ensures v.Replied? ==> Ascending(Undone(area, n, a, v))
    ensures EachCpuOnce(Undone(area, n, a, v))
    ensures forall f :: f in Undone(area, n, a, v) <==> RefusedPick(a, v, f)
  {
    CommittedAt(area, a);
    forall f
      ensures f in Undone(area, n, a, v) <==> RefusedPick(a, v, f)
    {
      if v.Failed? {
        TotalRefusal(area, n, a, f);
      } else {
        PartialRefusal(area, n, a, v, f);
      }
    }
    if v.Replied? {
      FailuresAreTheSetSlots(Told(area, a, v), n);
    }
  }

  ghost predicate EachCpuOnce(fs: seq<Failure>) {
    forall j, k :: 0 <= j < k < |fs| ==> fs[j].cpu != fs[k].cpu
  }

  // ---------------------------------------------------------------- picks, seen from the tasks

  /** Where each picked task goes. */
  function PlaceOf(a: seq<Shot>): map<u32, int>
    decreases |a|
  {
    if a == [] then map[]
    else
      var k := |a| - 1;
      PlaceOf(a[..k])[a[k].arg.pid := a[k].cpu]
  }

  lemma {:induction false} PlaceOfAt(a: seq<Shot>)
    requires NoDup(Pids(a))
    ensures forall i :: 0 <= i < |a| ==> a[i].arg.pid in PlaceOf(a) && PlaceOf(a)[a[i].arg.pid] == a[i].cpu
    ensures forall p :: p in PlaceOf(a) <==> p in Pids(a)
    ensures forall p :: p in PlaceOf(a) ==> PicksAt(a, p, PlaceOf(a)[p])
    decreases |a|
  {
    if a != [] {
      var k := |a| - 1;
      assert Pids(a) == Pids(a[..k]) + [a[k].arg.pid];
      forall i, j | 0 <= i < j < k
        ensures Pids(a[..k])[i] != Pids(a[..k])[j]
      {
        assert Pids(a)[i] != Pids(a)[j];
      }
      PlaceOfAt(a[..k]);
      forall i | 0 <= i < |a|
        ensures a[i].arg.pid in PlaceOf(a) && PlaceOf(a)[a[i].arg.pid] == a[i].cpu
      {
        if i < k {
          assert a[..k][i] == a[i] && Pids(a)[i] != Pids(a)[k];
        }
      }
      forall p | p in PlaceOf(a)
        ensures PicksAt(a, p, PlaceOf(a)[p])
      {
        if p != a[k].arg.pid {
          assert p in PlaceOf(a[..k]) && PicksAt(a[..k], p, PlaceOf(a[..k])[p]);
          var i :| 0 <= i < k && a[..k][i].arg.pid == p && a[..k][i].cpu == PlaceOf(a)[p];
          assert a[i].arg.pid == p;
        } else {
          assert a[k].cpu == PlaceOf(a)[p];
        }
      }
    }
  }

  /** Which task each picked CPU gets. */
  function PidOn(a: seq<Shot>): map<int, u32>
    decreases |a|
  {
    if a == [] then map[]
    else
      var k := |a| - 1;
      PidOn(a[..k])[a[k].cpu := a[k].arg.pid]
  }

  lemma {:induction false} PidOnAt(a: seq<Shot>)
    requires DistinctCpus(a)
    ensures PidOn(a).Keys == Cpus(a)
    ensures forall i :: 0 <= i < |a| ==> a[i].cpu in PidOn(a) && PidOn(a)[a[i].cpu] == a[i].arg.pid
    decreases |a|
  {
    if a != [] {
      var k := |a| - 1;
      PidOnAt(a[..k]);
      assert forall i :: 0 <= i < k ==> a[..k][i] == a[i];
      assert Cpus(a) == Cpus(a[..k]) + {a[k].cpu} by {
        assert a[k].cpu in Cpus(a);
      }
    }
  }

  /** Picks with distinct pids on distinct CPUs pair the two one to one. */
  lemma PlacesPairUp(a: seq<Shot>)
    requires NoDup(Pids(a)) && DistinctCpus(a)
    ensures forall p :: p in PlaceOf(a) <==> p in Pids(a)
    ensures PidOn(a).Keys == Cpus(a)
    ensures forall p :: p in PlaceOf(a) ==> PlaceOf(a)[p] in PidOn(a) && PidOn(a)[PlaceOf(a)[p]] == p
    ensures forall c :: c in PidOn(a) ==> PidOn(a)[c] in PlaceOf(a) && PlaceOf(a)[PidOn(a)[c]] == c
  {
    PlaceOfAt(a);
    PidOnAt(a);
    forall p | p in PlaceOf(a)
      ensures PlaceOf(a)[p] in PidOn(a) && PidOn(a)[PlaceOf(a)[p]] == p
    {
      var i :| 0 <= i < |a| && a[i].arg.pid == p && a[i].cpu == PlaceOf(a)[p];
    }
    forall c | c in PidOn(a)
      ensures PidOn(a)[c] in PlaceOf(a) && PlaceOf(a)[PidOn(a)[c]] == c
    {
      var i :| 0 <= i < |a| && a[i].cpu == c;
    }
  }

  ghost predicate PicksAt(a: seq<Shot>, p: u32, cpu: int) {
    exists i :: 0 <= i < |a| && a[i].arg.pid == p && a[i].cpu == cpu
  }

  function FailPids(fs: seq<Failure>): (r: seq<u32>)
    ensures |r| == |fs|
  {
    seq(|fs|, i requires 0 <= i < |fs| => fs[i].pid)
  }

  /** Seen from the tasks: a picked task goes back to the queue exactly when its CPU was refused, and
      no task goes back twice. */
  lemma UndonePids(a: seq<Shot>, v: Verdict, fs: seq<Failure>)
    requires NoDup(Pids(a)) && DistinctCpus(a) && EachCpuOnce(fs)
    requires forall f :: f in fs <==> RefusedPick(a, v, f)
    ensures NoDup(FailPids(fs))
    ensures forall p :: p in FailPids(fs) <==> p in PlaceOf(a) && Refused(v, PlaceOf(a)[p])
  {
    PlaceOfAt(a);
    forall k | 0 <= k < |fs|
      ensures fs[k].pid in PlaceOf(a) && PlaceOf(a)[fs[k].pid] == fs[k].cpu && Refused(v, fs[k].cpu)
    {
      assert fs[k] in fs;
      var i :| 0 <= i < |a| && fs[k] == Fail(a[i]) && Refused(v, a[i].cpu);
      assert a[i].arg.pid in PlaceOf(a);
    }
    forall p | p in PlaceOf(a) && Refused(v, PlaceOf(a)[p])
      ensures p in FailPids(fs)
    {
      var i :| 0 <= i < |a| && a[i].arg.pid == p && a[i].cpu == PlaceOf(a)[p];
      assert RefusedPick(a, v, Fail(a[i]));
      var k :| 0 <= k < |fs| && fs[k] == Fail(a[i]);
      assert FailPids(fs)[k] == p;
    }
  }

  /** The whole area after one round on a clean one, for every set of picks and every answer: a picked CPU's slot keeps
      the pid committed for it, every other slot is as it was, and no `info` word is left set. */
  lemma AreaAfterRound(area: seq<ShootArg>, n: nat, a: seq<Shot>, v: Verdict)
    requires Clean(area, n) && CpusBelow(a, n) && DistinctCpus(a)
    requires forall i :: 0 <= i < |a| ==> a[i].arg.info == SA_RIGHT
    ensures var after := if v.Failed? then Told(area, a, v) else Reset(Told(area, a, v), n);
            && (forall i :: 0 <= i < |a| ==> after[a[i].cpu] == ShootArg(a[i].arg.pid, SA_RIGHT))
            && (forall c :: 0 <= c < |area| && c !in Cpus(a) ==> after[c] == area[c])
  {
    CommittedAt(area, a);
    assert forall i :: 0 <= i < |a| ==> a[i].cpu in Cpus(a);
  }

  class ShootArea {
    var seq_: u64
    const area: array<ShootArg>

    constructor ()
      ensures fresh(area) && area.Length == SHOOT_AREA_SIZE && seq_ == 0
      ensures Clean(area[..], SHOOT_AREA_SIZE)
    {
      seq_ := 0;
      area := new ShootArg[SHOOT_AREA_SIZE](_ => ShootArg(0, SA_RIGHT));
    }

    method CommitShootMessage(args: seq<Shot>, seqNo: u16)
      requires CpusBelow(args, area.Length)
      modifies this, area
      ensures area[..] == Committed(old(area[..]), args)
      ensures seq_ == seqNo
    {
      for i := 0 to |args|
        invariant area[..] == Committed(old(area[..]), args[..i])
        invariant seq_ == old(seq_)
      {
        assert args[..i + 1][..i] == args[..i];
        area[args[i].cpu] := args[i].arg;
      }
      assert args[..|args|] == args;
      seq_ := seqNo;
    }

    /** The kernel's side of `shoot_task`. */
    method KernelAnswer(mask: set<int>, v: Verdict)
      modifies area
      ensures area[..] == Answered(old(area[..]), mask, v)
    {
      if v.Replied? {
        forall c | 0 <= c < area.Length && c in mask && c in v.info {
          area[c] := area[c].(info := v.info[c]);
        }
      }
    }

    method CheckShootState(cpuNums: nat) returns (fail: seq<Failure>)
      requires cpuNums <= area.Length
      modifies area
      ensures fail == Failures(old(area[..]), cpuNums)
      ensures area[..] == Reset(old(area[..]), cpuNums)
    {
      fail := [];
      for i := 0 to cpuNums
        invariant fail == Failures(old(area[..]), i)
        invariant area[..] == Reset(old(area[..]), i)
      {
        assert area[i] == area[..][i] == old(area[..])[i];
        if area[i].info != SA_RIGHT {
          fail := fail + [Failure(i, area[i].pid)];
        }
        area[i] := area[i].(info := SA_RIGHT);
      }
    }
  }
}
