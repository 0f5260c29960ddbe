/** The same table under any number of threads of any number of processes: every read, the compare-and-swap and
    the value write are separate steps, interleaved at will. Memory is sequentially consistent. */
module EpistleConcurrent {
  import opened Kernel
  import opened Epistle

  /** Where a thread is. `d` counts the slots its probe has passed, so `table_[idx]` is slot `Slot(key, d)`. */
  datatype Pc =
    | Ready
    | AddProbe(key: i32, value: u32, d: nat)    // about to read the key of the slot
    | AddCas(key: i32, value: u32, d: nat)      // has read 0, about to swap the key in
    | AddCheck(key: i32, value: u32, d: nat)    // about to read the key again
    | AddWrite(key: i32, value: u32, d: nat)    // about to write the value
    | GetProbe(key: i32, d: nat)                // about to read the key of the slot
    | GetCheck(key: i32, d: nat)                // has read non-zero, about to read the key again
    | GetRead(key: i32, d: nat)                 // about to read the value
    | Returned(key: i32, got: u32)              // `get(key)` has returned `got`

  datatype Act = StartAdd(newKey: i32, newValue: u32) | StartGet(newKey: i32) | Go

  datatype State = State(t: seq<Entry>, pcs: map<int, Pc>)

  predicate AtRest(pc: Pc) {
    pc.Ready? || pc.Returned?
  }

  predicate Enabled(s: State, tid: int, act: Act) {
    && |s.t| == CAPACITY && tid in s.pcs
    && (act.Go? <==> !AtRest(s.pcs[tid]))
    && (!act.Go? ==> act.newKey != 0)
  }

  function Claimed(t: seq<Entry>, i: int, key: i32): seq<Entry>
    requires 0 <= i < |t|
  {
    t[i := t[i].(key := key)]
  }

  function Written(t: seq<Entry>, i: int, value: u32): seq<Entry>
    requires 0 <= i < |t|
  {
    t[i := t[i].(value := value)]
  }

  /** What one step of a thread does to the table. */
  function TableAfter(t: seq<Entry>, pc: Pc): (u: seq<Entry>)
    requires |t| == CAPACITY
    ensures |u| == CAPACITY
  {
    match pc
    case AddCas(key, _, d) => if t[Slot(key, d)].key == 0 then Claimed(t, Slot(key, d), key) else t
    case AddWrite(key, value, d) => Written(t, Slot(key, d), value)
    case _ => t
  }

  /** And where it goes next. */
  function PcAfter(t: seq<Entry>, pc: Pc): Pc
    requires |t| == CAPACITY
  {
    match pc
    case AddProbe(key, value, d) =>
      if t[Slot(key, d)].key == 0 then AddCas(key, value, d) else AddCheck(key, value, d)
    case AddCas(key, value, d) =>
      if t[Slot(key, d)].key == 0 then AddCheck(key, value, d) else AddProbe(key, value, d + 1)
    case AddCheck(key, value, d) =>
      if t[Slot(key, d)].key == key then AddWrite(key, value, d) else AddProbe(key, value, d + 1)
    case AddWrite(_, _, _) => Ready
    case GetProbe(key, d) => if t[Slot(key, d)].key == 0 then Returned(key, 0) else GetCheck(key, d)
    case GetCheck(key, d) => if t[Slot(key, d)].key == key then GetRead(key, d) else GetProbe(key, d + 1)
    case GetRead(key, d) => Returned(key, t[Slot(key, d)].value)
    case Ready => Ready
    case Returned(_, _) => Ready
  }

  function Step(s: State, tid: int, act: Act): (r: State)
    requires Enabled(s, tid, act)
    ensures |r.t| == CAPACITY && r.pcs.Keys == s.pcs.Keys
  {
    match act
    case StartAdd(key, value) => s.(pcs := s.pcs[tid := AddProbe(key, value, 0)])
    case StartGet(key) => s.(pcs := s.pcs[tid := GetProbe(key, 0)])
    case Go => State(TableAfter(s.t, s.pcs[tid]), s.pcs[tid := PcAfter(s.t, s.pcs[tid])])
  }

  // ---------------------------------------------------------------- what every interleaving keeps

  /** The first `d` slots of the probe for `key` are taken. */
  ghost predicate Passed(t: seq<Entry>, key: i32, d: nat)
    requires |t| == CAPACITY
  {
    forall e: nat :: e < d ==> t[Slot(key, e)].key != 0
  }

  /** ... and none of them by `key` itself. */
  ghost predicate PassedOthers(t: seq<Entry>, key: i32, d: nat)
    requires |t| == CAPACITY
  {
    forall e: nat :: e < d ==> !Stops(t, key, e)
  }

  ghost predicate ThreadOk(t: seq<Entry>, pc: Pc)
    requires |t| == CAPACITY
  {
    match pc
    case AddProbe(key, _, d) => key != 0 && Passed(t, key, d)
    case AddCas(key, _, d) => key != 0 && Passed(t, key, d)
    case AddCheck(key, _, d) => key != 0 && Passed(t, key, d) && t[Slot(key, d)].key != 0
    case AddWrite(key, _, d) => key != 0 && Passed(t, key, d) && t[Slot(key, d)].key == key
    case GetProbe(key, d) => key != 0 && PassedOthers(t, key, d)
    case GetCheck(key, d) => key != 0 && PassedOthers(t, key, d) && t[Slot(key, d)].key != 0
    case GetRead(key, d) => key != 0 && PassedOthers(t, key, d) && t[Slot(key, d)].key == key
    case Ready => true
    case Returned(_, _) => true
  }

  /** Every stored key is reachable from its hash through taken slots only. */
  ghost predicate Reachable(t: seq<Entry>) {
    && |t| == CAPACITY
    && forall i :: 0 <= i < CAPACITY && t[i].key != 0 ==> Passed(t, t[i].key, Distance(t[i].key, i))
  }

  ghost predicate Zeroed(t: seq<Entry>) {
    forall i :: 0 <= i < |t| && t[i].key == 0 ==> t[i].value == 0
  }

  ghost predicate Inv(s: State) {
    && Reachable(s.t) && Zeroed(s.t)
    && forall tid :: tid in s.pcs ==> ThreadOk(s.t, s.pcs[tid])
  }

  /** Taken slots keep their key. */
  ghost predicate Grows(t: seq<Entry>, u: seq<Entry>) {
    && |u| == |t|
    && forall i :: 0 <= i < |t| && t[i].key != 0 ==> u[i].key == t[i].key
  }

  lemma StillPassedOthers(t: seq<Entry>, u: seq<Entry>, key: i32, d: nat)
    requires |t| == CAPACITY && Grows(t, u) && PassedOthers(t, key, d)
    ensures PassedOthers(u, key, d)
  {
    forall e: nat | e < d
      ensures !Stops(u, key, e)
    {
      assert !Stops(t, key, e);
    }
  }

  lemma StillOk(t: seq<Entry>, u: seq<Entry>, pc: Pc)
    requires |t| == CAPACITY && Grows(t, u) && ThreadOk(t, pc)
    ensures ThreadOk(u, pc)
  {
    if pc.GetProbe? || pc.GetCheck? || pc.GetRead? {
      StillPassedOthers(t, u, pc.key, pc.d);
    }
  }

  lemma ClaimKeepsReachable(t: seq<Entry>, key: i32, d: nat)
    requires Reachable(t) && key != 0 && Passed(t, key, d) && t[Slot(key, d)].key == 0
    ensures d < CAPACITY
    ensures Reachable(Claimed(t, Slot(key, d), key))
  {
    if d >= CAPACITY {
      SlotsRepeat(key, d - CAPACITY);
      assert false;
    }
    DistanceIsUnique(key, d);
  }

  lemma NextOk(t: seq<Entry>, pc: Pc)
    requires Reachable(t) && ThreadOk(t, pc)
    ensures ThreadOk(TableAfter(t, pc), PcAfter(t, pc))
  {
  }

  /** Every step of every thread keeps the invariant, and never changes or frees a taken key. */
  lemma StepKeepsInv(s: State, tid: int, act: Act)
    requires Inv(s) && Enabled(s, tid, act)
    ensures Inv(Step(s, tid, act)) && Grows(s.t, Step(s, tid, act).t)
  {
    var pc, r := s.pcs[tid], Step(s, tid, act);
    if act.Go? {
      if pc.AddCas? && s.t[Slot(pc.key, pc.d)].key == 0 {
        ClaimKeepsReachable(s.t, pc.key, pc.d);
      }
      NextOk(s.t, pc);
    }
    forall x | x in r.pcs && x != tid
      ensures ThreadOk(r.t, r.pcs[x])
    {
      StillOk(s.t, r.t, s.pcs[x]);
    }
  }

  // ---------------------------------------------------------------- adds and gets are atomic

  lemma {:induction false} SameProbe(t: seq<Entry>, u: seq<Entry>, q: i32, d: nat)
    requires |t| == |u| == CAPACITY && d <= CAPACITY
    requires forall i :: 0 <= i < CAPACITY ==> u[i].key == t[i].key
    ensures Probe(u, q, d) == Probe(t, q, d)
    decreases CAPACITY - d
  {
    if d < CAPACITY {
      SameProbe(t, u, q, d + 1);
    }
  }

  /** A key that is stored is not past an empty slot of its probe. */
  lemma NotPastEmpty(t: seq<Entry>, q: i32)
    requires Reachable(t) && q != 0 && Stored(t, q)
    ensures Probe(t, q, 0) < CAPACITY && t[Slot(q, Probe(t, q, 0))].key == q
  {
    var i :| 0 <= i < CAPACITY && t[i].key == q;
    var d := Distance(q, i);
    SlotAtDistance(q, i);
    ProbeAtMost(t, q, d);
    var e := Probe(t, q, 0);
    if e < d {
      assert Passed(t, q, d);
      assert t[Slot(q, e)].key != 0;
    }
  }

  /** Claiming a slot is invisible to every reader: the new key reads 0, as before. */
  lemma ClaimIsInvisible(t: seq<Entry>, key: i32, d: nat, q: i32)
    requires Reachable(t) && Zeroed(t) && key != 0 && q != 0 && t[Slot(key, d)].key == 0
    ensures Lookup(Claimed(t, Slot(key, d), key), q) == Lookup(t, q)
  {
    var i, u, e := Slot(key, d), Claimed(t, Slot(key, d), key), Probe(t, q, 0);
    ProbingStopsExactlyWhen(t, q);
    BeforeProbe(t, q, 0);
    if Slot(q, e) != i || q == key {
      forall x: nat | x < e
        ensures !Stops(u, q, x)
      {
        assert !Stops(t, q, x);
      }
      ProbeIsFirst(u, q, 0, e);
    } else {
      if Stored(t, q) {
        NotPastEmpty(t, q);
      }
      assert !Stored(t, q);
      assert forall j :: 0 <= j < CAPACITY ==> u[j].key != q;
    }
  }

  /** The slot at which this thread's value is the one readers see. */
  predicate Visible(t: seq<Entry>, key: i32, d: nat)
    requires |t| == CAPACITY
  {
    Probe(t, key, 0) < CAPACITY && Slot(key, Probe(t, key, 0)) == Slot(key, d)
  }

  lemma WriteIsVisibleOrNot(t: seq<Entry>, key: i32, d: nat, value: u32, q: i32)
    requires |t| == CAPACITY && key != 0 && q != 0 && t[Slot(key, d)].key == key
    ensures Lookup(Written(t, Slot(key, d), value), q) ==
            if q == key && Visible(t, key, d) then value else Lookup(t, q)
  {
    SameProbe(t, Written(t, Slot(key, d), value), q, 0);
  }

  /** The value that a step makes the current one of `q`, if it does. */
  predicate Sets(s: State, tid: int, act: Act, q: i32)
    requires Enabled(s, tid, act)
  {
    act.Go? && s.pcs[tid].AddWrite? && s.pcs[tid].key == q && Visible(s.t, q, s.pcs[tid].d)
  }

  /** Over every interleaving, what a reader would see for a key changes at one kind of step only: the value
      write of an add of that key, and there to that add's value. */
  lemma AddTakesEffectAtItsWrite(s: State, tid: int, act: Act, q: i32)
    requires Inv(s) && Enabled(s, tid, act) && q != 0
    ensures Lookup(Step(s, tid, act).t, q) == if Sets(s, tid, act, q) then s.pcs[tid].value else Lookup(s.t, q)
  {
    var pc := s.pcs[tid];
    if act.Go? && pc.AddCas? && s.t[Slot(pc.key, pc.d)].key == 0 {
      ClaimIsInvisible(s.t, pc.key, pc.d, q);
    } else if act.Go? && pc.AddWrite? {
      WriteIsVisibleOrNot(s.t, pc.key, pc.d, pc.value, q);
    }
  }

  /** A thread that has passed only other keys and now stops is where the probe ends. */
  lemma StopIsTheProbe(t: seq<Entry>, key: i32, d: nat)
    requires |t| == CAPACITY && PassedOthers(t, key, d) && Stops(t, key, d)
    ensures d < CAPACITY && Probe(t, key, 0) == d
  {
    assert d < CAPACITY by {
      if d >= CAPACITY {
        NeverStops(t, key, d);
      }
    }
    ProbeIsFirst(t, key, 0, d);
  }

  /** Over every interleaving, a get returns what the table holds for its key at the moment it returns. */
  lemma GetReadsTheCurrentValue(s: State, tid: int)
    requires Inv(s) && Enabled(s, tid, Go) && Step(s, tid, Go).pcs[tid].Returned?
    ensures var pc := Step(s, tid, Go).pcs[tid]; pc.got == Lookup(s.t, pc.key)
  {
    StopIsTheProbe(s.t, s.pcs[tid].key, s.pcs[tid].d);
  }

  // ---------------------------------------------------------------- one slot a key

  /** No two slots hold the same key. */
  ghost predicate Unique(t: seq<Entry>) {
    forall i, j :: 0 <= i < j < |t| && t[i].key != 0 ==> t[i].key != t[j].key
  }

  predicate Adds(pc: Pc) {
    pc.AddProbe? || pc.AddCas? || pc.AddCheck? || pc.AddWrite?
  }

  /** This key has one slot at most, ... */
  ghost predicate OneSlotOf(t: seq<Entry>, q: i32) {
    forall i, j :: 0 <= i < j < |t| && t[i].key == q ==> t[j].key != q
  }

  /** ... and no thread that adds it has gone past that slot. */
  ghost predicate SingleFor(s: State, q: i32) {
    && |s.t| == CAPACITY && OneSlotOf(s.t, q)
    && forall tid :: tid in s.pcs && Adds(s.pcs[tid]) && s.pcs[tid].key == q ==> PassedOthers(s.t, q, s.pcs[tid].d)
  }

  /** So it is for every key. */
  ghost predicate Single(s: State) {
    |s.t| == CAPACITY && forall q: i32 :: q != 0 ==> SingleFor(s, q)
  }

  lemma SingleIsUnique(s: State)
    requires Single(s)
    ensures Unique(s.t)
  {
    forall i, j | 0 <= i < j < |s.t| && s.t[i].key != 0
      ensures s.t[i].key != s.t[j].key
    {
      assert SingleFor(s, s.t[i].key);
    }
  }

  /** The compare-and-swap fails against a slot that another thread has just given to the same key. */
  predicate LosesOwnKey(s: State, tid: int, act: Act) {
    && Enabled(s, tid, act) && act.Go? && s.pcs[tid].AddCas?
    && s.t[Slot(s.pcs[tid].key, s.pcs[tid].d)].key == s.pcs[tid].key
  }

  predicate LosesKey(s: State, tid: int, act: Act, q: i32) {
    LosesOwnKey(s, tid, act) && s.pcs[tid].key == q
  }

  /** The compare-and-swap takes an empty slot for a key that another slot holds already. */
  ghost predicate ClaimsAgain(s: State, tid: int, act: Act) {
    && Enabled(s, tid, act) && act.Go? && s.pcs[tid].AddCas?
    && s.t[Slot(s.pcs[tid].key, s.pcs[tid].d)].key == 0 && Stored(s.t, s.pcs[tid].key)
  }

  /** The exact exception to "one slot a key": a step gives a key a second slot precisely when its compare-and-swap
      takes an empty slot for a key that is stored. */
  lemma UniqueExactlyUnlessClaimedAgain(s: State, tid: int, act: Act)
    requires Inv(s) && Unique(s.t) && Enabled(s, tid, act)
    ensures Unique(Step(s, tid, act).t) <==> !ClaimsAgain(s, tid, act)
  {
    var pc, u := s.pcs[tid], Step(s, tid, act).t;
    if ClaimsAgain(s, tid, act) {
      var i, j :| 0 <= i < |s.t| && s.t[i].key == pc.key && j == Slot(pc.key, pc.d);
      assert i != j && u[i].key == u[j].key == pc.key != 0;
    } else {
      forall i, j | 0 <= i < j < |u| && u[i].key != 0
        ensures u[i].key != u[j].key
      {
        assert act.Go? && pc.AddCas? && s.t[Slot(pc.key, pc.d)].key == 0 ==>
                 s.t[i].key != pc.key && s.t[j].key != pc.key;
      }
    }
  }

  /** Where a second slot comes from, key by key. A lost swap changes nothing in the table, but it is the one step after
      which an adding thread has passed its own key, and only such a thread can claim a stored key. */
  lemma SingleForExactlyUnlessLost(s: State, tid: int, act: Act, q: i32)
    requires Inv(s) && SingleFor(s, q) && Enabled(s, tid, act) && q != 0
    ensures SingleFor(Step(s, tid, act), q) <==> !LosesKey(s, tid, act, q)
  {
    var pc, r := s.pcs[tid], Step(s, tid, act);
    StepKeepsInv(s, tid, act);
    if LosesKey(s, tid, act, q) {
      assert Adds(r.pcs[tid]) && Stops(r.t, q, pc.d);
    } else {
      if act.Go? && pc.AddCas? && s.t[Slot(pc.key, pc.d)].key == 0 && pc.key == q {
        assert Adds(pc);
        NotStoredAtAnEmptyStop(s.t, q, pc.d);
      }
      forall x | x in r.pcs && Adds(r.pcs[x]) && r.pcs[x].key == q
        ensures PassedOthers(r.t, q, r.pcs[x].d)
      {
        if x != tid || act.Go? {
          assert Adds(s.pcs[x]) && s.pcs[x].key == q;
          StillPassedOthers(s.t, r.t, q, s.pcs[x].d);
        }
      }
    }
  }

  lemma SingleExactlyUnlessOwnKeyLost(s: State, tid: int, act: Act)
    requires Inv(s) && Single(s) && Enabled(s, tid, act)
    ensures Single(Step(s, tid, act)) <==> !LosesOwnKey(s, tid, act)
  {
    var r := Step(s, tid, act);
    forall q: i32 | q != 0
      ensures SingleFor(r, q) <==> !LosesKey(s, tid, act, q)
    {
      SingleForExactlyUnlessLost(s, tid, act, q);
    }
    if LosesOwnKey(s, tid, act) {
      assert ThreadOk(s.t, s.pcs[tid]);
      assert LosesKey(s, tid, act, s.pcs[tid].key);
    }
  }

  /** While a key has one slot and no adder past it, an add of it always takes effect. */
  lemma SingleWritesAreVisible(s: State, tid: int)
    requires Inv(s) && tid in s.pcs && s.pcs[tid].AddWrite? && SingleFor(s, s.pcs[tid].key)
    ensures Visible(s.t, s.pcs[tid].key, s.pcs[tid].d)
  {
    var pc := s.pcs[tid];
    assert Adds(pc);
    StopIsTheProbe(s.t, pc.key, pc.d);
  }

  // ---------------------------------------------------------------- whole runs

  /** A run of any number of threads: from the zeroed table, any interleaving of any adds and gets. */
  datatype Turn = Turn(tid: int, act: Act)

  ghost predicate Run(rs: seq<State>, turns: seq<Turn>) {
    && |rs| == |turns| + 1
    && |rs[0].t| == CAPACITY && (forall i :: 0 <= i < CAPACITY ==> rs[0].t[i] == Entry(0, 0))
    && (forall tid :: tid in rs[0].pcs ==> rs[0].pcs[tid].Ready?)
    && forall n :: 0 <= n < |turns| ==> Follows(rs[n], turns[n], rs[n + 1])
  }

  ghost predicate Follows(s: State, turn: Turn, r: State) {
    Enabled(s, turn.tid, turn.act) && r == Step(s, turn.tid, turn.act)
  }

  lemma RunFollows(rs: seq<State>, turns: seq<Turn>, n: nat)
    requires Run(rs, turns) && n < |turns|
    ensures Follows(rs[n], turns[n], rs[n + 1])
  {
  }

  lemma FollowsKeepsInv(s: State, turn: Turn, r: State)
    requires Inv(s) && Follows(s, turn, r)
    ensures Inv(r) && Grows(s.t, r.t)
  {
    StepKeepsInv(s, turn.tid, turn.act);
  }

  lemma {:induction false} RunsKeepInv(rs: seq<State>, turns: seq<Turn>, n: nat)
    requires Run(rs, turns) && n < |rs|
    ensures Inv(rs[n])
  {
    if n > 0 {
      RunsKeepInv(rs, turns, n - 1);
      FollowsKeepsInv(rs[n - 1], turns[n - 1], rs[n]);
    }
  }

  lemma TakenStaysTaken(s: State, turn: Turn, r: State, i: int)
    requires Inv(s) && Follows(s, turn, r) && 0 <= i < CAPACITY && s.t[i].key != 0
    ensures |r.t| == CAPACITY && r.t[i].key == s.t[i].key
  {
    FollowsKeepsInv(s, turn, r);
  }

  lemma TakenOneMore(rs: seq<State>, turns: seq<Turn>, n: nat, i: int)
    requires Run(rs, turns) && n < |turns|
    requires |rs[n].t| == CAPACITY && 0 <= i < CAPACITY && rs[n].t[i].key != 0
    ensures |rs[n + 1].t| == CAPACITY && rs[n + 1].t[i].key == rs[n].t[i].key
  {
    RunsKeepInv(rs, turns, n);
    RunFollows(rs, turns, n);
    TakenStaysTaken(rs[n], turns[n], rs[n + 1], i);
  }

  /** In every run, whatever its interleaving, a slot once taken keeps its key. */
  lemma {:induction false} TakenForEver(rs: seq<State>, turns: seq<Turn>, m: nat, n: nat, i: int)
    requires Run(rs, turns) && m <= n < |rs|
    requires |rs[m].t| == CAPACITY && 0 <= i < CAPACITY && rs[m].t[i].key != 0
    ensures |rs[n].t| == CAPACITY && rs[n].t[i].key == rs[m].t[i].key
    decreases n
  {
    if m < n {
      TakenForEver(rs, turns, m, n - 1, i);
      TakenOneMore(rs, turns, n - 1, i);
    }
  }

  /** This turn is the value write of `add(q, value)`. */
  ghost predicate WritesTo(s: State, turn: Turn, q: i32, value: u32) {
    && turn.tid in s.pcs && turn.act.Go? && s.pcs[turn.tid].AddWrite?
    && s.pcs[turn.tid].key == q && s.pcs[turn.tid].value == value
  }

  /** In every run, what a key reads as is 0 or was written by an add of that key, ... */
  lemma {:induction false} ValuesComeFromAdds(rs: seq<State>, turns: seq<Turn>, n: nat, q: i32)
    requires Run(rs, turns) && n < |rs| && q != 0
    ensures |rs[n].t| == CAPACITY
    ensures Lookup(rs[n].t, q) == 0 || exists m :: 0 <= m < n && WritesTo(rs[m], turns[m], q, Lookup(rs[n].t, q))
  {
    RunsKeepInv(rs, turns, n);
    if n > 0 {
      ValuesComeFromAdds(rs, turns, n - 1, q);
      RunsKeepInv(rs, turns, n - 1);
      assert Follows(rs[n - 1], turns[n - 1], rs[n]);
      AddTakesEffectAtItsWrite(rs[n - 1], turns[n - 1].tid, turns[n - 1].act, q);
    }
  }

  /** ... and so is what any get returns. */
  lemma GetReturnsZeroOrAdded(rs: seq<State>, turns: seq<Turn>, n: nat, q: i32, got: u32)
    requires Run(rs, turns) && n < |turns| && q != 0
    requires turns[n].act.Go? && turns[n].tid in rs[n + 1].pcs && rs[n + 1].pcs[turns[n].tid] == Returned(q, got)
    ensures got == 0 || exists m :: 0 <= m < n && WritesTo(rs[m], turns[m], q, got)
  {
    RunsKeepInv(rs, turns, n);
    assert Follows(rs[n], turns[n], rs[n + 1]);
    GetReadsTheCurrentValue(rs[n], turns[n].tid);
    ValuesComeFromAdds(rs, turns, n, q);
  }

  lemma TwiceForEver(t: seq<Entry>, u: seq<Entry>)
    requires Grows(t, u) && !Unique(t)
    ensures !Unique(u)
  {
    var i, j :| 0 <= i < j < |t| && t[i].key != 0 && t[i].key == t[j].key;
    assert u[i].key == u[j].key != 0;
  }

  /** Over every run: each key has one slot at most if and only if no compare-and-swap so far has claimed a stored
      key. */
  lemma {:induction false} OneSlotExactlyUnlessClaimedAgain(rs: seq<State>, turns: seq<Turn>, n: nat)
    requires Run(rs, turns) && n < |rs|
    ensures Unique(rs[n].t) <==> forall m :: 0 <= m < n ==> !ClaimsAgain(rs[m], turns[m].tid, turns[m].act)
  {
    if n > 0 {
      var s, turn := rs[n - 1], turns[n - 1];
      OneSlotExactlyUnlessClaimedAgain(rs, turns, n - 1);
      RunsKeepInv(rs, turns, n - 1);
      assert Follows(s, turn, rs[n]);
      if Unique(s.t) {
        UniqueExactlyUnlessClaimedAgain(s, turn.tid, turn.act);
      } else {
        FollowsKeepsInv(s, turn, rs[n]);
        TwiceForEver(s.t, rs[n].t);
      }
    }
  }

  /** Up to moment `n` of the run no swap for key `q` was lost to another thread adding `q`. */
  ghost predicate RaceFree(rs: seq<State>, turns: seq<Turn>, n: nat, q: i32) {
    && Run(rs, turns) && n < |rs|
    && forall m :: 0 <= m < n ==> !LosesKey(rs[m], turns[m].tid, turns[m].act, q)
  }

  lemma {:induction false} RaceFreeStaysSingle(rs: seq<State>, turns: seq<Turn>, n: nat, q: i32)
    requires RaceFree(rs, turns, n, q) && q != 0
    ensures Inv(rs[n]) && SingleFor(rs[n], q)
  {
    RunsKeepInv(rs, turns, n);
    if n > 0 {
      RaceFreeStaysSingle(rs, turns, n - 1, q);
      assert Follows(rs[n - 1], turns[n - 1], rs[n]);
      SingleForExactlyUnlessLost(rs[n - 1], turns[n - 1].tid, turns[n - 1].act, q);
    }
  }

  lemma NoLossStaysSingle(rs: seq<State>, turns: seq<Turn>, n: nat)
    requires Run(rs, turns) && n < |rs|
    requires forall m :: 0 <= m < n ==> !LosesOwnKey(rs[m], turns[m].tid, turns[m].act)
    ensures Single(rs[n])
  {
    RunsKeepInv(rs, turns, n);
    forall q: i32 | q != 0
      ensures SingleFor(rs[n], q)
    {
      RaceFreeStaysSingle(rs, turns, n, q);
    }
  }

  /** Over every run: all states so far have one slot a key and no adding thread past its own key, if and only if no
      compare-and-swap so far was lost to a thread adding the same key. */
  lemma SingleExactlyWithoutLoss(rs: seq<State>, turns: seq<Turn>, n: nat)
    requires Run(rs, turns) && n < |rs|
    ensures (forall k :: 0 <= k <= n ==> Single(rs[k])) <==>
            forall m :: 0 <= m < n ==> !LosesOwnKey(rs[m], turns[m].tid, turns[m].act)
  {
    if forall m :: 0 <= m < n ==> !LosesOwnKey(rs[m], turns[m].tid, turns[m].act) {
      forall k | 0 <= k <= n
        ensures Single(rs[k])
      {
        NoLossStaysSingle(rs, turns, k);
      }
    } else {
      var m :| 0 <= m < n && LosesOwnKey(rs[m], turns[m].tid, turns[m].act);
      RunsKeepInv(rs, turns, m);
      assert Follows(rs[m], turns[m], rs[m + 1]);
      if Single(rs[m]) {
        SingleExactlyUnlessOwnKeyLost(rs[m], turns[m].tid, turns[m].act);
      }
    }
  }

  /** So a second slot for a key always goes back to an earlier swap lost to that key. */
  lemma TwiceOnlyAfterLoss(rs: seq<State>, turns: seq<Turn>, n: nat, q: i32) returns (m: nat)
    requires Run(rs, turns) && n < |rs| && q != 0 && !OneSlotOf(rs[n].t, q)
    ensures m < n && LosesKey(rs[m], turns[m].tid, turns[m].act, q)
  {
    if RaceFree(rs, turns, n, q) {
      RaceFreeStaysSingle(rs, turns, n, q);
      assert false;
    }
    m :| 0 <= m < n && LosesKey(rs[m], turns[m].tid, turns[m].act, q);
  }

  /** What a caller can check before it starts an add: the key is stored already, or nobody else is adding it. */
  ghost predicate MayStart(s: State, turn: Turn) {
    turn.act.StartAdd? ==>
      Stored(s.t, turn.act.newKey) ||
      forall x :: x in s.pcs && Adds(s.pcs[x]) ==> s.pcs[x].key != turn.act.newKey
  }

  /** While key `q` is not stored one thread at most adds it, and no thread is about to swap it in when it is. */
  ghost predicate NoRaceFor(s: State, q: i32) {
    && (forall x :: x in s.pcs && s.pcs[x].AddCas? && s.pcs[x].key == q ==> !Stored(s.t, q))
    && (forall x, y :: x in s.pcs && y in s.pcs && x != y && Adds(s.pcs[x]) && Adds(s.pcs[y]) ==>
          s.pcs[x].key == q && s.pcs[y].key == q ==> Stored(s.t, q))
  }

  lemma StoredStays(t: seq<Entry>, u: seq<Entry>, key: i32)
    requires Grows(t, u) && key != 0 && Stored(t, key)
    ensures Stored(u, key)
  {
    var i :| 0 <= i < |t| && t[i].key == key;
    assert u[i].key == key;
  }

  lemma NotStoredAtAnEmptyStop(t: seq<Entry>, key: i32, d: nat)
    requires Reachable(t) && key != 0 && PassedOthers(t, key, d) && t[Slot(key, d)].key == 0
    ensures !Stored(t, key)
  {
    StopIsTheProbe(t, key, d);
    if Stored(t, key) {
      NotPastEmpty(t, key);
    }
  }

  lemma StepStoresItsKeyOnly(s: State, turn: Turn, r: State, q: i32)
    requires Follows(s, turn, r) && q != 0 && Stored(r.t, q) && !Stored(s.t, q)
    ensures turn.act.Go? && s.pcs[turn.tid].AddCas? && s.pcs[turn.tid].key == q
  {
    var i :| 0 <= i < |r.t| && r.t[i].key == q;
    assert s.t[i].key != q;
  }

  lemma NoRaceIsKept(s: State, turn: Turn, r: State, q: i32)
    requires Inv(s) && SingleFor(s, q) && NoRaceFor(s, q) && Follows(s, turn, r) && q != 0
    requires turn.act.StartAdd? && turn.act.newKey == q ==> MayStart(s, turn)
    ensures !LosesKey(s, turn.tid, turn.act, q) && NoRaceFor(r, q)
  {
    var pc := s.pcs[turn.tid];
    StepKeepsInv(s, turn.tid, turn.act);
    if turn.act.Go? && pc.AddProbe? && pc.key == q && s.t[Slot(q, pc.d)].key == 0 {
      assert Adds(pc);
      NotStoredAtAnEmptyStop(s.t, q, pc.d);
    }
    forall x | x in r.pcs && r.pcs[x].AddCas? && r.pcs[x].key == q
      ensures !Stored(r.t, q)
    {
      if x != turn.tid && Stored(r.t, q) {
        StepStoresItsKeyOnly(s, turn, r, q);
        assert Adds(pc) && Adds(s.pcs[x]);
      }
    }
    forall x, y | x in r.pcs && y in r.pcs && x != y && Adds(r.pcs[x]) && Adds(r.pcs[y]) &&
                  r.pcs[x].key == q && r.pcs[y].key == q
      ensures Stored(r.t, q)
    {
      assert Stored(s.t, q);
      StoredStays(s.t, r.t, q);
    }
  }

  /** Up to moment `n` of the run every add of `q` was started as a caller may. */
  ghost predicate DisciplinedFor(rs: seq<State>, turns: seq<Turn>, n: nat, q: i32) {
    && Run(rs, turns) && n < |rs|
    && forall m :: 0 <= m < n && turns[m].act.StartAdd? && turns[m].act.newKey == q ==> MayStart(rs[m], turns[m])
  }

  /** A key whose adds are so started is never lost to a race, whatever is done with other keys. */
  lemma {:induction false} DisciplineAvoidsRaces(rs: seq<State>, turns: seq<Turn>, n: nat, q: i32)
    requires DisciplinedFor(rs, turns, n, q) && q != 0
    ensures RaceFree(rs, turns, n, q) && NoRaceFor(rs[n], q)
  {
    if n > 0 {
      DisciplineAvoidsRaces(rs, turns, n - 1, q);
      RaceFreeStaysSingle(rs, turns, n - 1, q);
      assert Follows(rs[n - 1], turns[n - 1], rs[n]);
      NoRaceIsKept(rs[n - 1], turns[n - 1], rs[n], q);
    }
  }

  ghost predicate DisciplinedRun(rs: seq<State>, turns: seq<Turn>) {
    Run(rs, turns) && forall n :: 0 <= n < |turns| ==> MayStart(rs[n], turns[n])
  }

  lemma DisciplinedRunsStaySingle(rs: seq<State>, turns: seq<Turn>, n: nat)
    requires DisciplinedRun(rs, turns) && n < |rs|
    ensures Inv(rs[n]) && Single(rs[n]) && Unique(rs[n].t)
  {
    RunsKeepInv(rs, turns, n);
    forall q: i32 | q != 0
      ensures SingleFor(rs[n], q)
    {
      DisciplineAvoidsRaces(rs, turns, n, q);
      RaceFreeStaysSingle(rs, turns, n, q);
    }
    SingleIsUnique(rs[n]);
  }

  /** The value this turn writes if it is the value write of an add of `q`; otherwise `before`. */
  function WrittenBy(s: State, turn: Turn, q: i32, before: u32): u32 {
    if turn.tid in s.pcs && turn.act.Go? && s.pcs[turn.tid].AddWrite? && s.pcs[turn.tid].key == q
    then s.pcs[turn.tid].value
    else before
  }

  /** The value of the last add of `q` to write before moment `n`; 0 if there is none. */
  function Latest(rs: seq<State>, turns: seq<Turn>, n: nat, q: i32): u32
    requires n <= |turns| && |rs| == |turns| + 1
  {
    if n == 0 then 0 else WrittenBy(rs[n - 1], turns[n - 1], q, Latest(rs, turns, n - 1, q))
  }

  lemma ZeroedReadsZero(t: seq<Entry>, q: i32)
    requires |t| == CAPACITY && (forall i :: 0 <= i < CAPACITY ==> t[i] == Entry(0, 0)) && q != 0
    ensures Lookup(t, q) == 0
  {
  }

  lemma RegisterStep(s: State, turn: Turn, r: State, q: i32)
    requires Inv(s) && SingleFor(s, q) && Follows(s, turn, r) && q != 0
    ensures Lookup(r.t, q) == WrittenBy(s, turn, q, Lookup(s.t, q))
  {
    AddTakesEffectAtItsWrite(s, turn.tid, turn.act, q);
    if turn.act.Go? && s.pcs[turn.tid].AddWrite? && s.pcs[turn.tid].key == q {
      SingleWritesAreVisible(s, turn.tid);
    }
  }

  lemma RegisterAtStart(rs: seq<State>, turns: seq<Turn>, q: i32)
    requires Run(rs, turns) && q != 0
    ensures |rs[0].t| == CAPACITY && Lookup(rs[0].t, q) == 0
  {
    ZeroedReadsZero(rs[0].t, q);
  }

  lemma RegisterTurn(rs: seq<State>, turns: seq<Turn>, n: nat, q: i32)
    requires RaceFree(rs, turns, n, q) && n < |turns| && q != 0
    ensures |rs[n].t| == |rs[n + 1].t| == CAPACITY
    ensures Lookup(rs[n + 1].t, q) == WrittenBy(rs[n], turns[n], q, Lookup(rs[n].t, q))
  {
    RaceFreeStaysSingle(rs, turns, n, q);
    assert Follows(rs[n], turns[n], rs[n + 1]);
    RegisterStep(rs[n], turns[n], rs[n + 1], q);
  }

  /** In every run, as long as no two threads have raced to insert the new key `q`, whatever races there were for other
      keys, `q` is one atomic register: it always reads as the value of the last add that wrote it ... */
  lemma {:induction false} EachKeyIsARegister(rs: seq<State>, turns: seq<Turn>, n: nat, q: i32)
    requires RaceFree(rs, turns, n, q) && q != 0
    ensures |rs[n].t| == CAPACITY && OneSlotOf(rs[n].t, q)
    ensures Lookup(rs[n].t, q) == Latest(rs, turns, n, q)
  {
    RaceFreeStaysSingle(rs, turns, n, q);
    if n == 0 {
      RegisterAtStart(rs, turns, q);
    } else {
      EachKeyIsARegister(rs, turns, n - 1, q);
      RegisterTurn(rs, turns, n - 1, q);
    }
  }

  /** ... and that is what every get returns. */
  lemma GetReturnsTheLatest(rs: seq<State>, turns: seq<Turn>, n: nat, q: i32, got: u32)
    requires RaceFree(rs, turns, n, q) && n < |turns| && q != 0
    requires turns[n].act.Go? && turns[n].tid in rs[n + 1].pcs && rs[n + 1].pcs[turns[n].tid] == Returned(q, got)
    ensures got == Latest(rs, turns, n, q)
  {
    EachKeyIsARegister(rs, turns, n, q);
    RunsKeepInv(rs, turns, n);
    assert Follows(rs[n], turns[n], rs[n + 1]);
    GetReadsTheCurrentValue(rs[n], turns[n].tid);
  }

  /** For a key whose adds are started as a caller may, that is so throughout. */
  lemma DisciplinedKeysAreRegisters(rs: seq<State>, turns: seq<Turn>, n: nat, q: i32)
    requires DisciplinedFor(rs, turns, n, q) && q != 0
    ensures |rs[n].t| == CAPACITY && OneSlotOf(rs[n].t, q)
    ensures Lookup(rs[n].t, q) == Latest(rs, turns, n, q)
  {
    DisciplineAvoidsRaces(rs, turns, n, q);
    EachKeyIsARegister(rs, turns, n, q);
  }

  // ---------------------------------------------------------------- every operation ends

  /** How far an operation has come: four steps at most on each slot of its probe. */
  function Rank(pc: Pc): nat {
    match pc
    case AddProbe(_, _, d) => 4 * d
    case AddCas(_, _, d) => 4 * d + 1
    case AddCheck(_, _, d) => 4 * d + 2
    case AddWrite(_, _, d) => 4 * d + 3
    case GetProbe(_, d) => 4 * d
    case GetCheck(_, d) => 4 * d + 1
    case GetRead(_, d) => 4 * d + 2
    case Ready => 0
    case Returned(_, _) => 0
  }

  /** The turns that thread `tid` takes from `m` up to, not including, `n`. */
  function OwnTurns(turns: seq<Turn>, tid: int, m: nat, n: nat): nat
    requires n <= |turns|
  {
    if n <= m then 0 else OwnTurns(turns, tid, m, n - 1) + if turns[n - 1].tid == tid then 1 else 0
  }

  /** From moment `m`, when it starts an operation, up to moment `n` the thread is inside that operation. */
  ghost predicate Inside(rs: seq<State>, turns: seq<Turn>, tid: int, m: nat, n: nat) {
    && Run(rs, turns) && m < n < |rs|
    && turns[m].tid == tid && !turns[m].act.Go?
    && forall k :: m < k <= n ==> tid in rs[k].pcs && !AtRest(rs[k].pcs[tid])
  }

  lemma TurnRaisesRank(s: State, turn: Turn, r: State, tid: int)
    requires Follows(s, turn, r) && tid in s.pcs && !AtRest(s.pcs[tid]) && !AtRest(r.pcs[tid])
    ensures Rank(r.pcs[tid]) >= Rank(s.pcs[tid]) + if turn.tid == tid then 1 else 0
  {
  }

  lemma {:induction false} TurnsAreProgress(rs: seq<State>, turns: seq<Turn>, tid: int, m: nat, n: nat)
    requires Inside(rs, turns, tid, m, n)
    ensures OwnTurns(turns, tid, m + 1, n) <= Rank(rs[n].pcs[tid])
    decreases n
  {
    if n > m + 1 {
      TurnsAreProgress(rs, turns, tid, m, n - 1);
      assert Follows(rs[n - 1], turns[n - 1], rs[n]);
      TurnRaisesRank(rs[n - 1], turns[n - 1], rs[n], tid);
    }
  }

  /** A probe that has met only other keys has not been round the table, unless that is full without its key. */
  lemma NotRound(t: seq<Entry>, key: i32, d: nat)
    requires |t| == CAPACITY && PassedOthers(t, key, d) && (Stored(t, key) || Stored(t, 0))
    ensures d < CAPACITY
  {
    ProbingStopsExactlyWhen(t, key);
    assert Stops(t, key, Probe(t, key, 0));
  }

  /** A thread that adds never passes a slot of its own key twice. */
  ghost predicate OnceOver(t: seq<Entry>, pc: Pc)
    requires |t| == CAPACITY
  {
    Adds(pc) ==>
      && (pc.AddCas? ==> pc.d < CAPACITY)
      && forall e: nat :: e < pc.d && t[Slot(pc.key, e)].key == pc.key ==> pc.d <= e + CAPACITY
  }

  /** An empty slot is not met on the second round. */
  lemma EmptyOnTheFirstRound(t: seq<Entry>, key: i32, d: nat)
    requires |t| == CAPACITY && Passed(t, key, d) && t[Slot(key, d)].key == 0
    ensures d < CAPACITY
  {
    if d >= CAPACITY {
      SlotsRepeat(key, d - CAPACITY);
      assert false;
    }
  }

  lemma OwnTurnOnceOver(t: seq<Entry>, pc: Pc)
    requires Reachable(t) && ThreadOk(t, pc) && OnceOver(t, pc)
    ensures OnceOver(TableAfter(t, pc), PcAfter(t, pc))
  {
    var u, r := TableAfter(t, pc), PcAfter(t, pc);
    if Adds(r) {
      if pc.AddProbe? && r.AddCas? {
        EmptyOnTheFirstRound(t, pc.key, pc.d);
      }
      forall e: nat | e < r.d && u[Slot(pc.key, e)].key == pc.key
        ensures r.d <= e + CAPACITY
      {
        if e < pc.d {
          assert t[Slot(pc.key, e)].key != 0;
          assert t[Slot(pc.key, e)].key == pc.key;
          if pc.d == e + CAPACITY && r.d > pc.d {
            SlotsRepeat(pc.key, e);
          }
        }
      }
    }
  }

  lemma OtherTurnOnceOver(t: seq<Entry>, u: seq<Entry>, pc: Pc)
    requires |t| == CAPACITY && Grows(t, u) && ThreadOk(t, pc) && OnceOver(t, pc)
    ensures OnceOver(u, pc)
  {
    if Adds(pc) {
      assert forall e: nat :: e < pc.d ==>
               t[Slot(pc.key, e)].key != 0 && u[Slot(pc.key, e)].key == t[Slot(pc.key, e)].key;
    }
  }

  lemma TurnOnceOver(s: State, turn: Turn, r: State, tid: int)
    requires Inv(s) && Follows(s, turn, r) && tid in s.pcs && OnceOver(s.t, s.pcs[tid])
    ensures |r.t| == CAPACITY && OnceOver(r.t, r.pcs[tid])
  {
    FollowsKeepsInv(s, turn, r);
    assert ThreadOk(s.t, s.pcs[tid]);
    if turn.tid != tid {
      OtherTurnOnceOver(s.t, r.t, s.pcs[tid]);
    } else if turn.act.Go? {
      OwnTurnOnceOver(s.t, s.pcs[tid]);
    }
  }

  lemma {:induction false} RunsAreOnceOver(rs: seq<State>, turns: seq<Turn>, n: nat, tid: int)
    requires Run(rs, turns) && n < |rs| && tid in rs[n].pcs
    ensures |rs[n].t| == CAPACITY && OnceOver(rs[n].t, rs[n].pcs[tid])
  {
    if n > 0 {
      RunsKeepInv(rs, turns, n - 1);
      assert Follows(rs[n - 1], turns[n - 1], rs[n]);
      RunsAreOnceOver(rs, turns, n - 1, tid);
      TurnOnceOver(rs[n - 1], turns[n - 1], rs[n], tid);
    }
  }

  lemma NotTwiceRound(t: seq<Entry>, pc: Pc)
    requires |t| == CAPACITY && Adds(pc) && ThreadOk(t, pc) && OnceOver(t, pc)
    requires Stored(t, pc.key) || Stored(t, 0)
    ensures pc.d < 2 * CAPACITY
  {
    var i :| 0 <= i < CAPACITY && (t[i].key == pc.key || t[i].key == 0);
    SlotAtDistance(pc.key, i);
    assert t[Slot(pc.key, Distance(pc.key, i))] == t[i];
  }

  /** In every run, whatever the other threads do or fail to do, races included, an operation is over before its thread
      has taken 8 * 512 turns, as long as its key is stored or a slot is empty. */
  lemma OperationsAreWaitFree(rs: seq<State>, turns: seq<Turn>, tid: int, m: nat, n: nat)
    requires Inside(rs, turns, tid, m, n)
    requires |rs[n].t| == CAPACITY && (Stored(rs[n].t, rs[n].pcs[tid].key) || Stored(rs[n].t, 0))
    ensures OwnTurns(turns, tid, m + 1, n) < 8 * CAPACITY
  {
    var s := rs[n];
    TurnsAreProgress(rs, turns, tid, m, n);
    RunsKeepInv(rs, turns, n);
    assert ThreadOk(s.t, s.pcs[tid]);
    if Adds(s.pcs[tid]) {
      RunsAreOnceOver(rs, turns, n, tid);
      NotTwiceRound(s.t, s.pcs[tid]);
    } else {
      NotRound(s.t, s.pcs[tid].key, s.pcs[tid].d);
    }
  }

  /** A get, and an add of a key for which no race was lost, is over in half of that. */
  lemma RaceFreeOperationsAreFaster(rs: seq<State>, turns: seq<Turn>, tid: int, m: nat, n: nat)
    requires Inside(rs, turns, tid, m, n)
    requires Adds(rs[n].pcs[tid]) ==> RaceFree(rs, turns, n, rs[n].pcs[tid].key)
    requires |rs[n].t| == CAPACITY && (Stored(rs[n].t, rs[n].pcs[tid].key) || Stored(rs[n].t, 0))
    ensures OwnTurns(turns, tid, m + 1, n) < 4 * CAPACITY
  {
    var s := rs[n];
    TurnsAreProgress(rs, turns, tid, m, n);
    RunsKeepInv(rs, turns, n);
    assert ThreadOk(s.t, s.pcs[tid]);
    if Adds(s.pcs[tid]) {
      RaceFreeStaysSingle(rs, turns, n, s.pcs[tid].key);
    }
    NotRound(s.t, s.pcs[tid].key, s.pcs[tid].d);
  }

  /** Why the race must be excluded: two threads that both saw the same empty slot and add the same key leave
      it in two slots as soon as the loser finds the next slot empty. */
  lemma RaceStoresTwice(s: State, x: int, y: int)
    requires Inv(s) && x in s.pcs && y in s.pcs && x != y && s.pcs[x].AddCas? && s.pcs[y].AddCas?
    requires s.pcs[x].key == s.pcs[y].key && s.pcs[x].d == s.pcs[y].d
    requires s.t[Slot(s.pcs[x].key, s.pcs[x].d)].key == 0 && s.t[Slot(s.pcs[x].key, s.pcs[x].d + 1)].key == 0
    ensures var a := Step(s, x, Go);
            Enabled(a, y, Go) && var b := Step(a, y, Go);
            Enabled(b, y, Go) && var c := Step(b, y, Go);
            Enabled(c, y, Go) && !Unique(Step(c, y, Go).t)
  {
    var key, d := s.pcs[x].key, s.pcs[x].d;
    var i, j := Slot(key, d), Slot(key, d + 1);
    var u := Claimed(Claimed(s.t, i, key), j, key);
    assert j == Next(i) && i != j;
    assert u[i].key == u[j].key == key;
    assert !Unique(u);
  }

  // ---------------------------------------------------------------- alone, an operation is the sequential one

  /** Thread `tid` alone, for some turns or until its operation is over. */
  function Solo(s: State, tid: int, turns: nat): (r: State)
    requires |s.t| == CAPACITY && tid in s.pcs
    ensures |r.t| == CAPACITY && tid in r.pcs
    decreases turns
  {
    if turns == 0 || AtRest(s.pcs[tid]) then s else Solo(Step(s, tid, Go), tid, turns - 1)
  }

  lemma SoloNext(s: State, tid: int, turns: nat)
    requires |s.t| == CAPACITY && tid in s.pcs && !AtRest(s.pcs[tid])
    ensures Enabled(s, tid, Go)
    ensures Solo(s, tid, turns + 1) == Solo(Step(s, tid, Go), tid, turns)
  {
  }

  lemma LastPlaceCounts(pcs: map<int, Pc>, tid: int, a: Pc, b: Pc)
    ensures pcs[tid := a][tid := b] == pcs[tid := b]
  {
  }

  /** One turn of a thread that is alone, its new place being known. */
  lemma SoloTurn(s: State, tid: int, turns: nat, u: seq<Entry>, pc: Pc)
    requires |s.t| == CAPACITY && tid in s.pcs && !AtRest(s.pcs[tid])
    requires u == TableAfter(s.t, s.pcs[tid]) && pc == PcAfter(s.t, s.pcs[tid])
    ensures |u| == CAPACITY
    ensures Solo(s, tid, turns + 1) == Solo(State(u, s.pcs[tid := pc]), tid, turns)
  {
    SoloNext(s, tid, turns);
  }

  /** The add when its probe has come to its end, on its own key or on an empty slot. */
  lemma AddEndsHere(s: State, tid: int, key: i32, value: u32, d: nat) returns (turns: nat)
    requires |s.t| == CAPACITY && tid in s.pcs && key != 0 && s.pcs[tid] == AddProbe(key, value, d)
    requires Stops(s.t, key, d)
    ensures Solo(s, tid, turns) == State(s.t[Slot(key, d) := Entry(key, value)], s.pcs[tid := Ready])
  {
    var i := Slot(key, d);
    var u := Claimed(s.t, i, key);
    var checks := State(u, s.pcs[tid := AddCheck(key, value, d)]);
    var writes := State(u, s.pcs[tid := AddWrite(key, value, d)]);
    var ready := State(Written(u, i, value), s.pcs[tid := Ready]);
    assert checks.pcs[tid := AddWrite(key, value, d)] == writes.pcs;
    SoloTurn(checks, tid, 1, u, AddWrite(key, value, d));
    assert writes.pcs[tid := Ready] == ready.pcs;
    SoloTurn(writes, tid, 0, Written(u, i, value), Ready);
    assert ready.t == s.t[i := Entry(key, value)];
    if s.t[i].key == 0 {
      var swaps := State(s.t, s.pcs[tid := AddCas(key, value, d)]);
      SoloTurn(s, tid, 3, s.t, AddCas(key, value, d));
      assert swaps.pcs[tid := AddCheck(key, value, d)] == checks.pcs;
      SoloTurn(swaps, tid, 2, u, AddCheck(key, value, d));
      turns := 4;
    } else {
      assert u == s.t;
      SoloTurn(s, tid, 2, s.t, AddCheck(key, value, d));
      turns := 3;
    }
  }

  lemma AddPassesOn(s: State, tid: int, key: i32, value: u32, d: nat, n: nat)
    requires |s.t| == CAPACITY && tid in s.pcs && key != 0 && s.pcs[tid] == AddProbe(key, value, d)
    requires !Stops(s.t, key, d)
    ensures Solo(s, tid, n + 2) == Solo(State(s.t, s.pcs[tid := AddProbe(key, value, d + 1)]), tid, n)
  {
    var checks := State(s.t, s.pcs[tid := AddCheck(key, value, d)]);
    assert checks.pcs[tid := AddProbe(key, value, d + 1)] == s.pcs[tid := AddProbe(key, value, d + 1)];
    SoloTurn(s, tid, n + 1, s.t, AddCheck(key, value, d));
    SoloTurn(checks, tid, n, s.t, AddProbe(key, value, d + 1));
  }

  lemma {:induction false} AddGoesOn(s: State, tid: int, key: i32, value: u32, d: nat) returns (turns: nat)
    requires |s.t| == CAPACITY && tid in s.pcs && key != 0 && s.pcs[tid] == AddProbe(key, value, d)
    requires d <= Probe(s.t, key, 0) < CAPACITY
    ensures Solo(s, tid, turns) == State(Added(s.t, key, value), s.pcs[tid := Ready])
    decreases CAPACITY - d
  {
    if d == Probe(s.t, key, 0) {
      turns := AddEndsHere(s, tid, key, value, d);
    } else {
      BeforeProbe(s.t, key, 0);
      assert !Stops(s.t, key, d);
      var next := State(s.t, s.pcs[tid := AddProbe(key, value, d + 1)]);
      var n := AddGoesOn(next, tid, key, value, d + 1);
      LastPlaceCounts(s.pcs, tid, AddProbe(key, value, d + 1), Ready);
      AddPassesOn(s, tid, key, value, d, n);
      turns := n + 2;
    }
  }

  /** From any reachable state: an add that is started and left alone ends, and has done to the table exactly what the
      sequential `add` does. */
  lemma AddAloneIsSequential(s: State, tid: int, key: i32, value: u32) returns (turns: nat)
    requires |s.t| == CAPACITY && tid in s.pcs && AtRest(s.pcs[tid]) && key != 0
    requires Stored(s.t, key) || Stored(s.t, 0)
    ensures Enabled(s, tid, StartAdd(key, value))
    ensures Solo(Step(s, tid, StartAdd(key, value)), tid, turns) ==
            State(Added(s.t, key, value), s.pcs[tid := Ready])
  {
    ProbingStopsExactlyWhen(s.t, key);
    var r := Step(s, tid, StartAdd(key, value));
    turns := AddGoesOn(r, tid, key, value, 0);
    assert r.pcs[tid := Ready] == s.pcs[tid := Ready];
  }

  lemma GetEndsHere(s: State, tid: int, key: i32, d: nat) returns (turns: nat)
    requires |s.t| == CAPACITY && tid in s.pcs && key != 0 && s.pcs[tid] == GetProbe(key, d)
    requires Stops(s.t, key, d)
    ensures var i := Slot(key, d);
            Solo(s, tid, turns) ==
            State(s.t, s.pcs[tid := Returned(key, if s.t[i].key == key then s.t[i].value else 0)])
  {
    var i := Slot(key, d);
    var got := Returned(key, if s.t[i].key == key then s.t[i].value else 0);
    if s.t[i].key == 0 {
      SoloTurn(s, tid, 0, s.t, got);
      turns := 1;
    } else {
      var checks := State(s.t, s.pcs[tid := GetCheck(key, d)]);
      var last := State(s.t, s.pcs[tid := GetRead(key, d)]);
      SoloTurn(s, tid, 2, s.t, GetCheck(key, d));
      assert checks.pcs[tid := GetRead(key, d)] == last.pcs;
      SoloTurn(checks, tid, 1, s.t, GetRead(key, d));
      assert last.pcs[tid := got] == s.pcs[tid := got];
      SoloTurn(last, tid, 0, s.t, got);
      turns := 3;
    }
  }

  lemma GetPassesOn(s: State, tid: int, key: i32, d: nat, n: nat)
    requires |s.t| == CAPACITY && tid in s.pcs && key != 0 && s.pcs[tid] == GetProbe(key, d)
    requires !Stops(s.t, key, d)
    ensures Solo(s, tid, n + 2) == Solo(State(s.t, s.pcs[tid := GetProbe(key, d + 1)]), tid, n)
  {
    var checks := State(s.t, s.pcs[tid := GetCheck(key, d)]);
    assert checks.pcs[tid := GetProbe(key, d + 1)] == s.pcs[tid := GetProbe(key, d + 1)];
    SoloTurn(s, tid, n + 1, s.t, GetCheck(key, d));
    SoloTurn(checks, tid, n, s.t, GetProbe(key, d + 1));
  }

  lemma {:induction false} GetGoesOn(s: State, tid: int, key: i32, d: nat) returns (turns: nat)
    requires |s.t| == CAPACITY && tid in s.pcs && key != 0 && s.pcs[tid] == GetProbe(key, d)
    requires d <= Probe(s.t, key, 0) < CAPACITY
    ensures Solo(s, tid, turns) == State(s.t, s.pcs[tid := Returned(key, Lookup(s.t, key))])
    decreases CAPACITY - d
  {
    if d == Probe(s.t, key, 0) {
      turns := GetEndsHere(s, tid, key, d);
    } else {
      BeforeProbe(s.t, key, 0);
      assert !Stops(s.t, key, d);
      var next := State(s.t, s.pcs[tid := GetProbe(key, d + 1)]);
      var n := GetGoesOn(next, tid, key, d + 1);
      LastPlaceCounts(s.pcs, tid, GetProbe(key, d + 1), Returned(key, Lookup(s.t, key)));
      GetPassesOn(s, tid, key, d, n);
      turns := n + 2;
    }
  }

  /** ... and a get ends, and returns exactly what the sequential `get` does. */
  lemma GetAloneIsSequential(s: State, tid: int, key: i32) returns (turns: nat)
    requires |s.t| == CAPACITY && tid in s.pcs && AtRest(s.pcs[tid]) && key != 0
    requires Stored(s.t, key) || Stored(s.t, 0)
    ensures Enabled(s, tid, StartGet(key))
    ensures Solo(Step(s, tid, StartGet(key)), tid, turns) ==
            State(s.t, s.pcs[tid := Returned(key, Lookup(s.t, key))])
  {
    ProbingStopsExactlyWhen(s.t, key);
    var r := Step(s, tid, StartGet(key));
    turns := GetGoesOn(r, tid, key, 0);
    assert r.pcs[tid := Returned(key, Lookup(s.t, key))] == s.pcs[tid := Returned(key, Lookup(s.t, key))];
  }

  // ---------------------------------------------------------------- two adders of a new key can always store it twice

  /** These turns, all of threads `x` and `y` going on, lead from one state to the other. */
  ghost predicate GoOn(s: State, x: int, y: int, turns: seq<Turn>, r: State)
    decreases |turns|
  {
    if turns == [] then r == s
    else
      && turns[0].tid in {x, y} && turns[0].act.Go? && Enabled(s, turns[0].tid, Go)
      && GoOn(Step(s, turns[0].tid, Go), x, y, turns[1..], r)
  }

  lemma {:induction false} GoOnFurther(s: State, x: int, y: int, a: seq<Turn>, m: State, b: seq<Turn>, r: State)
    requires GoOn(s, x, y, a, m) && GoOn(m, x, y, b, r)
    ensures GoOn(s, x, y, a + b, r)
    decreases |a|
  {
    if a == [] {
      assert a + b == b;
    } else {
      assert (a + b)[1..] == a[1..] + b;
      GoOnFurther(Step(s, a[0].tid, Go), x, y, a[1..], m, b, r);
    }
  }

  /** The next empty slot of the probe for `q` from step `d` on is at step `p`, and `q` is not met before. */
  ghost predicate NextEmpty(t: seq<Entry>, q: i32, d: nat, p: nat)
    requires |t| == CAPACITY
  {
    d <= p && t[Slot(q, p)].key == 0 && forall e: nat :: d <= e < p ==> !Stops(t, q, e)
  }

  /** An adding thread, left alone, walks to that slot and is about to swap its key in. */
  lemma {:induction false} WalksToTheEmptySlot(s: State, x: int, y: int, z: int, p: nat) returns (turns: seq<Turn>)
    requires |s.t| == CAPACITY && z in {x, y} && z in s.pcs && Adds(s.pcs[z]) && !s.pcs[z].AddWrite?
    requires NextEmpty(s.t, s.pcs[z].key, s.pcs[z].d, p)
    requires s.pcs[z].AddCheck? ==> s.pcs[z].d < p
    ensures GoOn(s, x, y, turns, State(s.t, s.pcs[z := AddCas(s.pcs[z].key, s.pcs[z].value, p)]))
    decreases p - s.pcs[z].d, if s.pcs[z].AddProbe? then 1 else 0
  {
    var pc := s.pcs[z];
    var goal := State(s.t, s.pcs[z := AddCas(pc.key, pc.value, p)]);
    if pc.AddCas? && pc.d == p {
      turns := [];
      assert goal.pcs == s.pcs;
    } else {
      var r := Step(s, z, Go);
      assert pc.d < p ==> !Stops(s.t, pc.key, pc.d);
      assert r.t == s.t && r.pcs[z].key == pc.key && r.pcs[z].value == pc.value;
      var rest := WalksToTheEmptySlot(r, x, y, z, p);
      assert r.pcs[z := AddCas(pc.key, pc.value, p)] == goal.pcs;
      turns := [Turn(z, Go)] + rest;
    }
  }

  /** An empty slot that is not the one at step `p` comes within a round after `p`. */
  lemma NextEmptyAfter(t: seq<Entry>, q: i32, p: nat, i: int) returns (n: nat)
    requires |t| == CAPACITY && q != 0 && p < CAPACITY && 0 <= i < CAPACITY && t[i].key == 0
    requires forall e: nat :: p < e < p + CAPACITY ==> t[Slot(q, e)].key != q
    requires i != Slot(q, p)
    ensures NextEmpty(t, q, p + 1, n) && n < p + CAPACITY
  {
    var d := Distance(q, i);
    SlotAtDistance(q, i);
    var last: nat := if d > p then d else d + CAPACITY;
    SlotsRepeat(q, d);
    n := p + 1;
    while t[Slot(q, n)].key != 0
      invariant p < n <= last < p + CAPACITY
      invariant forall e: nat :: p + 1 <= e < n ==> !Stops(t, q, e)
      decreases last - n
    {
      n := n + 1;
    }
  }

  /** The key is stored nowhere, so the walk of each of its adders ends at the same empty slot. */
  lemma SameGoal(s: State, z: int, q: i32) returns (p: nat)
    requires Inv(s) && z in s.pcs && Adds(s.pcs[z]) && s.pcs[z].key == q && !Stored(s.t, q) && Stored(s.t, 0)
    ensures p == Probe(s.t, q, 0) < CAPACITY
    ensures NextEmpty(s.t, q, s.pcs[z].d, p) && !s.pcs[z].AddWrite? && (s.pcs[z].AddCheck? ==> s.pcs[z].d < p)
  {
    var pc := s.pcs[z];
    assert ThreadOk(s.t, pc);
    p := Probe(s.t, q, 0);
    ProbingStopsExactlyWhen(s.t, q);
    BeforeProbe(s.t, q, 0);
    assert Stops(s.t, q, p);
    assert s.t[Slot(q, p)].key == 0;
    if pc.d > p {
      assert false;
    }
  }

  /** The loser, having passed step `p`, goes on to the next empty slot and takes that too. */
  lemma LoserTakesTheNext(s: State, x: int, y: int, q: i32, p: nat, j: int) returns (turns: seq<Turn>, r: State)
    requires |s.t| == CAPACITY && y in s.pcs && s.pcs[y].AddProbe? && s.pcs[y].key == q != 0 && s.pcs[y].d == p + 1
    requires p < CAPACITY && s.t[Slot(q, p)].key == q
    requires forall e: nat :: p < e < p + CAPACITY ==> s.t[Slot(q, e)].key != q
    requires 0 <= j < CAPACITY && j != Slot(q, p) && s.t[j].key == 0
    ensures GoOn(s, x, y, turns, r) && |r.t| == CAPACITY && !OneSlotOf(r.t, q)
  {
    var n := NextEmptyAfter(s.t, q, p, j);
    var walk := WalksToTheEmptySlot(s, x, y, y, n);
    var c := State(s.t, s.pcs[y := AddCas(q, s.pcs[y].value, n)]);
    r := Step(c, y, Go);
    turns := walk + [Turn(y, Go)];
    assert [Turn(y, Go)][1..] == [];
    assert GoOn(c, x, y, [Turn(y, Go)], r);
    GoOnFurther(s, x, y, walk, c, [Turn(y, Go)], r);
    assert r.t[Slot(q, p)].key == q && r.t[Slot(q, n)].key == q && Slot(q, p) != Slot(q, n);
  }

  /** How the race ends, once both are about to swap the key into the same empty slot: the winner takes it, the loser
      goes on to the next empty one. */
  lemma BothAtTheSlot(s: State, x: int, y: int, q: i32, p: nat, j: int) returns (turns: seq<Turn>, r: State)
    requires Inv(s) && x != y && x in s.pcs && y in s.pcs && s.pcs[x].AddCas? && s.pcs[y].AddCas?
    requires s.pcs[x].key == s.pcs[y].key == q && s.pcs[x].d == s.pcs[y].d == p < CAPACITY
    requires !Stored(s.t, q) && s.t[Slot(q, p)].key == 0
    requires 0 <= j < CAPACITY && j != Slot(q, p) && s.t[j].key == 0
    ensures GoOn(s, x, y, turns, r) && |r.t| == CAPACITY && !OneSlotOf(r.t, q)
  {
    assert ThreadOk(s.t, s.pcs[x]);
    var a := Step(s, x, Go);
    var b := Step(a, y, Go);
    assert b.t == Claimed(s.t, Slot(q, p), q) && b.pcs[y] == AddProbe(q, s.pcs[y].value, p + 1);
    forall e: nat | p < e < p + CAPACITY
      ensures b.t[Slot(q, e)].key != q
    {
      OtherSlotWithinARound(q, p, e);
      assert s.t[Slot(q, e)].key != q;
    }
    var rest;
    rest, r := LoserTakesTheNext(b, x, y, q, p, j);
    turns := [Turn(x, Go)] + ([Turn(y, Go)] + rest);
    assert ([Turn(y, Go)] + rest)[1..] == rest;
    assert GoOn(a, x, y, [Turn(y, Go)] + rest, r);
    assert turns[1..] == [Turn(y, Go)] + rest;
  }

  lemma OtherSlotWithinARound(q: i32, p: nat, e: nat)
    requires p < CAPACITY && p < e < p + CAPACITY
    ensures Slot(q, e) != Slot(q, p)
  {
    DistanceIsUnique(q, p);
    if e < CAPACITY {
      DistanceIsUnique(q, e);
    } else {
      SlotsRepeat(q, e - CAPACITY);
      DistanceIsUnique(q, e - CAPACITY);
    }
  }

  /** Why two threads must not add the same new key: from every state in which two do, and two slots are empty, those
      two alone can go on so that the key is stored twice. */
  lemma AnyRaceCanStoreTwice(s: State, x: int, y: int, q: i32, i: int, j: int) returns (turns: seq<Turn>, r: State)
    requires Inv(s) && x != y && x in s.pcs && y in s.pcs && Adds(s.pcs[x]) && Adds(s.pcs[y])
    requires s.pcs[x].key == s.pcs[y].key == q && !Stored(s.t, q)
    requires 0 <= i < j < CAPACITY && s.t[i].key == s.t[j].key == 0
    ensures GoOn(s, x, y, turns, r) && |r.t| == CAPACITY && !OneSlotOf(r.t, q)
  {
    assert ThreadOk(s.t, s.pcs[x]);
    var p := SameGoal(s, x, q);
    var p' := SameGoal(s, y, q);
    var walkX := WalksToTheEmptySlot(s, x, y, x, p);
    var a := State(s.t, s.pcs[x := AddCas(q, s.pcs[x].value, p)]);
    var walkY := WalksToTheEmptySlot(a, x, y, y, p);
    var b := State(s.t, a.pcs[y := AddCas(q, s.pcs[y].value, p)]);
    assert Passed(s.t, q, p) by {
      BeforeProbe(s.t, q, 0);
      forall e: nat | e < p
        ensures s.t[Slot(q, e)].key != 0
      {
        assert !Stops(s.t, q, e);
      }
    }
    assert Inv(b);
    var race;
    race, r := BothAtTheSlot(b, x, y, q, p, if i == Slot(q, p) then j else i);
    GoOnFurther(a, x, y, walkY, b, race, r);
    GoOnFurther(s, x, y, walkX, a, walkY + race, r);
    turns := walkX + (walkY + race);
  }

  /** So what `MayStart` asks of a caller cannot be relaxed: an add started against it can end with its key stored
      twice, whenever two slots are empty. */
  lemma MayStartIsNeeded(s: State, turn: Turn, i: int, j: int) returns (x: int, turns: seq<Turn>, r: State)
    requires Inv(s) && Enabled(s, turn.tid, turn.act) && !MayStart(s, turn)
    requires 0 <= i < j < CAPACITY && s.t[i].key == s.t[j].key == 0
    ensures GoOn(Step(s, turn.tid, turn.act), x, turn.tid, turns, r)
    ensures |r.t| == CAPACITY && !OneSlotOf(r.t, turn.act.newKey)
  {
    x :| x in s.pcs && Adds(s.pcs[x]) && s.pcs[x].key == turn.act.newKey;
    StepKeepsInv(s, turn.tid, turn.act);
    turns, r := AnyRaceCanStoreTwice(Step(s, turn.tid, turn.act), x, turn.tid, turn.act.newKey, i, j);
  }

  /** Two threads add key 1 to this table; where they are after `n` turns, and whose turn is next. */
  function Race(t: seq<Entry>, n: nat): State
    requires |t| == CAPACITY
  {
    var u := Claimed(t, 1, 1);
    match n
    case 0 => State(t, map[0 := Ready, 1 := Ready])
    case 1 => State(t, map[0 := AddProbe(1, 5, 0), 1 := Ready])
    case 2 => State(t, map[0 := AddProbe(1, 5, 0), 1 := AddProbe(1, 6, 0)])
    case 3 => State(t, map[0 := AddCas(1, 5, 0), 1 := AddProbe(1, 6, 0)])
    case 4 => State(t, map[0 := AddCas(1, 5, 0), 1 := AddCas(1, 6, 0)])
    case 5 => State(u, map[0 := AddCheck(1, 5, 0), 1 := AddCas(1, 6, 0)])
    case 6 => State(u, map[0 := AddCheck(1, 5, 0), 1 := AddProbe(1, 6, 1)])
    case 7 => State(u, map[0 := AddCheck(1, 5, 0), 1 := AddCas(1, 6, 1)])
    case _ => State(Claimed(u, 2, 1), map[0 := AddCheck(1, 5, 0), 1 := AddCheck(1, 6, 1)])
  }

  function RaceTurn(n: nat): Turn {
    match n
    case 0 => Turn(0, StartAdd(1, 5))
    case 1 => Turn(1, StartAdd(1, 6))
    case 2 => Turn(0, Go)
    case 4 => Turn(0, Go)
    case _ => Turn(1, Go)
  }

  lemma RaceFollows(t: seq<Entry>, n: nat)
    requires |t| == CAPACITY && t[1].key == t[2].key == 0 && n < 8
    ensures Follows(Race(t, n), RaceTurn(n), Race(t, n + 1))
  {
    assert Slot(1, 0) == 1 && Slot(1, 1) == 2;
    var s, turn := Race(t, n), RaceTurn(n);
    assert Step(s, turn.tid, turn.act).pcs == Race(t, n + 1).pcs;
  }

  /** And it does happen: two threads add key 1 to the zeroed table, and after eight turns it stands in two slots. */
  lemma RaceHappens() returns (rs: seq<State>, turns: seq<Turn>)
    ensures Run(rs, turns) && |turns| == 8
    ensures LosesOwnKey(rs[5], turns[5].tid, turns[5].act) && ClaimsAgain(rs[7], turns[7].tid, turns[7].act)
    ensures Unique(rs[7].t) && !Unique(rs[8].t)
  {
    var t := seq(CAPACITY, _ => Entry(0, 0));
    rs, turns := seq(9, n requires n >= 0 => Race(t, n)), seq(8, n requires n >= 0 => RaceTurn(n));
    forall n | 0 <= n < 8
      ensures Follows(rs[n], turns[n], rs[n + 1])
    {
      RaceFollows(t, n);
    }
    assert Slot(1, 0) == 1 && Slot(1, 1) == 2;
    assert rs[7].t[1].key == 1 && rs[8].t[1].key == rs[8].t[2].key == 1;
  }
}
