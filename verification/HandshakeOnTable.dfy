/** The hand-over of requests on the real hint table: generator and workers run their programs, and each of their
    `add`s and `get`s is the sequence of steps that EpistleConcurrent gives it. Every step here is a step of Handshake,
    where an `add` or a `get` is atomic, or changes nothing that Handshake knows of. */
module HandshakeOnTable {
  import opened Kernel
  import E = Epistle
  import T = EpistleConcurrent
  import H = Handshake

  const FLAG_RUNNABLE := 0
  const FLAG_IDLE := 1

  /** The hints are in the table; the `hint` fields of `h` are not used. Thread `w` is worker `w`, and the thread after
      the last worker is the generator. */
  datatype Whole = Whole(h: H.State, s: T.State)

  /** The call of the table that a thread has to make where it stands. */
  datatype Call = NoCall | Add(key: E.i32, value: u32) | Get(key: E.i32)

  function WorkerCall(pc: H.WorkerPc, key: E.i32): Call {
    if pc.Register? || pc.GoIdle? then Add(key, FLAG_IDLE)
    else if pc.Poll? || pc.PollAgain? then Get(key)
    else NoCall
  }

  function GeneratorCall(g: H.GenPc, keys: seq<E.i32>): Call {
    match g
    case Visit(i) => if i < |keys| then Get(keys[i]) else NoCall
    case AssertIdle(i) => if i < |keys| then Get(keys[i]) else NoCall
    case MarkRunnable(i) => if i < |keys| then Add(keys[i], FLAG_RUNNABLE) else NoCall
    case ExitVisit(i) => if i < |keys| then Add(keys[i], FLAG_RUNNABLE) else NoCall
    case _ => NoCall
  }

  function CallOf(keys: seq<E.i32>, h: H.State, tid: nat): Call
    requires |keys| == |h.workers|
  {
    if tid < |keys| then WorkerCall(h.workers[tid].pc, keys[tid]) else GeneratorCall(h.gen, keys)
  }

  function StartOf(call: Call): T.Act
    requires !call.NoCall?
  {
    if call.Add? then T.StartAdd(call.key, call.value) else T.StartGet(call.key)
  }

  function Decoded(value: u32): H.Hint {
    if value == FLAG_IDLE then H.IDLE else H.RUNNABLE
  }

  datatype Move = ThreadMove(tid: nat, poll: H.Polled) | MainMove

  datatype Result = To(c: Whole) | Crash(line: nat)

  ghost predicate DistinctKeys(keys: seq<E.i32>) {
    && (forall w :: 0 <= w < |keys| ==> keys[w] != 0)
    && (forall v, w :: 0 <= v < w < |keys| ==> keys[v] != keys[w])
  }

  ghost predicate Shape(keys: seq<E.i32>, c: Whole) {
    && DistinctKeys(keys) && |keys| == |c.h.workers|
    && |c.s.t| == E.CAPACITY
    && forall tid :: 0 <= tid <= |keys| ==> tid in c.s.pcs
  }

  predicate Possible(keys: seq<E.i32>, m: Move) {
    m.ThreadMove? ==> m.tid <= |keys|
  }

  function Lift(r: H.Result, s: T.State): Result {
    match r
    case To(h) => To(Whole(h, s))
    case Crash(line) => Crash(line)
  }

  /** What a thread does next, its call having been answered. */
  function Resumed(batchMax: nat, h: H.State, tid: nat, poll: H.Polled): H.Result
    requires tid <= |h.workers|
  {
    if tid < |h.workers| then H.WorkerStep(batchMax, h, tid, false) else H.GenStep(batchMax, h, poll, false)
  }

  /** The worker whose flag the thread reads or writes. */
  function Subject(h: H.State, tid: nat): nat {
    if tid < |h.workers| then tid
    else
      match h.gen
      case Visit(i) => i
      case AssertIdle(i) => i
      case MarkRunnable(i) => i
      case ExitVisit(i) => i
      case _ => 0
  }

  /** The thread takes the answer of its call for the flag. */
  function Answered(h: H.State, tid: nat, pc: T.Pc): H.State {
    var w := Subject(h, tid);
    if w < |h.workers| && pc.Returned? then H.Put(h, w, h.workers[w].(hint := Decoded(pc.got))) else h
  }

  function Step(batchMax: nat, keys: seq<E.i32>, c: Whole, m: Move): Result
    requires Shape(keys, c) && Possible(keys, m)
  {
    match m
    case MainMove => Lift(H.MainStep(c.h), c.s)
    case ThreadMove(tid, poll) =>
      var call := CallOf(keys, c.h, tid);
      if call.NoCall? then Lift(Resumed(batchMax, c.h, tid, poll), c.s)
      else if T.AtRest(c.s.pcs[tid]) then To(c.(s := T.Step(c.s, tid, StartOf(call))))
      else
        var s := T.Step(c.s, tid, T.Go);
        if !T.AtRest(s.pcs[tid]) then To(c.(s := s))
        else Lift(Resumed(batchMax, Answered(c.h, tid, s.pcs[tid]), tid, poll), s)
  }

  // ---------------------------------------------------------------- what Handshake sees

  function Hints(keys: seq<E.i32>, t: seq<E.Entry>): (f: seq<H.Hint>)
    requires |t| == E.CAPACITY
    ensures |f| == |keys|
  {
    seq(|keys|, w requires 0 <= w < |keys| => Decoded(E.Lookup(t, keys[w])))
  }

  function WithHints(h: H.State, f: seq<H.Hint>): (r: H.State)
    requires |f| == |h.workers|
    ensures |r.workers| == |h.workers|
  {
    h.(workers := seq(|f|, w requires 0 <= w < |f| => h.workers[w].(hint := f[w])))
  }

  /** The state with each hint as a reader of the table would find it. */
  function Seen(keys: seq<E.i32>, c: Whole): H.State
    requires |keys| == |c.h.workers| && |c.s.t| == E.CAPACITY
  {
    WithHints(c.h, Hints(keys, c.s.t))
  }

  // ---------------------------------------------------------------- what the threads keep

  predicate Gets(pc: T.Pc) {
    pc.GetProbe? || pc.GetCheck? || pc.GetRead?
  }

  predicate InCall(pc: T.Pc, call: Call) {
    T.AtRest(pc) ||
    match call
    case NoCall => false
    case Add(key, value) => T.Adds(pc) && pc.key == key && pc.value == value
    case Get(key) => Gets(pc) && pc.key == key
  }

  /** The add is on its way to the slot readers look at. */
  ghost predicate OnTrack(t: seq<E.Entry>, pc: T.Pc)
    requires |t| == E.CAPACITY && T.Adds(pc)
  {
    T.PassedOthers(t, pc.key, pc.d) && (pc.AddCas? ==> !E.Stored(t, pc.key))
  }

  ghost predicate Linked(t: seq<E.Entry>, pc: T.Pc, call: Call, excused: bool)
    requires |t| == E.CAPACITY
  {
    InCall(pc, call) && (T.Adds(pc) && !excused ==> OnTrack(t, pc))
  }

  /** Where an add may be lost. */
  predicate Excused(h: H.State, tid: nat) {
    if tid < |h.workers| then h.workers[tid].pc.Register? && H.Exiting(h.gen) else h.gen.ExitVisit?
  }

  predicate Registered(x: H.Worker) {
    !x.pc.Start? && !x.pc.Register?
  }

  ghost predicate Inv(keys: seq<E.i32>, c: Whole) {
    && Shape(keys, c) && T.Inv(c.s)
    && (forall tid :: 0 <= tid <= |keys| ==> Linked(c.s.t, c.s.pcs[tid], CallOf(keys, c.h, tid), Excused(c.h, tid)))
    && (forall w :: 0 <= w < |keys| && Registered(c.h.workers[w]) ==> E.Stored(c.s.t, keys[w]))
    && (forall w :: 0 <= w < |keys| && H.Holds(c.h.gen, w) ==> E.Stored(c.s.t, keys[w]))
    && (forall w :: 0 <= w < |keys| ==> E.Lookup(c.s.t, keys[w]) in {FLAG_RUNNABLE, FLAG_IDLE})
  }

  lemma OwnStepOnTrack(t: seq<E.Entry>, pc: T.Pc)
    requires T.Reachable(t) && T.ThreadOk(t, pc) && T.Adds(pc) && OnTrack(t, pc)
    requires !T.AtRest(T.PcAfter(t, pc))
    ensures OnTrack(T.TableAfter(t, pc), T.PcAfter(t, pc))
  {
    if pc.AddProbe? && t[E.Slot(pc.key, pc.d)].key == 0 {
      T.NotStoredAtAnEmptyStop(t, pc.key, pc.d);
    }
    if pc.AddCas? && t[E.Slot(pc.key, pc.d)].key == 0 {
      T.ClaimKeepsReachable(t, pc.key, pc.d);
    }
    var u := T.TableAfter(t, pc);
    T.StillPassedOthers(t, u, pc.key, pc.d);
  }

  /** An add on track writes where readers look. */
  lemma OnTrackIsVisible(t: seq<E.Entry>, pc: T.Pc)
    requires |t| == E.CAPACITY && pc.AddWrite? && T.ThreadOk(t, pc) && OnTrack(t, pc)
    ensures T.Visible(t, pc.key, pc.d)
  {
    T.StopIsTheProbe(t, pc.key, pc.d);
  }

  /** A step stores no new key but the one that is swapped in. */
  lemma StoredBefore(t: seq<E.Entry>, pc: T.Pc, q: E.i32)
    requires |t| == E.CAPACITY && q != 0 && E.Stored(T.TableAfter(t, pc), q)
    ensures E.Stored(t, q) || (pc.AddCas? && pc.key == q && t[E.Slot(q, pc.d)].key == 0)
  {
    var u := T.TableAfter(t, pc);
    var i :| 0 <= i < |u| && u[i].key == q;
    assert t[i].key == q || u[i] != t[i];
  }

  /** Thread `tid`, in a call, makes its next step on the table. */
  function TableStep(keys: seq<E.i32>, c: Whole, tid: nat): T.State
    requires Shape(keys, c) && tid <= |keys| && !CallOf(keys, c.h, tid).NoCall?
  {
    T.Step(c.s, tid, if T.AtRest(c.s.pcs[tid]) then StartOf(CallOf(keys, c.h, tid)) else T.Go)
  }

  lemma OwnStepLinks(keys: seq<E.i32>, c: Whole, tid: nat)
    requires Inv(keys, c) && tid <= |keys| && !CallOf(keys, c.h, tid).NoCall?
    ensures var s := TableStep(keys, c, tid);
            Linked(s.t, s.pcs[tid], CallOf(keys, c.h, tid), Excused(c.h, tid))
  {
    var pc, s := c.s.pcs[tid], TableStep(keys, c, tid);
    assert Linked(c.s.t, pc, CallOf(keys, c.h, tid), Excused(c.h, tid));
    if T.Adds(pc) && T.Adds(s.pcs[tid]) && !Excused(c.h, tid) {
      OwnStepOnTrack(c.s.t, pc);
    }
  }

  /** Outside the exit phase the generator adds only keys that are stored, ... */
  lemma GeneratorAddsStoredKeys(keys: seq<E.i32>, c: Whole)
    requires Inv(keys, c) && T.Adds(c.s.pcs[|keys|]) && !c.h.gen.ExitVisit?
    ensures E.Stored(c.s.t, c.s.pcs[|keys|].key)
  {
    assert Linked(c.s.t, c.s.pcs[|keys|], GeneratorCall(c.h.gen, keys), Excused(c.h, |keys|));
    assert H.Holds(c.h.gen, c.h.gen.i);
  }

  /** ... and a worker that has registered adds a stored key. */
  lemma WorkerAddsItsKey(keys: seq<E.i32>, c: Whole, w: nat)
    requires Inv(keys, c) && w < |keys| && T.Adds(c.s.pcs[w])
    ensures c.s.pcs[w].key == keys[w]
    ensures c.h.workers[w].pc.Register? || E.Stored(c.s.t, keys[w])
  {
    assert Linked(c.s.t, c.s.pcs[w], CallOf(keys, c.h, w), Excused(c.h, w));
  }

  /** A key that another thread is adding on track is not given away. */
  lemma NotTaken(keys: seq<E.i32>, c: Whole, tid: nat, x: nat)
    requires Inv(keys, c) && tid <= |keys| && x <= |keys| && x != tid
    requires T.Adds(c.s.pcs[x]) && !Excused(c.h, x) && c.s.pcs[tid].AddCas? && c.s.pcs[tid].key == c.s.pcs[x].key
    ensures E.Stored(c.s.t, c.s.pcs[x].key)
  {
    if x == |keys| {
      GeneratorAddsStoredKeys(keys, c);
    } else {
      WorkerAddsItsKey(keys, c, x);
      if tid < |keys| {
        WorkerAddsItsKey(keys, c, tid);
      } else if !c.h.gen.ExitVisit? {
        GeneratorAddsStoredKeys(keys, c);
      }
    }
  }

  lemma OtherStaysLinked(keys: seq<E.i32>, c: Whole, tid: nat, x: nat)
    requires Inv(keys, c) && tid <= |keys| && !CallOf(keys, c.h, tid).NoCall? && x <= |keys| && x != tid
    ensures var s := TableStep(keys, c, tid);
            Linked(s.t, s.pcs[x], CallOf(keys, c.h, x), Excused(c.h, x))
  {
    var pc, q, s := c.s.pcs[tid], c.s.pcs[x], TableStep(keys, c, tid);
    assert Linked(c.s.t, q, CallOf(keys, c.h, x), Excused(c.h, x));
    if T.Adds(q) && !Excused(c.h, x) && !T.AtRest(pc) {
      T.StepKeepsInv(c.s, tid, T.Go);
      T.StillPassedOthers(c.s.t, s.t, q.key, q.d);
      if q.AddCas? && E.Stored(s.t, q.key) {
        StoredBefore(c.s.t, pc, q.key);
        NotTaken(keys, c, tid, x);
      }
    }
  }

  lemma FlagsStayFlags(keys: seq<E.i32>, c: Whole, tid: nat, w: nat)
    requires Inv(keys, c) && tid <= |keys| && !CallOf(keys, c.h, tid).NoCall? && w < |keys|
    ensures E.Lookup(TableStep(keys, c, tid).t, keys[w]) in {FLAG_RUNNABLE, FLAG_IDLE}
    ensures E.Stored(c.s.t, keys[w]) ==> E.Stored(TableStep(keys, c, tid).t, keys[w])
  {
    var act := if T.AtRest(c.s.pcs[tid]) then StartOf(CallOf(keys, c.h, tid)) else T.Go;
    assert Linked(c.s.t, c.s.pcs[tid], CallOf(keys, c.h, tid), Excused(c.h, tid));
    T.AddTakesEffectAtItsWrite(c.s, tid, act, keys[w]);
    T.StepKeepsInv(c.s, tid, act);
    if E.Stored(c.s.t, keys[w]) {
      T.StoredStays(c.s.t, TableStep(keys, c, tid).t, keys[w]);
    }
  }

  /** While the programs stand still, a step on the table keeps what the threads keep. */
  lemma TableStepKeepsInv(keys: seq<E.i32>, c: Whole, tid: nat)
    requires Inv(keys, c) && tid <= |keys| && !CallOf(keys, c.h, tid).NoCall?
    ensures Inv(keys, c.(s := TableStep(keys, c, tid)))
  {
    T.StepKeepsInv(c.s, tid, if T.AtRest(c.s.pcs[tid]) then StartOf(CallOf(keys, c.h, tid)) else T.Go);
    var d := c.(s := TableStep(keys, c, tid));
    forall x | 0 <= x <= |keys|
      ensures Linked(d.s.t, d.s.pcs[x], CallOf(keys, d.h, x), Excused(d.h, x))
    {
      if x == tid {
        OwnStepLinks(keys, c, tid);
      } else {
        OtherStaysLinked(keys, c, tid, x);
      }
    }
    forall w | 0 <= w < |keys|
      ensures E.Lookup(d.s.t, keys[w]) in {FLAG_RUNNABLE, FLAG_IDLE}
      ensures E.Stored(c.s.t, keys[w]) ==> E.Stored(d.s.t, keys[w])
    {
      FlagsStayFlags(keys, c, tid, w);
    }
  }

  /** An add is lost only where `Handshake` allows for it: the first one of a worker, or one of the generator, both in
      the exit phase. */
  lemma LostOnlyInTheExitPhase(keys: seq<E.i32>, c: Whole, tid: nat)
    requires Inv(keys, c) && tid <= |keys| && c.s.pcs[tid].AddWrite?
    requires !T.Visible(c.s.t, c.s.pcs[tid].key, c.s.pcs[tid].d)
    ensures H.Exiting(c.h.gen)
    ensures if tid < |keys| then c.h.workers[tid].pc.Register? else c.h.gen.ExitVisit?
  {
    assert Linked(c.s.t, c.s.pcs[tid], CallOf(keys, c.h, tid), Excused(c.h, tid));
    assert T.ThreadOk(c.s.t, c.s.pcs[tid]);
    if !Excused(c.h, tid) {
      OnTrackIsVisible(c.s.t, c.s.pcs[tid]);
    }
  }

  // ---------------------------------------------------------------- the programs move on

  /** Thread `tid` moves on, its call over: the others have the calls they had, and flags that are now relied on are
      stored. */
  lemma ProgramStepKeepsInv(keys: seq<E.i32>, h: H.State, s: T.State, tid: nat, g: H.State)
    requires Inv(keys, Whole(h, s)) && |g.workers| == |keys| && tid <= |keys| && T.AtRest(s.pcs[tid])
    requires forall x :: 0 <= x <= |keys| && x != tid ==>
               CallOf(keys, g, x) == CallOf(keys, h, x) && (Excused(h, x) ==> Excused(g, x))
    requires forall w :: 0 <= w < |keys| && Registered(g.workers[w]) ==> E.Stored(s.t, keys[w])
    requires forall w :: 0 <= w < |keys| && H.Holds(g.gen, w) ==> E.Stored(s.t, keys[w])
    ensures Inv(keys, Whole(g, s))
  {
    forall x | 0 <= x <= |keys|
      ensures Linked(s.t, s.pcs[x], CallOf(keys, g, x), Excused(g, x))
    {
      assert Linked(s.t, s.pcs[x], CallOf(keys, h, x), Excused(h, x));
    }
  }

  lemma WithHintsPut(h: H.State, f: seq<H.Hint>, w: nat, x: H.Worker)
    requires |f| == |h.workers| && w < |f|
    ensures WithHints(H.Put(h, w, x), f) == H.Put(WithHints(h, f), w, x.(hint := f[w]))
  {
    assert WithHints(H.Put(h, w, x), f).workers == H.Put(WithHints(h, f), w, x.(hint := f[w])).workers;
  }

  lemma WithHintsAt(h: H.State, f: seq<H.Hint>, w: nat, x: H.Worker, b: H.Hint)
    requires |f| == |h.workers| && w < |f|
    ensures WithHints(H.Put(h, w, x), f[w := b]) == H.Put(WithHints(h, f), w, x.(hint := b))
  {
    assert WithHints(H.Put(h, w, x), f[w := b]).workers == H.Put(WithHints(h, f), w, x.(hint := b)).workers;
  }

  /** The result, with the hints of the table. */
  function ResultWith(r: H.Result, f: seq<H.Hint>): H.Result
    requires r.To? ==> |r.s.workers| == |f|
  {
    match r
    case To(h) => H.To(WithHints(h, f))
    case Crash(line) => H.Crash(line)
  }

  /** Outside a call a worker does not look at its hint. */
  lemma HintMatters(batchMax: nat, x: H.Worker, b: H.Hint, c: H.Hint, exitAll: bool)
    requires !x.pc.Register? && !x.pc.GoIdle?
    requires x.pc.Poll? || x.pc.PollAgain? ==> b == c
    ensures var r := H.Advanced(batchMax, x.(hint := b), exitAll, false);
            var q := H.Advanced(batchMax, x.(hint := c), exitAll, false);
            if r.Now? then q == H.Now(r.x.(hint := c)) else q == r
  {
  }

  /** A worker that makes no `add` steps as if its hint were the one in the table, given the answer of its `get`. */
  lemma WorkerLooksAtItsAnswer(batchMax: nat, h: H.State, f: seq<H.Hint>, w: nat, b: H.Hint)
    requires |f| == |h.workers| && w < |f|
    requires !h.workers[w].pc.Register? && !h.workers[w].pc.GoIdle?
    requires h.workers[w].pc.Poll? || h.workers[w].pc.PollAgain? ==> b == f[w]
    ensures var g := H.Put(h, w, h.workers[w].(hint := b));
            ResultWith(H.WorkerStep(batchMax, g, w, false), f) == H.WorkerStep(batchMax, WithHints(h, f), w, false)
  {
    var x := h.workers[w];
    var g := H.Put(h, w, x.(hint := b));
    HintMatters(batchMax, x, b, f[w], h.exitAll);
    var r := H.Advanced(batchMax, x.(hint := b), h.exitAll, false);
    if r.Now? {
      assert H.WorkerStep(batchMax, g, w, false) == H.To(H.Put(g, w, r.x));
      assert H.Put(g, w, r.x) == H.Put(h, w, r.x);
      WithHintsPut(h, f, w, r.x);
    }
  }

  /** A worker whose `add` is over has set its hint, unless the add was lost. */
  lemma WorkerHasAdded(batchMax: nat, h: H.State, f: seq<H.Hint>, w: nat, lost: bool)
    requires |f| == |h.workers| && w < |f|
    requires h.workers[w].pc.Register? || h.workers[w].pc.GoIdle?
    requires lost ==> h.workers[w].pc.Register? && H.Exiting(h.gen)
    ensures ResultWith(H.WorkerStep(batchMax, h, w, false), if lost then f else f[w := H.IDLE]) ==
            H.WorkerStep(batchMax, WithHints(h, f), w, lost)
  {
    var y := h.workers[w].(pc := H.LoopHead);
    WithHintsPut(h, f, w, y);
    WithHintsAt(h, f, w, y, H.IDLE);
  }

  lemma HandedLooksAtNoHint(batchMax: nat, x: H.Worker, g: H.GenPc, b: H.Hint, poll: H.Polled)
    requires H.Handling(g) && !g.AssertIdle? && !g.MarkRunnable?
    ensures var r, q := H.Handed(batchMax, x, g, poll), H.Handed(batchMax, x.(hint := b), g, poll);
            if r.Goes? then q == H.Goes(r.x.(hint := b), r.g) else q == r
  {
  }

  lemma GeneratorHandsOver(batchMax: nat, h: H.State, f: seq<H.Hint>, poll: H.Polled)
    requires |f| == |h.workers| && H.Handling(h.gen) && h.gen.i < |f| && !h.gen.AssertIdle? && !h.gen.MarkRunnable?
    ensures ResultWith(H.GenStep(batchMax, h, poll, false), f) == H.GenStep(batchMax, WithHints(h, f), poll, false)
  {
    var x, i := h.workers[h.gen.i], h.gen.i;
    HandedLooksAtNoHint(batchMax, x, h.gen, f[i], poll);
    var r := H.Handed(batchMax, x, h.gen, poll);
    if r.Goes? {
      WithHintsPut(h, f, i, r.x);
      assert WithHints(H.Put(h, i, r.x).(gen := r.g), f) == WithHints(H.Put(h, i, r.x), f).(gen := r.g);
    }
  }

  /** Outside a call the generator looks at no hint. */
  lemma GeneratorLooksAtNoHint(batchMax: nat, h: H.State, f: seq<H.Hint>, poll: H.Polled)
    requires |f| == |h.workers|
    requires h.gen.Visit? || h.gen.AssertIdle? || h.gen.MarkRunnable? || h.gen.ExitVisit? ==> h.gen.i >= |f|
    ensures ResultWith(H.GenStep(batchMax, h, poll, false), f) == H.GenStep(batchMax, WithHints(h, f), poll, false)
  {
    if H.Handling(h.gen) && h.gen.i < |f| {
      GeneratorHandsOver(batchMax, h, f, poll);
    }
  }

  lemma GeneratorVisits(batchMax: nat, h: H.State, f: seq<H.Hint>, poll: H.Polled)
    requires |f| == |h.workers| && h.gen.Visit? && h.gen.i < |f|
    ensures var g := H.Put(h, h.gen.i, h.workers[h.gen.i].(hint := f[h.gen.i]));
            ResultWith(H.GenStep(batchMax, g, poll, false), f) == H.GenStep(batchMax, WithHints(h, f), poll, false)
  {
    WithHintsPut(h, f, h.gen.i, h.workers[h.gen.i].(hint := f[h.gen.i]));
  }

  lemma GeneratorAsserts(batchMax: nat, h: H.State, f: seq<H.Hint>, poll: H.Polled)
    requires |f| == |h.workers| && h.gen.AssertIdle? && h.gen.i < |f|
    ensures var g := H.Put(h, h.gen.i, h.workers[h.gen.i].(hint := f[h.gen.i]));
            ResultWith(H.GenStep(batchMax, g, poll, false), f) == H.GenStep(batchMax, WithHints(h, f), poll, false)
  {
    var i := h.gen.i;
    var x := h.workers[i].(hint := f[i]);
    WithHintsPut(h, f, i, x);
    assert WithHints(h, f).workers[i] == x;
    assert H.Put(WithHints(h, f), i, x) == WithHints(h, f);
    assert H.Put(H.Put(h, i, x), i, x) == H.Put(h, i, x);
  }

  lemma GeneratorLooksAtItsAnswer(batchMax: nat, h: H.State, f: seq<H.Hint>, poll: H.Polled)
    requires |f| == |h.workers| && (h.gen.Visit? || h.gen.AssertIdle?) && h.gen.i < |f|
    ensures var g := H.Put(h, h.gen.i, h.workers[h.gen.i].(hint := f[h.gen.i]));
            ResultWith(H.GenStep(batchMax, g, poll, false), f) == H.GenStep(batchMax, WithHints(h, f), poll, false)
  {
    if h.gen.Visit? {
      GeneratorVisits(batchMax, h, f, poll);
    } else {
      GeneratorAsserts(batchMax, h, f, poll);
    }
  }

  lemma GeneratorHasAdded(batchMax: nat, h: H.State, f: seq<H.Hint>, lost: bool, poll: H.Polled)
    requires |f| == |h.workers| && (h.gen.MarkRunnable? || h.gen.ExitVisit?) && h.gen.i < |f|
    requires lost ==> h.gen.ExitVisit?
    ensures ResultWith(H.GenStep(batchMax, h, poll, false), if lost then f else f[h.gen.i := H.RUNNABLE]) ==
            H.GenStep(batchMax, WithHints(h, f), poll, lost)
  {
    var y := h.workers[h.gen.i].(hint := H.RUNNABLE);
    WithHintsPut(h, f, h.gen.i, y);
    WithHintsAt(h, f, h.gen.i, y, H.RUNNABLE);
  }

  lemma MainLooksAtNoHint(h: H.State, f: seq<H.Hint>)
    requires |f| == |h.workers|
    ensures ResultWith(H.MainStep(h), f) == H.MainStep(WithHints(h, f))
  {
  }

  // ---------------------------------------------------------------- the simulation

  /** The thread is about to write a value that readers will not see. */
  predicate Loses(c: Whole, tid: nat)
    requires |c.s.t| == E.CAPACITY
  {
    && tid in c.s.pcs && c.s.pcs[tid].AddWrite?
    && !T.Visible(c.s.t, c.s.pcs[tid].key, c.s.pcs[tid].d)
  }

  /** Of all steps on the table, only the visible write of an `add` changes a hint, and only that of its key. */
  lemma HintsAfter(keys: seq<E.i32>, c: Whole, tid: nat, w: nat)
    requires Inv(keys, c) && tid <= |keys| && w < |keys|
    requires CallOf(keys, c.h, tid).Add? || CallOf(keys, c.h, tid).Get?
    requires CallOf(keys, c.h, tid).key == keys[w]
    ensures var f, g := Hints(keys, c.s.t), Hints(keys, TableStep(keys, c, tid).t);
            g == if c.s.pcs[tid].AddWrite? && !Loses(c, tid) then f[w := Decoded(c.s.pcs[tid].value)] else f
  {
    var pc := c.s.pcs[tid];
    var act := if T.AtRest(pc) then StartOf(CallOf(keys, c.h, tid)) else T.Go;
    assert Linked(c.s.t, pc, CallOf(keys, c.h, tid), Excused(c.h, tid));
    forall v | 0 <= v < |keys|
      ensures E.Lookup(TableStep(keys, c, tid).t, keys[v]) ==
              if pc.AddWrite? && !Loses(c, tid) && v == w then pc.value else E.Lookup(c.s.t, keys[v])
    {
      T.AddTakesEffectAtItsWrite(c.s, tid, act, keys[v]);
    }
  }

  lemma GetReturnsTheFlag(t: seq<E.Entry>, pc: T.Pc)
    requires |t| == E.CAPACITY && Gets(pc) && T.ThreadOk(t, pc) && T.AtRest(T.PcAfter(t, pc))
    ensures T.PcAfter(t, pc) == T.Returned(pc.key, E.Lookup(t, pc.key)) && T.TableAfter(t, pc) == t
  {
    T.StopIsTheProbe(t, pc.key, pc.d);
  }

  /** The answer of a `get` is the flag in the table. */
  lemma AnswerIsTheHint(keys: seq<E.i32>, c: Whole, tid: nat, w: nat)
    requires Inv(keys, c) && tid <= |keys| && w < |keys| && CallOf(keys, c.h, tid) == Get(keys[w])
    requires !T.AtRest(c.s.pcs[tid]) && T.AtRest(TableStep(keys, c, tid).pcs[tid])
    ensures TableStep(keys, c, tid).pcs[tid].Returned? && TableStep(keys, c, tid).t == c.s.t
    ensures Decoded(TableStep(keys, c, tid).pcs[tid].got) == Hints(keys, c.s.t)[w]
  {
    assert Linked(c.s.t, c.s.pcs[tid], CallOf(keys, c.h, tid), Excused(c.h, tid));
    assert T.ThreadOk(c.s.t, c.s.pcs[tid]);
    GetReturnsTheFlag(c.s.t, c.s.pcs[tid]);
  }

  lemma IdleIsStored(keys: seq<E.i32>, t: seq<E.Entry>, w: nat)
    requires |t| == E.CAPACITY && w < |keys| && Hints(keys, t)[w].IDLE?
    ensures E.Stored(t, keys[w])
  {
    assert E.Lookup(t, keys[w]) != 0;
  }

  /** An `add` that is over has stored its key. */
  lemma AddHasStored(keys: seq<E.i32>, c: Whole, tid: nat)
    requires Inv(keys, c) && tid <= |keys| && CallOf(keys, c.h, tid).Add?
    requires !T.AtRest(c.s.pcs[tid]) && T.AtRest(TableStep(keys, c, tid).pcs[tid])
    ensures c.s.pcs[tid].AddWrite? && c.s.pcs[tid].value == CallOf(keys, c.h, tid).value
    ensures !TableStep(keys, c, tid).pcs[tid].Returned?
    ensures E.Stored(c.s.t, CallOf(keys, c.h, tid).key)
  {
    var pc := c.s.pcs[tid];
    assert Linked(c.s.t, pc, CallOf(keys, c.h, tid), Excused(c.h, tid));
    assert T.ThreadOk(c.s.t, pc);
    assert c.s.t[E.Slot(pc.key, pc.d)].key == pc.key;
  }

  /** The step of Handshake that this move is, if it is one. */
  function Abstracted(keys: seq<E.i32>, c: Whole, m: Move): H.Move
    requires |c.s.t| == E.CAPACITY
  {
    match m
    case MainMove => H.MainMove
    case ThreadMove(tid, poll) =>
      if tid < |keys| then H.WorkerMove(tid, Loses(c, tid)) else H.GenMove(poll, Loses(c, tid))
  }

  /** The invariants of both levels. */
  ghost predicate Good(batchMax: nat, keys: seq<E.i32>, c: Whole) {
    Inv(keys, c) && H.Inv(batchMax, Seen(keys, c))
  }

  /** The move is survived, and is the step `m` of Handshake. */
  ghost predicate Matched(batchMax: nat, keys: seq<E.i32>, c: Whole, r: Result, m: H.Move)
    requires Inv(keys, c) && H.Possible(Seen(keys, c), m)
  {
    r.To? && Inv(keys, r.c) && H.Step(batchMax, Seen(keys, c), m) == H.To(Seen(keys, r.c))
  }

  lemma WorkerStepKeepsInv(batchMax: nat, keys: seq<E.i32>, h: H.State, s: T.State, w: nat, g: H.State)
    requires Inv(keys, Whole(h, s)) && w < |keys| && T.AtRest(s.pcs[w])
    requires H.WorkerStep(batchMax, h, w, false) == H.To(g)
    requires h.workers[w].pc.Register? ==> E.Stored(s.t, keys[w])
    ensures Inv(keys, Whole(g, s))
  {
    assert forall x :: 0 <= x < |keys| && x != w ==> g.workers[x] == h.workers[x];
    ProgramStepKeepsInv(keys, h, s, w, g);
  }

  /** A worker outside a call. */
  lemma WorkerAlone(batchMax: nat, keys: seq<E.i32>, c: Whole, w: nat, poll: H.Polled)
    requires Good(batchMax, keys, c) && w < |keys| && CallOf(keys, c.h, w).NoCall?
    ensures Matched(batchMax, keys, c, Step(batchMax, keys, c, ThreadMove(w, poll)), H.WorkerMove(w, Loses(c, w)))
  {
    var f, b := Hints(keys, c.s.t), c.h.workers[w].hint;
    assert Linked(c.s.t, c.s.pcs[w], CallOf(keys, c.h, w), Excused(c.h, w));
    assert H.Put(c.h, w, c.h.workers[w].(hint := b)) == c.h;
    WorkerLooksAtItsAnswer(batchMax, c.h, f, w, b);
    H.StepKeepsInv(batchMax, Seen(keys, c), H.WorkerMove(w, false));
    var g := H.WorkerStep(batchMax, c.h, w, false).s;
    WorkerStepKeepsInv(batchMax, keys, c.h, c.s, w, g);
  }

  lemma SamePcsKeepInv(keys: seq<E.i32>, h: H.State, s: T.State, g: H.State)
    requires Inv(keys, Whole(h, s)) && |g.workers| == |h.workers| && g.gen == h.gen
    requires forall w :: 0 <= w < |h.workers| ==> g.workers[w].pc == h.workers[w].pc
    ensures Inv(keys, Whole(g, s))
  {
    forall x | 0 <= x <= |keys|
      ensures Linked(s.t, s.pcs[x], CallOf(keys, g, x), Excused(g, x))
    {
      assert Linked(s.t, s.pcs[x], CallOf(keys, h, x), Excused(h, x));
    }
  }

  lemma WorkersAnswer(keys: seq<E.i32>, c: Whole, w: nat)
    requires Inv(keys, c) && w < |keys| && CallOf(keys, c.h, w).Get?
    requires !T.AtRest(c.s.pcs[w]) && T.AtRest(TableStep(keys, c, w).pcs[w])
    ensures var s, f := TableStep(keys, c, w), Hints(keys, c.s.t);
            && s.t == c.s.t && !c.s.pcs[w].AddWrite?
            && Answered(c.h, w, s.pcs[w]) == H.Put(c.h, w, c.h.workers[w].(hint := f[w]))
            && Inv(keys, Whole(Answered(c.h, w, s.pcs[w]), s))
  {
    assert Linked(c.s.t, c.s.pcs[w], CallOf(keys, c.h, w), Excused(c.h, w));
    TableStepKeepsInv(keys, c, w);
    AnswerIsTheHint(keys, c, w, w);
    var s := TableStep(keys, c, w);
    SamePcsKeepInv(keys, c.h, s, Answered(c.h, w, s.pcs[w]));
  }

  /** A worker whose `get` returns. */
  lemma WorkerGot(batchMax: nat, keys: seq<E.i32>, c: Whole, w: nat, poll: H.Polled)
    requires Good(batchMax, keys, c) && w < |keys| && CallOf(keys, c.h, w).Get?
    requires !T.AtRest(c.s.pcs[w]) && T.AtRest(TableStep(keys, c, w).pcs[w])
    ensures Matched(batchMax, keys, c, Step(batchMax, keys, c, ThreadMove(w, poll)), H.WorkerMove(w, Loses(c, w)))
  {
    var s, f := TableStep(keys, c, w), Hints(keys, c.s.t);
    WorkersAnswer(keys, c, w);
    WorkerLooksAtItsAnswer(batchMax, c.h, f, w, f[w]);
    H.StepKeepsInv(batchMax, Seen(keys, c), H.WorkerMove(w, false));
    var h := Answered(c.h, w, s.pcs[w]);
    WorkerStepKeepsInv(batchMax, keys, h, s, w, H.WorkerStep(batchMax, h, w, false).s);
  }

  /** A worker whose `add` returns. */
  lemma WorkerAdded(batchMax: nat, keys: seq<E.i32>, c: Whole, w: nat, poll: H.Polled)
    requires Good(batchMax, keys, c) && w < |keys| && CallOf(keys, c.h, w).Add?
    requires !T.AtRest(c.s.pcs[w]) && T.AtRest(TableStep(keys, c, w).pcs[w])
    ensures Matched(batchMax, keys, c, Step(batchMax, keys, c, ThreadMove(w, poll)), H.WorkerMove(w, Loses(c, w)))
  {
    var s, f := TableStep(keys, c, w), Hints(keys, c.s.t);
    TableStepKeepsInv(keys, c, w);
    AddHasStored(keys, c, w);
    HintsAfter(keys, c, w, w);
    if Loses(c, w) {
      LostOnlyInTheExitPhase(keys, c, w);
    }
    WorkerHasAdded(batchMax, c.h, f, w, Loses(c, w));
    H.StepKeepsInv(batchMax, Seen(keys, c), H.WorkerMove(w, Loses(c, w)));
    FlagsStayFlags(keys, c, w, w);
    WorkerStepKeepsInv(batchMax, keys, c.h, s, w, H.WorkerStep(batchMax, c.h, w, false).s);
  }

  /** A thread that makes a step on the table without returning from its call. */
  lemma InsideACall(keys: seq<E.i32>, c: Whole, tid: nat)
    requires Inv(keys, c) && tid <= |keys| && !CallOf(keys, c.h, tid).NoCall?
    requires T.AtRest(c.s.pcs[tid]) || !T.AtRest(TableStep(keys, c, tid).pcs[tid])
    ensures var d := c.(s := TableStep(keys, c, tid));
            Inv(keys, d) && Seen(keys, d) == Seen(keys, c)
  {
    TableStepKeepsInv(keys, c, tid);
    HintsAfter(keys, c, tid, Subject(c.h, tid));
  }

  lemma HandedLeavesTheWorker(batchMax: nat, x: H.Worker, g: H.GenPc, poll: H.Polled)
    requires H.Handling(g) && H.Handed(batchMax, x, g, poll).Goes?
    ensures var r := H.Handed(batchMax, x, g, poll);
            r.x.pc == x.pc && (H.Handling(r.g) ==> r.g.i == g.i)
  {
  }

  lemma GeneratorLeavesTheWorkers(batchMax: nat, h: H.State, poll: H.Polled, g: H.State)
    requires H.GenStep(batchMax, h, poll, false) == H.To(g)
    ensures |g.workers| == |h.workers|
    ensures forall w :: 0 <= w < |h.workers| ==> g.workers[w].pc == h.workers[w].pc
    ensures H.Exiting(h.gen) ==> H.Exiting(g.gen)
    ensures forall w :: 0 <= w < |h.workers| && H.Holds(g.gen, w) ==>
              H.Holds(h.gen, w) || (h.gen == H.Visit(w) && h.workers[w].hint.IDLE?)
  {
    if H.Handling(h.gen) {
      HandedLeavesTheWorker(batchMax, h.workers[h.gen.i], h.gen, poll);
    }
  }

  lemma GeneratorStepKeepsInv(batchMax: nat, keys: seq<E.i32>, h: H.State, s: T.State, poll: H.Polled, g: H.State)
    requires Inv(keys, Whole(h, s)) && T.AtRest(s.pcs[|keys|])
    requires H.GenStep(batchMax, h, poll, false) == H.To(g)
    requires h.gen.Visit? && h.gen.i < |keys| && h.workers[h.gen.i].hint.IDLE? ==> E.Stored(s.t, keys[h.gen.i])
    ensures Inv(keys, Whole(g, s))
  {
    GeneratorLeavesTheWorkers(batchMax, h, poll, g);
    ProgramStepKeepsInv(keys, h, s, |keys|, g);
  }

  /** The generator outside a call. */
  lemma GeneratorAlone(batchMax: nat, keys: seq<E.i32>, c: Whole, poll: H.Polled)
    requires Good(batchMax, keys, c) && GeneratorCall(c.h.gen, keys).NoCall?
    ensures var n := |keys|;
            Matched(batchMax, keys, c, Step(batchMax, keys, c, ThreadMove(n, poll)), H.GenMove(poll, Loses(c, n)))
  {
    var n, f := |keys|, Hints(keys, c.s.t);
    assert Linked(c.s.t, c.s.pcs[n], CallOf(keys, c.h, n), Excused(c.h, n));
    GeneratorLooksAtNoHint(batchMax, c.h, f, poll);
    H.StepKeepsInv(batchMax, Seen(keys, c), H.GenMove(poll, false));
    GeneratorStepKeepsInv(batchMax, keys, c.h, c.s, poll, H.GenStep(batchMax, c.h, poll, false).s);
  }

  /** The generator's `get` returns: the table is as it was, and a flag found idle is stored. */
  lemma GeneratorsAnswer(keys: seq<E.i32>, c: Whole)
    requires Inv(keys, c) && GeneratorCall(c.h.gen, keys).Get?
    requires !T.AtRest(c.s.pcs[|keys|]) && T.AtRest(TableStep(keys, c, |keys|).pcs[|keys|])
    ensures var n, i, f := |keys|, c.h.gen.i, Hints(keys, c.s.t);
            var s := TableStep(keys, c, n);
            && i < n && s.t == c.s.t && !c.s.pcs[n].AddWrite?
            && Answered(c.h, n, s.pcs[n]) == H.Put(c.h, i, c.h.workers[i].(hint := f[i]))
            && Inv(keys, Whole(Answered(c.h, n, s.pcs[n]), s))
            && (f[i].IDLE? ==> E.Stored(s.t, keys[i]))
  {
    var n, i, f := |keys|, c.h.gen.i, Hints(keys, c.s.t);
    assert Linked(c.s.t, c.s.pcs[n], CallOf(keys, c.h, n), Excused(c.h, n));
    TableStepKeepsInv(keys, c, n);
    AnswerIsTheHint(keys, c, n, i);
    if f[i].IDLE? {
      IdleIsStored(keys, c.s.t, i);
    }
    var s := TableStep(keys, c, n);
    SamePcsKeepInv(keys, c.h, s, Answered(c.h, n, s.pcs[n]));
  }

  /** The generator when its `get` returns. */
  lemma GeneratorGot(batchMax: nat, keys: seq<E.i32>, c: Whole, poll: H.Polled)
    requires Good(batchMax, keys, c) && GeneratorCall(c.h.gen, keys).Get?
    requires !T.AtRest(c.s.pcs[|keys|]) && T.AtRest(TableStep(keys, c, |keys|).pcs[|keys|])
    ensures var n := |keys|;
            Matched(batchMax, keys, c, Step(batchMax, keys, c, ThreadMove(n, poll)), H.GenMove(poll, Loses(c, n)))
  {
    var n, s := |keys|, TableStep(keys, c, |keys|);
    GeneratorsAnswer(keys, c);
    GeneratorLooksAtItsAnswer(batchMax, c.h, Hints(keys, c.s.t), poll);
    H.StepKeepsInv(batchMax, Seen(keys, c), H.GenMove(poll, false));
    var h := Answered(c.h, n, s.pcs[n]);
    GeneratorStepKeepsInv(batchMax, keys, h, s, poll, H.GenStep(batchMax, h, poll, false).s);
  }

  /** The generator when its `add` returns. */
  lemma GeneratorAdded(batchMax: nat, keys: seq<E.i32>, c: Whole, poll: H.Polled)
    requires Good(batchMax, keys, c) && GeneratorCall(c.h.gen, keys).Add?
    requires !T.AtRest(c.s.pcs[|keys|]) && T.AtRest(TableStep(keys, c, |keys|).pcs[|keys|])
    ensures var n := |keys|;
            Matched(batchMax, keys, c, Step(batchMax, keys, c, ThreadMove(n, poll)), H.GenMove(poll, Loses(c, n)))
  {
    var n, i, f := |keys|, c.h.gen.i, Hints(keys, c.s.t);
    var s := TableStep(keys, c, n);
    TableStepKeepsInv(keys, c, n);
    AddHasStored(keys, c, n);
    HintsAfter(keys, c, n, i);
    if Loses(c, n) {
      LostOnlyInTheExitPhase(keys, c, n);
    }
    GeneratorHasAdded(batchMax, c.h, f, Loses(c, n), poll);
    H.StepKeepsInv(batchMax, Seen(keys, c), H.GenMove(poll, Loses(c, n)));
    GeneratorStepKeepsInv(batchMax, keys, c.h, s, poll, H.GenStep(batchMax, c.h, poll, false).s);
  }

  lemma MainLeavesThePcs(h: H.State, g: H.State)
    requires H.MainStep(h) == H.To(g)
    ensures |g.workers| == |h.workers| && g.gen == h.gen
    ensures forall w :: 0 <= w < |h.workers| ==> g.workers[w].pc == h.workers[w].pc
  {
  }

  lemma MainMoves(batchMax: nat, keys: seq<E.i32>, c: Whole)
    requires Good(batchMax, keys, c)
    ensures Matched(batchMax, keys, c, Step(batchMax, keys, c, MainMove), H.MainMove)
  {
    MainLooksAtNoHint(c.h, Hints(keys, c.s.t));
    H.StepKeepsInv(batchMax, Seen(keys, c), H.MainMove);
    MainLeavesThePcs(c.h, H.MainStep(c.h).s);
    SamePcsKeepInv(keys, c.h, c.s, H.MainStep(c.h).s);
  }

  lemma ThreadMoves(batchMax: nat, keys: seq<E.i32>, c: Whole, tid: nat, poll: H.Polled)
    requires Good(batchMax, keys, c) && tid <= |keys|
    requires CallOf(keys, c.h, tid).NoCall? ||
             (!T.AtRest(c.s.pcs[tid]) && T.AtRest(TableStep(keys, c, tid).pcs[tid]))
    ensures var m := ThreadMove(tid, poll);
            Matched(batchMax, keys, c, Step(batchMax, keys, c, m), Abstracted(keys, c, m))
  {
    var call := CallOf(keys, c.h, tid);
    if tid < |keys| {
      match call
      case NoCall => WorkerAlone(batchMax, keys, c, tid, poll);
      case Get(_) => WorkerGot(batchMax, keys, c, tid, poll);
      case Add(_, _) => WorkerAdded(batchMax, keys, c, tid, poll);
    } else {
      match call
      case NoCall => GeneratorAlone(batchMax, keys, c, poll);
      case Get(_) => GeneratorGot(batchMax, keys, c, poll);
      case Add(_, _) => GeneratorAdded(batchMax, keys, c, poll);
    }
  }

  /** The thread is in a call, or begins one, and does not return from it in this move. */
  predicate StaysInside(keys: seq<E.i32>, c: Whole, m: Move)
    requires |keys| == |c.h.workers| && |c.s.t| == E.CAPACITY
  {
    && m.ThreadMove? && m.tid <= |keys| && m.tid in c.s.pcs
    && !CallOf(keys, c.h, m.tid).NoCall?
    && (T.AtRest(c.s.pcs[m.tid]) || !T.AtRest(T.PcAfter(c.s.t, c.s.pcs[m.tid])))
  }

  /** The move is survived. Inside a call it is the thread's next step on the table, the first one its start, and
      Handshake does not see it; otherwise it is a step of Handshake, in which an `add` is lost exactly if its write is
      not visible. */
  ghost predicate Simulated(batchMax: nat, keys: seq<E.i32>, c: Whole, m: Move) {
    && Good(batchMax, keys, c) && Possible(keys, m)
    && var r, a := Step(batchMax, keys, c, m), Abstracted(keys, c, m);
       && r.To? && Good(batchMax, keys, r.c) && H.Possible(Seen(keys, c), a)
       && if StaysInside(keys, c, m) then
            && r.c.h == c.h && Seen(keys, r.c) == Seen(keys, c)
            && var act := if T.AtRest(c.s.pcs[m.tid]) then StartOf(CallOf(keys, c.h, m.tid)) else T.Go;
               T.Enabled(c.s, m.tid, act) && r.c.s == T.Step(c.s, m.tid, act)
          else H.Step(batchMax, Seen(keys, c), a) == H.To(Seen(keys, r.c))
  }

  lemma MoveSimulates(batchMax: nat, keys: seq<E.i32>, c: Whole, m: Move)
    requires Good(batchMax, keys, c) && Possible(keys, m)
    ensures Simulated(batchMax, keys, c, m)
  {
    if m.MainMove? {
      MainMoves(batchMax, keys, c);
      H.StepKeepsInv(batchMax, Seen(keys, c), H.MainMove);
    } else if StaysInside(keys, c, m) {
      InsideACall(keys, c, m.tid);
    } else {
      ThreadMoves(batchMax, keys, c, m.tid, m.poll);
      H.StepKeepsInv(batchMax, Seen(keys, c), Abstracted(keys, c, m));
    }
  }

  // ---------------------------------------------------------------- calls return

  lemma CallEnds(s: T.State, tid: int, call: Call) returns (turns: nat)
    requires |s.t| == E.CAPACITY && tid in s.pcs && T.AtRest(s.pcs[tid]) && !call.NoCall? && call.key != 0
    requires E.Stored(s.t, call.key) || E.Stored(s.t, 0)
    ensures T.Enabled(s, tid, StartOf(call))
    ensures T.AtRest(T.Solo(T.Step(s, tid, StartOf(call)), tid, turns).pcs[tid])
  {
    if call.Add? {
      turns := T.AddAloneIsSequential(s, tid, call.key, call.value);
    } else {
      turns := T.GetAloneIsSequential(s, tid, call.key);
    }
  }

  /** Left alone, the thread is back from its call within that many moves. */
  ghost predicate BackWithin(batchMax: nat, keys: seq<E.i32>, c: Whole, tid: nat, poll: H.Polled, moves: nat)
    requires Shape(keys, c) && tid <= |keys|
    decreases moves
  {
    StaysInside(keys, c, ThreadMove(tid, poll)) ==>
      && moves > 0
      && var r := Step(batchMax, keys, c, ThreadMove(tid, poll));
         r.To? && Shape(keys, r.c) && BackWithin(batchMax, keys, r.c, tid, poll, moves - 1)
  }

  /** The thread is in a call that it would return from in that many turns on the table. */
  ghost predicate WillReturn(keys: seq<E.i32>, c: Whole, tid: nat, turns: nat)
    requires Shape(keys, c) && tid <= |keys|
  {
    && !CallOf(keys, c.h, tid).NoCall? && !T.AtRest(c.s.pcs[tid])
    && T.AtRest(T.Solo(c.s, tid, turns).pcs[tid])
  }

  lemma GoesOnInside(batchMax: nat, keys: seq<E.i32>, c: Whole, tid: nat, poll: H.Polled, turns: nat)
    requires Shape(keys, c) && tid <= |keys| && WillReturn(keys, c, tid, turns)
    requires StaysInside(keys, c, ThreadMove(tid, poll))
    ensures var r := Step(batchMax, keys, c, ThreadMove(tid, poll));
            && r.To? && Shape(keys, r.c)
            && turns > 0 && WillReturn(keys, r.c, tid, turns - 1)
  {
    T.SoloNext(c.s, tid, turns - 1);
  }

  lemma {:induction false} ReturnsInTime(batchMax: nat, keys: seq<E.i32>, c: Whole, tid: nat, poll: H.Polled,
                                         turns: nat)
    requires Shape(keys, c) && tid <= |keys| && WillReturn(keys, c, tid, turns)
    ensures BackWithin(batchMax, keys, c, tid, poll, turns)
    decreases turns
  {
    if StaysInside(keys, c, ThreadMove(tid, poll)) {
      GoesOnInside(batchMax, keys, c, tid, poll, turns);
      ReturnsInTime(batchMax, keys, Step(batchMax, keys, c, ThreadMove(tid, poll)).c, tid, poll, turns - 1);
    }
  }

  /** The start of a call, as a move. */
  lemma StartsTheCall(batchMax: nat, keys: seq<E.i32>, c: Whole, tid: nat, poll: H.Polled) returns (turns: nat)
    requires Shape(keys, c) && tid <= |keys| && !CallOf(keys, c.h, tid).NoCall? && T.AtRest(c.s.pcs[tid])
    requires E.Stored(c.s.t, CallOf(keys, c.h, tid).key) || E.Stored(c.s.t, 0)
    ensures var r := Step(batchMax, keys, c, ThreadMove(tid, poll));
            r.To? && Shape(keys, r.c) && WillReturn(keys, r.c, tid, turns)
  {
    turns := CallEnds(c.s, tid, CallOf(keys, c.h, tid));
  }

  /** In every state: a thread that has a call to make and is left alone makes it and is back from it after finitely
      many moves, as long as its key is stored or a slot is empty. All of them but the last are unseen by Handshake, and
      the last is one step of it, by `MoveSimulates`. */
  lemma CallsReturn(batchMax: nat, keys: seq<E.i32>, c: Whole, tid: nat, poll: H.Polled) returns (moves: nat)
    requires Shape(keys, c) && tid <= |keys| && !CallOf(keys, c.h, tid).NoCall? && T.AtRest(c.s.pcs[tid])
    requires E.Stored(c.s.t, CallOf(keys, c.h, tid).key) || E.Stored(c.s.t, 0)
    ensures BackWithin(batchMax, keys, c, tid, poll, moves)
  {
    var turns := StartsTheCall(batchMax, keys, c, tid, poll);
    ReturnsInTime(batchMax, keys, Step(batchMax, keys, c, ThreadMove(tid, poll)).c, tid, poll, turns);
    moves := turns + 1;
  }

  // ---------------------------------------------------------------- whole runs

  /** From any table the lord's process may have left, in which no worker's key is stored, with all threads outside
      their calls, any interleaving. */
  ghost predicate Run(batchMax: nat, keys: seq<E.i32>, cs: seq<Whole>, ms: seq<Move>) {
    && |cs| == |ms| + 1 && Shape(keys, cs[0])
    && cs[0].h == H.Init(|keys|)
    && T.Inv(cs[0].s) && (forall w :: 0 <= w < |keys| ==> !E.Stored(cs[0].s.t, keys[w]))
    && (forall tid :: tid in cs[0].s.pcs ==> cs[0].s.pcs[tid].Ready?)
    && forall k :: 0 <= k < |ms| ==>
         Shape(keys, cs[k]) && Possible(keys, ms[k]) && Step(batchMax, keys, cs[k], ms[k]) == To(cs[k + 1])
  }

  lemma StartIsGood(batchMax: nat, keys: seq<E.i32>, c: Whole)
    requires Shape(keys, c) && c.h == H.Init(|keys|)
    requires T.Inv(c.s) && forall w :: 0 <= w < |keys| ==> !E.Stored(c.s.t, keys[w])
    requires forall tid :: tid in c.s.pcs ==> c.s.pcs[tid].Ready?
    ensures Good(batchMax, keys, c) && Seen(keys, c) == H.Init(|keys|)
  {
    forall w | 0 <= w < |keys|
      ensures E.Lookup(c.s.t, keys[w]) == 0
    {
      AbsentReadsZero(c.s.t, keys[w]);
    }
    assert Seen(keys, c).workers == H.Init(|keys|).workers;
    InitIsGood(batchMax, |keys|);
  }

  lemma AbsentReadsZero(t: seq<E.Entry>, key: E.i32)
    requires |t| == E.CAPACITY && !E.Stored(t, key)
    ensures E.Lookup(t, key) == 0
  {
  }

  lemma InitIsGood(batchMax: nat, n: nat)
    ensures H.Inv(batchMax, H.Init(n))
  {
  }

  /** Over every interleaving of the table's steps, to the end of the exit phase: no assert fails, each move is one step
      of Handshake or none, and so all that holds of Handshake's states holds of what a reader of the table sees. */
  lemma {:induction false} RunsAreHandshakes(batchMax: nat, keys: seq<E.i32>, cs: seq<Whole>, ms: seq<Move>, k: nat,
                                             m: Move)
    requires Run(batchMax, keys, cs, ms) && k < |cs| && Possible(keys, m)
    ensures Simulated(batchMax, keys, cs[k], m)
  {
    if k == 0 {
      StartIsGood(batchMax, keys, cs[0]);
    } else {
      RunsAreHandshakes(batchMax, keys, cs, ms, k - 1, ms[k - 1]);
      MoveSimulates(batchMax, keys, cs[k - 1], ms[k - 1]);
    }
    MoveSimulates(batchMax, keys, cs[k], m);
  }

  /** In particular the batches are handed over as Handshake says, with the real table in between. */
  lemma BatchesAreHandedOver(batchMax: nat, keys: seq<E.i32>, cs: seq<Whole>, ms: seq<Move>, k: nat, w: nat)
    requires Run(batchMax, keys, cs, ms) && k < |cs| && w < |keys|
    ensures |cs[k].h.workers| == |keys| && |cs[k].s.t| == E.CAPACITY
    ensures H.HandedOver(Seen(keys, cs[k]).workers[w], cs[k].h.gen, w)
  {
    RunsAreHandshakes(batchMax, keys, cs, ms, k, MainMove);
    H.InvHandsOver(batchMax, Seen(keys, cs[k]), w);
  }
}
