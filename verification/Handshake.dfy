/** The load generator and its workers: a batch vector per worker, handed back and forth through the worker's epistle
    hint and an atomic counter. Each access to shared memory is one step; steps interleave at will. */
module Handshake {

  type Request = nat

  /** The epistle flag of a worker; a worker that has not registered reads as the default 0, RUNNABLE. */
  datatype Hint = RUNNABLE | IDLE

  datatype WorkerPc =
    | Start                       // raise worker_lock
    | Register                    // first add(tid, IDLE)
    | LoopHead                    // read exit_all
    | Poll                        // first get(tid)
    | PollAgain                   // the get(tid) of the assert
    | Fetch                       // find the work entry, load num_requests
    | CheckBatch(n: nat)          // the asserts on its size
    | Handle(n: nat, i: nat)      // request i of n
    | Finish                      // store 0 to num_requests
    | GoIdle                      // add(tid, IDLE)
    | Done

  /** A worker and what is shared with it. `polled` is history: the requests polled from the network for it. */
  datatype Worker = Worker(
    pc: WorkerPc,
    hint: Hint,
    started: bool,
    hasWork: bool,
    num: nat,
    batch: seq<Request>,
    finished: seq<Request>,
    polled: seq<Request>)

  datatype GenPc =
    | WaitForLock
    | Outer                       // read exit_all
    | Visit(i: nat)               // get(tid) of worker i
    | AssertNone(i: nat)          // the assert that num_requests is 0
    | Clear(i: nat)               // requests.clear()
    | Fill(i: nat, j: nat)        // poll request j
    | Publish(i: nat)             // store the size to num_requests, or give up
    | AssertIdle(i: nat)          // the get(tid) of the assert
    | MarkRunnable(i: nat)        // add(tid, RUNNABLE)
    | ExitOuter                   // read exit_generator
    | ExitVisit(i: nat)           // add(tid, RUNNABLE)
    | GenDone

  datatype MainPc =
    | Prepare(j: nat)             // wait for worker_lock[j], create its entries
    | Release                     // raise generator_lock
    | StopAll                     // raise exit_all
    | Join(j: nat)
    | StopGenerator               // raise exit_generator
    | MainDone

  datatype State = State(
    workers: seq<Worker>,
    gen: GenPc,
    main: MainPc,
    generatorLock: bool,
    exitAll: bool,
    exitGenerator: bool)

  datatype Polled = None | Some(r: Request)

  /** One step of one thread. `lost`: this add of a worker's key lost its compare-and-swap to the other thread's
      insertion of the same key, so its value went to a slot nobody reads. It counts only for a worker's first add in
      the exit phase of the generator and for the generator's own adds in it, where it adds keys without looking;
      `HandshakeOnTable` proves from the steps of the table that nothing else can be lost. */
  datatype Move = WorkerMove(w: nat, lost: bool) | GenMove(poll: Polled, lost: bool) | MainMove

  /** An assert that fails or a null work entry that is used, by its line. */
  datatype Result = To(s: State) | Crash(line: nat)

  predicate Exiting(g: GenPc) {
    g.ExitOuter? || g.ExitVisit? || g.GenDone?
  }

  datatype Advance = Now(x: Worker) | Fails(line: nat)

  /** A step of a worker changes its own record only. */
  function Advanced(batchMax: nat, x: Worker, exitAll: bool, lost: bool): Advance {
    match x.pc
    case Start => Now(x.(started := true, pc := Register))
    case Register => Now(x.(hint := if lost then x.hint else IDLE, pc := LoopHead))
    case LoopHead => Now(x.(pc := if exitAll then Done else Poll))
    case Poll => Now(x.(pc := if x.hint.IDLE? then LoopHead else PollAgain))
    case PollAgain => if x.hint.RUNNABLE? then Now(x.(pc := Fetch)) else Fails(462)
    case Fetch =>
      if !x.hasWork then Fails(463)
      else Now(x.(pc := if x.num == 0 then LoopHead else CheckBatch(x.num)))
    case CheckBatch(n) =>
      if n > batchMax then Fails(469)
      else if n != |x.batch| then Fails(470)
      else Now(x.(pc := Handle(n, 0)))
    case Handle(n, i) =>
      if i >= n then Now(x.(pc := Finish))
      else if i >= |x.batch| then Fails(474)
      else Now(x.(finished := x.finished + [x.batch[i]], pc := Handle(n, i + 1)))
    case Finish => Now(x.(num := 0, pc := GoIdle))
    case GoIdle => Now(x.(hint := IDLE, pc := LoopHead))
    case Done => Now(x)
  }

  function WorkerStep(batchMax: nat, s: State, w: nat, lost: bool): Result
    requires w < |s.workers|
  {
    match Advanced(batchMax, s.workers[w], s.exitAll, lost && Exiting(s.gen))
    case Now(x) => To(Put(s, w, x))
    case Fails(line) => Crash(line)
  }

  function Put(s: State, w: nat, x: Worker): State
    requires w < |s.workers|
  {
    s.(workers := s.workers[w := x])
  }

  datatype Turn = Goes(x: Worker, g: GenPc) | Breaks(line: nat)

  /** The generator's steps on the one worker it has found idle. */
  function Handed(batchMax: nat, x: Worker, g: GenPc, poll: Polled): Turn
    requires Handling(g)
  {
    match g
    case AssertNone(i) => if x.hasWork && x.num == 0 then Goes(x, Clear(i)) else Breaks(529)
    case Clear(i) => Goes(x.(batch := []), Fill(i, 0))
    case Fill(i, j) =>
      if j < batchMax && poll.Some? then
        Goes(x.(batch := x.batch + [poll.r], polled := x.polled + [poll.r]), Fill(i, j + 1))
      else Goes(x, Publish(i))
    case Publish(i) =>
      if x.batch == [] then Goes(x, Outer)
      else if |x.batch| > batchMax then Breaks(552)
      else Goes(x.(num := |x.batch|), AssertIdle(i))
    case AssertIdle(i) => if x.hint.IDLE? then Goes(x, MarkRunnable(i)) else Breaks(556)
    case MarkRunnable(i) => Goes(x.(hint := RUNNABLE), Visit(i + 1))
  }

  predicate Handling(g: GenPc) {
    g.AssertNone? || g.Clear? || g.Fill? || g.Publish? || g.AssertIdle? || g.MarkRunnable?
  }

  function GenStep(batchMax: nat, s: State, poll: Polled, lost: bool): Result {
    if Handling(s.gen) then
      if s.gen.i >= |s.workers| then Crash(520)
      else
        match Handed(batchMax, s.workers[s.gen.i], s.gen, poll)
        case Goes(x, g) => To(Put(s, s.gen.i, x).(gen := g))
        case Breaks(line) => Crash(line)
    else
      match s.gen
      case WaitForLock => To(if s.generatorLock then s.(gen := Outer) else s)
      case Outer => To(s.(gen := if s.exitAll then ExitOuter else Visit(0)))
      case Visit(i) =>
        if i >= |s.workers| then To(s.(gen := Outer))
        else To(s.(gen := if s.workers[i].hint.RUNNABLE? then Visit(i + 1) else AssertNone(i)))
      case ExitOuter => To(s.(gen := if s.exitGenerator then GenDone else ExitVisit(0)))
      case ExitVisit(i) =>
        if i >= |s.workers| then To(s.(gen := ExitOuter))
        else
          var x := s.workers[i];
          To(Put(s, i, x.(hint := if lost then x.hint else RUNNABLE)).(gen := ExitVisit(i + 1)))
      case GenDone => To(s)
  }

  function MainStep(s: State): Result {
    match s.main
    case Prepare(j) =>
      if j >= |s.workers| then To(s.(main := Release))
      else if !s.workers[j].started then To(s)
      else To(Put(s, j, s.workers[j].(hasWork := true, num := 0, batch := [], finished := [])).(main := Prepare(j + 1)))
    case Release => To(s.(generatorLock := true, main := StopAll))
    case StopAll => To(s.(exitAll := true, main := Join(0)))
    case Join(j) =>
      if j >= |s.workers| then To(s.(main := StopGenerator))
      else To(if s.workers[j].pc.Done? then s.(main := Join(j + 1)) else s)
    case StopGenerator => To(s.(exitGenerator := true, main := MainDone))
    case MainDone => To(s)
  }

  predicate Possible(s: State, m: Move) {
    m.WorkerMove? ==> m.w < |s.workers|
  }

  function Step(batchMax: nat, s: State, m: Move): Result
    requires Possible(s, m)
  {
    match m
    case WorkerMove(w, lost) => WorkerStep(batchMax, s, w, lost)
    case GenMove(poll, lost) => GenStep(batchMax, s, poll, lost)
    case MainMove => MainStep(s)
  }

  function Init(n: nat): State {
    State(seq(n, _ => Worker(Start, RUNNABLE, false, false, 0, [], [], [])),
          WaitForLock, Prepare(0), false, false, false)
  }

  // ---------------------------------------------------------------- the invariant

  /** The generator is between having seen worker `w` idle and marking it runnable. */
  predicate Holds(g: GenPc, w: nat) {
    Handling(g) && g.i == w
  }

  /** ... and has put a new batch, or the start of one, into the vector. */
  predicate Filling(g: GenPc, w: nat) {
    (g.Fill? || g.Publish? || g.AssertIdle? || g.MarkRunnable?) && g.i == w
  }

  predicate Announced(g: GenPc, w: nat) {
    (g.AssertIdle? || g.MarkRunnable?) && g.i == w
  }

  /** The generator may be writing the batch vector of `w`. */
  predicate GenWrites(g: GenPc, w: nat) {
    (g.Clear? || g.Fill? || g.Publish?) && g.i == w
  }

  /** The worker may be reading its batch vector. */
  predicate WorkerReads(pc: WorkerPc) {
    pc.CheckBatch? || pc.Handle? || pc.Finish?
  }

  predicate Busy(pc: WorkerPc) {
    pc.PollAgain? || pc.Fetch? || WorkerReads(pc) || pc.GoIdle?
  }

  predicate Fresh(x: Worker) {
    x.num == 0 && x.batch == [] && x.finished == [] && x.polled == []
  }

  /** The requests handed to the worker, or being handed to it, that it has not finished. */
  function Pending(x: Worker, g: GenPc, w: nat): seq<Request> {
    if Filling(g, w) then x.batch
    else if Holds(g, w) then []
    else if x.pc.Handle? && x.pc.i <= |x.batch| then x.batch[x.pc.i..]
    else if x.pc.Finish? || x.num == 0 then []
    else x.batch
  }

  ghost predicate Control(batchMax: nat, x: Worker, g: GenPc, w: nat) {
    && (x.pc.Start? <==> !x.started)
    && (x.hasWork ==> x.started)
    && (x.pc.Start? || x.pc.Register? || !x.hasWork ==> Fresh(x) && !Holds(g, w))
    && (x.pc.Start? || x.pc.Register? ==> x.hint.RUNNABLE?)
    && (x.hint.RUNNABLE? && !x.pc.Start? && !x.pc.Register? ==> x.hasWork)
    && (Busy(x.pc) ==> x.hint.RUNNABLE?)
    && (Holds(g, w) ==> x.hint.IDLE?)
    && (x.hint.IDLE? ==> (x.num != 0 <==> Announced(g, w)))
    && (x.num != 0 ==> x.num == |x.batch| <= batchMax)
    && (g.Fill? && g.i == w ==> |x.batch| == g.j <= batchMax)
    && (g.Publish? && g.i == w ==> |x.batch| <= batchMax)
    && (x.pc.CheckBatch? ==> x.pc.n == x.num != 0)
    && (x.pc.Handle? ==> x.pc.n == x.num != 0 && x.pc.i <= x.pc.n)
    && (x.pc.Finish? ==> x.num != 0)
    && (x.pc.GoIdle? ==> x.num == 0)
  }

  predicate History(x: Worker, g: GenPc, w: nat) {
    x.polled == x.finished + Pending(x, g, w)
  }

  ghost predicate WorkerInv(batchMax: nat, x: Worker, g: GenPc, w: nat) {
    Control(batchMax, x, g, w) && History(x, g, w)
  }

  predicate InRange(g: GenPc, n: nat) {
    Handling(g) ==> g.i < n
  }

  /** Who has started, and that the work entries exist before the generator is let go. */
  ghost predicate Globals(s: State) {
    && InRange(s.gen, |s.workers|)
    && (!s.gen.WaitForLock? ==> s.generatorLock)
    && (s.generatorLock ==> !s.main.Prepare?)
    && (s.main.Prepare? ==> s.main.j <= |s.workers|)
    && forall w :: 0 <= w < |s.workers| ==> (s.workers[w].hasWork <==> s.main.Prepare? ==> w < s.main.j)
  }

  ghost predicate AllWorkers(batchMax: nat, s: State) {
    forall w :: 0 <= w < |s.workers| ==> WorkerInv(batchMax, s.workers[w], s.gen, w)
  }

  ghost predicate Inv(batchMax: nat, s: State) {
    AllWorkers(batchMax, s) && Globals(s)
  }

  lemma LookingKeepsControl(batchMax: nat, x: Worker, g: GenPc, w: nat, exitAll: bool, lost: bool)
    requires Control(batchMax, x, g, w) && (lost ==> x.hasWork)
    requires x.pc.Start? || x.pc.Register? || x.pc.LoopHead? || x.pc.Poll? || x.pc.PollAgain? || x.pc.Fetch?
    ensures var r := Advanced(batchMax, x, exitAll, lost);
            r.Now? && Control(batchMax, r.x, g, w) && r.x.hasWork == x.hasWork
  {
  }

  lemma WorkingKeepsControl(batchMax: nat, x: Worker, g: GenPc, w: nat, exitAll: bool, lost: bool)
    requires Control(batchMax, x, g, w) && (WorkerReads(x.pc) || x.pc.GoIdle? || x.pc.Done?)
    ensures var r := Advanced(batchMax, x, exitAll, lost);
            r.Now? && Control(batchMax, r.x, g, w) && r.x.hasWork == x.hasWork
  {
  }

  lemma AdvanceKeepsControl(batchMax: nat, x: Worker, g: GenPc, w: nat, exitAll: bool, lost: bool)
    requires Control(batchMax, x, g, w) && (lost ==> x.hasWork)
    ensures var r := Advanced(batchMax, x, exitAll, lost);
            r.Now? && Control(batchMax, r.x, g, w) && r.x.hasWork == x.hasWork
  {
    if WorkerReads(x.pc) || x.pc.GoIdle? || x.pc.Done? {
      WorkingKeepsControl(batchMax, x, g, w, exitAll, lost);
    } else {
      LookingKeepsControl(batchMax, x, g, w, exitAll, lost);
    }
  }

  lemma AdvanceKeepsHistory(batchMax: nat, x: Worker, g: GenPc, w: nat, exitAll: bool, lost: bool)
    requires Control(batchMax, x, g, w) && History(x, g, w) && Advanced(batchMax, x, exitAll, lost).Now?
    ensures History(Advanced(batchMax, x, exitAll, lost).x, g, w)
  {
    if x.pc.Handle? && x.pc.i < x.pc.n {
      HandlingOneMovesIt(x, g, w);
    }
  }

  /** Handling a request moves it from the pending ones to the finished ones. */
  lemma HandlingOneMovesIt(x: Worker, g: GenPc, w: nat)
    requires x.pc.Handle? && x.pc.i < |x.batch| && !Holds(g, w)
    ensures var y := x.(finished := x.finished + [x.batch[x.pc.i]], pc := Handle(x.pc.n, x.pc.i + 1));
            y.finished + Pending(y, g, w) == x.finished + Pending(x, g, w)
  {
    assert x.batch[x.pc.i..] == [x.batch[x.pc.i]] + x.batch[x.pc.i + 1..];
  }

  lemma WorkerKeepsInv(batchMax: nat, s: State, w: nat, lost: bool)
    requires Inv(batchMax, s) && w < |s.workers|
    ensures WorkerStep(batchMax, s, w, lost).To? && Inv(batchMax, WorkerStep(batchMax, s, w, lost).s)
  {
    assert WorkerInv(batchMax, s.workers[w], s.gen, w);
    AdvanceKeepsControl(batchMax, s.workers[w], s.gen, w, s.exitAll, lost && Exiting(s.gen));
    AdvanceKeepsHistory(batchMax, s.workers[w], s.gen, w, s.exitAll, lost && Exiting(s.gen));
  }

  /** A worker the generator does not handle does not notice its steps. */
  lemma OthersKeepInv(batchMax: nat, x: Worker, g: GenPc, h: GenPc, w: nat)
    requires WorkerInv(batchMax, x, g, w) && !Holds(g, w) && !Holds(h, w)
    ensures WorkerInv(batchMax, x, h, w)
  {
  }

  lemma HandedKeepsControl(batchMax: nat, x: Worker, g: GenPc, w: nat, poll: Polled)
    requires Control(batchMax, x, g, w) && Holds(g, w)
    ensures var r := Handed(batchMax, x, g, poll);
            && r.Goes? && Control(batchMax, r.x, r.g, w) && r.x.hasWork == x.hasWork
            && (Handling(r.g) ==> r.g.i == w) && !r.g.WaitForLock?
  {
  }

  lemma HandedKeepsHistory(batchMax: nat, x: Worker, g: GenPc, w: nat, poll: Polled)
    requires Control(batchMax, x, g, w) && History(x, g, w) && Holds(g, w) && Handed(batchMax, x, g, poll).Goes?
    ensures History(Handed(batchMax, x, g, poll).x, Handed(batchMax, x, g, poll).g, w)
  {
  }

  lemma OthersStandBy(batchMax: nat, s: State, i: nat, x: Worker, h: GenPc)
    requires AllWorkers(batchMax, s) && i < |s.workers| && Holds(s.gen, i) && (Handling(h) ==> h.i == i)
    requires WorkerInv(batchMax, x, h, i)
    ensures AllWorkers(batchMax, Put(s, i, x).(gen := h))
  {
    forall w | 0 <= w < |s.workers| && w != i
      ensures WorkerInv(batchMax, s.workers[w], h, w)
    {
      assert WorkerInv(batchMax, s.workers[w], s.gen, w);
      OthersKeepInv(batchMax, s.workers[w], s.gen, h, w);
    }
  }

  /** While the generator handles one worker ... */
  lemma HandlingKeepsInv(batchMax: nat, s: State, poll: Polled, lost: bool)
    requires Inv(batchMax, s) && Handling(s.gen)
    ensures GenStep(batchMax, s, poll, lost).To? && Inv(batchMax, GenStep(batchMax, s, poll, lost).s)
  {
    var i := s.gen.i;
    assert WorkerInv(batchMax, s.workers[i], s.gen, i);
    HandedKeepsControl(batchMax, s.workers[i], s.gen, i, poll);
    HandedKeepsHistory(batchMax, s.workers[i], s.gen, i, poll);
    var r := Handed(batchMax, s.workers[i], s.gen, poll);
    OthersStandBy(batchMax, s, i, r.x, r.g);
  }

  lemma FoundIdle(batchMax: nat, x: Worker, g: GenPc, w: nat)
    requires WorkerInv(batchMax, x, g, w) && g == Visit(w) && x.hint.IDLE? && x.hasWork
    ensures WorkerInv(batchMax, x, AssertNone(w), w)
  {
  }

  lemma WokenForExit(batchMax: nat, x: Worker, g: GenPc, w: nat, lost: bool)
    requires WorkerInv(batchMax, x, g, w) && g == ExitVisit(w) && x.hasWork
    ensures WorkerInv(batchMax, x.(hint := if lost then x.hint else RUNNABLE), ExitVisit(w + 1), w)
  {
  }

  lemma RoundKeepsWorker(batchMax: nat, s: State, poll: Polled, lost: bool, w: nat)
    requires Inv(batchMax, s) && !Handling(s.gen) && w < |s.workers|
    ensures var r := GenStep(batchMax, s, poll, lost);
            r.To? && |r.s.workers| == |s.workers| && WorkerInv(batchMax, r.s.workers[w], r.s.gen, w)
  {
    var t := GenStep(batchMax, s, poll, lost).s;
    assert WorkerInv(batchMax, s.workers[w], s.gen, w);
    if s.gen == ExitVisit(w) {
      WokenForExit(batchMax, s.workers[w], s.gen, w, lost);
    } else {
      assert t.workers[w] == s.workers[w];
      if Holds(t.gen, w) {
        FoundIdle(batchMax, s.workers[w], s.gen, w);
      } else {
        OthersKeepInv(batchMax, s.workers[w], s.gen, t.gen, w);
      }
    }
  }

  lemma RoundKeepsGlobals(batchMax: nat, s: State, poll: Polled, lost: bool)
    requires Globals(s) && !Handling(s.gen)
    ensures GenStep(batchMax, s, poll, lost).To? && Globals(GenStep(batchMax, s, poll, lost).s)
  {
  }

  /** ... and while it goes round. */
  lemma RoundKeepsInv(batchMax: nat, s: State, poll: Polled, lost: bool)
    requires Inv(batchMax, s) && !Handling(s.gen)
    ensures GenStep(batchMax, s, poll, lost).To? && Inv(batchMax, GenStep(batchMax, s, poll, lost).s)
  {
    RoundKeepsGlobals(batchMax, s, poll, lost);
    var t := GenStep(batchMax, s, poll, lost).s;
    forall w | 0 <= w < |t.workers|
      ensures WorkerInv(batchMax, t.workers[w], t.gen, w)
    {
      RoundKeepsWorker(batchMax, s, poll, lost, w);
    }
  }

  lemma GenKeepsInv(batchMax: nat, s: State, poll: Polled, lost: bool)
    requires Inv(batchMax, s)
    ensures GenStep(batchMax, s, poll, lost).To? && Inv(batchMax, GenStep(batchMax, s, poll, lost).s)
  {
    if Handling(s.gen) {
      HandlingKeepsInv(batchMax, s, poll, lost);
    } else {
      RoundKeepsInv(batchMax, s, poll, lost);
    }
  }

  lemma PreparedKeepsInv(batchMax: nat, x: Worker, g: GenPc, w: nat)
    requires WorkerInv(batchMax, x, g, w) && x.started && !x.hasWork
    ensures WorkerInv(batchMax, x.(hasWork := true, num := 0, batch := [], finished := []), g, w)
  {
  }

  lemma MainKeepsInv(batchMax: nat, s: State)
    requires Inv(batchMax, s)
    ensures MainStep(s).To? && Inv(batchMax, MainStep(s).s)
  {
    if s.main.Prepare? && s.main.j < |s.workers| && s.workers[s.main.j].started {
      PreparedKeepsInv(batchMax, s.workers[s.main.j], s.gen, s.main.j);
    }
  }

  // ---------------------------------------------------------------- theorems over every interleaving

  ghost predicate Run(batchMax: nat, n: nat, ss: seq<State>, ms: seq<Move>) {
    && |ss| == |ms| + 1 && ss[0] == Init(n)
    && forall k :: 0 <= k < |ms| ==> Possible(ss[k], ms[k]) && Step(batchMax, ss[k], ms[k]) == To(ss[k + 1])
  }

  /** Over every interleaving of any number of workers, the generator and the main thread, from the start to the end of
      the exit phase: no assert fails and no missing work entry is used. */
  lemma {:induction false} NoAssertFails(batchMax: nat, n: nat, ss: seq<State>, ms: seq<Move>, k: nat, m: Move)
    requires Run(batchMax, n, ss, ms) && k < |ss| && Possible(ss[k], m)
    ensures Inv(batchMax, ss[k])
    ensures Step(batchMax, ss[k], m).To?
  {
    if k > 0 {
      NoAssertFails(batchMax, n, ss, ms, k - 1, ms[k - 1]);
      StepKeepsInv(batchMax, ss[k - 1], ms[k - 1]);
    }
    StepKeepsInv(batchMax, ss[k], m);
  }

  lemma StepKeepsInv(batchMax: nat, s: State, m: Move)
    requires Inv(batchMax, s) && Possible(s, m)
    ensures Step(batchMax, s, m).To? && Inv(batchMax, Step(batchMax, s, m).s)
  {
    match m
    case WorkerMove(w, lost) => WorkerKeepsInv(batchMax, s, w, lost);
    case GenMove(poll, lost) => GenKeepsInv(batchMax, s, poll, lost);
    case MainMove => MainKeepsInv(batchMax, s);
  }

  /** While the generator clears or fills the batch its worker is not reading it and, before the generator marks it
      runnable, cannot get to; and the finished requests followed by the unfinished part of the batch are exactly the
      requests polled for the worker, in order. */
  predicate HandedOver(x: Worker, g: GenPc, w: nat) {
    && (GenWrites(g, w) ==> x.hint.IDLE? && !WorkerReads(x.pc) && !x.pc.PollAgain? && !x.pc.Fetch?)
    && x.polled == x.finished + Pending(x, g, w)
  }

  lemma InvHandsOver(batchMax: nat, s: State, w: nat)
    requires Inv(batchMax, s) && w < |s.workers|
    ensures HandedOver(s.workers[w], s.gen, w)
  {
    assert WorkerInv(batchMax, s.workers[w], s.gen, w);
  }

  /** So it is for each worker over every interleaving. */
  lemma BatchesAreHandedOver(batchMax: nat, n: nat, ss: seq<State>, ms: seq<Move>, k: nat, w: nat)
    requires Run(batchMax, n, ss, ms) && k < |ss| && w < |ss[k].workers|
    ensures HandedOver(ss[k].workers[w], ss[k].gen, w)
  {
    NoAssertFails(batchMax, n, ss, ms, k, MainMove);
    InvHandsOver(batchMax, ss[k], w);
  }

  // ---------------------------------------------------------------- progress of each side

  /** A worker left alone for some steps, before or after `exit_all` was raised. */
  function Alone(batchMax: nat, x: Worker, exitAll: bool, steps: nat): Worker
    decreases steps
  {
    if steps == 0 then x
    else
      match Advanced(batchMax, x, exitAll, false)
      case Now(y) => Alone(batchMax, y, exitAll, steps - 1)
      case Fails(_) => x
  }

  lemma AloneNext(batchMax: nat, x: Worker, exitAll: bool, steps: nat, y: Worker)
    requires Advanced(batchMax, x, exitAll, false) == Now(y)
    ensures Alone(batchMax, x, exitAll, steps + 1) == Alone(batchMax, y, exitAll, steps)
  {
  }

  lemma {:induction false} HandlesTheRest(batchMax: nat, x: Worker, exitAll: bool, n: nat, i: nat)
    requires x.pc == Handle(n, i) && i <= n == |x.batch|
    ensures Alone(batchMax, x, exitAll, n - i + 3) ==
            x.(finished := x.finished + x.batch[i..], num := 0, hint := IDLE, pc := LoopHead)
    decreases n - i
  {
    if i < n {
      var y := x.(finished := x.finished + [x.batch[i]], pc := Handle(n, i + 1));
      AloneNext(batchMax, x, exitAll, n - i + 2, y);
      HandlesTheRest(batchMax, y, exitAll, n, i + 1);
      assert x.finished + [x.batch[i]] + x.batch[i + 1..] == x.finished + x.batch[i..];
    } else {
      var y := x.(pc := Finish);
      var z := x.(num := 0, pc := GoIdle);
      AloneNext(batchMax, x, exitAll, 2, y);
      AloneNext(batchMax, y, exitAll, 1, z);
      AloneNext(batchMax, z, exitAll, 0, z.(hint := IDLE, pc := LoopHead));
      assert x.finished + x.batch[i..] == x.finished;
    }
  }

  /** A runnable worker with a batch, left alone, finishes all of it, in order, and goes idle, even when the end of the
      experiment has come. */
  lemma WorkerFinishesItsBatch(batchMax: nat, x: Worker, g: GenPc, w: nat, exitAll: bool)
    requires Control(batchMax, x, g, w) && x.pc.Poll? && x.hint.RUNNABLE? && x.num != 0
    ensures Alone(batchMax, x, exitAll, x.num + 7) ==
            x.(finished := x.finished + x.batch, num := 0, hint := IDLE, pc := LoopHead)
  {
    var n := x.num;
    var a, b, c, d := x.(pc := PollAgain), x.(pc := Fetch), x.(pc := CheckBatch(n)), x.(pc := Handle(n, 0));
    AloneNext(batchMax, x, exitAll, n + 6, a);
    AloneNext(batchMax, a, exitAll, n + 5, b);
    AloneNext(batchMax, b, exitAll, n + 4, c);
    AloneNext(batchMax, c, exitAll, n + 3, d);
    HandlesTheRest(batchMax, d, exitAll, n, 0);
    assert x.batch[0..] == x.batch;
  }

  /** One turn of a worker's loop, left alone: with a batch it handles all of it and comes back idle; idle, or runnable
      with no batch, it comes back as it was; once `exit_all` is raised it leaves, and not before. */
  lemma WorkerTurn(batchMax: nat, x: Worker, g: GenPc, w: nat)
    requires Control(batchMax, x, g, w) && x.pc.LoopHead?
    ensures x.hint.RUNNABLE? && x.num != 0 ==>
              Alone(batchMax, x, false, x.num + 8) ==
              x.(finished := x.finished + x.batch, num := 0, hint := IDLE)
    ensures x.hint.RUNNABLE? && x.num == 0 ==> Alone(batchMax, x, false, 4) == x
    ensures x.hint.IDLE? ==> Alone(batchMax, x, false, 2) == x
    ensures Alone(batchMax, x, true, 1) == x.(pc := Done)
  {
    var y, z := x.(pc := Poll), x.(pc := PollAgain);
    AloneNext(batchMax, x, false, x.num + 7, y);
    AloneNext(batchMax, x, true, 0, x.(pc := Done));
    if x.hint.IDLE? {
      AloneNext(batchMax, x, false, 1, y);
      AloneNext(batchMax, y, false, 0, x);
    } else if x.num == 0 {
      AloneNext(batchMax, x, false, 3, y);
      AloneNext(batchMax, y, false, 2, z);
      AloneNext(batchMax, z, false, 1, x.(pc := Fetch));
      AloneNext(batchMax, x.(pc := Fetch), false, 0, x);
    } else {
      WorkerFinishesItsBatch(batchMax, y, g, w, false);
    }
  }

  /** A new worker raises its lock, registers as idle, and enters the loop. */
  lemma WorkerStarts(batchMax: nat, x: Worker, exitAll: bool)
    requires x.pc.Start?
    ensures Alone(batchMax, x, exitAll, 2) == x.(started := true, hint := IDLE, pc := LoopHead)
  {
    var y := x.(started := true, pc := Register);
    AloneNext(batchMax, x, exitAll, 1, y);
    AloneNext(batchMax, y, exitAll, 0, y.(hint := IDLE, pc := LoopHead));
  }

  /** The generator alone for some steps, while the network gives nothing. */
  function GeneratorAlone(batchMax: nat, s: State, steps: nat): Result
    decreases steps
  {
    if steps == 0 then To(s)
    else
      match GenStep(batchMax, s, None, false)
      case To(t) => GeneratorAlone(batchMax, t, steps - 1)
      case Crash(line) => Crash(line)
  }

  lemma GeneratorNext(batchMax: nat, s: State, steps: nat, t: State)
    requires GenStep(batchMax, s, None, false) == To(t)
    ensures GeneratorAlone(batchMax, s, steps + 1) == GeneratorAlone(batchMax, t, steps)
  {
  }

  /** From worker `k` on, the generator passes the runnable workers and stops at the first idle one; if there is none it
      begins a new round. */
  lemma {:induction false} VisitsInOrder(batchMax: nat, s: State, k: nat, i: nat)
    requires s.gen == Visit(k) && k <= i <= |s.workers|
    requires forall w :: k <= w < i ==> s.workers[w].hint.RUNNABLE?
    requires i < |s.workers| ==> s.workers[i].hint.IDLE?
    ensures GeneratorAlone(batchMax, s, i - k + 1) == To(s.(gen := if i < |s.workers| then AssertNone(i) else Outer))
    decreases i - k
  {
    if k < i {
      GeneratorNext(batchMax, s, i - k, s.(gen := Visit(k + 1)));
      VisitsInOrder(batchMax, s.(gen := Visit(k + 1)), k + 1, i);
    } else {
      GeneratorNext(batchMax, s, 0, s.(gen := if i < |s.workers| then AssertNone(i) else Outer));
    }
  }

  /** One round of the generator, begun at the first worker: it turns to the first idle worker and has changed nothing
      on the way; if all are runnable it is back where it was. Once `exit_all` is raised it goes on to the exit
      phase. */
  lemma GeneratorTurn(batchMax: nat, s: State, i: nat)
    requires s.gen.Outer? && i <= |s.workers|
    requires forall w :: 0 <= w < i ==> s.workers[w].hint.RUNNABLE?
    requires i < |s.workers| ==> s.workers[i].hint.IDLE?
    ensures !s.exitAll ==>
              GeneratorAlone(batchMax, s, i + 2) == To(s.(gen := if i < |s.workers| then AssertNone(i) else Outer))
    ensures s.exitAll ==> GeneratorAlone(batchMax, s, 1) == To(s.(gen := ExitOuter))
  {
    if s.exitAll {
      GeneratorNext(batchMax, s, 0, s.(gen := ExitOuter));
    } else {
      GeneratorNext(batchMax, s, i + 1, s.(gen := Visit(0)));
      VisitsInOrder(batchMax, s.(gen := Visit(0)), 0, i);
    }
  }

  function Woken(ws: seq<Worker>, k: nat): (r: seq<Worker>)
    ensures |r| == |ws|
  {
    seq(|ws|, w requires 0 <= w < |ws| => if w >= k then ws[w].(hint := RUNNABLE) else ws[w])
  }

  lemma {:induction false} WakesTheRest(batchMax: nat, s: State, k: nat)
    requires s.gen == ExitVisit(k) && k <= |s.workers|
    ensures GeneratorAlone(batchMax, s, |s.workers| - k + 1) ==
            To(s.(workers := Woken(s.workers, k), gen := ExitOuter))
    decreases |s.workers| - k
  {
    if k < |s.workers| {
      var t := Put(s, k, s.workers[k].(hint := RUNNABLE)).(gen := ExitVisit(k + 1));
      GeneratorNext(batchMax, s, |s.workers| - k, t);
      WakesTheRest(batchMax, t, k + 1);
      assert Woken(t.workers, k + 1) == Woken(s.workers, k);
    } else {
      GeneratorNext(batchMax, s, 0, s.(gen := ExitOuter));
      assert Woken(s.workers, k) == s.workers;
    }
  }

  /** One round of the exit phase: every worker is made runnable, over and over, until `exit_generator` is raised. */
  lemma GeneratorExitTurn(batchMax: nat, s: State)
    requires s.gen.ExitOuter?
    ensures !s.exitGenerator ==>
              GeneratorAlone(batchMax, s, |s.workers| + 2) == To(s.(workers := Woken(s.workers, 0)))
    ensures s.exitGenerator ==> GeneratorAlone(batchMax, s, 1) == To(s.(gen := GenDone))
  {
    if s.exitGenerator {
      GeneratorNext(batchMax, s, 0, s.(gen := GenDone));
    } else {
      GeneratorNext(batchMax, s, |s.workers| + 1, s.(gen := ExitVisit(0)));
      WakesTheRest(batchMax, s.(gen := ExitVisit(0)), 0);
    }
  }

  /** The generator and the main thread wait for nothing but this: the generator for its lock; main for a worker to
      raise its lock or to end. */
  lemma WaitsExactlyFor(batchMax: nat, s: State)
    ensures s.gen.WaitForLock? ==>
              GenStep(batchMax, s, None, false) == To(if s.generatorLock then s.(gen := Outer) else s)
    ensures !s.main.MainDone? ==> (MainStep(s) == To(s) <==>
              || (s.main.Prepare? && s.main.j < |s.workers| && !s.workers[s.main.j].started)
              || (s.main.Join? && s.main.j < |s.workers| && !s.workers[s.main.j].pc.Done?))
  {
  }

  // ---------------------------------------------------------------- the end of the experiment

  predicate AllDone(ws: seq<Worker>, n: int) {
    forall w :: 0 <= w < n && w < |ws| ==> ws[w].pc.Done?
  }

  /** The order in which things end. */
  predicate EndsInOrder(s: State) {
    && (forall w :: 0 <= w < |s.workers| && s.workers[w].pc.Done? ==> s.exitAll)
    && (Exiting(s.gen) ==> s.exitAll)
    && (s.exitAll <==> s.main.Join? || s.main.StopGenerator? || s.main.MainDone?)
    && (s.main.Join? ==> AllDone(s.workers, s.main.j))
    && (s.main.StopGenerator? || s.main.MainDone? ==> AllDone(s.workers, |s.workers|))
    && (s.exitGenerator <==> s.main.MainDone?)
    && (s.gen.GenDone? ==> s.exitGenerator)
    && (s.generatorLock <==> !s.main.Prepare? && !s.main.Release?)
  }

  lemma WorkerEndsInOrder(batchMax: nat, s: State, w: nat, lost: bool)
    requires EndsInOrder(s) && w < |s.workers| && WorkerStep(batchMax, s, w, lost).To?
    ensures EndsInOrder(WorkerStep(batchMax, s, w, lost).s)
  {
  }

  lemma GeneratorLeavesTheRest(batchMax: nat, s: State, poll: Polled, lost: bool)
    requires GenStep(batchMax, s, poll, lost).To?
    ensures var t := GenStep(batchMax, s, poll, lost).s;
            && |t.workers| == |s.workers| && (forall w :: 0 <= w < |s.workers| ==> t.workers[w].pc == s.workers[w].pc)
            && t.main == s.main && t.exitAll == s.exitAll && t.exitGenerator == s.exitGenerator
            && t.generatorLock == s.generatorLock
            && (Exiting(t.gen) ==> Exiting(s.gen) || s.exitAll)
            && (t.gen.GenDone? ==> s.gen.GenDone? || s.exitGenerator)
  {
    if Handling(s.gen) {
      assert Handed(batchMax, s.workers[s.gen.i], s.gen, poll).x.pc == s.workers[s.gen.i].pc;
    }
  }

  lemma GeneratorEndsInOrder(batchMax: nat, s: State, poll: Polled, lost: bool)
    requires EndsInOrder(s) && GenStep(batchMax, s, poll, lost).To?
    ensures EndsInOrder(GenStep(batchMax, s, poll, lost).s)
  {
    GeneratorLeavesTheRest(batchMax, s, poll, lost);
    var t := GenStep(batchMax, s, poll, lost).s;
    assert forall n :: AllDone(s.workers, n) ==> AllDone(t.workers, n);
  }

  lemma MainEndsInOrder(s: State)
    requires EndsInOrder(s) && MainStep(s).To?
    ensures EndsInOrder(MainStep(s).s)
  {
    var t := MainStep(s).s;
    assert |t.workers| == |s.workers| && forall w :: 0 <= w < |s.workers| ==> t.workers[w].pc == s.workers[w].pc;
  }

  /** Over every interleaving: no worker ends before the end of the experiment is declared, the generator is stopped
      only when all workers have ended, and it does not end before. */
  lemma {:induction false} RunsEndInOrder(batchMax: nat, n: nat, ss: seq<State>, ms: seq<Move>, k: nat)
    requires Run(batchMax, n, ss, ms) && k < |ss|
    ensures EndsInOrder(ss[k])
  {
    if k > 0 {
      RunsEndInOrder(batchMax, n, ss, ms, k - 1);
      match ms[k - 1]
      case WorkerMove(w, lost) => WorkerEndsInOrder(batchMax, ss[k - 1], w, lost);
      case GenMove(poll, lost) => GeneratorEndsInOrder(batchMax, ss[k - 1], poll, lost);
      case MainMove => MainEndsInOrder(ss[k - 1]);
    }
  }

  // ---------------------------------------------------------------- the generator on one worker

  /** The generator's steps on one worker, with these answers of the network. */
  function HandedAll(batchMax: nat, x: Worker, g: GenPc, answers: seq<Polled>): Turn
    decreases |answers|
  {
    if answers == [] || !Handling(g) then Goes(x, g)
    else
      match Handed(batchMax, x, g, answers[0])
      case Goes(y, h) => HandedAll(batchMax, y, h, answers[1..])
      case Breaks(line) => Breaks(line)
  }

  function Answers(rs: seq<Request>): seq<Polled> {
    if rs == [] then [None, None, None, None] else [Some(rs[0])] + Answers(rs[1..])
  }

  lemma PublishesTheBatch(batchMax: nat, x: Worker, i: nat, j: nat)
    requires |x.batch| == j <= batchMax && x.hint.IDLE?
    ensures HandedAll(batchMax, x, Fill(i, j), [None, None, None, None]) ==
            if x.batch == [] then Goes(x, Outer) else Goes(x.(num := j, hint := RUNNABLE), Visit(i + 1))
  {
    var n := x.(num := |x.batch|);
    assert HandedAll(batchMax, x, Fill(i, j), [None, None, None, None])
        == HandedAll(batchMax, x, Publish(i), [None, None, None]);
    if x.batch != [] {
      assert HandedAll(batchMax, x, Publish(i), [None, None, None])
          == HandedAll(batchMax, n, AssertIdle(i), [None, None]);
      assert HandedAll(batchMax, n, AssertIdle(i), [None, None]) == HandedAll(batchMax, n, MarkRunnable(i), [None]);
      assert HandedAll(batchMax, n, MarkRunnable(i), [None])
          == HandedAll(batchMax, n.(hint := RUNNABLE), Visit(i + 1), []);
    } else {
      assert HandedAll(batchMax, x, Publish(i), [None, None, None]) == HandedAll(batchMax, x, Outer, [None, None]);
    }
  }

  lemma PollsOne(batchMax: nat, x: Worker, i: nat, j: nat, rs: seq<Request>)
    requires rs != [] && j < batchMax
    ensures HandedAll(batchMax, x, Fill(i, j), Answers(rs)) ==
            HandedAll(batchMax, x.(batch := x.batch + [rs[0]], polled := x.polled + [rs[0]]), Fill(i, j + 1),
                      Answers(rs[1..]))
  {
    assert Answers(rs)[1..] == Answers(rs[1..]);
  }

  lemma {:induction false} FillsTheBatch(batchMax: nat, x: Worker, i: nat, j: nat, rs: seq<Request>)
    requires |x.batch| == j && j + |rs| <= batchMax && x.hint.IDLE?
    ensures HandedAll(batchMax, x, Fill(i, j), Answers(rs)) ==
            if x.batch + rs == [] then Goes(x, Outer)
            else Goes(x.(batch := x.batch + rs, polled := x.polled + rs, num := j + |rs|, hint := RUNNABLE),
                      Visit(i + 1))
    decreases |rs|
  {
    if rs == [] {
      PublishesTheBatch(batchMax, x, i, j);
      assert x.batch + rs == x.batch && x.polled + rs == x.polled;
    } else {
      var y := x.(batch := x.batch + [rs[0]], polled := x.polled + [rs[0]]);
      PollsOne(batchMax, x, i, j, rs);
      FillsTheBatch(batchMax, y, i, j + 1, rs[1..]);
      assert y.batch + rs[1..] == x.batch + rs && y.polled + rs[1..] == x.polled + rs;
    }
  }

  /** Whatever the network gives, an idle worker is dealt exactly that, in order, announced and made runnable; if it
      gives nothing the worker stays idle. */
  lemma GeneratorDealsABatch(batchMax: nat, x: Worker, i: nat, rs: seq<Request>)
    requires x.hasWork && x.num == 0 && x.hint.IDLE? && |rs| <= batchMax
    ensures HandedAll(batchMax, x, AssertNone(i), [None, None] + Answers(rs)) ==
            if rs == [] then Goes(x.(batch := []), Outer)
            else Goes(x.(batch := rs, polled := x.polled + rs, num := |rs|, hint := RUNNABLE), Visit(i + 1))
  {
    var y := x.(batch := []);
    var answers := [None, None] + Answers(rs);
    assert answers[1..] == [None] + Answers(rs) && answers[1..][1..] == Answers(rs);
    assert HandedAll(batchMax, x, AssertNone(i), answers) == HandedAll(batchMax, x, Clear(i), answers[1..]);
    assert HandedAll(batchMax, x, Clear(i), answers[1..]) == HandedAll(batchMax, y, Fill(i, 0), Answers(rs));
    FillsTheBatch(batchMax, y, i, 0, rs);
    assert y.batch + rs == rs;
  }
}
