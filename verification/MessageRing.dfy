/** The ring as kernel and lord share it: when slots clash, and what is delivered over every interleaving
    of the producer's two steps with the consumer's two. The producer is assumed to write the slot first and to
    move `head` next; memory is sequentially consistent. */
module MessageRing {
  import opened Kernel
  import opened MessageQueue

  /** 2^32 == 511 * LAP_QUOTIENT + 32. */
  const LAP_QUOTIENT := 8405024

  /** The slot of the n-th message ever; the counter it comes from wraps at 2^32. */
  function SlotOf(n: nat): (i: int)
    ensures 0 <= i < MQ_DATA_SIZE
  {
    Slot(n % TWO32)
  }

  function Lap(n: nat): nat {
    n / TWO32
  }

  /** The messages `from` up to, not including, `to` have slots of their own. */
  ghost predicate OwnSlots(from: nat, to: nat) {
    forall j: nat, k: nat :: from <= j < k < to ==> SlotOf(j) != SlotOf(k)
  }

  /** At most 511 messages, or at most 32 if the counter wraps among them. */
  predicate Fits(from: nat, to: nat) {
    && from <= to
    && (to - from <= 32 || (to - from <= MQ_DATA_SIZE && Lap(from) == Lap(to - 1)))
  }

  lemma SlotIn(lap: nat, q: nat, r: nat)
    requires r < MQ_DATA_SIZE && MQ_DATA_SIZE * q + r < TWO32
    ensures SlotOf(TWO32 * lap + (MQ_DATA_SIZE * q + r)) == r
  {
    assert (TWO32 * lap + (MQ_DATA_SIZE * q + r)) % TWO32 == MQ_DATA_SIZE * q + r;
  }

  lemma FittingSlotsDiffer(from: nat, to: nat, j: nat, k: nat)
    requires Fits(from, to) && from <= j < k < to
    ensures SlotOf(j) != SlotOf(k)
  {
    var x, y := j % TWO32, k % TWO32;
    assert j == TWO32 * Lap(j) + x && k == TWO32 * Lap(k) + y;
    if Lap(from) == Lap(to - 1) {
      assert Lap(j) == Lap(k);
      assert 0 < y - x < MQ_DATA_SIZE;
    } else if Lap(j) != Lap(k) {
      // 2^32 leaves 32 when divided by 511: the last 32 slots of a lap are the first 32 of the next
      assert Lap(k) == Lap(j) + 1;
      assert x == TWO32 - (32 - (x - (TWO32 - 32))) && k - j == (TWO32 - x) + y <= 31;
      assert x % MQ_DATA_SIZE == x - (TWO32 - 32) && y % MQ_DATA_SIZE == y;
    } else {
      assert 0 < y - x < MQ_DATA_SIZE;
    }
  }

  lemma Clash(from: nat, to: nat) returns (j: nat, k: nat)
    requires from <= to && !Fits(from, to)
    ensures from <= j < k < to && SlotOf(j) == SlotOf(k)
  {
    if Lap(from) == Lap(to - 1) {
      j, k := from, from + MQ_DATA_SIZE;
      assert Lap(j) == Lap(k);
      assert k % TWO32 == j % TWO32 + MQ_DATA_SIZE;
    } else {
      var lap := Lap(from);
      var wrap := TWO32 * (lap + 1);
      var before := wrap - from;
      var i := if before >= 32 then 0 else 32 - before;
      j, k := wrap - 32 + i, wrap + i;
      SlotIn(lap + 1, 0, i);
      SlotIn(lap, LAP_QUOTIENT, i);
      assert j == TWO32 * lap + (MQ_DATA_SIZE * LAP_QUOTIENT + i);
    }
  }

  /** The exact bound: messages in flight have slots of their own if and only if there are at most 511 of them, or at
      most 32 when the 32-bit counter wraps among them. */
  lemma OwnSlotsExactlyWhenTheyFit(from: nat, to: nat)
    requires from <= to
    ensures OwnSlots(from, to) <==> Fits(from, to)
  {
    if Fits(from, to) {
      forall j: nat, k: nat | from <= j < k < to
        ensures SlotOf(j) != SlotOf(k)
      {
        FittingSlotsDiffer(from, to, j, k);
      }
    } else {
      var j, k := Clash(from, to);
    }
  }

  // ---------------------------------------------------------------- the two sides, step by step

  datatype Read = Nothing | Got(m: Msg)

  /** The shared ring, where each side is, and the history of what was written and what was delivered. */
  datatype Ring = Ring(
    head: u32,
    tail: u32,
    data: seq<Msg>,
    written: bool,
    read: Read,
    produced: seq<Msg>,
    consumed: seq<Msg>)

  datatype Move = Write(m: Msg) | MoveHead | ReadSlot | MoveTail

  predicate Enabled(r: Ring, move: Move)
  {
    match move
    case Write(_) => !r.written
    case MoveHead => r.written
    case ReadSlot => r.read.Nothing? && r.tail != r.head
    case MoveTail => r.read.Got?
  }

  function After(r: Ring, move: Move): (t: Ring)
    requires |r.data| == MQ_DATA_SIZE && Enabled(r, move)
    ensures |t.data| == MQ_DATA_SIZE
  {
    match move
    case Write(m) => r.(data := r.data[Slot(r.head) := m], written := true, produced := r.produced + [m])
    case MoveHead => r.(head := Next(r.head), written := false)
    case ReadSlot => r.(read := Got(r.data[Slot(r.tail)]))
    case MoveTail => r.(tail := Next(r.tail), read := Nothing, consumed := r.consumed + [r.read.m])
  }

  /** How many messages the lord can see. */
  function Published(r: Ring): int {
    |r.produced| - if r.written then 1 else 0
  }

  ghost predicate Inv(r: Ring) {
    && |r.data| == MQ_DATA_SIZE
    && |r.consumed| <= Published(r)
    && r.head == Published(r) % TWO32 && r.tail == |r.consumed| % TWO32
    && Fits(|r.consumed|, |r.produced|)
    && (forall k :: |r.consumed| <= k < |r.produced| ==> r.data[SlotOf(k)] == r.produced[k])
    && r.consumed == r.produced[..|r.consumed|]
    && (r.read.Got? ==> |r.consumed| < Published(r) && r.read.m == r.produced[|r.consumed|])
  }

  /** The producer leaves room: what would be in flight with the next message fits. */
  predicate HasRoom(r: Ring) {
    Fits(|r.consumed|, |r.produced| + 1)
  }

  lemma SameCounter(a: nat, b: nat)
    requires a <= b && b - a <= MQ_DATA_SIZE
    ensures a % TWO32 == b % TWO32 <==> a == b
  {
    assert a == TWO32 * (a / TWO32) + a % TWO32 && b == TWO32 * (b / TWO32) + b % TWO32;
  }

  lemma NextCounter(n: nat)
    ensures Next(n % TWO32) == (n + 1) % TWO32
  {
  }

  lemma WriteKeepsInv(r: Ring, m: Msg)
    requires Inv(r) && !r.written && HasRoom(r)
    ensures Inv(After(r, Write(m)))
  {
    var t, from, to := After(r, Write(m)), |r.consumed|, |r.produced|;
    forall k | from <= k < to
      ensures t.data[SlotOf(k)] == r.data[SlotOf(k)]
    {
      FittingSlotsDiffer(from, to + 1, k, to);
    }
  }

  lemma ReadKeepsInv(r: Ring)
    requires Inv(r) && Enabled(r, ReadSlot)
    ensures Inv(After(r, ReadSlot))
  {
    SameCounter(|r.consumed|, Published(r));
  }

  lemma FitsOneLess(from: nat, to: nat)
    requires Fits(from, to) && from < to
    ensures Fits(from + 1, to)
  {
  }

  lemma TakeKeepsInv(r: Ring)
    requires Inv(r) && r.read.Got?
    ensures Inv(After(r, MoveTail))
  {
    var from := |r.consumed|;
    NextCounter(from);
    FitsOneLess(from, |r.produced|);
    assert r.produced[..from + 1] == r.produced[..from] + [r.produced[from]];
  }

  lemma MoveKeepsInv(r: Ring, move: Move)
    requires Inv(r) && Enabled(r, move)
    requires move.Write? ==> HasRoom(r)
    ensures Inv(After(r, move))
  {
    match move
    case Write(m) => WriteKeepsInv(r, m);
    case MoveHead => NextCounter(Published(r));
    case ReadSlot => ReadKeepsInv(r);
    case MoveTail => TakeKeepsInv(r);
  }

  /** The producer can always make its next step, and two of them publish one message; the consumer can always take what
      it has read, and can read whenever something is published that was not delivered. */
  lemma NoSideIsStuck(r: Ring, m: Msg)
    requires Inv(r)
    ensures Enabled(r, if r.written then MoveHead else Write(m))
    ensures r.written ==> Published(After(r, MoveHead)) == |r.produced| == Published(r) + 1
    ensures !r.written ==> var t := After(r, Write(m));
                           t.written && t.produced == r.produced + [m] && Published(t) == Published(r)
    ensures Enabled(r, MoveTail) <==> r.read.Got?
    ensures Enabled(r, ReadSlot) <==> r.read.Nothing? && |r.consumed| < Published(r)
  {
    SameCounter(|r.consumed|, Published(r));
  }

  /** Every interleaving from an empty ring, of any length. */
  ghost predicate Run(rs: seq<Ring>, moves: seq<Move>) {
    && |rs| == |moves| + 1
    && rs[0].head == rs[0].tail == 0 && |rs[0].data| == MQ_DATA_SIZE
    && !rs[0].written && rs[0].read == Nothing && rs[0].produced == rs[0].consumed == []
    && forall i :: 0 <= i < |moves| ==>
         |rs[i].data| == MQ_DATA_SIZE && Enabled(rs[i], moves[i]) && rs[i + 1] == After(rs[i], moves[i])
  }

  /** Over every interleaving in which the producer leaves room, the lord receives exactly what was produced, in
      order, nothing lost, doubled or torn. */
  lemma {:induction false} DeliveredInOrder(rs: seq<Ring>, moves: seq<Move>, i: nat)
    requires Run(rs, moves) && i < |rs|
    requires forall j :: 0 <= j < i && moves[j].Write? ==> HasRoom(rs[j])
    ensures Inv(rs[i]) && rs[i].consumed <= rs[i].produced
  {
    if i > 0 {
      DeliveredInOrder(rs, moves, i - 1);
      MoveKeepsInv(rs[i - 1], moves[i - 1]);
    }
  }

  /** The slots of all messages on the way still hold them. */
  ghost predicate Intact(r: Ring) {
    && |r.data| == MQ_DATA_SIZE
    && forall k :: |r.consumed| <= k < |r.produced| ==> r.data[SlotOf(k)] == r.produced[k]
  }

  /** A message written without room lands in the slot of one that was not delivered yet. */
  lemma NoRoomOverwrites(r: Ring) returns (k: nat)
    requires Inv(r) && !r.written && !HasRoom(r)
    ensures |r.consumed| <= k < |r.produced|
    ensures forall m :: After(r, Write(m)).data[SlotOf(k)] == m
  {
    var j, l := Clash(|r.consumed|, |r.produced| + 1);
    k := j;
    if l < |r.produced| {
      FittingSlotsDiffer(|r.consumed|, |r.produced|, j, l);
    }
  }

  /** So room is exactly what the producer must leave: with it no write, and without it some write, destroys
      a message that is still to be delivered. */
  lemma RoomIsExact(r: Ring)
    requires Inv(r) && !r.written
    ensures HasRoom(r) <==> forall m :: Intact(After(r, Write(m)))
  {
    if HasRoom(r) {
      forall m
        ensures Intact(After(r, Write(m)))
      {
        MoveKeepsInv(r, Write(m));
      }
    } else {
      var k := NoRoomOverwrites(r);
      var m := r.produced[k].(kind := (r.produced[k].kind + 1) % TWO16);
      assert After(r, Write(m)).data[SlotOf(k)] == m && After(r, Write(m)).produced[k] == r.produced[k];
      assert !Intact(After(r, Write(m)));
    }
  }

  /** What the lord's queue object reports as its contents is what was produced and not delivered. */
  lemma {:induction false} PendingIsUndelivered(r: Ring, from: nat, n: nat)
    requires |r.data| == MQ_DATA_SIZE && from + n <= |r.produced| && n <= MQ_DATA_SIZE
    requires forall k :: from <= k < from + n ==> r.data[SlotOf(k)] == r.produced[k]
    ensures Pending(r.data, (from + n) % TWO32, from % TWO32) == r.produced[from..from + n]
    decreases n
  {
    SameCounter(from, from + n);
    if n > 0 {
      NextCounter(from);
      PendingIsUndelivered(r, from + 1, n - 1);
    }
  }

  lemma ContentsAreUndelivered(r: Ring)
    requires Inv(r)
    ensures Pending(r.data, r.head, r.tail) == r.produced[|r.consumed|..Published(r)]
  {
    PendingIsUndelivered(r, |r.consumed|, Published(r) - |r.consumed|);
  }
}
