/** The ring of messages the kernel fills and the lord drains. */
module MessageQueue {
  import opened Kernel

  /** The slot of the message with counter value `k`. */
  function Slot(k: u32): (i: int)
    ensures 0 <= i < MQ_DATA_SIZE
  {
    k % MQ_DATA_SIZE
  }

  /** How many messages stand between the two counters, which wrap at 2^32. */
  function InFlight(head: u32, tail: u32): (n: nat)
    ensures n < TWO32
    ensures (tail + n) % TWO32 == head
    ensures n == 0 <==> tail == head
  {
    (head - tail) % TWO32
  }

  function Next(k: u32): u32 {
    (k + 1) % TWO32
  }

  /** The messages the ring still holds for a reader that reads up to `head`, oldest first. */
  function Pending(data: seq<Msg>, head: u32, tail: u32): (ms: seq<Msg>)
    requires |data| == MQ_DATA_SIZE
    ensures ms == [] <==> tail == head
    decreases InFlight(head, tail)
  {
    if tail == head then []
    else
      StepCloser(head, tail);
      [data[Slot(tail)]] + Pending(data, head, Next(tail))
  }

  lemma StepCloser(head: u32, tail: u32)
    requires head != tail
    ensures InFlight(head, Next(tail)) == InFlight(head, tail) - 1
  {
  }

  class MessageQueue {
    var head: u32
    var tail: u32
    const data: array<Msg>

    constructor ()
      ensures head == tail == 0 && fresh(data) && data.Length == MQ_DATA_SIZE
    {
      head, tail := 0, 0;
      data := new Msg[MQ_DATA_SIZE](_ => Msg(0, 0, 0));
    }

    ghost predicate Valid()
    {
      data.Length == MQ_DATA_SIZE
    }

    ghost function Messages(): seq<Msg>
      requires Valid()
      reads this, data
    {
      Pending(data[..], head, tail)
    }

    function Empty(): (e: bool)
      requires Valid()
      reads this, data
      ensures e <==> Messages() == []
    {
      tail == head
    }

    /** An empty queue yields the zero message. */
    method ConsumeMsg() returns (m: Msg)
      requires Valid()
      modifies this`tail
      ensures old(Messages()) == [] ==> m == Msg(0, 0, 0) && tail == old(tail)
      ensures old(Messages()) != [] ==> Messages() == old(Messages())[1..] && m == old(Messages())[0]
      ensures old(Messages()) != [] ==> InFlight(head, tail) == old(InFlight(head, tail)) - 1
      ensures old(tail) != head ==> m == data[old(tail) % 511] && tail == (old(tail) + 1) % 0x1_0000_0000
    {
      if Empty() {
        return Msg(0, 0, 0);
      }
      StepCloser(head, tail);
      m := data[Slot(tail)];
      tail := Next(tail);
    }
  }
}
