/** The run queue. `FifoRq` and `ShinjukuRq` are the same code in the two schedulers. */
module RunQueue {
  import opened Kernel

  ghost predicate NoDup<T>(q: seq<T>) {
    forall i, j :: 0 <= i < j < |q| ==> q[i] != q[j]
  }

  /** `peek`: 0 stands for "empty", so a queue headed by pid 0 reads as empty too. */
  function Front(q: seq<u32>): u32 {
    if q == [] then 0 else q[0]
  }

  /** The queue without the first occurrence of `tid`. */
  function Without(q: seq<u32>, tid: u32): seq<u32> {
    if q == [] then []
    else if q[0] == tid then q[1..]
    else [q[0]] + Without(q[1..], tid)
  }

  /** Erasing the first occurrence cuts one index out and touches nothing else. */
  lemma {:induction false} WithoutCuts(q: seq<u32>, tid: u32, k: nat)
    requires k < |q| && q[k] == tid && tid !in q[..k]
    ensures Without(q, tid) == q[..k] + q[k + 1..]
  {
    if k > 0 {
      assert q[1..][..k - 1] == q[1..k];
      assert q[..k] == [q[0]] + q[1..k];
      WithoutCuts(q[1..], tid, k - 1);
    }
  }

  lemma {:induction false} WithoutAbsent(q: seq<u32>, tid: u32)
    requires tid !in q
    ensures Without(q, tid) == q
  {
    if q != [] {
      WithoutAbsent(q[1..], tid);
    }
  }

  lemma SomeElement<T>(q: seq<T>)
    requires q != []
    ensures exists x :: x in q
  {
    assert q[0] in q;
  }

  lemma NoDupSplit<T>(q: seq<T>, k: nat)
    requires NoDup(q) && k <= |q|
    ensures NoDup(q[..k]) && NoDup(q[k..])
    ensures forall p :: p in q[k..] <==> p in q && p !in q[..k]
  {
    assert q == q[..k] + q[k..];
  }

  lemma NoDupConcat<T>(q: seq<T>, r: seq<T>)
    requires NoDup(q) && NoDup(r) && forall p :: p in q ==> p !in r
    ensures NoDup(q + r)
    ensures forall p :: p in q + r <==> p in q || p in r
  {
    forall i, j | 0 <= i < j < |q + r|
      ensures (q + r)[i] != (q + r)[j]
    {
      if i < |q| <= j {
        assert q[i] in q && r[j - |q|] in r;
      }
    }
  }

  /** On a queue without duplicates, erasing the first occurrence erases the task: what is left
      are the other tasks. */
  lemma WithoutKeepsTheRest(q: seq<u32>, tid: u32)
    requires NoDup(q) && tid in q
    ensures NoDup(Without(q, tid))
    ensures forall p :: p in Without(q, tid) <==> p in q && p != tid
  {
    var k :| 0 <= k < |q| && q[k] == tid;
    WithoutCuts(q, tid, k);
    NoDupSplit(q, k);
    NoDupSplit(q[k..], 1);
    assert q[k..][1..] == q[k + 1..];
    assert q[k..][..1] == [tid];
    NoDupConcat(q[..k], q[k + 1..]);
  }

  /** How many tasks stand before `p`. */
  function Pos(q: seq<u32>, p: u32): (i: nat)
    requires p in q
    ensures i < |q| && q[i] == p && p !in q[..i]
  {
    if q[0] == p then 0 else 1 + Pos(q[1..], p)
  }

  lemma PosIs(q: seq<u32>, p: u32, i: nat)
    requires NoDup(q) && i < |q| && q[i] == p
    ensures Pos(q, p) == i
  {
  }

  /** Erasing a task moves those behind it up by one and no other task at all. */
  lemma PosWithout(q: seq<u32>, tid: u32, p: u32)
    requires NoDup(q) && tid in q && p in q && p != tid
    ensures p in Without(q, tid)
    ensures Pos(Without(q, tid), p) == if Pos(q, tid) < Pos(q, p) then Pos(q, p) - 1 else Pos(q, p)
  {
    WithoutKeepsTheRest(q, tid);
    var k := Pos(q, tid);
    WithoutCuts(q, tid, k);
    PosIs(Without(q, tid), p, if k < Pos(q, p) then Pos(q, p) - 1 else Pos(q, p));
  }

  /** What a message may do to a queue: nothing, append its task, or erase it. */
  predicate EditedAt(q: seq<u32>, r: seq<u32>, tid: u32) {
    r == q || (tid !in q && r == q + [tid]) || (tid in q && r == Without(q, tid))
  }

  /** The queue when task `p` is to be queued, or not to be: it keeps its place, goes to the tail, or leaves. */
  function QueueAfter(q: seq<u32>, p: u32, queued: bool): seq<u32> {
    if queued == (p in q) then q
    else if queued then q + [p]
    else Without(q, p)
  }

  lemma QueueAfterIsRight(q: seq<u32>, p: u32, queued: bool)
    requires NoDup(q)
    ensures NoDup(QueueAfter(q, p, queued)) && EditedAt(q, QueueAfter(q, p, queued), p)
    ensures forall x :: x in QueueAfter(q, p, queued) <==> if x == p then queued else x in q
  {
    if p in q && !queued {
      WithoutKeepsTheRest(q, p);
    } else if p !in q && queued {
      NoDupConcat(q, [p]);
    }
  }

  lemma EditMovesUp(q: seq<u32>, r: seq<u32>, tid: u32, x: u32)
    requires NoDup(q) && EditedAt(q, r, tid) && x in q && x in r
    ensures Pos(r, x) == if tid in q && tid !in r && Pos(q, tid) < Pos(q, x) then Pos(q, x) - 1 else Pos(q, x)
  {
    if tid in q && r == Without(q, tid) {
      WithoutKeepsTheRest(q, tid);
      PosWithout(q, tid, x);
    } else if r != q {
      NoDupConcat(q, [tid]);
      PosIs(r, x, Pos(q, x));
    }
  }

  lemma ErasingKeepsOrder(q: seq<u32>, tid: u32, x: u32, y: u32)
    requires NoDup(q) && tid in q && tid != x && tid != y && x in q && y in q && Pos(q, x) < Pos(q, y)
    ensures x in Without(q, tid) && y in Without(q, tid)
    ensures Pos(Without(q, tid), x) < Pos(Without(q, tid), y) && Pos(Without(q, tid), x) <= Pos(q, x)
  {
    PosWithout(q, tid, x);
    PosWithout(q, tid, y);
    assert Pos(q, tid) != Pos(q, x);
  }

  lemma AppendingKeepsPlaces(q: seq<u32>, tid: u32, x: u32)
    requires NoDup(q) && tid !in q && x in q
    ensures Pos(q + [tid], x) == Pos(q, x)
  {
    NoDupConcat(q, [tid]);
    PosIs(q + [tid], x, Pos(q, x));
  }

  /** Such an edit never lets one task overtake another, nor moves a task back. */
  lemma EditKeepsOrder(q: seq<u32>, r: seq<u32>, tid: u32, x: u32, y: u32)
    requires NoDup(q) && EditedAt(q, r, tid)
    requires x in q && y in q && x in r && y in r && Pos(q, x) < Pos(q, y)
    ensures Pos(r, x) < Pos(r, y) && Pos(r, x) <= Pos(q, x)
  {
    if r != q && tid !in q {
      AppendingKeepsPlaces(q, tid, x);
      AppendingKeepsPlaces(q, tid, y);
    } else if r != q {
      WithoutKeepsTheRest(q, tid);
      ErasingKeepsOrder(q, tid, x, y);
    }
  }

  /** Cutting the head off moves every other task up by as much. */
  lemma CutMovesUp(q: seq<u32>, n: nat, x: u32)
    requires NoDup(q) && n <= |q| && x in q[n..]
    ensures Pos(q[n..], x) == Pos(q, x) - n
  {
    NoDupSplit(q, n);
    PosIs(q, x, Pos(q[n..], x) + n);
  }

  lemma PosInFront(q: seq<u32>, r: seq<u32>, x: u32)
    requires NoDup(q + r) && x in q
    ensures Pos(q + r, x) == Pos(q, x)
  {
    PosIs(q + r, x, Pos(q, x));
  }

  class RunQueue {
    var items: seq<u32>

    constructor ()
      ensures items == []
    {
      items := [];
    }

    method Enqueue(tid: u32)
      modifies this
      ensures items == old(items) + [tid]
    {
      items := items + [tid];
    }

    method Dequeue()
      modifies this
      ensures items == if old(items) == [] then [] else old(items)[1..]
    {
      if items == [] {
        return;
      }
      items := items[1..];
    }

    function Peek(): (tid: u32)
      reads this
      ensures tid != 0 ==> items != [] && tid == items[0]
      ensures tid == 0 ==> items == [] || items[0] == 0
    {
      Front(items)
    }

    /** `found` is false where the source logs an error and exits. */
    method RemoveFromRq(tid: u32) returns (found: bool)
      modifies this
      ensures found <==> tid in old(items)
      ensures items == Without(old(items), tid)
    {
      var i := 0;
      while i < |items|
        invariant 0 <= i <= |items|
        invariant items == old(items)
        invariant tid !in items[..i]
      {
        if items[i] == tid {
          WithoutCuts(items, tid, i);
          items := items[..i] + items[i + 1..];
          return true;
        }
        i := i + 1;
      }
      WithoutAbsent(items, tid);
      return false;
    }
  }
}
