/** The shared hint table: 512 slots, linear probing, keys are inserted and never removed. */
module Epistle {
  import opened Kernel

  /** 4096 bytes of 8-byte entries. */
  const CAPACITY := 512

  type i32 = x: int | -0x8000_0000 <= x < 0x8000_0000

  datatype Entry = Entry(key: i32, value: u32)

  /** `key % capacity_` with the key converted to the unsigned 64-bit type of `capacity_`; 512 divides
      2^64, so for negative keys too the remainder is the non-negative one. */
  function Hash(key: i32): (h: int)
    ensures 0 <= h < CAPACITY
  {
    key % CAPACITY
  }

  /** The slot after this one, round the table. */
  function Next(i: int): (n: int)
    requires 0 <= i < CAPACITY
    ensures 0 <= n < CAPACITY && n == (i + 1) % CAPACITY
  {
    if i + 1 == CAPACITY then 0 else i + 1
  }

  /** The slot a probe for `key` looks at after `d` steps. */
  function Slot(key: i32, d: nat): (i: int)
    ensures 0 <= i < CAPACITY
  {
    if d == 0 then Hash(key) else Next(Slot(key, d - 1))
  }

  /** How far slot `i` is from the start of the probe for `key`. */
  function Distance(key: i32, i: int): (d: nat)
    requires 0 <= i < CAPACITY
    ensures d < CAPACITY
  {
    if i >= Hash(key) then i - Hash(key) else i + CAPACITY - Hash(key)
  }

  lemma {:induction false} SlotIs(key: i32, d: nat)
    requires d < CAPACITY
    ensures Slot(key, d) == if Hash(key) + d < CAPACITY then Hash(key) + d else Hash(key) + d - CAPACITY
  {
    if d > 0 {
      SlotIs(key, d - 1);
    }
  }

  lemma OneFurther(n: int)
    ensures (n + 1) % CAPACITY == if n % CAPACITY + 1 == CAPACITY then 0 else n % CAPACITY + 1
  {
  }

  /** Where keys go, for all processes alike: the probe for a key begins at its remainder modulo 512 and goes up by one,
      round the table. */
  lemma {:induction false} ProbesAreLinear(key: i32, d: nat)
    ensures Slot(key, d) == (key + d) % 512
  {
    if d > 0 {
      ProbesAreLinear(key, d - 1);
      OneFurther(key + d - 1);
    }
  }

  /** So a small key probes first at its own number, and keys share their first slot exactly when they are a multiple of
      512 apart. */
  lemma FirstSlots(key: i32, other: i32)
    ensures 0 <= key < 512 ==> Slot(key, 0) == key
    ensures Slot(key, 0) == Slot(other, 0) <==> (key - other) % 512 == 0
  {
    ProbesAreLinear(key, 0);
    ProbesAreLinear(other, 0);
    SameRemainder(key, other);
  }

  lemma SameRemainder(a: int, b: int)
    ensures a % 512 == b % 512 <==> (a - b) % 512 == 0
  {
    assert a == 512 * (a / 512) + a % 512 && b == 512 * (b / 512) + b % 512;
    assert a - b == 512 * (a / 512 - b / 512) + (a % 512 - b % 512);
  }

  lemma SlotAtDistance(key: i32, i: int)
    requires 0 <= i < CAPACITY
    ensures Slot(key, Distance(key, i)) == i
  {
    SlotIs(key, Distance(key, i));
  }

  lemma DistanceIsUnique(key: i32, d: nat)
    requires d < CAPACITY
    ensures Distance(key, Slot(key, d)) == d
  {
    SlotIs(key, d);
  }

  lemma {:induction false} SlotsRepeat(key: i32, d: nat)
    ensures Slot(key, d + CAPACITY) == Slot(key, d)
  {
    if d == 0 {
      SlotIs(key, CAPACITY - 1);
    } else {
      SlotsRepeat(key, d - 1);
    }
  }

  predicate Stops(t: seq<Entry>, key: i32, d: nat)
    requires |t| == CAPACITY
  {
    t[Slot(key, d)].key == 0 || t[Slot(key, d)].key == key
  }

  /** The number of steps, from `d` on, after which the probe stops; CAPACITY if it never does. */
  function Probe(t: seq<Entry>, key: i32, d: nat): (e: nat)
    requires |t| == CAPACITY && d <= CAPACITY
    ensures d <= e <= CAPACITY && (e < CAPACITY ==> Stops(t, key, e))
    decreases CAPACITY - d
  {
    if d == CAPACITY || Stops(t, key, d) then d else Probe(t, key, d + 1)
  }

  lemma {:induction false} ProbeIsFirst(t: seq<Entry>, key: i32, d: nat, e: nat)
    requires |t| == CAPACITY && d <= e <= CAPACITY
    requires e < CAPACITY ==> Stops(t, key, e)
    requires forall x :: d <= x < e ==> !Stops(t, key, x)
    ensures Probe(t, key, d) == e
    decreases e - d
  {
    if d < e {
      ProbeIsFirst(t, key, d + 1, e);
    }
  }

  lemma {:induction false} BeforeProbe(t: seq<Entry>, key: i32, d: nat)
    requires |t| == CAPACITY && d <= CAPACITY
    ensures forall x :: d <= x < Probe(t, key, d) ==> !Stops(t, key, x)
    decreases CAPACITY - d
  {
    if d < CAPACITY && !Stops(t, key, d) {
      BeforeProbe(t, key, d + 1);
    }
  }

  /** The probe goes no further than any slot at which it would stop. */
  lemma ProbeAtMost(t: seq<Entry>, key: i32, d: nat)
    requires |t| == CAPACITY && d < CAPACITY && Stops(t, key, d)
    ensures Probe(t, key, 0) <= d
  {
    BeforeProbe(t, key, 0);
  }

  ghost predicate Stored(t: seq<Entry>, key: i32) {
    exists i :: 0 <= i < |t| && t[i].key == key
  }

  lemma {:induction false} NeverStops(t: seq<Entry>, key: i32, d: nat)
    requires |t| == CAPACITY && forall x: nat :: x < CAPACITY ==> !Stops(t, key, x)
    ensures !Stops(t, key, d)
  {
    if d >= CAPACITY {
      NeverStops(t, key, d - CAPACITY);
      SlotsRepeat(key, d - CAPACITY);
    }
  }

  /** For every table, valid or not: a probe stops within 512 steps if and only if the key is stored or a
      slot is empty; otherwise it goes round for ever. */
  lemma ProbingStopsExactlyWhen(t: seq<Entry>, key: i32)
    requires |t| == CAPACITY
    ensures Probe(t, key, 0) < CAPACITY <==> Stored(t, key) || Stored(t, 0)
    ensures Probe(t, key, 0) == CAPACITY ==> forall d: nat :: !Stops(t, key, d)
  {
    BeforeProbe(t, key, 0);
    if i :| 0 <= i < |t| && (t[i].key == key || t[i].key == 0) {
      SlotAtDistance(key, i);
      assert Stops(t, key, Distance(key, i));
    } else if Probe(t, key, 0) == CAPACITY {
      forall d: nat
        ensures !Stops(t, key, d)
      {
        NeverStops(t, key, d);
      }
    }
  }

  function Lookup(t: seq<Entry>, key: i32): u32
    requires |t| == CAPACITY
  {
    var d := Probe(t, key, 0);
    if d < CAPACITY && t[Slot(key, d)].key == key then t[Slot(key, d)].value else 0
  }

  function Added(t: seq<Entry>, key: i32, value: u32): (u: seq<Entry>)
    requires |t| == CAPACITY
    ensures |u| == CAPACITY
  {
    var d := Probe(t, key, 0);
    if d < CAPACITY then t[Slot(key, d) := Entry(key, value)] else t
  }

  // ---------------------------------------------------------------- the table as a map

  /** Each stored key is where a probe for it ends: it is reachable through non-empty slots, and stored once. */
  ghost predicate Valid(t: seq<Entry>) {
    && |t| == CAPACITY
    && forall i :: 0 <= i < CAPACITY && t[i].key != 0 ==> FoundAt(t, i)
  }

  ghost predicate FoundAt(t: seq<Entry>, i: int)
    requires |t| == CAPACITY && 0 <= i < CAPACITY
  {
    Probe(t, t[i].key, 0) == Distance(t[i].key, i)
  }

  ghost function Contents(t: seq<Entry>): map<i32, u32>
    requires |t| == CAPACITY
  {
    map k | k in (set i | 0 <= i < CAPACITY && t[i].key != 0 :: t[i].key) :: Lookup(t, k)
  }

  lemma EmptyIsValid(t: seq<Entry>)
    requires |t| == CAPACITY && forall i :: 0 <= i < CAPACITY ==> t[i] == Entry(0, 0)
    ensures Valid(t) && Contents(t) == map[]
  {
  }

  /** What one insertion does to the probe for any key. */
  lemma ProbeAfterAdd(t: seq<Entry>, key: i32, value: u32, q: i32)
    requires Valid(t) && key != 0 && q != 0 && Probe(t, key, 0) < CAPACITY
    ensures q == key || Stored(t, q) ==> Probe(Added(t, key, value), q, 0) == Probe(t, q, 0)
    ensures q != key && !Stored(t, q) ==> Lookup(Added(t, key, value), q) == Lookup(t, q) == 0
  {
    var u, d, e := Added(t, key, value), Probe(t, key, 0), Probe(t, q, 0);
    BeforeProbe(t, q, 0);
    if q == key || Stored(t, q) {
      if q != key {
        var i :| 0 <= i < CAPACITY && t[i].key == q;
        assert FoundAt(t, i);
        SlotAtDistance(q, i);
      }
      forall x: nat | x < e
        ensures !Stops(u, q, x)
      {
        DistanceIsUnique(q, x);
        DistanceIsUnique(q, e);
        assert !Stops(t, q, x);
      }
      ProbeIsFirst(u, q, 0, e);
    } else {
      assert forall i :: 0 <= i < CAPACITY ==> u[i].key != q;
    }
  }

  lemma AddKeepsValid(t: seq<Entry>, key: i32, value: u32)
    requires Valid(t) && key != 0 && Probe(t, key, 0) < CAPACITY
    ensures Valid(Added(t, key, value))
  {
    var u, d := Added(t, key, value), Probe(t, key, 0);
    forall i | 0 <= i < CAPACITY && u[i].key != 0
      ensures FoundAt(u, i)
    {
      ProbeAfterAdd(t, key, value, u[i].key);
      if i == Slot(key, d) {
        DistanceIsUnique(key, d);
      } else {
        assert FoundAt(t, i) && Stored(t, t[i].key);
      }
    }
  }

  lemma AddStores(t: seq<Entry>, key: i32, value: u32, q: i32)
    requires |t| == CAPACITY && key != 0 && q != 0 && Probe(t, key, 0) < CAPACITY
    ensures Stored(Added(t, key, value), q) <==> q == key || Stored(t, q)
  {
    var u, d := Added(t, key, value), Probe(t, key, 0);
    assert u[Slot(key, d)].key == key;
    if i :| 0 <= i < CAPACITY && t[i].key == q {
      assert i != Slot(key, d) ==> u[i] == t[i];
    }
  }

  /** Reading after writing: the value just added, and no other key disturbed. */
  lemma GetAfterAdd(t: seq<Entry>, key: i32, value: u32, q: i32)
    requires Valid(t) && key != 0 && q != 0 && (Stored(t, key) || Stored(t, 0))
    ensures Lookup(Added(t, key, value), q) == if q == key then value else Lookup(t, q)
  {
    ProbingStopsExactlyWhen(t, key);
    ProbeAfterAdd(t, key, value, q);
    if q != key && Stored(t, q) {
      var i :| 0 <= i < CAPACITY && t[i].key == q;
      assert FoundAt(t, i);
      SlotAtDistance(q, i);
    }
  }

  lemma KeysAreStored(t: seq<Entry>, q: i32)
    requires |t| == CAPACITY
    ensures q in Contents(t) <==> q != 0 && Stored(t, q)
  {
  }

  lemma SameMap(m: map<i32, u32>, n: map<i32, u32>)
    requires forall q :: q in m <==> q in n
    requires forall q :: q in m ==> m[q] == n[q]
    ensures m == n
  {
  }

  /** An insertion keeps the table valid and is exactly a map update. */
  lemma AddIsMapUpdate(t: seq<Entry>, key: i32, value: u32)
    requires Valid(t) && key != 0 && (Stored(t, key) || Stored(t, 0))
    ensures Valid(Added(t, key, value))
    ensures Contents(Added(t, key, value)) == Contents(t)[key := value]
  {
    ProbingStopsExactlyWhen(t, key);
    AddKeepsValid(t, key, value);
    var u, m, n := Added(t, key, value), Contents(t), Contents(Added(t, key, value));
    forall q
      ensures q in n <==> q in m[key := value]
      ensures q in n ==> n[q] == m[key := value][q]
    {
      KeysAreStored(t, q);
      KeysAreStored(u, q);
      if q != 0 {
        AddStores(t, key, value, q);
        GetAfterAdd(t, key, value, q);
      }
    }
    SameMap(n, m[key := value]);
  }

  /** A look-up is exactly a map look-up with default 0. */
  lemma LookupIsMapLookup(t: seq<Entry>, key: i32)
    requires Valid(t) && key != 0
    ensures Lookup(t, key) == if key in Contents(t) then Contents(t)[key] else 0
  {
    var d := Probe(t, key, 0);
    if d < CAPACITY && t[Slot(key, d)].key == key {
      assert key in Contents(t);
    }
  }

  class Epistle {
    const table: array<Entry>

    constructor ()
      ensures fresh(table) && table.Length == CAPACITY
      ensures Valid(table[..]) && Contents(table[..]) == map[]
    {
      table := new Entry[CAPACITY](_ => Entry(0, 0));
      new;
      EmptyIsValid(table[..]);
    }

    /** The source loops for ever on a full table without the key. */
    method Add(key: i32, value: u32) returns (done: bool)
      requires key != 0 && table.Length == CAPACITY
      requires Stored(table[..], key) || Stored(table[..], 0)
      modifies table
      ensures done && table[..] == Added(old(table[..]), key, value)
    {
      ghost var t := table[..];
      ProbingStopsExactlyWhen(t, key);
      var idx := Hash(key);
      ghost var d, stop := 0, Probe(t, key, 0);
      while true
        invariant d <= stop < CAPACITY && idx == Slot(key, d)
        invariant table[..] == t && Probe(t, key, d) == stop
        decreases stop - d
      {
        assert table[idx] == t[idx];
        if table[idx].key == 0 {
          table[idx] := table[idx].(key := key);
        }
        if table[idx].key != key {
          idx := Next(idx);
          d := d + 1;
          continue;
        }
        table[idx] := table[idx].(value := value);
        return true;
      }
    }

    method Get(key: i32) returns (value: u32)
      requires key != 0 && table.Length == CAPACITY
      requires Stored(table[..], key) || Stored(table[..], 0)
      ensures value == Lookup(table[..], key)
    {
      ghost var t := table[..];
      ProbingStopsExactlyWhen(t, key);
      var idx := Hash(key);
      ghost var d, stop := 0, Probe(t, key, 0);
      while true
        invariant d <= stop < CAPACITY && idx == Slot(key, d)
        invariant Probe(t, key, d) == stop
        decreases stop - d
      {
        assert table[idx] == t[idx];
        if table[idx].key == 0 {
          return 0;
        }
        if table[idx].key != key {
          idx := Next(idx);
          d := d + 1;
          continue;
        }
        return table[idx].value;
      }
    }
  }
}
