/** The reorder buffer: a ring of slots that behaves as a queue of in-flight instructions, oldest first. */
module ReorderBuffer {
  import opened Words
  import opened Isa
  import opened Core

  datatype RobEntry = RobEntry(busy: bool, op: Op, dest: int, value: Word, done: bool)

  const NO_ENTRY := RobEntry(false, ADD, 0, 0, false)

  // ---------------------------------------------------------------- ring arithmetic

  lemma {:induction false} SmallMod(x: nat, m: nat)
    requires x < m
    ensures x % m == x
  {
  }

  lemma {:induction false} ModAdd(x: nat, m: nat)
    requires m > 0
    ensures (x + m) % m == x % m
  {
    var q, r := x / m, x % m;
    assert x == q * m + r;
    assert x + m == (q + 1) * m + r;
    QuotientIs(x + m, m, q + 1, r);
  }

  lemma {:induction false} QuotientIs(x: nat, m: nat, q: nat, r: nat)
    requires r < m && x == q * m + r
    ensures x % m == r
  {
    var d := x / m - q;
    assert x == (x / m) * m + x % m;
    assert d * m == r - x % m;
    MultipleIsFar(d, m);
  }

  lemma {:induction false} MultipleIsFar(d: int, m: nat)
    ensures d == 0 || d * m >= m || d * m <= -(m as int)
  {
  }

  /** `(tag - head + cap) % cap` is the distance from the head. */
  lemma {:induction false} AgeIsDistance(head: nat, cap: nat, tag: nat)
    requires head < cap && tag < cap
    ensures (tag - head + cap) % cap == Age(head, cap, tag)
  {
    if tag >= head {
      ModAdd(tag - head, cap);
      SmallMod(tag - head, cap);
    } else {
      SmallMod(tag - head + cap, cap);
    }
  }

  /** The `n` slots from `head` on, going round. */
  ghost function Ring<T>(slots: seq<T>, head: nat, n: nat): (s: seq<T>)
    requires head < |slots| && n <= |slots|
    ensures |s| == n && forall i :: 0 <= i < n ==> s[i] == slots[Tag(head, |slots|, i)]
  {
    seq(n, i requires 0 <= i < n => slots[Tag(head, |slots|, i)])
  }

  /** Distance of a slot from the head, as the ring computes it. */
  function RingAge(head: nat, cap: nat, tag: nat): (a: nat)
    requires head < cap && tag < cap
    ensures a == Age(head, cap, tag)
  {
    AgeIsDistance(head, cap, tag);
    (tag - head + cap) % cap
  }

  /** The next slot round the ring. */
  function RingNext(slot: nat, cap: nat): (n: nat)
    requires slot < cap
    ensures n == if slot + 1 < cap then slot + 1 else 0
  {
    NextSlot(slot, cap, slot, 0);
    (slot + 1) % cap
  }

  /** The slot before, round the ring. */
  function RingPrevious(slot: nat, cap: nat): (n: nat)
    requires slot < cap
    ensures n == if slot > 0 then slot - 1 else cap - 1
  {
    PreviousSlot(slot, cap, slot, cap);
    (slot - 1 + cap) % cap
  }

  /** Slot `s` places from the head, as the ring computes it. */
  function RingAt(head: nat, cap: nat, s: nat): (i: nat)
    requires head < cap && s < cap
    ensures i == Tag(head, cap, s)
  {
    PlaceIsTag(head, cap, s);
    (head + s) % cap
  }

  lemma {:induction false} PlaceIsTag(head: nat, cap: nat, s: nat)
    requires head < cap && s < cap
    ensures (head + s) % cap == Tag(head, cap, s)
  {
    if head + s < cap {
      SmallMod(head + s, cap);
    } else {
      ModAdd(head + s - cap, cap);
      SmallMod(head + s - cap, cap);
    }
  }

  class ReorderBuffer {
    const capacity: nat
    const buffer: array<RobEntry>
    var head: nat
    var tail: nat
    var activeCount: nat

    /** Busy slots are exactly the `activeCount` slots from the head, going round. */
    ghost predicate Valid()
      reads this, buffer
    {
      && 0 < capacity == buffer.Length && head < capacity && activeCount <= capacity
      && tail == (if activeCount == capacity then head else Tag(head, capacity, activeCount))
      && forall t :: 0 <= t < capacity ==>
           (buffer[t].busy <==> Age(head, capacity, t) < activeCount) && (!buffer[t].busy ==> !buffer[t].done)
    }

    /** The in-flight entries, oldest first. */
    ghost function Contents(): (s: seq<RobEntry>)
      reads this, buffer
      requires Valid()
      ensures |s| == activeCount
    {
      Ring(buffer[..], head, activeCount)
    }

    constructor (size: nat)
      requires size > 0
      ensures Valid() && fresh(buffer) && capacity == size && Contents() == [] && head == 0
    {
      capacity := size;
      buffer := new RobEntry[size](_ => NO_ENTRY);
      head, tail, activeCount := 0, 0, 0;
    }

    function HasSpace(): bool
      reads this
    {
      activeCount < capacity
    }

    /** Appends an entry; its tag is the next one round the ring, or -1 when the buffer is full. */
    method Dispatch(op: Op, dest: int) returns (tag: int)
      requires Valid()
      modifies this`tail, this`activeCount, buffer
      ensures Valid() && head == old(head)
      ensures tag == if old(activeCount) == capacity then -1 else Tag(head, capacity, old(activeCount))
      ensures tag == -1 ==> Contents() == old(Contents())
      ensures tag != -1 ==>
        Contents() == old(Contents()) + [RobEntry(true, op, dest, old(buffer[tag].value), false)]
    {
      hide RingNext, RingPrevious;
      if activeCount == capacity { return -1; }
      tag := tail;
      buffer[tag] := buffer[tag].(busy := true, op := op, dest := dest, done := false);
      tail := RingNext(tail, capacity);
      activeCount := activeCount + 1;
    }

    /** Takes back the youngest entry, and only that one. */
    method Undispatch(tag: nat) returns (ok: bool)
      requires Valid() && tag < capacity
      modifies this`tail, this`activeCount, buffer
      ensures Valid() && head == old(head)
      ensures ok <==> old(activeCount) > 0 && tag == Tag(head, capacity, old(activeCount) - 1)
      ensures Contents() == if ok then old(Contents())[..old(activeCount) - 1] else old(Contents())
    {
      hide RingNext, RingPrevious;
      if activeCount == 0 { return false; }
      var last := RingPrevious(tail, capacity);
      if tag != last || !buffer[tag].busy { return false; }
      buffer[tag] := buffer[tag].(busy := false, done := false);
      tail := last;
      activeCount := activeCount - 1;
      return true;
    }

    /** Completes an entry in flight; a result for a free slot is dropped. */
    method WriteResult(tag: nat, v: Word)
      requires Valid() && tag < capacity
      modifies buffer
      ensures Valid()
      ensures var a := Age(head, capacity, tag);
              Contents() == if a < activeCount then old(Contents())[a := old(Contents())[a].(value := v, done := true)]
                            else old(Contents())
    {
      if buffer[tag].busy {
        buffer[tag] := buffer[tag].(value := v, done := true);
      }
    }

    /** Removes the oldest entry if it is done. */
    method Commit() returns (ok: bool, dest: int, value: Word, tag: nat)
      requires Valid()
      modifies this`head, this`activeCount, buffer
      ensures Valid()
      ensures ok <==> old(Contents()) != [] && old(Contents())[0].done
      ensures !ok ==> Contents() == old(Contents()) && head == old(head)
      ensures ok ==> Contents() == old(Contents())[1..] && tag == old(head) && head == Tag(old(head), capacity, 1)
      ensures ok ==> dest == old(Contents())[0].dest && value == old(Contents())[0].value
    {
      hide RingNext, RingPrevious;
      ok, dest, value, tag := false, 0, 0, 0;
      if activeCount == 0 { return; }
      if buffer[head].done {
        dest, value, tag := buffer[head].dest, buffer[head].value, head;
        buffer[head] := buffer[head].(busy := false, done := false);
        ghost var h := head;
        head := RingNext(head, capacity);
        activeCount := activeCount - 1;
        ok := true;
        forall i | 0 <= i < activeCount ensures Tag(head, capacity, i) == Tag(h, capacity, i + 1) {
        }
      }
    }

    /** Done bit and value of a slot. */
    function IsReady(tag: nat): bool
      reads this, buffer
      requires Valid() && tag < capacity
    {
      buffer[tag].done
    }

    function GetValue(tag: nat): Word
      reads this, buffer
      requires Valid() && tag < capacity
    {
      buffer[tag].value
    }

    /** Distance from the head, as the ring computes it. */
    function AgeFromHead(tag: nat): (a: nat)
      reads this, buffer
      requires Valid() && tag < capacity
      ensures a == Age(head, capacity, tag)
    {
      RingAge(head, capacity, tag)
    }

    /** A slot after the sweep. */
    function Swept(e: RobEntry, age: int, keep: nat): RobEntry {
      if age < keep then e else e.(busy := false, done := false)
    }

    lemma {:induction false} BusyIs()
      requires Valid()
      ensures 0 < capacity == buffer.Length && head < capacity && activeCount <= capacity
      ensures forall t :: 0 <= t < capacity ==> (buffer[t].busy <==> Age(head, capacity, t) < activeCount)
      ensures forall t :: 0 <= t < capacity && !buffer[t].busy ==> !buffer[t].done
    {
    }

    /** The sweep over the slots: frees those further from the head than `squashTag`, and counts them. */
    method FreeYounger(squashTag: nat) returns (freed: nat)
      requires Valid() && squashTag < capacity && Age(head, capacity, squashTag) < activeCount
      modifies buffer
      ensures forall t :: 0 <= t < capacity ==>
        buffer[t] == Swept(old(buffer[t]), Age(head, capacity, t), Age(head, capacity, squashTag) + 1)
      ensures freed == activeCount - (Age(head, capacity, squashTag) + 1)
    {
      BusyIs();
      hide RingAge, RingNext, Age, Valid;
      freed := 0;
      var i := 0;
      ghost var keep, was := Age(head, capacity, squashTag) + 1, buffer[..];
      while i < capacity
        invariant i <= capacity
        invariant forall t :: i <= t < capacity ==> buffer[t] == was[t]
        invariant forall t :: 0 <= t < i ==> buffer[t] == Swept(was[t], Age(head, capacity, t), keep)
        invariant freed == Beyond(head, capacity, keep, activeCount, i)
      {
        assert buffer[i] == was[i];
        if buffer[i].busy && RingAge(head, capacity, i) > RingAge(head, capacity, squashTag) {
          buffer[i] := buffer[i].(busy := false, done := false);
          freed := freed + 1;
        }
        i := i + 1;
      }
      BeyondAll(head, capacity, keep, activeCount);
    }

    /** Frees exactly the entries younger than `squashTag`. */
    method SquashYoungerThan(squashTag: nat) returns (freed: nat)
      requires Valid() && squashTag < capacity && Age(head, capacity, squashTag) < activeCount
      modifies this`tail, this`activeCount, buffer
      ensures Valid() && head == old(head)
      ensures Contents() == old(Contents())[..Age(head, capacity, squashTag) + 1]
      ensures freed == old(activeCount) - activeCount
    {
      hide RingAge, RingNext;
      freed := FreeYounger(squashTag);
      activeCount := RingAge(head, capacity, squashTag) + 1;
      tail := RingNext(squashTag, capacity);
    }
  }

  /** How many of the first `i` slots are between `keep` and `n` places from the head. */
  ghost function Beyond(head: nat, cap: nat, keep: nat, n: nat, i: nat): nat
    requires head < cap && i <= cap
  {
    if i == 0 then 0
    else Beyond(head, cap, keep, n, i - 1) + if keep <= Age(head, cap, i - 1) < n then 1 else 0
  }

  function Clip(lo: int, x: int, hi: int): int { if x < lo then lo else if x > hi then hi else x }

  /** The slots before index `i` that count, split where the ring wraps. */
  lemma {:induction false} BeyondUpTo(head: nat, cap: nat, keep: nat, n: nat, i: nat)
    requires head < cap && i <= cap && keep <= n <= cap
    ensures Beyond(head, cap, keep, n, i) ==
            if i <= head then Clip(keep, i - head + cap, n) - Clip(keep, cap - head, n)
            else Clip(keep, cap, n) - Clip(keep, cap - head, n) + Clip(keep, i - head, n) - keep
  {
    if i > 0 {
      BeyondUpTo(head, cap, keep, n, i - 1);
    }
  }

  lemma {:induction false} BeyondAll(head: nat, cap: nat, keep: nat, n: nat)
    requires head < cap && keep <= n <= cap
    ensures Beyond(head, cap, keep, n, cap) == n - keep
  {
    BeyondUpTo(head, cap, keep, n, cap);
  }

  /** One past the slot at distance `n` is the slot at distance `n + 1`. */
  lemma {:induction false} NextSlot(slot: nat, cap: nat, head: nat, n: nat)
    requires head < cap && n < cap && slot == Tag(head, cap, n)
    ensures (slot + 1) % cap == if n + 1 == cap then head else Tag(head, cap, n + 1)
  {
    if slot + 1 < cap {
      SmallMod(slot + 1, cap);
    } else {
      ModAdd(0, cap);
      SmallMod(0, cap);
    }
  }

  lemma {:induction false} PreviousSlot(tail: nat, cap: nat, head: nat, n: nat)
    requires head < cap && 0 < n <= cap && tail == if n == cap then head else Tag(head, cap, n)
    ensures (tail - 1 + cap) % cap == Tag(head, cap, n - 1)
  {
    if tail > 0 {
      ModAdd(tail - 1, cap);
      SmallMod(tail - 1, cap);
    } else {
      SmallMod(cap - 1, cap);
    }
  }
}
