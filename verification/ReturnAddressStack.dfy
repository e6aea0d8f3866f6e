/** The bounded return-address stack: a ring that forgets its oldest entry on overflow. */
module ReturnAddressStack {
  import opened Words
  import opened ReorderBuffer

  // ---------------------------------------------------------------- what it is for: the top of an unbounded stack

  datatype RasOp = Push(pc: Pc) | Pop

  /** An unbounded stack, newest last; popping an empty stack leaves it empty. */
  function Unbounded(s: seq<Pc>, op: RasOp): seq<Pc> {
    match op
    case Push(pc) => s + [pc]
    case Pop => if s == [] then [] else s[..|s| - 1]
  }

  /** The bounded stack: a push beyond `cap` forgets the oldest entry. */
  function Bounded(s: seq<Pc>, cap: nat, op: RasOp): seq<Pc>
    requires cap > 0
  {
    match op
    case Push(pc) => if |s| < cap then s + [pc] else s[1..] + [pc]
    case Pop => if s == [] then [] else s[..|s| - 1]
  }

  function UnboundedRun(s: seq<Pc>, ops: seq<RasOp>): seq<Pc> {
    if ops == [] then s else Unbounded(UnboundedRun(s, ops[..|ops| - 1]), ops[|ops| - 1])
  }

  function BoundedRun(s: seq<Pc>, cap: nat, ops: seq<RasOp>): seq<Pc>
    requires cap > 0
  {
    if ops == [] then s else Bounded(BoundedRun(s, cap, ops[..|ops| - 1]), cap, ops[|ops| - 1])
  }

  /** `t` is the top part of `s`. */
  ghost predicate TopOf(t: seq<Pc>, s: seq<Pc>) {
    |t| <= |s| && t == s[|s| - |t|..]
  }

  /** How many of its newest entries the ring still has, from the operations alone. */
  function Depth(cap: nat, ops: seq<RasOp>): (n: nat)
    ensures n <= cap
  {
    if ops == [] then 0
    else
      var d := Depth(cap, ops[..|ops| - 1]);
      match ops[|ops| - 1]
      case Push(_) => if d < cap then d + 1 else cap
      case Pop => if d > 0 then d - 1 else 0
  }

  /** Overflow and underflow included, the ring holds exactly the top entries of an unbounded stack driven by the
    * same operations. */
  lemma {:induction false} HoldsTheTop(cap: nat, ops: seq<RasOp>)
    requires cap > 0
    ensures TopOf(BoundedRun([], cap, ops), UnboundedRun([], ops))
    ensures |BoundedRun([], cap, ops)| == Depth(cap, ops)
  {
    if ops != [] {
      HoldsTheTop(cap, ops[..|ops| - 1]);
    }
  }

  /** Whatever a pop predicts is what the unbounded stack would predict. */
  lemma {:induction false} PopIsTop(cap: nat, ops: seq<RasOp>)
    requires cap > 0
    ensures var b, u := BoundedRun([], cap, ops), UnboundedRun([], ops);
            b != [] ==> u != [] && b[|b| - 1] == u[|u| - 1]
  {
    HoldsTheTop(cap, ops);
  }

  /** As long as the unbounded stack never holds more than `cap` entries, the ring is that stack. */
  lemma {:induction false} NoOverflow(cap: nat, ops: seq<RasOp>)
    requires cap > 0 && forall k :: 0 <= k <= |ops| ==> |UnboundedRun([], ops[..k])| <= cap
    ensures BoundedRun([], cap, ops) == UnboundedRun([], ops)
  {
    if ops != [] {
      var front := ops[..|ops| - 1];
      assert forall k :: 0 <= k <= |front| ==> front[..k] == ops[..k];
      NoOverflow(cap, front);
      assert ops[..|ops|] == ops;
    }
  }

  // ---------------------------------------------------------------- the ring

  class ReturnAddressStack {
    const capacity: nat
    const stack: array<Pc>
    var tos: nat
    var count: nat

    ghost predicate Valid()
      reads this
    {
      0 < capacity == stack.Length && tos < capacity && count <= capacity
    }

    /** Where the oldest entry sits. */
    ghost function Base(): (b: nat)
      reads this
      requires Valid()
      ensures b < capacity
    {
      if tos >= count then tos - count else tos - count + capacity
    }

    /** The entries still remembered, newest last. */
    ghost function Contents(): seq<Pc>
      reads this, stack
      requires Valid()
    {
      Ring(stack[..], Base(), count)
    }

    constructor (size: nat)
      requires size > 0
      ensures Valid() && fresh(stack) && capacity == size && Contents() == []
    {
      capacity := size;
      stack := new Pc[size](_ => 0);
      tos, count := 0, 0;
    }

    method PushAddress(pc: Pc)
      requires Valid()
      modifies this, stack
      ensures Valid() && Contents() == Bounded(old(Contents()), capacity, Push(pc))
    {
      hide RingNext;
      stack[tos] := pc;
      tos := RingNext(tos, capacity);
      if count < capacity { count := count + 1; }
    }

    method PopAddress() returns (ok: bool, target: Pc)
      requires Valid()
      modifies this
      ensures Valid() && Contents() == Bounded(old(Contents()), capacity, Pop)
      ensures ok <==> old(Contents()) != []
      ensures ok ==> target == old(Contents())[old(count) - 1]
    {
      if count == 0 { return false, 0; }
      hide RingPrevious;
      tos := RingPrevious(tos, capacity);
      target := stack[tos];
      count := count - 1;
      ok := true;
    }

    method PeekAddress() returns (ok: bool, target: Pc)
      requires Valid()
      ensures ok <==> Contents() != []
      ensures ok ==> target == Contents()[count - 1]
    {
      if count == 0 { return false, 0; }
      hide RingPrevious;
      return true, stack[RingPrevious(tos, capacity)];
    }

    /** Everything a restore needs. */
    method GetFullSnapshot() returns (savedTos: nat, savedCount: nat, savedStack: seq<Pc>)
      requires Valid()
      ensures savedTos == tos && savedCount == count && savedStack == stack[..]
      ensures savedTos < capacity && savedCount <= capacity && |savedStack| == capacity
    {
      return tos, count, stack[..];
    }

    /** Slots the saved stack does not cover are cleared. */
    method RestoreFull(savedTos: nat, savedCount: nat, savedStack: seq<Pc>)
      requires Valid() && savedTos < capacity && savedCount <= capacity
      modifies this, stack
      ensures Valid() && tos == savedTos && count == savedCount
      ensures forall i :: 0 <= i < capacity ==> stack[i] == if i < |savedStack| then savedStack[i] else 0
      ensures |savedStack| == capacity ==> stack[..] == savedStack
    {
      tos, count := savedTos, savedCount;
      forall i | 0 <= i < stack.Length { stack[i] := 0; }
      var n := if |savedStack| < capacity then |savedStack| else capacity;
      var i := 0;
      while i < n
        invariant 0 <= i <= n && tos == savedTos && count == savedCount
        invariant forall j :: 0 <= j < capacity ==> stack[j] == if j < i then savedStack[j] else 0
      {
        stack[i] := savedStack[i];
        i := i + 1;
      }
    }

    /** Speculative pushes and pops, as fetch makes them down a predicted path. */
    method Drive(ops: seq<RasOp>)
      requires Valid()
      modifies this, stack
      ensures Valid() && Contents() == BoundedRun(old(Contents()), capacity, ops)
    {
      var k := 0;
      while k < |ops|
        invariant 0 <= k <= |ops| && Valid()
        invariant Contents() == BoundedRun(old(Contents()), capacity, ops[..k])
      {
        assert ops[..k + 1][..k] == ops[..k];
        match ops[k] {
          case Push(pc) => PushAddress(pc);
          case Pop => var _, _ := PopAddress();
        }
        k := k + 1;
      }
      assert ops[..k] == ops;
    }

    /** Snapshot, any speculation, restore: wherever the speculation went, the stack is what it was. */
    method SpeculateAndRestore(ops: seq<RasOp>) returns (ghost reached: seq<Pc>)
      requires Valid()
      modifies this, stack
      ensures reached == BoundedRun(old(Contents()), capacity, ops)
      ensures Valid() && Contents() == old(Contents())
    {
      var savedTos, savedCount, savedStack := GetFullSnapshot();
      Drive(ops);
      reached := Contents();
      RestoreFull(savedTos, savedCount, savedStack);
    }
  }
}
