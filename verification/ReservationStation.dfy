/** The reservation stations: slots of instructions waiting for operands. */
module ReservationStation {
  import opened Words
  import opened Core
  import opened SlotTable

  type RsEntry = Slot<RsOps>

  const NO_OPS := RsOps(Operand(false, -1, 0), Operand(false, -1, 0))

  /** Operands after one broadcast. */
  function WakeOps(ops: RsOps, tag: int, v: Word): RsOps {
    RsOps(WakeOperand(ops.src1, [Beat(tag, v)]), WakeOperand(ops.src2, [Beat(tag, v)]))
  }

  predicate IsReady(e: RsEntry) { e.valid && e.body.src1.ready && e.body.src2.ready }

  /** The instructions of a list of slots that could issue, in slot order. */
  function ReadyIds(slots: seq<RsEntry>): (ids: seq<nat>) {
    if slots == [] then []
    else ReadyIds(slots[..|slots| - 1]) + if IsReady(slots[|slots| - 1]) then [slots[|slots| - 1].id] else []
  }

  lemma {:induction false} LastIsNew(slots: seq<RsEntry>)
    requires DistinctIds(slots) && slots != []
    ensures var front, e := slots[..|slots| - 1], slots[|slots| - 1]; DistinctIds(front) && (e.valid ==>
              e.id !in Table(front))
  {
    hide Table;
    var front, e := slots[..|slots| - 1], slots[|slots| - 1];
    if e.valid && e.id in Table(front) {
      var j := SlotOf(front, e.id);
    }
  }

  /** What the table of all slots says of an instruction, by the table of all but the last. */
  lemma {:induction false} LastLookup(slots: seq<RsEntry>, id: nat)
    requires DistinctIds(slots) && slots != [] && DistinctIds(slots[..|slots| - 1])
    ensures var front, e := slots[..|slots| - 1], slots[|slots| - 1];
            && (id in Table(slots) <==> id in Table(front) || (e.valid && id == e.id))
            && (id in Table(front) ==> Table(slots)[id] == Table(front)[id])
            && (e.valid && id == e.id ==> Table(slots)[id] == e.body)
  {
    hide Table, DistinctIds;
    var front, e := slots[..|slots| - 1], slots[|slots| - 1];
    if id in Table(front) {
      var j := SlotOf(front, id);
      InTable(front, j, id);
      InTable(slots, j, id);
    }
    if e.valid && id == e.id { InTable(slots, |slots| - 1, id); }
    if id in Table(slots) {
      var j := SlotOf(slots, id);
      if j < |front| { InTable(front, j, id); }
    }
  }

  lemma {:induction false} LastSlot(slots: seq<RsEntry>)
    requires DistinctIds(slots) && slots != []
    ensures var front, e := slots[..|slots| - 1], slots[|slots| - 1];
            && DistinctIds(front)
            && (e.valid ==> e.id !in Table(front))
            && Table(slots) == if e.valid then Table(front)[e.id := e.body] else Table(front)
  {
    hide Table, DistinctIds;
    var front, e := slots[..|slots| - 1], slots[|slots| - 1];
    LastIsNew(slots);
    forall id ensures id in Table(slots) <==> id in Table(front) || (e.valid && id == e.id) { LastLookup(slots, id); }
    forall id | id in Table(slots)
      ensures Table(slots)[id] == if e.valid && id == e.id then e.body else Table(front)[id]
    {
      LastLookup(slots, id);
    }
  }

  /** Everything that could issue is offered, and nothing else. */
  lemma {:induction false} ReadyIdsAre(slots: seq<RsEntry>)
    requires DistinctIds(slots)
    ensures forall id :: id in ReadyIds(slots) <==>
              id in Table(slots) && Table(slots)[id].src1.ready && Table(slots)[id].src2.ready
  {
    if slots != [] {
      LastSlot(slots);
      ReadyIdsAre(slots[..|slots| - 1]);
    }
  }

  /** And it is offered once. */
  lemma {:induction false} ReadyIdsOnce(slots: seq<RsEntry>)
    requires DistinctIds(slots)
    ensures forall i, j :: 0 <= i < j < |ReadyIds(slots)| ==> ReadyIds(slots)[i] != ReadyIds(slots)[j]
  {
    if slots != [] {
      var front, e := slots[..|slots| - 1], slots[|slots| - 1];
      LastSlot(slots);
      ReadyIdsOnce(front);
      ReadyIdsAre(front);
      assert e.valid ==> e.id !in ReadyIds(front);
    }
  }

  lemma {:induction false} WakeOne(o: Operand, tag: int, v: Word)
    ensures WakeOperand(o, [Beat(tag, v)]) == if !o.ready && o.tag == tag then Operand(true, o.tag, v) else o
  {
    assert [Beat(tag, v)][1..] == [];
  }

  class ReservationStation {
    const capacity: nat
    const stations: array<RsEntry>

    ghost predicate Valid()
      reads stations
    {
      stations.Length == capacity && DistinctIds(stations[..])
    }

    ghost function Contents(): map<nat, RsOps>
      reads stations
      requires Valid()
    {
      Table(stations[..])
    }

    constructor (size: nat)
      ensures Valid() && fresh(stations) && capacity == size && Contents() == map[]
    {
      capacity := size;
      stations := new RsEntry[size](_ => Slot(false, 0, NO_OPS));
    }

    /** Takes the first free slot; fails only when there is none. */
    method Allocate(id: nat, ops: RsOps) returns (ok: bool)
      requires Valid() && id !in Contents()
      modifies stations
      ensures Valid()
      ensures ok <==> exists i :: 0 <= i < capacity && !old(stations[i]).valid
      ensures Contents() == if ok then old(Contents())[id := ops] else old(Contents())
    {
      var i := 0;
      while i < capacity
        invariant 0 <= i <= capacity && stations[..] == old(stations[..])
        invariant forall j :: 0 <= j < i ==> stations[j].valid
      {
        if !stations[i].valid {
          Filled(stations[..], i, id, ops);
          ghost var was := stations[..];
          stations[i] := Slot(true, id, ops);
          assert stations[..] == was[i := Slot(true, id, ops)];
          return true;
        }
        i := i + 1;
      }
      return false;
    }

    method HasSpace() returns (ok: bool)
      requires Valid()
      ensures ok <==> exists i :: 0 <= i < capacity && !stations[i].valid
    {
      var i := 0;
      while i < capacity
        invariant 0 <= i <= capacity && forall j :: 0 <= j < i ==> stations[j].valid
      {
        if !stations[i].valid { return true; }
        i := i + 1;
      }
      return false;
    }

    /** One broadcast reaches every waiting operand that names its tag. */
    method UpdateFromCDB(tag: int, v: Word)
      requires Valid()
      modifies stations
      ensures Valid() && Contents() == WakeRs(old(Contents()), [Beat(tag, v)])
    {
      var i := 0;
      while i < capacity
        invariant 0 <= i <= capacity
        invariant forall j :: i <= j < capacity ==> stations[j] == old(stations[j])
        invariant forall j :: 0 <= j < i ==>
          stations[j] == if old(stations[j]).valid then old(stations[j]).(body := WakeOps(old(stations[j]).body, tag,
              v))
                         else old(stations[j])
      {
        if stations[i].valid {
          var ops := stations[i].body;
          WakeOne(ops.src1, tag, v);
          WakeOne(ops.src2, tag, v);
          if !ops.src1.ready && ops.src1.tag == tag {
            ops := ops.(src1 := ops.src1.(ready := true, val := v));
          }
          if !ops.src2.ready && ops.src2.tag == tag {
            ops := ops.(src2 := ops.src2.(ready := true, val := v));
          }
          stations[i] := stations[i].(body := ops);
        }
        i := i + 1;
      }
      Mapped(old(stations[..]), stations[..], ops => WakeOps(ops, tag, v));
    }

    /** All instructions with both operands, in slot order. */
    method CollectReadyInstructions() returns (ready: seq<nat>)
      requires Valid()
      ensures ready == ReadyIds(stations[..])
    {
      ready := [];
      var i := 0;
      while i < capacity
        invariant 0 <= i <= capacity && ready == ReadyIds(stations[..i])
      {
        assert stations[..i + 1][..i] == stations[..i];
        if stations[i].valid && stations[i].body.src1.ready && stations[i].body.src2.ready {
          ready := ready + [stations[i].id];
        }
        i := i + 1;
      }
      assert stations[..capacity] == stations[..];
    }

    method RemoveInstruction(id: nat)
      requires Valid()
      modifies stations
      ensures Valid() && Contents() == old(Contents()) - {id}
    {
      var i := 0;
      while i < capacity
        invariant 0 <= i <= capacity && stations[..] == old(stations[..])
        invariant forall j :: 0 <= j < i ==> !(stations[j].valid && stations[j].id == id)
      {
        if stations[i].valid && stations[i].id == id {
          ghost var was := stations[..];
          Freed(was, i);
          stations[i] := stations[i].(valid := false);
          assert stations[..] == was[i := was[i].(valid := false)];
          return;
        }
        i := i + 1;
      }
      NotInTable(stations[..], id);
    }

    /** Recovery frees the stations of the squashed instructions, and only theirs. */
    method SquashInstIds(ids: seq<nat>)
      requires Valid()
      modifies stations
      ensures Valid() && Contents() == old(Contents()) - (set id | id in ids)
    {
      var k := 0;
      while k < |ids|
        invariant 0 <= k <= |ids| && Valid()
        invariant Contents() == old(Contents()) - (set id | id in ids[..k])
      {
        RemoveInstruction(ids[k]);
        assert ids[..k + 1] == ids[..k] + [ids[k]];
        k := k + 1;
      }
      assert ids[..k] == ids;
    }
  }
}
