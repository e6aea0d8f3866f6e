/** A table kept in slots: entries sit anywhere, and are found by the instruction they belong to. */
module SlotTable {

  datatype Slot<+E> = Slot(valid: bool, id: nat, body: E)

  ghost predicate DistinctIds<E>(slots: seq<Slot<E>>) {
    forall i, j :: 0 <= i < j < |slots| && slots[i].valid && slots[j].valid ==> slots[i].id != slots[j].id
  }

  /** The table: instruction id to entry. */
  ghost function Table<E>(slots: seq<Slot<E>>): map<nat, E>
    requires DistinctIds(slots)
  {
    map i | 0 <= i < |slots| && slots[i].valid :: slots[i].id := slots[i].body
  }

  /** Slot `i` holds instruction `id`. */
  predicate Holds<E>(slots: seq<Slot<E>>, i: int, id: nat) {
    0 <= i < |slots| && slots[i].valid && slots[i].id == id
  }

  lemma {:induction false} InTable<E>(slots: seq<Slot<E>>, i: int, id: nat)
    requires DistinctIds(slots) && Holds(slots, i, id)
    ensures id in Table(slots) && Table(slots)[id] == slots[i].body
  {
  }

  lemma {:induction false} NotInTable<E>(slots: seq<Slot<E>>, id: nat)
    requires DistinctIds(slots) && forall i :: 0 <= i < |slots| ==> !Holds(slots, i, id)
    ensures id !in Table(slots)
  {
    if id in Table(slots) {
      var i :| 0 <= i < |slots| && slots[i].valid && slots[i].id == id;
      assert Holds(slots, i, id);
    }
  }

  lemma {:induction false} SlotOf<E>(slots: seq<Slot<E>>, id: nat) returns (i: nat)
    requires DistinctIds(slots) && id in Table(slots)
    ensures Holds(slots, i, id)
  {
    i :| 0 <= i < |slots| && slots[i].valid && slots[i].id == id;
  }

  /** Taking a free slot adds the entry. */
  lemma {:induction false} Filled<E>(was: seq<Slot<E>>, i: nat, id: nat, body: E)
    requires DistinctIds(was) && i < |was| && !was[i].valid && id !in Table(was)
    ensures var now := was[i := Slot(true, id, body)]; DistinctIds(now) && Table(now) == Table(was)[id := body]
  {
    var now := was[i := Slot(true, id, body)];
    forall j | 0 <= j < |was| && was[j].valid ensures was[j].id != id {
      InTable(was, j, was[j].id);
    }
    forall x ensures x in Table(now) <==> x in Table(was) || x == id {
      if x in Table(was) {
        var j := SlotOf(was, x);
        InTable(now, j, x);
      }
      InTable(now, i, id);
    }
  }

  /** Freeing a slot drops its entry. */
  lemma {:induction false} Freed<E>(was: seq<Slot<E>>, i: nat)
    requires DistinctIds(was) && i < |was| && was[i].valid
    ensures var now := was[i := was[i].(valid := false)]; DistinctIds(now) && Table(now) == Table(was) - {was[i].id}
  {
    hide Table;
    var now := was[i := was[i].(valid := false)];
    assert DistinctIds(now);
    NotInTable(now, was[i].id);
    hide DistinctIds;
    forall x | x != was[i].id
      ensures x in Table(now) <==> x in Table(was)
      ensures x in Table(was) ==> Table(now)[x] == Table(was)[x]
    {
      SameElsewhere(was, now, i, x);
    }
    assert Table(now).Keys == Table(was).Keys - {was[i].id};
  }

  /** Entries in other slots stay as they are. */
  lemma {:induction false} SameElsewhere<E>(was: seq<Slot<E>>, now: seq<Slot<E>>, i: nat, id: nat)
    requires DistinctIds(was) && DistinctIds(now) && i < |was| == |now| && id != was[i].id == now[i].id
    requires forall j :: 0 <= j < |was| && j != i ==> now[j] == was[j]
    ensures id in Table(now) <==> id in Table(was)
    ensures id in Table(was) ==> Table(now)[id] == Table(was)[id]
  {
    hide Table, DistinctIds;
    if id in Table(was) {
      var j := SlotOf(was, id);
      InTable(was, j, id);
      InTable(now, j, id);
    }
    if id in Table(now) {
      var j := SlotOf(now, id);
      InTable(was, j, id);
    }
  }

  /** Changing the body of a slot changes that entry. */
  lemma {:induction false} Changed<E>(was: seq<Slot<E>>, i: nat, body: E)
    requires DistinctIds(was) && i < |was| && was[i].valid
    ensures var now := was[i := was[i].(body := body)]; DistinctIds(now) && Table(now) == Table(was)[was[i].id := body]
  {
    hide Table;
    var now := was[i := was[i].(body := body)];
    assert DistinctIds(now);
    hide DistinctIds;
    forall x | x != was[i].id
      ensures x in Table(now) <==> x in Table(was)
      ensures x in Table(was) ==> Table(now)[x] == Table(was)[x]
    {
      SameElsewhere(was, now, i, x);
    }
    InTable(now, i, was[i].id);
    assert Table(now).Keys == Table(was).Keys + {was[i].id};
  }

  /** Changing every body in place changes every entry alike. */
  lemma {:induction false} Mapped<E>(was: seq<Slot<E>>, now: seq<Slot<E>>, f: E -> E)
    requires DistinctIds(was) && |now| == |was|
    requires forall j :: 0 <= j < |was| ==> now[j] == if was[j].valid then was[j].(body := f(was[j].body)) else was[j]
    ensures DistinctIds(now) && Table(now) == map x | x in Table(was) :: f(Table(was)[x])
  {
    forall x ensures x in Table(now) <==> x in Table(was) {
      if x in Table(was) {
        var j := SlotOf(was, x);
        InTable(now, j, x);
      }
    }
  }

  /** The instructions that have a slot. */
  ghost function Keys<E>(slots: seq<Slot<E>>): set<nat> {
    set i | 0 <= i < |slots| && slots[i].valid :: slots[i].id
  }

  lemma {:induction false} KeysAre<E>(slots: seq<Slot<E>>)
    requires DistinctIds(slots)
    ensures Table(slots).Keys == Keys(slots)
  {
    forall id ensures id in Table(slots) <==> id in Keys(slots) {
      if id in Keys(slots) {
        var i :| 0 <= i < |slots| && slots[i].valid && slots[i].id == id;
        InTable(slots, i, id);
      }
    }
  }

  lemma {:induction false} KeysGrow<E>(front: seq<Slot<E>>, e: Slot<E>)
    requires DistinctIds(front + [e])
    ensures DistinctIds(front) && (e.valid ==> e.id !in Keys(front))
    ensures Keys(front + [e]) == if e.valid then Keys(front) + {e.id} else Keys(front)
  {
    var slots := front + [e];
    assert slots[|front|] == e;
    assert forall i :: 0 <= i < |front| ==> slots[i] == front[i];
  }

  predicate SomeFree<E>(slots: seq<Slot<E>>) { exists i :: 0 <= i < |slots| && !slots[i].valid }

  lemma {:induction false} FreeGrows<E>(front: seq<Slot<E>>, e: Slot<E>)
    ensures SomeFree(front + [e]) <==> SomeFree(front) || !e.valid
  {
    var slots := front + [e];
    assert slots[|front|] == e;
    assert forall i :: 0 <= i < |front| ==> slots[i] == front[i];
  }

  /** A free slot is left exactly while there are fewer entries than slots. */
  lemma {:induction false} Occupied<E>(slots: seq<Slot<E>>)
    requires DistinctIds(slots)
    ensures |Keys(slots)| <= |slots| && (|Keys(slots)| < |slots| <==> SomeFree(slots))
  {
    if slots != [] {
      var front, e := slots[..|slots| - 1], slots[|slots| - 1];
      assert slots == front + [e];
      KeysGrow(front, e);
      FreeGrows(front, e);
      hide Keys, SomeFree, DistinctIds;
      Occupied(front);
    }
  }

  /** The same, by the table. */
  lemma {:induction false} SpaceLeft<E>(slots: seq<Slot<E>>)
    requires DistinctIds(slots)
    ensures |Table(slots).Keys| <= |slots|
    ensures |Table(slots).Keys| < |slots| <==> exists i :: 0 <= i < |slots| && !slots[i].valid
  {
    hide Table;
    KeysAre(slots);
    Occupied(slots);
  }
}
