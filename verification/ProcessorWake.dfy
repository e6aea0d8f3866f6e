/** Registered wake-ups at the start of a cycle: table, reservation stations and queue, one result after another. */
module ProcessorWake {
  import opened Isa
  import opened Core
  import opened ReorderBuffer
  import opened ReservationStation
  import opened LoadStoreQueue
  import opened ProcessorState
  import opened ProcessorSteps

  function WokenInfo(info: InstInfo, b: Beat): InstInfo {
    if info.completed then info
    else info.(src1 := WakeOperand(info.src1, [b]), src2 := WakeOperand(info.src2, [b]),
               data := if info.fetched.instr.IsStore() then WakeOperand(info.data, [b]) else info.data)
  }

  /** Does the result supply the data of a waiting store? */
  predicate SuppliesData(info: InstInfo, b: Beat) {
    !info.completed && info.fetched.instr.IsStore() && !info.data.ready && info.data.tag == b.tag
  }

  function WokenOp(info: InstInfo, m: MemOp, b: Beat): MemOp {
    if SuppliesData(info, b) && !m.isLoad then m.(data := b.val, dataReady := true) else m
  }

  /** The instructions of `ids` have seen the result. */
  function WokenOwn(o: Own, b: Beat, ids: set<nat>): Own {
    o.(table := map x | x in o.table :: if x in ids then WokenInfo(o.table[x], b) else o.table[x])
  }

  function WokenView(o: Own, v: View, b: Beat, ids: set<nat>): View {
    v.(mem := map x | x in v.mem :: if x in ids && x in o.table then WokenOp(o.table[x], v.mem[x], b) else v.mem[x])
  }

  lemma {:induction false} WokenEntryOk(c: Config, info: InstInfo, tag: int, e: RobEntry, b: Beat)
    requires EntryOk(c, info, tag, e)
    ensures EntryOk(c, WokenInfo(info, b), tag, e)
  {
  }

  lemma {:induction false} WokenOpOk(info: InstInfo, m: MemOp, b: Beat)
    requires MemOpOk(info, m)
    ensures MemOpOk(WokenInfo(info, b), WokenOp(info, m, b)) && WokenOp(info, m, b).isLoad == m.isLoad
    ensures m.isLoad ==> WokenOp(info, m, b) == m
  {
    WakeOne(info.data, b.tag, b.val);
  }

  lemma {:induction false} WokenTable(c: Config, o: Own, v: View, b: Beat)
    requires AllOk(c, o, v)
    ensures TableOk(c, WokenOwn(o, b, o.table.Keys).table, o.flight, o.nextId, v.head, v.entries)
  {
    hide EntryOk, WokenInfo, WokenOp, MemOpOk;
    var t := WokenOwn(o, b, o.table.Keys).table;
    forall i | 0 <= i < |o.flight|
      ensures o.flight[i] < o.nextId && EntryOk(c, t[o.flight[i]], Tag(v.head, c.cap, i), v.entries[i])
    {
      EntryAt(c, o, v, i);
      WokenEntryOk(c, o.table[o.flight[i]], Tag(v.head, c.cap, i), v.entries[i], b);
    }
  }

  lemma {:induction false} WokenMemory(o: Own, v: View, b: Beat)
    requires MemoryOk(o.table, v.mem)
    ensures MemoryOk(WokenOwn(o, b, o.table.Keys).table, WokenView(o, v, b, o.table.Keys).mem)
  {
    hide WokenOp, MemOpOk;
    var t, n := WokenOwn(o, b, o.table.Keys).table, WokenView(o, v, b, o.table.Keys).mem;
    forall x | x in n ensures x in t && MemOpOk(t[x], n[x]) {
      assert x in o.table && MemOpOk(o.table[x], v.mem[x]);
      WokenOpOk(o.table[x], v.mem[x], b);
    }
  }

  lemma {:induction false} WokenDyn(id: nat, info: InstInfo, e: RobEntry, mem: map<nat, MemOp>, mem': map<nat, MemOp>,
                                    b: Beat)
    requires id in mem ==> MemOpOk(info, mem[id])
    requires (id in mem' <==> id in mem) && (id in mem ==> mem'[id] == WokenOp(info, mem[id], b))
    ensures DynOf(id, WokenInfo(info, b), e, mem') == WakeDyn(info.fetched.instr, DynOf(id, info, e, mem), [b])
  {
    hide MemOpOk, Progress;
    if id in mem { WokenOpOk(info, mem[id], b); }
  }

  lemma {:induction false} WokenFlight(o: Own, v: View, b: Beat)
    requires Sized(o, v) && MemoryOk(o.table, v.mem)
    ensures var o', v' := WokenOwn(o, b, o.table.Keys), WokenView(o, v, b, o.table.Keys);
            && Sized(o', v') && Statics(o'.table, o'.flight) == Statics(o.table, o.flight)
            && |Statics(o.table, o.flight)| == |Dynamics(o.table, o.flight, v.entries, v.mem)|
            && Dynamics(o'.table, o'.flight, v'.entries, v'.mem)
               == WakeAll(Statics(o.table, o.flight), Dynamics(o.table, o.flight, v.entries, v.mem), [b])
  {
    hide WokenInfo, WokenOp, MemOpOk, WakeDyn;
    var o', v' := WokenOwn(o, b, o.table.Keys), WokenView(o, v, b, o.table.Keys);
    SameFetched(o, b);
    forall i | 0 <= i < |o.flight|
      ensures DynOf(o.flight[i], o'.table[o.flight[i]], v'.entries[i], v'.mem)
           == WakeDyn(o.table[o.flight[i]].fetched.instr, DynOf(o.flight[i], o.table[o.flight[i]], v.entries[i],
               v.mem), [b])
    {
      WokenDyn(o.flight[i], o.table[o.flight[i]], v.entries[i], v.mem, v'.mem, b);
    }
  }

  lemma {:induction false} SameFetched(o: Own, b: Beat)
    ensures forall x :: x in o.table ==> WokenInfo(o.table[x], b).fetched == o.table[x].fetched
  {
  }

  /** Stations, table and queue after a result has been seen everywhere. */
  function SeenView(o: Own, v: View, b: Beat): View {
    WokenView(o, v.(stations := WakeRs(v.stations, [b])), b, o.table.Keys)
  }

  /** What one result wakes in the machine. */
  function Woken(s: Core, wake: seq<Beat>): Core
    requires |s.st| == |s.dy|
  {
    s.(dy := WakeAll(s.st, s.dy, wake), rs := WakeRs(s.rs, wake))
  }

  lemma {:induction false} WakingIs(c: Config, o: Own, v: View, b: Beat)
    requires AllOk(c, o, v)
    ensures var o', v' := WokenOwn(o, b, o.table.Keys), SeenView(o, v, b);
            && Sized(o, v) && AllOk(c, o', v') && Sized(o', v') && |Machine(o, v).st| == |Machine(o, v).dy|
            && Machine(o', v') == Woken(Machine(o, v), [b])
  {
    hide WokenInfo, WokenOp, MemOpOk, EntryOk, WakeAll, NamesInRange;
    Shapes(c, o, v);
    WokenTable(c, o, v, b);
    WokenMemory(o, v, b);
    WokenFlight(o, v, b);
  }

  /** A store passes the data it has seen on to the queue. */
  function DataPassed(v: View, id: nat, info: InstInfo, b: Beat): View {
    v.(mem := if id in v.mem then v.mem[id := WokenOp(info, v.mem[id], b)] else v.mem)
  }

  /** Waking one more instruction of the table. */
  lemma {:induction false} WakeOneMore(o: Own, v: View, b: Beat, ids: set<nat>, id: nat)
    requires id in o.table && id !in ids
    ensures var u, w := WokenOwn(o, b, ids), WokenView(o, v, b, ids);
            && id in u.table && u.table[id] == o.table[id] && (id in w.mem <==> id in v.mem) && (id in v.mem ==>
                 w.mem[id] == v.mem[id])
            && WokenOwn(o, b, ids + {id}) == u.(table := u.table[id := WokenInfo(o.table[id], b)])
            && WokenView(o, v, b, ids + {id}) == DataPassed(w, id, o.table[id], b)
  {
    hide WokenInfo, WokenOp;
  }

  lemma {:induction false} WakeNone(o: Own, v: View, b: Beat)
    ensures WokenOwn(o, b, {}) == o && WokenView(o, v, b, {}) == v
  {
    assert WokenOwn(o, b, {}).table == o.table;
    assert WokenView(o, v, b, {}).mem == v.mem;
  }

  // ---------------------------------------------------------------- all results of a cycle

  lemma {:induction false} OperandTwice(o: Operand, b: Beat, rest: seq<Beat>)
    ensures WakeOperand(WakeOperand(o, [b]), rest) == WakeOperand(o, [b] + rest)
  {
    WakeOne(o, b.tag, b.val);
    assert ([b] + rest)[0] == b && ([b] + rest)[1..] == rest;
  }

  lemma {:induction false} DynTwice(ins: Instr, d: Dyn, b: Beat, rest: seq<Beat>)
    ensures WakeDyn(ins, WakeDyn(ins, d, [b]), rest) == WakeDyn(ins, d, [b] + rest)
  {
    OperandTwice(d.src1, b, rest);
    OperandTwice(d.src2, b, rest);
    OperandTwice(d.data, b, rest);
  }

  /** One result and then the others is all of them. */
  lemma {:induction false} WokenTwice(s: Core, b: Beat, rest: seq<Beat>)
    requires |s.st| == |s.dy|
    ensures Woken(Woken(s, [b]), rest) == Woken(s, [b] + rest)
  {
    hide WakeDyn, WakeOperand;
    forall i | 0 <= i < |s.dy|
      ensures WakeDyn(s.st[i].instr, WakeDyn(s.st[i].instr, s.dy[i], [b]), rest)
                == WakeDyn(s.st[i].instr, s.dy[i], [b] + rest)
    {
      DynTwice(s.st[i].instr, s.dy[i], b, rest);
    }
    forall id | id in s.rs ensures WakeRs(WakeRs(s.rs, [b]), rest)[id] == WakeRs(s.rs, [b] + rest)[id] {
      OperandTwice(s.rs[id].src1, b, rest);
      OperandTwice(s.rs[id].src2, b, rest);
    }
    assert WakeRs(WakeRs(s.rs, [b]), rest) == WakeRs(s.rs, [b] + rest);
  }

  lemma {:induction false} WokenByNone(s: Core)
    requires |s.st| == |s.dy|
    ensures Woken(s, []) == s
  {
    assert WakeAll(s.st, s.dy, []) == s.dy;
    assert WakeRs(s.rs, []) == s.rs;
  }

  function StartedOwn(o: Own): Own { o.(wakeups := [], freed := {}, phase := Commit) }

  lemma {:induction false} StartingIs(c: Config, o: Own, v: View)
    requires AllOk(c, o, v)
    ensures AllOk(c, StartedOwn(o), v) && Sized(o, v) && Sized(StartedOwn(o), v)
    ensures Machine(StartedOwn(o), v) == Machine(o, v).(wake := [], freed := {}, phase := Commit)
  {
    Shapes(c, o, v);
    hide TablesOk, ViewOk;
  }

  lemma {:induction false} BeforeStart(c: Config, o: Own, v: View)
    requires AllOk(c, o, v) && o.phase == Back
    ensures Sized(o, v) && CanStartCycle(Machine(o, v)) && Machine(o, v).wake == o.wakeups
  {
    Shapes(c, o, v);
  }

  lemma {:induction false} WokenShape(s: Core, wake: seq<Beat>)
    requires |s.st| == |s.dy|
    ensures Woken(s, wake).st == s.st && |Woken(s, wake).dy| == |s.dy|
  {
  }
}
