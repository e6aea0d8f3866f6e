/** Every step of the speculative machine keeps the invariant; commit moves the in-order model one instruction. */
module CoreSteps {
  import opened Words
  import opened Isa
  import opened Core
  import opened CoreInv

  // ---------------------------------------------------------------- fetch and phases

  lemma {:induction false} FetchKeeps(c: Config, g: Arch, s: Core, taken: bool, target: Pc)
    requires Inv(c, g, s) && CanFetch(c, s, taken)
    ensures Inv(c, g, Fetch(c, s, taken, target))
  {
    var f := Fetched(c.prog[s.fetchPc], s.fetchPc, taken, target);
    var start := FlightPc(g.pc, s.st, s.dy, |s.st|);
    var front := s.front + [f];
    forall j | 0 <= j < |front| ensures front[j].pc == FrontPc(start, front, j) {
      assert FrontPc(start, front, j) == FrontPc(start, s.front, j);
    }
  }

  lemma {:induction false} NextPhaseKeeps(c: Config, g: Arch, s: Core)
    requires Inv(c, g, s) && s.phase != Back
    ensures Inv(c, g, NextPhase(s))
  {
  }

  // ---------------------------------------------------------------- changes that leave results alone

  /** Both describe the same completed results. */
  ghost predicate SameResults(dy: seq<Dyn>, dy': seq<Dyn>) {
    |dy| == |dy'| && forall i :: 0 <= i < |dy| ==> dy'[i].done == dy[i].done && dy'[i].value == dy[i].value
  }

  lemma {:induction false} DonePrefixIs(dy: seq<Dyn>, n: nat)
    requires n <= |dy| && (forall j :: 0 <= j < n ==> dy[j].done) && (n < |dy| ==> !dy[n].done)
    ensures DonePrefix(dy) == n
  {
    var m := DonePrefix(dy);
    if m < n {
      assert false;
    } else if n < m {
      assert false;
    }
  }

  lemma {:induction false} ResultsFrame(c: Config, g: Arch, s: Core, dy': seq<Dyn>)
    requires |s.st| == |s.dy|
    requires PathOk(c, g.pc, s.st, s.dy, s.front, s.fetchPc)
    requires WakeOk(c, s.dy, s.head, s.wake)
    requires MemOk(c, g, s.st, s.dy, s.main, s.sb)
    requires SameResults(s.dy, dy')
    ensures PathOk(c, g.pc, s.st, dy', s.front, s.fetchPc)
    ensures WakeOk(c, dy', s.head, s.wake)
    ensures MemOk(c, g, s.st, dy', s.main, s.sb)
  {
    DonePrefixIs(dy', DonePrefix(s.dy));
    forall i | 0 <= i <= |s.st| ensures FlightPc(g.pc, s.st, dy', i) == FlightPc(g.pc, s.st, s.dy, i) {
    }
  }

  /** Older stores that were known keep their address and data, and stay in the LSQ. */
  ghost predicate SameStores(st: seq<Fetched>, dy: seq<Dyn>, dy': seq<Dyn>) {
    && |st| == |dy| == |dy'|
    && (forall j :: 0 <= j < |st| && st[j].instr.IsStore() ==> dy'[j].done == dy[j].done)
    && (forall j :: 0 <= j < |st| && dy[j].addrReady && dy[j].data.ready ==>
          dy'[j].addrReady && dy'[j].addr == dy[j].addr && dy'[j].data == dy[j].data)
  }

  lemma {:induction false} LoadFrame(c: Config, g: Arch, st: seq<Fetched>, dy: seq<Dyn>, dy': seq<Dyn>,
                                     sb: seq<SbEntry>, i: nat)
    requires SameStores(st, dy, dy') && i < |st| && LoadOk(c, g, st, dy, sb, i)
    requires dy'[i].load.LoadWaiting? && !dy'[i].done ==>
               dy'[i].load == dy[i].load && !dy[i].done && dy'[i].addr == dy[i].addr
    ensures LoadOk(c, g, st, dy', sb, i)
  {
    if dy'[i].load.LoadWaiting? && !dy'[i].done {
      assert StoresKnown(st, dy', i);
      QueuePrefix(c, st, dy, st, dy', i);
    }
  }

  /** Waiting loads stay covered when known stores keep address and data, and no load starts waiting. */
  lemma {:induction false} LoadsFrame(c: Config, g: Arch, st: seq<Fetched>, dy: seq<Dyn>, dy': seq<Dyn>,
                                      sb: seq<SbEntry>)
    requires SameStores(st, dy, dy') && AllLoads(c, g, st, dy, sb)
    requires forall j :: 0 <= j < |st| && dy'[j].load.LoadWaiting? && !dy'[j].done ==>
               dy'[j].load == dy[j].load && !dy[j].done && dy'[j].addr == dy[j].addr
    ensures AllLoads(c, g, st, dy', sb)
  {
    forall i | 0 <= i < |st| ensures LoadOk(c, g, st, dy', sb, i) {
      LoadFrame(c, g, st, dy, dy', sb, i);
    }
  }

  lemma {:induction false} FuFrame(c: Config, g: Arch, st: seq<Fetched>, dy: seq<Dyn>, dy': seq<Dyn>, head: nat,
                                   fu: seq<Beat>)
    requires |st| == |dy| == |dy'| && FuOk(c, g, st, dy, head, fu) && AllValues(c, g, st, dy)
    requires forall j :: 0 <= j < |st| ==> dy'[j].issued == dy[j].issued
    requires forall j :: 0 <= j < |st| && !st[j].instr.IsMem() ==> dy'[j].done == dy[j].done
    ensures FuOk(c, g, st, dy', head, fu)
  {
    forall b | b in fu ensures BeatOk(c, g, st, dy', head, b) {
      assert BeatOk(c, g, st, dy, head, b);
    }
    forall i | 0 <= i < |st| && dy'[i].issued && !dy'[i].done ensures HasBeat(fu, Tag(head, c.cap, i)) {
      assert ValuesOk(c, g, st, dy, i);
      assert dy[i].issued && !dy[i].done;
    }
  }

  /** Operands stay right while no producer of a register changes. */
  lemma {:induction false} SourcesFrame(c: Config, g: Arch, st: seq<Fetched>, dy: seq<Dyn>, dy': seq<Dyn>, head: nat,
                                        wake: seq<Beat>)
    requires |st| == |dy| == |dy'| && AllSources(c, g, st, dy, head, wake)
    requires forall j :: 0 <= j < |st| && !dy'[j].done ==>
               !dy[j].done && dy'[j].src1 == dy[j].src1 && dy'[j].src2 == dy[j].src2 && dy'[j].data == dy[j].data
    requires forall j :: 0 <= j < |st| && !st[j].instr.IsStore() && !st[j].instr.IsControl() ==>
               dy'[j].done == dy[j].done && dy'[j].value == dy[j].value
    ensures AllSources(c, g, st, dy', head, wake)
  {
    forall i | 0 <= i < |st| && !dy'[i].done ensures SourcesOk(c, g, st, dy', head, wake, i) {
      assert SourcesOk(c, g, st, dy, head, wake, i);
    }
  }

  lemma {:induction false} RsFrame(st: seq<Fetched>, dy: seq<Dyn>, dy': seq<Dyn>, rs: map<nat, RsOps>)
    requires |st| == |dy| == |dy'| && RsOk(st, dy, rs)
    requires forall j :: 0 <= j < |st| ==>
      dy'[j].id == dy[j].id && dy'[j].issued == dy[j].issued && dy'[j].src1 == dy[j].src1 && dy'[j].src2 == dy[j].src2
    ensures RsOk(st, dy', rs)
  {
    forall id | id in rs ensures exists i :: 0 <= i < |dy'| && dy'[i].id == id {
      var i :| 0 <= i < |dy| && dy[i].id == id;
      assert dy'[i].id == id;
    }
  }

  /** Values stay right when one entry changes to something right and only ever more entries are done. */
  lemma {:induction false} ValuesFrame(c: Config, g: Arch, st: seq<Fetched>, dy: seq<Dyn>, k: nat, d: Dyn)
    requires |st| == |dy| && k < |dy| && AllValues(c, g, st, dy)
    requires dy[k].done ==> d.done
    requires ValuesOk(c, g, st, dy[k := d], k)
    ensures AllValues(c, g, st, dy[k := d])
  {
    var dy' := dy[k := d];
    forall i | 0 <= i < |st| ensures ValuesOk(c, g, st, dy', i) {
      assert ValuesOk(c, g, st, dy, i);
    }
  }

  /** Only addresses and load progress differ. */
  ghost predicate Quiet(dy: seq<Dyn>, dy': seq<Dyn>) {
    && |dy| == |dy'|
    && forall j :: 0 <= j < |dy| ==>
         dy'[j] == dy[j].(addrReady := dy'[j].addrReady, addr := dy'[j].addr, load := dy'[j].load)
  }

  lemma {:induction false} QuietFrame(c: Config, g: Arch, s: Core, dy': seq<Dyn>)
    requires |s.st| == |s.dy| && Quiet(s.dy, dy')
    requires PathOk(c, g.pc, s.st, s.dy, s.front, s.fetchPc)
    requires WakeOk(c, s.dy, s.head, s.wake)
    requires MemOk(c, g, s.st, s.dy, s.main, s.sb)
    ensures PathOk(c, g.pc, s.st, dy', s.front, s.fetchPc)
    ensures WakeOk(c, dy', s.head, s.wake)
    ensures MemOk(c, g, s.st, dy', s.main, s.sb)
  {
    ResultsFrame(c, g, s, dy');
  }

  lemma {:induction false} QuietFu(c: Config, g: Arch, s: Core, dy': seq<Dyn>)
    requires |s.st| == |s.dy| && Quiet(s.dy, dy') && AllValues(c, g, s.st, s.dy)
    requires FuOk(c, g, s.st, s.dy, s.head, s.fu)
    ensures FuOk(c, g, s.st, dy', s.head, s.fu)
  {
    FuFrame(c, g, s.st, s.dy, dy', s.head, s.fu);
  }

  lemma {:induction false} QuietSources(c: Config, g: Arch, s: Core, dy': seq<Dyn>)
    requires |s.st| == |s.dy| && Quiet(s.dy, dy')
    requires AllSources(c, g, s.st, s.dy, s.head, s.wake)
    ensures AllSources(c, g, s.st, dy', s.head, s.wake)
  {
    SourcesFrame(c, g, s.st, s.dy, dy', s.head, s.wake);
  }

  lemma {:induction false} QuietRs(s: Core, dy': seq<Dyn>)
    requires |s.st| == |s.dy| && Quiet(s.dy, dy') && RsOk(s.st, s.dy, s.rs) && IdsOk(s.dy, s.nextId)
    ensures RsOk(s.st, dy', s.rs) && IdsOk(dy', s.nextId)
  {
    RsFrame(s.st, s.dy, dy', s.rs);
  }

  /** A step that touches only addresses and load progress has just those to justify. */
  lemma {:induction false} QuietKeeps(c: Config, g: Arch, s: Core, dy': seq<Dyn>)
    requires Inv(c, g, s) && Quiet(s.dy, dy')
    requires AllValues(c, g, s.st, dy') && AllLoads(c, g, s.st, dy', s.sb)
    ensures Inv(c, g, s.(dy := dy'))
  {
    QuietFrame(c, g, s, dy');
    QuietFu(c, g, s, dy');
    QuietSources(c, g, s, dy');
    QuietRs(s, dy');
  }

  lemma {:induction false} DestIsWritten(c: Config, st: seq<Fetched>)
    requires ProgOk(c) && AllFetched(c, st)
    ensures forall k :: 0 <= k < |st| ==> st[k].instr.IsControl() ==> st[k].instr.dest <= 0
  {
    forall k | 0 <= k < |st| ensures st[k].instr.IsControl() ==> st[k].instr.dest <= 0 {
      assert FetchedOk(c, st[k]);
    }
  }

  lemma {:induction false} DoneValue(c: Config, g: Arch, st: seq<Fetched>, dy: seq<Dyn>, j: nat)
    requires j < |st| == |dy| && AllValues(c, g, st, dy) && dy[j].done
    ensures dy[j].value == SpecResult(c, g, st, j)
  {
    assert ValuesOk(c, g, st, dy, j);
  }

  // ---------------------------------------------------------------- registered wake-ups

  /** A wake-up turns a wait on a completed producer into that producer's value, and leaves other waits alone. */
  lemma {:induction false} WakeOperandOk(c: Config, g: Arch, st: seq<Fetched>, dy: seq<Dyn>, head: nat, wake: seq<Beat>,
                                         i: nat, r: int, o: Operand)
    requires i <= |st| == |dy| <= c.cap && head < c.cap && |g.regs| == c.nregs
    requires ProgOk(c) && AllFetched(c, st) && AllValues(c, g, st, dy)
    requires WakeOk(c, dy, head, wake)
    requires OperandOk(c, g, st, dy, head, wake, i, r, o)
    ensures OperandOk(c, g, st, dy, head, [], i, r, WakeOperand(o, wake))
    decreases |wake|
  {
    if !o.ready {
      var j := LastWriter(c, st, i, r);
      if wake != [] {
        assert WakeBeatOk(c, dy, head, wake[0]);
        if wake[0].tag == o.tag {
          DoneValue(c, g, st, dy, j);
          DestIsWritten(c, st);
          RegFromWriter(c, g, st, i, r);
        } else {
          assert forall b :: b in wake[1..] ==> b in wake;
          WakeOperandOk(c, g, st, dy, head, wake[1..], i, r, o);
        }
      }
    }
  }

  lemma {:induction false} NoWake(c: Config, dy: seq<Dyn>, head: nat, o: Operand, wake: seq<Beat>)
    requires WakeOk(c, dy, head, wake) && o.tag == -1
    ensures WakeOperand(o, wake) == o
    decreases |wake|
  {
    if wake != [] && !o.ready {
      assert WakeBeatOk(c, dy, head, wake[0]);
      assert forall b :: b in wake[1..] ==> b in wake;
      NoWake(c, dy, head, o, wake[1..]);
    }
  }

  ghost predicate Woken(dy: seq<Dyn>, dy': seq<Dyn>) {
    && |dy| == |dy'|
    && forall j :: 0 <= j < |dy| ==>
         && dy'[j] == dy[j].(src1 := dy'[j].src1, src2 := dy'[j].src2, data := dy'[j].data)
         && (dy[j].data.ready ==> dy'[j].data == dy[j].data)
  }

  lemma {:induction false} WakeAllWoken(st: seq<Fetched>, dy: seq<Dyn>, wake: seq<Beat>)
    requires |st| == |dy|
    ensures Woken(dy, WakeAll(st, dy, wake))
  {
  }

  lemma {:induction false} WakeSources(c: Config, g: Arch, st: seq<Fetched>, dy: seq<Dyn>, head: nat, wake: seq<Beat>,
                                       i: nat)
    requires i < |st| == |dy| <= c.cap && head < c.cap && |g.regs| == c.nregs
    requires ProgOk(c) && AllFetched(c, st) && AllValues(c, g, st, dy)
    requires WakeOk(c, dy, head, wake) && SourcesOk(c, g, st, dy, head, wake, i) && !dy[i].done
    ensures SourcesOk(c, g, st, WakeAll(st, dy, wake), head, [], i)
  {
    var d, ins := dy[i], st[i].instr;
    var dy' := WakeAll(st, dy, wake);
    WakeAllWoken(st, dy, wake);
    WakeOperandOk(c, g, st, dy, head, wake, i, ins.src1, d.src1);
    if ins.op == ADDI {
      assert WakeOperand(d.src2, wake) == d.src2;
    } else {
      WakeOperandOk(c, g, st, dy, head, wake, i, ins.src2, d.src2);
    }
    if ins.IsStore() && ins.dest > 0 {
      WakeOperandOk(c, g, st, dy, head, wake, i, ins.dest, d.data);
    } else {
      NoWake(c, dy, head, d.data, wake);
    }
  }

  lemma {:induction false} WakeRsOk(c: Config, g: Arch, st: seq<Fetched>, dy: seq<Dyn>, rs: map<nat, RsOps>,
                                    wake: seq<Beat>)
    requires |st| == |dy| && RsOk(st, dy, rs) && AllValues(c, g, st, dy)
    ensures RsOk(st, WakeAll(st, dy, wake), WakeRs(rs, wake))
  {
    var dy', rs' := WakeAll(st, dy, wake), WakeRs(rs, wake);
    WakeAllWoken(st, dy, wake);
    forall i | 0 <= i < |st| && dy'[i].id in rs' ensures rs'[dy'[i].id] == RsOps(dy'[i].src1, dy'[i].src2) {
      assert ValuesOk(c, g, st, dy, i);
    }
    forall id | id in rs' ensures exists i :: 0 <= i < |dy'| && dy'[i].id == id {
      var i :| 0 <= i < |dy| && dy[i].id == id;
      assert dy'[i].id == id;
    }
  }

  lemma {:induction false} WakeEntries(c: Config, g: Arch, st: seq<Fetched>, dy: seq<Dyn>, head: nat, wake: seq<Beat>)
    requires |st| == |dy| <= c.cap && (c.cap > 0 ==> head < c.cap) && |g.regs| == c.nregs
    requires ProgOk(c) && AllFetched(c, st) && AllValues(c, g, st, dy)
    requires WakeOk(c, dy, head, wake) && AllSources(c, g, st, dy, head, wake)
    ensures AllSources(c, g, st, WakeAll(st, dy, wake), head, []) && AllValues(c, g, st, WakeAll(st, dy, wake))
  {
    var dy' := WakeAll(st, dy, wake);
    WakeAllWoken(st, dy, wake);
    forall i | 0 <= i < |st| && !dy'[i].done ensures SourcesOk(c, g, st, dy', head, [], i) {
      WakeSources(c, g, st, dy, head, wake, i);
    }
    forall i | 0 <= i < |st| ensures ValuesOk(c, g, st, dy', i) {
      assert ValuesOk(c, g, st, dy, i);
    }
  }

  lemma {:induction false} WakeFrame(c: Config, g: Arch, s: Core)
    requires |s.st| == |s.dy| && AllLoads(c, g, s.st, s.dy, s.sb) && AllValues(c, g, s.st, s.dy)
    requires FuOk(c, g, s.st, s.dy, s.head, s.fu)
    ensures var dy' := WakeAll(s.st, s.dy, s.wake);
            AllLoads(c, g, s.st, dy', s.sb) && FuOk(c, g, s.st, dy', s.head, s.fu)
  {
    var dy' := WakeAll(s.st, s.dy, s.wake);
    WakeAllWoken(s.st, s.dy, s.wake);
    LoadsFrame(c, g, s.st, s.dy, dy', s.sb);
    FuFrame(c, g, s.st, s.dy, dy', s.head, s.fu);
  }

  lemma {:induction false} StartNames(c: Config, g: Arch, s: Core)
    requires NamesInv(c, s) && AllValues(c, g, s.st, s.dy) && CanStartCycle(s)
    ensures NamesInv(c, StartCycle(s))
  {
    hide Exec, SpecAt, SpecResult, QueueStores;
    WakeRsOk(c, g, s.st, s.dy, s.rs, s.wake);
    WakeAllWoken(s.st, s.dy, s.wake);
  }

  lemma {:induction false} StartCycleKeeps(c: Config, g: Arch, s: Core)
    requires ProgOk(c) && Inv(c, g, s) && CanStartCycle(s)
    ensures Inv(c, g, StartCycle(s))
  {
    hide Exec, SpecAt, SpecResult, QueueStores, NamesInv;
    StartNames(c, g, s);
    StartData(c, g, s);
  }

  lemma {:induction false} StartData(c: Config, g: Arch, s: Core)
    requires ProgOk(c) && Inv(c, g, s) && CanStartCycle(s)
    ensures DataInv(c, g, StartCycle(s))
    ensures var t := StartCycle(s); PathOk(c, g.pc, t.st, t.dy, t.front, t.fetchPc)
  {
    hide Exec, SpecAt, SpecResult, QueueStores;
    WakeEntries(c, g, s.st, s.dy, s.head, s.wake);
    WakeFrame(c, g, s);
    ResultsFrame(c, g, s, WakeAll(s.st, s.dy, s.wake));
  }
}
