/** The memory steps: addresses, load dispatch and fill, stores entering and leaving the store buffer. */
module CoreMemory {
  import opened Words
  import opened Isa
  import opened Core
  import opened CoreInv
  import opened CoreSteps

  // ---------------------------------------------------------------- what the pending stores amount to

  lemma {:induction false} QueueDone(c: Config, st: seq<Fetched>, dy: seq<Dyn>, i: nat)
    requires i <= |st| == |dy| && forall j :: 0 <= j < i ==> dy[j].done
    ensures QueueStores(c, st, dy, i) == []
  {
    if i > 0 {
      QueueDone(c, st, dy, i - 1);
    }
  }

  /** A store past the done prefix is still in the LSQ. */
  lemma {:induction false} StoreNotDone(c: Config, g: Arch, st: seq<Fetched>, dy: seq<Dyn>, j: nat)
    requires j < |st| == |dy| && AllValues(c, g, st, dy) && st[j].instr.IsStore() && DonePrefix(dy) <= j
    ensures !dy[j].done
  {
    hide Exec;
    assert ValuesOk(c, g, st, dy, j);
  }

  /** A ready store knows its in-order address and data. */
  lemma {:induction false} KnownStore(c: Config, g: Arch, st: seq<Fetched>, dy: seq<Dyn>, head: nat, wake: seq<Beat>,
                                      j: nat)
    requires j < |st| == |dy| && AllValues(c, g, st, dy) && AllSources(c, g, st, dy, head, wake)
    requires st[j].instr.IsStore() && !dy[j].done && dy[j].addrReady && dy[j].data.ready
    ensures dy[j].addr == Address(SpecAt(c, g, st, j), st[j].instr)
    ensures dy[j].data.val == ReadReg(SpecAt(c, g, st, j).regs, st[j].instr.dest)
  {
    assert ValuesOk(c, g, st, dy, j);
  }

  /** Writing a ready store's entry is the in-order effect of the store. */
  lemma {:induction false} StoreEntryIsWrite(c: Config, g: Arch, st: seq<Fetched>, d: Dyn, j: nat, w: int)
    requires j < |st| && st[j].instr.IsStore()
    requires d.addr == Address(SpecAt(c, g, st, j), st[j].instr)
    requires d.data.val == ReadReg(SpecAt(c, g, st, j).regs, st[j].instr.dest)
    ensures ReadWord(SpecAt(c, g, st, j + 1).mem, w)
         == OverlayWord(c.byteAddressed, ReadWord(SpecAt(c, g, st, j).mem, w), [StoreEntry(c, st[j], d)], w)
  {
    var e := StoreEntry(c, st[j], d);
    var a := SpecAt(c, g, st, j).(pc := st[j].pc);
    assert SpecAt(c, g, st, j + 1).mem == MemAfter(c, a, st[j].instr);
    var base := ReadWord(a.mem, w);
    assert [e][1..] == [];
    assert OverlayWord(c.byteAddressed, base, [e], w)
        == if WordIndex(c.byteAddressed, e.addr) == w then Merge(base, e.data, e.mask) else base;
  }

  lemma {:induction false} QueueFlatStep(c: Config, g: Arch, st: seq<Fetched>, dy: seq<Dyn>, head: nat,
                                         wake: seq<Beat>, j: nat, w: int, base: Lanes)
    requires j < |st| == |dy| && AllValues(c, g, st, dy) && AllSources(c, g, st, dy, head, wake)
    requires st[j].instr.IsStore() ==> !dy[j].done && dy[j].addrReady && dy[j].data.ready
    requires ReadWord(SpecAt(c, g, st, j).mem, w) == OverlayWord(c.byteAddressed, base, QueueStores(c, st, dy, j), w)
    ensures ReadWord(SpecAt(c, g, st, j + 1).mem, w)
              == OverlayWord(c.byteAddressed, base, QueueStores(c, st, dy, j + 1), w)
  {
    if st[j].instr.IsStore() {
      KnownStore(c, g, st, dy, head, wake, j);
      StoreEntryIsWrite(c, g, st, dy[j], j, w);
      OverlayAppend(c.byteAddressed, base, QueueStores(c, st, dy, j), [StoreEntry(c, st[j], dy[j])], w);
    } else {
      assert QueueStores(c, st, dy, j + 1) == QueueStores(c, st, dy, j);
    }
  }

  /** In-order memory before entry `i`: memory after the done prefix with the LSQ stores written over it. */
  lemma {:induction false} QueueFlat(c: Config, g: Arch, st: seq<Fetched>, dy: seq<Dyn>, head: nat, wake: seq<Beat>,
                                     i: nat, w: int)
    requires i <= |st| == |dy| && AllValues(c, g, st, dy) && AllSources(c, g, st, dy, head, wake)
    requires DonePrefix(dy) <= i && StoresKnown(st, dy, i)
    ensures ReadWord(SpecAt(c, g, st, i).mem, w)
         == OverlayWord(c.byteAddressed, ReadWord(SpecAt(c, g, st, DonePrefix(dy)).mem, w), QueueStores(c, st, dy, i),
             w)
  {
    hide Exec;
    if i == DonePrefix(dy) {
      QueueDone(c, st, dy, i);
    } else {
      QueueFlat(c, g, st, dy, head, wake, i - 1, w);
      if st[i - 1].instr.IsStore() {
        StoreNotDone(c, g, st, dy, i - 1);
      }
      QueueFlatStep(c, g, st, dy, head, wake, i - 1, w, ReadWord(SpecAt(c, g, st, DonePrefix(dy)).mem, w));
    }
  }

  /** The word a load must see: main memory under every store of the SB and every older store of the LSQ. */
  lemma {:induction false} FlatBefore(c: Config, g: Arch, s: Core, i: nat, w: int)
    requires i < |s.st| == |s.dy| && AllValues(c, g, s.st, s.dy) && AllSources(c, g, s.st, s.dy, s.head, s.wake)
    requires MemOk(c, g, s.st, s.dy, s.main, s.sb) && !s.dy[i].done && StoresKnown(s.st, s.dy, i)
    ensures ReadWord(SpecAt(c, g, s.st, i).mem, w)
         == OverlayWord(c.byteAddressed, MainRead(s.main, w), s.sb + QueueStores(c, s.st, s.dy, i), w)
  {
    QueueFlat(c, g, s.st, s.dy, s.head, s.wake, i, w);
    OverlayAppend(c.byteAddressed, MainRead(s.main, w), s.sb, QueueStores(c, s.st, s.dy, i), w);
  }

  // ---------------------------------------------------------------- load dispatch

  lemma {:induction false} ForwardedLanes(c: Config, g: Arch, s: Core, i: nat, b: nat)
    requires i < |s.st| == |s.dy| && AllValues(c, g, s.st, s.dy) && AllSources(c, g, s.st, s.dy, s.head, s.wake)
    requires MemOk(c, g, s.st, s.dy, s.main, s.sb) && CanDispatchLoad(s, i) && b < 4
    ensures var d := s.dy[i];
            var w := WordIndex(c.byteAddressed, d.addr);
            var want := AccessMask(c.byteAddressed, s.st[i].instr.size, d.addr);
            var list := s.sb + QueueStores(c, s.st, s.dy, i);
            var r := Forward(c.byteAddressed, list, w, want);
            && (r.mask[b] ==> want[b] && r.word[b] == ReadWord(SpecAt(c, g, s.st, i).mem, w)[b])
            && (want[b] && !r.mask[b] ==> Uncovered(c.byteAddressed, list, w, b))
  {
    var d := s.dy[i];
    var w := WordIndex(c.byteAddressed, d.addr);
    var want := AccessMask(c.byteAddressed, s.st[i].instr.size, d.addr);
    FlatBefore(c, g, s, i, w);
    ForwardIsOverlay(c.byteAddressed, MainRead(s.main, w), s.sb + QueueStores(c, s.st, s.dy, i), w, want, b);
  }

  lemma {:induction false} DispatchedLoadOk(c: Config, g: Arch, s: Core, i: nat)
    requires i < |s.st| == |s.dy| && AllValues(c, g, s.st, s.dy) && AllSources(c, g, s.st, s.dy, s.head, s.wake)
    requires MemOk(c, g, s.st, s.dy, s.main, s.sb) && CanDispatchLoad(s, i)
    ensures var dy' := DispatchLoad(c, s, i).dy;
            && LoadOk(c, g, s.st, dy', s.sb, i)
            && (dy'[i].load.LoadReady? ==> dy'[i].load.buf == SpecResult(c, g, s.st, i))
  {
    hide Exec;
    var d, ins := s.dy[i], s.st[i].instr;
    var dy' := DispatchLoad(c, s, i).dy;
    var w := WordIndex(c.byteAddressed, d.addr);
    var want := AccessMask(c.byteAddressed, ins.size, d.addr);
    var r := Forward(c.byteAddressed, s.sb + QueueStores(c, s.st, s.dy, i), w, want);
    forall b | 0 <= b < 4
      ensures r.mask[b] ==> want[b] && r.word[b] == ReadWord(SpecAt(c, g, s.st, i).mem, w)[b]
      ensures want[b] && !r.mask[b] ==> Uncovered(c.byteAddressed, s.sb + QueueStores(c, s.st, s.dy, i), w, b)
    {
      ForwardedLanes(c, g, s, i, b);
    }
    assert ValuesOk(c, g, s.st, s.dy, i);
    if r.mask == want {
      LoadExtendLanes(c.byteAddressed, r.word, ReadWord(SpecAt(c, g, s.st, i).mem, w), ins.size, ins.unsignedLoad,
          d.addr);
    } else {
      QueuePrefix(c, s.st, s.dy, s.st, dy', i);
    }
  }

  lemma {:induction false} DispatchLoadLoads(c: Config, g: Arch, s: Core, i: nat)
    requires i < |s.st| == |s.dy| && AllValues(c, g, s.st, s.dy) && AllSources(c, g, s.st, s.dy, s.head, s.wake)
    requires MemOk(c, g, s.st, s.dy, s.main, s.sb) && AllLoads(c, g, s.st, s.dy, s.sb) && CanDispatchLoad(s, i)
    ensures var dy' := DispatchLoad(c, s, i).dy;
            AllValues(c, g, s.st, dy') && AllLoads(c, g, s.st, dy', s.sb)
  {
    var dy' := DispatchLoad(c, s, i).dy;
    DispatchedLoadOk(c, g, s, i);
    assert ValuesOk(c, g, s.st, s.dy, i);
    ValuesFrame(c, g, s.st, s.dy, i, dy'[i]);
    forall j | 0 <= j < |s.st| ensures LoadOk(c, g, s.st, dy', s.sb, j) {
      if j != i {
        LoadFrame(c, g, s.st, s.dy, dy', s.sb, j);
      }
    }
  }

  lemma {:induction false} DispatchLoadKeeps(c: Config, g: Arch, s: Core, i: nat)
    requires Inv(c, g, s) && CanDispatchLoad(s, i)
    ensures Inv(c, g, DispatchLoad(c, s, i))
  {
    hide Exec;
    DispatchLoadLoads(c, g, s, i);
    QuietKeeps(c, g, s, DispatchLoad(c, s, i).dy);
  }

  // ---------------------------------------------------------------- load fill

  /** The word read cycles after dispatch, merged with the forwarded lanes, is the in-order word on the load's lanes. */
  lemma {:induction false} FilledValue(c: Config, g: Arch, s: Core, i: nat)
    requires i < |s.st| == |s.dy| && AllValues(c, g, s.st, s.dy) && AllSources(c, g, s.st, s.dy, s.head, s.wake)
    requires MemOk(c, g, s.st, s.dy, s.main, s.sb) && LoadOk(c, g, s.st, s.dy, s.sb, i) && CanFill(s, i)
    ensures FillLoad(c, s, i).dy[i].load.buf == SpecResult(c, g, s.st, i)
  {
    var d, ins := s.dy[i], s.st[i].instr;
    var w := WordIndex(c.byteAddressed, d.addr);
    var want := AccessMask(c.byteAddressed, ins.size, d.addr);
    var word := Merge(MainRead(s.main, w), d.load.word, d.load.mask);
    var flat := ReadWord(SpecAt(c, g, s.st, i).mem, w);
    assert ValuesOk(c, g, s.st, s.dy, i);
    FlatBefore(c, g, s, i, w);
    forall b | 0 <= b < 4 && want[b] ensures word[b] == flat[b] {
      if !d.load.mask[b] {
        OverlayUncovered(c.byteAddressed, MainRead(s.main, w), s.sb + QueueStores(c, s.st, s.dy, i), w, b);
      }
    }
    LoadExtendLanes(c.byteAddressed, word, flat, ins.size, ins.unsignedLoad, d.addr);
  }

  lemma {:induction false} FillLoadLoads(c: Config, g: Arch, s: Core, i: nat)
    requires i < |s.st| == |s.dy| && AllValues(c, g, s.st, s.dy) && AllSources(c, g, s.st, s.dy, s.head, s.wake)
    requires MemOk(c, g, s.st, s.dy, s.main, s.sb) && AllLoads(c, g, s.st, s.dy, s.sb) && CanFill(s, i)
    ensures var dy' := FillLoad(c, s, i).dy;
            AllValues(c, g, s.st, dy') && AllLoads(c, g, s.st, dy', s.sb)
  {
    hide Exec, ResultOf, SpecAt, AccessMask, StoreLanes, LoadExtend;
    var dy' := FillLoad(c, s, i).dy;
    assert LoadOk(c, g, s.st, s.dy, s.sb, i);
    FilledValue(c, g, s, i);
    assert ValuesOk(c, g, s.st, s.dy, i);
    ValuesFrame(c, g, s.st, s.dy, i, dy'[i]);
    LoadsFrame(c, g, s.st, s.dy, dy', s.sb);
  }

  lemma {:induction false} FillLoadKeeps(c: Config, g: Arch, s: Core, i: nat)
    requires Inv(c, g, s) && CanFill(s, i)
    ensures Inv(c, g, FillLoad(c, s, i))
  {
    hide Exec, ResultOf, SpecAt, AccessMask, StoreLanes, LoadExtend;
    FillLoadLoads(c, g, s, i);
    QuietKeeps(c, g, s, FillLoad(c, s, i).dy);
  }

  // ---------------------------------------------------------------- address generation

  lemma {:induction false} ReadySource1(c: Config, g: Arch, st: seq<Fetched>, dy: seq<Dyn>, head: nat,
                                        wake: seq<Beat>, i: nat)
    requires i < |st| == |dy| && AllSources(c, g, st, dy, head, wake) && !dy[i].done && dy[i].src1.ready
    ensures dy[i].src1.val == ReadReg(SpecAt(c, g, st, i).regs, st[i].instr.src1)
  {
  }

  lemma {:induction false} AddressFrom(a: Arch, ins: Instr, v: Word)
    requires v == ReadReg(a.regs, ins.src1)
    ensures Wrap32(v + ins.imm) == Address(a, ins)
  {
  }

  lemma {:induction false} ComputedAddress(c: Config, g: Arch, s: Core, i: nat)
    requires CanComputeAddr(s, i) && AllSources(c, g, s.st, s.dy, s.head, s.wake)
    ensures ComputeAddr(s, i).dy[i].addr == Address(SpecAt(c, g, s.st, i), s.st[i].instr)
  {
    ReadySource1(c, g, s.st, s.dy, s.head, s.wake, i);
    AddressFrom(SpecAt(c, g, s.st, i), s.st[i].instr, s.dy[i].src1.val);
  }

  lemma {:induction false} ComputeAddrLoads(c: Config, g: Arch, s: Core, i: nat)
    requires i < |s.st| == |s.dy| && AllValues(c, g, s.st, s.dy) && AllSources(c, g, s.st, s.dy, s.head, s.wake)
    requires AllLoads(c, g, s.st, s.dy, s.sb) && CanComputeAddr(s, i)
    ensures var dy' := ComputeAddr(s, i).dy;
            AllValues(c, g, s.st, dy') && AllLoads(c, g, s.st, dy', s.sb)
  {
    var dy' := ComputeAddr(s, i).dy;
    ComputedAddress(c, g, s, i);
    assert ValuesOk(c, g, s.st, s.dy, i);
    ValuesFrame(c, g, s.st, s.dy, i, dy'[i]);
    LoadsFrame(c, g, s.st, s.dy, dy', s.sb);
  }

  lemma {:induction false} ComputeAddrKeeps(c: Config, g: Arch, s: Core, i: nat)
    requires Inv(c, g, s) && CanComputeAddr(s, i)
    ensures Inv(c, g, ComputeAddr(s, i))
  {
    hide Exec, ResultOf, SpecAt, AccessMask, StoreLanes, LoadExtend;
    ComputeAddrLoads(c, g, s, i);
    QuietKeeps(c, g, s, ComputeAddr(s, i).dy);
  }

  // ---------------------------------------------------------------- the store buffer

  lemma {:induction false} DrainKeeps(c: Config, g: Arch, s: Core)
    requires Inv(c, g, s) && s.sb != []
    ensures Inv(c, g, Drain(c, s))
  {
    var s' := Drain(c, s);
    var e := s.sb[0];
    assert 0 <= WordIndex(c.byteAddressed, e.addr) < MEMORY_WORDS;
    forall w ensures OverlayWord(c.byteAddressed, MainRead(s'.main, w), s'.sb, w)
                  == OverlayWord(c.byteAddressed, MainRead(s.main, w), s.sb, w) {
    }
    forall i | 0 <= i < |s.st| ensures LoadOk(c, g, s.st, s.dy, s'.sb, i) {
      assert LoadOk(c, g, s.st, s.dy, s.sb, i);
      var q := QueueStores(c, s.st, s.dy, i);
      forall w, b: nat | b < 4 && Uncovered(c.byteAddressed, s.sb + q, w, b)
        ensures Uncovered(c.byteAddressed, s'.sb + q, w, b)
      {
        UncoveredTail(c.byteAddressed, s.sb, q, w, b);
      }
    }
  }

  lemma {:induction false} UncoveredTail(ba: bool, sb: seq<SbEntry>, q: seq<SbEntry>, w: int, b: nat)
    requires b < 4 && sb != [] && Uncovered(ba, sb + q, w, b)
    ensures Uncovered(ba, sb[1..] + q, w, b)
  {
    forall k | 0 <= k < |sb[1..] + q| ensures !EntryCovers(ba, (sb[1..] + q)[k], w, b) {
      assert !EntryCovers(ba, (sb + q)[k + 1], w, b);
    }
  }

  /** A store leaving the LSQ for the SB keeps the list of pending stores a younger load depends on. */
  lemma {:induction false} QueueHead(c: Config, st: seq<Fetched>, dy: seq<Dyn>, i: nat, l: nat)
    requires i < l <= |st| == |dy| && st[i].instr.IsStore() && !dy[i].done
    requires forall j :: 0 <= j < i ==> dy[j].done
    ensures QueueStores(c, st, dy, l) == [StoreEntry(c, st[i], dy[i])] + QueueStores(c, st, Complete(dy, i, 0), l)
  {
    var dy' := Complete(dy, i, 0);
    if l == i + 1 {
      QueueDone(c, st, dy, i);
      QueueDone(c, st, dy', i);
      assert QueueStores(c, st, dy', l) == QueueStores(c, st, dy', i) + [];
    } else {
      QueueHead(c, st, dy, i, l - 1);
    }
  }

  /** Entries that are not stores leave memory alone. */
  lemma {:induction false} MemSkip(c: Config, g: Arch, st: seq<Fetched>, a: nat, b: nat)
    requires a <= b <= |st| && forall j :: a <= j < b ==> !st[j].instr.IsStore()
    ensures SpecAt(c, g, st, b).mem == SpecAt(c, g, st, a).mem
  {
    hide ResultOf, LoadExtend, StoreLanes, AccessMask, ReadWord, NextPc;
    if a < b {
      MemSkip(c, g, st, a, b - 1);
    }
  }

  lemma {:induction false} EnqueueMemory(c: Config, g: Arch, s: Core, i: nat)
    requires i < |s.st| == |s.dy| && AllValues(c, g, s.st, s.dy) && AllSources(c, g, s.st, s.dy, s.head, s.wake)
    requires MemOk(c, g, s.st, s.dy, s.main, s.sb) && CanEnqueueStore(s, i)
    requires 0 <= WordIndex(c.byteAddressed, s.dy[i].addr) < MEMORY_WORDS
    ensures var s' := EnqueueStore(c, s, i); MemOk(c, g, s'.st, s'.dy, s'.main, s'.sb)
  {
    hide Exec;
    var s' := EnqueueStore(c, s, i);
    var e := StoreEntry(c, s.st[i], s.dy[i]);
    DonePrefixIs(s.dy, i);
    var n := DonePrefix(s'.dy);
    assert i + 1 <= n by {
      if n <= i {
        assert false;
      }
    }
    forall j | i + 1 <= j < n ensures !s.st[j].instr.IsStore() {
      assert s'.dy[j].done && s.dy[j].done;
      assert ValuesOk(c, g, s.st, s.dy, j);
    }
    MemSkip(c, g, s.st, i + 1, n);
    KnownStore(c, g, s.st, s.dy, s.head, s.wake, i);
    forall w ensures OverlayWord(c.byteAddressed, MainRead(s.main, w), s'.sb, w)
                  == ReadWord(SpecAt(c, g, s.st, n).mem, w) {
      OverlayAppend(c.byteAddressed, MainRead(s.main, w), s.sb, [e], w);
      StoreEntryIsWrite(c, g, s.st, s.dy[i], i, w);
    }
  }

  lemma {:induction false} EnqueueLoads(c: Config, g: Arch, s: Core, i: nat)
    requires i < |s.st| == |s.dy| && AllValues(c, g, s.st, s.dy) && AllLoads(c, g, s.st, s.dy, s.sb)
    requires CanEnqueueStore(s, i)
    ensures var s' := EnqueueStore(c, s, i); AllLoads(c, g, s'.st, s'.dy, s'.sb)
  {
    var s' := EnqueueStore(c, s, i);
    forall l | 0 <= l < |s.st| ensures LoadOk(c, g, s'.st, s'.dy, s'.sb, l) {
      assert LoadOk(c, g, s.st, s.dy, s.sb, l);
      if l > i {
        QueueHead(c, s.st, s.dy, i, l);
        assert s'.sb + QueueStores(c, s'.st, s'.dy, l) == s.sb + QueueStores(c, s.st, s.dy, l);
      } else if l == i {
        assert ValuesOk(c, g, s.st, s.dy, l);
      }
    }
  }

  lemma {:induction false} EnqueueEntries(c: Config, g: Arch, s: Core, i: nat)
    requires i < |s.st| == |s.dy| && AllValues(c, g, s.st, s.dy) && AllSources(c, g, s.st, s.dy, s.head, s.wake)
    requires FuOk(c, g, s.st, s.dy, s.head, s.fu) && CanEnqueueStore(s, i)
    ensures var s' := EnqueueStore(c, s, i);
            && AllValues(c, g, s.st, s'.dy) && AllSources(c, g, s.st, s'.dy, s.head, s.wake)
            && FuOk(c, g, s.st, s'.dy, s.head, s.fu)
  {
    var s' := EnqueueStore(c, s, i);
    FuFrame(c, g, s.st, s.dy, s'.dy, s.head, s.fu);
    SourcesFrame(c, g, s.st, s.dy, s'.dy, s.head, s.wake);
    assert ValuesOk(c, g, s.st, s.dy, i);
    ValuesFrame(c, g, s.st, s.dy, i, s'.dy[i]);
  }

  lemma {:induction false} EnqueueStoreKeeps(c: Config, g: Arch, s: Core, i: nat)
    requires Inv(c, g, s) && CanEnqueueStore(s, i)
    requires 0 <= WordIndex(c.byteAddressed, s.dy[i].addr) < MEMORY_WORDS
    ensures Inv(c, g, EnqueueStore(c, s, i))
  {
    hide Exec, ResultOf, SpecAt, AccessMask, StoreLanes, LoadExtend;
    EnqueueMemory(c, g, s, i);
    EnqueueLoads(c, g, s, i);
    EnqueueEntries(c, g, s, i);
    CompleteIds(s, i, 0);
    CompletePath(c, g, s, i, 0);
  }

  lemma {:induction false} CompleteIds(s: Core, i: nat, v: Word)
    requires i < |s.st| == |s.dy| && RsOk(s.st, s.dy, s.rs) && IdsOk(s.dy, s.nextId)
    ensures RsOk(s.st, Complete(s.dy, i, v), s.rs) && IdsOk(Complete(s.dy, i, v), s.nextId)
  {
    RsFrame(s.st, s.dy, Complete(s.dy, i, v), s.rs);
  }

  /** Completing an instruction that is not control flow does not move the path. */
  lemma {:induction false} CompletePath(c: Config, g: Arch, s: Core, i: nat, v: Word)
    requires i < |s.st| == |s.dy| && PathOk(c, g.pc, s.st, s.dy, s.front, s.fetchPc)
    requires !s.st[i].instr.IsControl()
    ensures PathOk(c, g.pc, s.st, Complete(s.dy, i, v), s.front, s.fetchPc)
  {
    var dy' := Complete(s.dy, i, v);
    forall j | 0 <= j <= |s.st| ensures FlightPc(g.pc, s.st, dy', j) == FlightPc(g.pc, s.st, s.dy, j) {
    }
  }
}
