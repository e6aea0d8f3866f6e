/** The load/store queue with its committed-store buffer, over the ideal memory.
  *
  * The queue's slots are in no particular order: program order is the order of instruction ids.
  */
module LoadStoreQueue {
  import opened Words
  import opened Isa
  import opened Core
  import opened CoreInv
  import opened ReorderBuffer
  import opened SlotTable

  /** A load or store in the queue. `executed` loads have broadcast; `accessing` ones have been dispatched. */
  datatype MemOp = MemOp(isLoad: bool, robId: int, size: MemSize, isUnsigned: bool,
                         addrReady: bool, address: Word, dataReady: bool, data: Word,
                         executed: bool, accessing: bool, cycles: nat, buffer: Word,
                         needsFill: bool, partialEn: bool, partialWord: Lanes, partialMask: Mask)

  type LsqEntry = Slot<MemOp>

  datatype SbSlot = SbSlot(valid: bool, issued: bool, entry: SbEntry, cycles: nat)

  const EMPTY_SLOT := SbSlot(false, false, SbEntry(0, ZERO_LANES, NO_LANES), 0)

  function FreshOp(isLoad: bool, robId: int, size: MemSize, isUnsigned: bool): MemOp {
    MemOp(isLoad, robId, size, isUnsigned, false, 0, false, 0, false, false, 0, 0, false, false, ZERO_LANES, NO_LANES)
  }

  predicate SameWord(ba: bool, a: Word, b: Word) {
    if !ba then a == b else Unsigned(a) / 4 == Unsigned(b) / 4
  }

  // ---------------------------------------------------------------- what forwarding should give

  predicate OlderStore(e: LsqEntry, id: nat) { e.valid && !e.body.isLoad && e.id < id }

  predicate Known(m: MemOp) { m.addrReady && m.dataReady }

  /** The store-buffer entry a store in the queue will become. */
  function EntryOf(ba: bool, m: MemOp): SbEntry {
    SbEntry(m.address, StoreLanes(ba, m.data, m.size, m.address), AccessMask(ba, m.size, m.address))
  }

  /** Word and lanes a load asks for. */
  datatype Want = Want(id: nat, address: Word, mask: Mask)

  /** Does slot `e` hold an older store that supplies byte `b` of the load? */
  predicate Supplies(ba: bool, e: LsqEntry, ld: Want, b: nat)
    requires b < 4
  {
    && OlderStore(e, ld.id) && Known(e.body) && SameWord(ba, e.body.address, ld.address)
    && AccessMask(ba, e.body.size, e.body.address)[b] && ld.mask[b]
  }

  /** The slot among the first `n` with the youngest store that supplies byte `b`; -1 if there is none. */
  function Youngest(ba: bool, q: seq<LsqEntry>, n: nat, ld: Want, b: nat): (j: int)
    requires n <= |q| && b < 4
    ensures -1 <= j < n
    ensures j >= 0 ==> Supplies(ba, q[j], ld, b)
  {
    if n == 0 then -1
    else
      var j := Youngest(ba, q, n - 1, ld, b);
      if Supplies(ba, q[n - 1], ld, b) && (j < 0 || q[n - 1].id > q[j].id) then n - 1 else j
  }

  function SuppliedByte(ba: bool, q: seq<LsqEntry>, n: nat, ld: Want, b: nat): Byte
    requires n <= |q| && b < 4
  {
    var j := Youngest(ba, q, n, ld, b);
    if j < 0 then 0 else EntryOf(ba, q[j].body).data[b]
  }

  /** What the first `n` slots supply: each byte from the youngest older store that has it. */
  function QueueCover(ba: bool, q: seq<LsqEntry>, n: nat, ld: Want): (c: Cover)
    requires n <= |q|
  {
    Cover([SuppliedByte(ba, q, n, ld, 0), SuppliedByte(ba, q, n, ld, 1), SuppliedByte(ba, q, n, ld, 2),
        SuppliedByte(ba, q, n, ld, 3)],
          [Youngest(ba, q, n, ld, 0) >= 0, Youngest(ba, q, n, ld, 1) >= 0, Youngest(ba, q, n, ld, 2) >= 0,
              Youngest(ba, q, n, ld, 3) >= 0])
  }

  lemma {:induction false} QueueCoverIs(ba: bool, q: seq<LsqEntry>, n: nat, ld: Want)
    requires n <= |q|
    ensures var c := QueueCover(ba, q, n, ld);
            && (forall b :: 0 <= b < 4 ==> c.word[b] == SuppliedByte(ba, q, n, ld, b))
            && (forall b :: 0 <= b < 4 ==> (c.mask[b] <==> Youngest(ba, q, n, ld, b) >= 0))
  {
    hide Youngest, SuppliedByte;
  }

  lemma {:induction false} YoungestIsGreatest(ba: bool, q: seq<LsqEntry>, n: nat, ld: Want, b: nat)
    requires n <= |q| && b < 4
    ensures forall k :: 0 <= k < n && Supplies(ba, q[k], ld, b) ==>
              Youngest(ba, q, n, ld, b) >= 0 && q[k].id <= q[Youngest(ba, q, n, ld, b)].id
  {
    if n > 0 {
      YoungestIsGreatest(ba, q, n - 1, ld, b);
    }
  }

  /** What the queue supplies, and where it does not, what the store buffer supplies. */
  function Overlaid(top: Cover, below: Cover): Cover {
    Cover(Merge(below.word, top.word, top.mask), MaskOr(below.mask, top.mask))
  }

  // ---------------------------------------------------------------- gathering those bytes slot by slot

  /** What a known older store adds: the bytes it has that nobody younger supplied. */
  ghost predicate Taken(ba: bool, e: LsqEntry, ld: Want, word: Lanes, mask: Mask, ages: seq<nat>,
                        word': Lanes, mask': Mask, ages': seq<nat>)
    requires |ages| == 4 == |ages'|
  {
    forall b :: 0 <= b < 4 ==>
      if Supplies(ba, e, ld, b) && (!mask[b] || e.id > ages[b])
      then mask'[b] && ages'[b] == e.id && word'[b] == EntryOf(ba, e.body).data[b]
      else mask'[b] == mask[b] && ages'[b] == ages[b] && word'[b] == word[b]
  }

  /** The bytes gathered from the first `n` slots: each from the youngest known older store among them. */
  ghost predicate Gathered(ba: bool, q: seq<LsqEntry>, n: nat, ld: Want, word: Lanes, mask: Mask, ages: seq<nat>)
    requires n <= |q| && |ages| == 4
  {
    forall b :: 0 <= b < 4 ==> ByteGathered(ba, q, n, ld, word, mask, ages, b)
  }

  ghost predicate ByteGathered(ba: bool, q: seq<LsqEntry>, n: nat, ld: Want, word: Lanes, mask: Mask, ages: seq<nat>,
                               b: nat)
    requires n <= |q| && b < 4 && |ages| == 4
  {
    var j := Youngest(ba, q, n, ld, b);
    && (mask[b] <==> j >= 0) && (j >= 0 ==> ages[b] == q[j].id) && word[b] == SuppliedByte(ba, q, n, ld, b)
  }

  lemma {:induction false} NothingGathered(ba: bool, q: seq<LsqEntry>, ld: Want)
    ensures Gathered(ba, q, 0, ld, ZERO_LANES, NO_LANES, [0, 0, 0, 0])
  {
  }

  lemma {:induction false} GatherOne(ba: bool, q: seq<LsqEntry>, n: nat, ld: Want, word: Lanes, mask: Mask,
                                     ages: seq<nat>,
                                     word': Lanes, mask': Mask, ages': seq<nat>)
    requires n < |q| && |ages| == 4 == |ages'| && Gathered(ba, q, n, ld, word, mask, ages)
    requires Taken(ba, q[n], ld, word, mask, ages, word', mask', ages')
    ensures Gathered(ba, q, n + 1, ld, word', mask', ages')
  {
    hide Supplies, EntryOf;
    var m := n + 1;
    forall b | 0 <= b < 4 ensures ByteGathered(ba, q, m, ld, word', mask', ages', b) {
      assert ByteGathered(ba, q, n, ld, word, mask, ages, b);
    }
  }

  lemma {:induction false} GatherNone(ba: bool, q: seq<LsqEntry>, n: nat, ld: Want, word: Lanes, mask: Mask,
                                      ages: seq<nat>)
    requires n < |q| && |ages| == 4 && Gathered(ba, q, n, ld, word, mask, ages)
    requires !(OlderStore(q[n], ld.id) && Known(q[n].body))
    ensures Gathered(ba, q, n + 1, ld, word, mask, ages)
  {
    hide EntryOf;
    var m := n + 1;
    forall b | 0 <= b < 4 ensures ByteGathered(ba, q, m, ld, word, mask, ages, b) {
      assert ByteGathered(ba, q, n, ld, word, mask, ages, b);
    }
  }

  lemma {:induction false} GatheredIsCover(ba: bool, q: seq<LsqEntry>, ld: Want, word: Lanes, mask: Mask,
                                           ages: seq<nat>)
    requires |ages| == 4 && Gathered(ba, q, |q|, ld, word, mask, ages)
    ensures Cover(word, mask) == QueueCover(ba, q, |q|, ld)
  {
    QueueCoverIs(ba, q, |q|, ld);
    hide Youngest, SuppliedByte, QueueCover;
    forall b | 0 <= b < 4
      ensures word[b] == QueueCover(ba, q, |q|, ld).word[b] && mask[b] == QueueCover(ba, q, |q|, ld).mask[b]
    {
      assert ByteGathered(ba, q, |q|, ld, word, mask, ages, b);
    }
    SameCover(Cover(word, mask), QueueCover(ba, q, |q|, ld));
  }

  // ---------------------------------------------------------------- the same, over program order

  /** `list` and `ids` are the older stores of the queue in program order. */
  ghost predicate InProgramOrder(ba: bool, q: seq<LsqEntry>, ld: Want, list: seq<SbEntry>, ids: seq<nat>) {
    && |list| == |ids|
    && (forall i, k :: 0 <= i < k < |ids| ==> ids[i] < ids[k])
    && (forall k :: 0 <= k < |list| ==> InSomeSlot(ba, q, ld, ids[k], list[k]))
    && (forall j :: 0 <= j < |q| && OlderStore(q[j], ld.id) ==> q[j].id in ids)
  }

  ghost predicate InSomeSlot(ba: bool, q: seq<LsqEntry>, ld: Want, id: nat, e: SbEntry) {
    exists j :: 0 <= j < |q| && IsSlot(ba, q[j], ld, id, e)
  }

  ghost predicate IsSlot(ba: bool, s: LsqEntry, ld: Want, id: nat, e: SbEntry) {
    OlderStore(s, ld.id) && Known(s.body) && s.id == id && e == EntryOf(ba, s.body)
  }

  /** Forwarding from a list takes each byte from the last entry that has it. */
  lemma {:induction false} ForwardIsLast(ba: bool, list: seq<SbEntry>, w: int, want: Mask, b: nat, k: nat)
    requires b < 4 && k < |list| && want[b] && EntryCovers(ba, list[k], w, b)
    requires forall i :: k < i < |list| ==> !EntryCovers(ba, list[i], w, b)
    ensures Forward(ba, list, w, want).mask[b] && Forward(ba, list, w, want).word[b] == list[k].data[b]
    decreases |list|
  {
    var front := list[..|list| - 1];
    if k < |front| {
      assert !EntryCovers(ba, list[|list| - 1], w, b);
      ForwardIsLast(ba, front, w, want, b, k);
    }
  }

  lemma {:induction false} ForwardIsNone(ba: bool, list: seq<SbEntry>, w: int, want: Mask, b: nat)
    requires b < 4 && (want[b] ==> forall i :: 0 <= i < |list| ==> !EntryCovers(ba, list[i], w, b))
    ensures !Forward(ba, list, w, want).mask[b] && Forward(ba, list, w, want).word[b] == 0
    decreases |list|
  {
    if list != [] {
      ForwardIsNone(ba, list[..|list| - 1], w, want, b);
    }
  }

  lemma {:induction false} SameWordIsIndex(ba: bool, a: Word, b: Word)
    ensures SameWord(ba, a, b) <==> WordIndex(ba, a) == WordIndex(ba, b)
  {
  }

  /** Searching the slots by age gives each byte the program-order list gives. */
  lemma {:induction false} SearchIsForward(ba: bool, q: seq<LsqEntry>, ld: Want, list: seq<SbEntry>, ids: seq<nat>,
                                           b: nat)
    requires b < 4 && DistinctIds(q) && InProgramOrder(ba, q, ld, list, ids)
    ensures var r := Forward(ba, list, WordIndex(ba, ld.address), ld.mask);
            r.mask[b] == (Youngest(ba, q, |q|, ld, b) >= 0) && r.word[b] == SuppliedByte(ba, q, |q|, ld, b)
  {
    YoungestIsGreatest(ba, q, |q|, ld, b);
    if Youngest(ba, q, |q|, ld, b) < 0 {
      NothingSupplies(ba, q, ld, list, ids, b);
    } else {
      YoungestSupplies(ba, q, ld, list, ids, b, Youngest(ba, q, |q|, ld, b));
    }
  }

  lemma {:induction false} NothingSupplies(ba: bool, q: seq<LsqEntry>, ld: Want, list: seq<SbEntry>, ids: seq<nat>,
                                           b: nat)
    requires b < 4 && InProgramOrder(ba, q, ld, list, ids)
    requires forall j :: 0 <= j < |q| ==> !Supplies(ba, q[j], ld, b)
    ensures var r := Forward(ba, list, WordIndex(ba, ld.address), ld.mask);
            !r.mask[b] && r.word[b] == 0
  {
    var w, want := WordIndex(ba, ld.address), ld.mask;
    if want[b] {
      forall k | 0 <= k < |list| ensures !EntryCovers(ba, list[k], w, b) {
        var j := SlotOf(ba, q, ld, list, ids, b, k);
      }
    }
    ForwardIsNone(ba, list, w, want, b);
  }

  lemma {:induction false} YoungestSupplies(ba: bool, q: seq<LsqEntry>, ld: Want, list: seq<SbEntry>, ids: seq<nat>,
                                            b: nat, j: nat)
    requires b < 4 && DistinctIds(q) && InProgramOrder(ba, q, ld, list, ids)
    requires j < |q| && Supplies(ba, q[j], ld, b)
    requires forall k :: 0 <= k < |q| && Supplies(ba, q[k], ld, b) ==> q[k].id <= q[j].id
    ensures var r := Forward(ba, list, WordIndex(ba, ld.address), ld.mask);
            r.mask[b] && r.word[b] == EntryOf(ba, q[j].body).data[b]
  {
    hide EntryOf, AccessMask, StoreLanes, WordIndex;
    var w, want := WordIndex(ba, ld.address), ld.mask;
    var k :| 0 <= k < |ids| && ids[k] == q[j].id;
    var j' := SlotOf(ba, q, ld, list, ids, b, k);
    assert j' == j;
    forall i | k < i < |list| ensures !EntryCovers(ba, list[i], w, b) {
      var m := SlotOf(ba, q, ld, list, ids, b, i);
    }
    ForwardIsLast(ba, list, w, want, b, k);
  }

  /** The slot of the `k`-th older store, and whether it supplies a wanted byte. */
  lemma {:induction false} SlotOf(ba: bool, q: seq<LsqEntry>, ld: Want, list: seq<SbEntry>, ids: seq<nat>, b: nat,
                                  k: nat)
    returns (j: nat)
    requires b < 4 && k < |list| && InProgramOrder(ba, q, ld, list, ids) && ld.mask[b]
    ensures j < |q| && IsSlot(ba, q[j], ld, ids[k], list[k])
    ensures EntryCovers(ba, list[k], WordIndex(ba, ld.address), b) <==> Supplies(ba, q[j], ld, b)
  {
    assert InSomeSlot(ba, q, ld, ids[k], list[k]);
    j :| 0 <= j < |q| && IsSlot(ba, q[j], ld, ids[k], list[k]);
    SameWordIsIndex(ba, q[j].body.address, ld.address);
  }

  /** Forwarding from a list of older entries and then a list of younger ones. */
  lemma {:induction false} ForwardAppend(ba: bool, older: seq<SbEntry>, younger: seq<SbEntry>, w: int, want: Mask)
    ensures Forward(ba, older + younger, w, want)
              == Overlaid(Forward(ba, younger, w, want), Forward(ba, older, w, want))
    decreases |younger|
  {
    if younger == [] {
      assert older + younger == older;
      SameCover(Forward(ba, older, w, want), Overlaid(Cover(ZERO_LANES, NO_LANES), Forward(ba, older, w, want)));
    } else {
      var front, e := younger[..|younger| - 1], younger[|younger| - 1];
      ForwardAppend(ba, older, front, w, want);
      assert (older + younger)[..|older + younger| - 1] == older + front;
      OneOnTop(ba, younger, w, want);
      OneOnTop(ba, older + younger, w, want);
      hide Forward, OnTop, Overlaid;
      TopsCommute(ba, Forward(ba, front, w, want), Forward(ba, older, w, want), e, w, want);
    }
  }

  /** Forwarding from one more, younger entry. */
  function OnTop(ba: bool, r: Cover, e: SbEntry, w: int, want: Mask): Cover {
    if WordIndex(ba, e.addr) != w then r
    else
      var overlap := MaskAnd(e.mask, want);
      Cover(Merge(r.word, e.data, overlap), MaskOr(r.mask, overlap))
  }

  lemma {:induction false} OneOnTop(ba: bool, list: seq<SbEntry>, w: int, want: Mask)
    requires list != []
    ensures Forward(ba, list, w, want) == OnTop(ba, Forward(ba, list[..|list| - 1], w, want), list[|list| - 1], w, want)
  {
  }

  lemma {:induction false} TopsCommute(ba: bool, top: Cover, below: Cover, e: SbEntry, w: int, want: Mask)
    ensures OnTop(ba, Overlaid(top, below), e, w, want) == Overlaid(OnTop(ba, top, e, w, want), below)
  {
    hide WordIndex;
    SameCover(OnTop(ba, Overlaid(top, below), e, w, want), Overlaid(OnTop(ba, top, e, w, want), below));
  }

  lemma {:induction false} SameCover(r: Cover, s: Cover)
    requires forall b :: 0 <= b < 4 ==> r.word[b] == s.word[b] && r.mask[b] == s.mask[b]
    ensures r == s
  {
  }

  /** The slot search laid over the store buffer is forwarding from buffer and older stores in program order. */
  lemma {:induction false} DispatchIsForward(ba: bool, sb: seq<SbEntry>, q: seq<LsqEntry>, ld: Want,
                                             list: seq<SbEntry>, ids: seq<nat>)
    requires DistinctIds(q) && InProgramOrder(ba, q, ld, list, ids)
    ensures var w := WordIndex(ba, ld.address);
            Overlaid(QueueCover(ba, q, |q|, ld), Forward(ba, sb, w, ld.mask)) == Forward(ba, sb + list, w, ld.mask)
  {
    var w := WordIndex(ba, ld.address);
    forall b | 0 <= b < 4
      ensures Forward(ba, list, w, ld.mask).mask[b] == QueueCover(ba, q, |q|, ld).mask[b]
           && Forward(ba, list, w, ld.mask).word[b] == QueueCover(ba, q, |q|, ld).word[b]
    {
      SearchIsForward(ba, q, ld, list, ids, b);
      QueueCoverIs(ba, q, |q|, ld);
    }
    SameCover(Forward(ba, list, w, ld.mask), QueueCover(ba, q, |q|, ld));
    ForwardAppend(ba, sb, list, w, ld.mask);
  }

  // ---------------------------------------------------------------- the store buffer as a queue

  /** Buffered stores, oldest first. */
  function Buffered(ring: seq<SbSlot>): (list: seq<SbEntry>)
    ensures |list| == |ring| && forall i :: 0 <= i < |ring| ==> list[i] == ring[i].entry
  {
    seq(|ring|, i requires 0 <= i < |ring| => ring[i].entry)
  }

  /** Issued slots come before unissued ones, and none is due before an older one. */
  ghost predicate InOrder(ring: seq<SbSlot>, memLatency: nat) {
    && (forall i :: 0 <= i < |ring| ==> ring[i].valid && (ring[i].issued ==> ring[i].cycles <= memLatency))
    && (forall i, j :: 0 <= i < j < |ring| && ring[j].issued ==> ring[i].issued && ring[i].cycles <= ring[j].cycles)
  }

  /** Memory after the stores of `list` have been written, oldest first. */
  function Written(ba: bool, main: seq<Lanes>, list: seq<SbEntry>): (m: seq<Lanes>)
    ensures |m| == |main|
  {
    if list == [] then main
    else
      var e := list[|list| - 1];
      MainWrite(Written(ba, main, list[..|list| - 1]), WordIndex(ba, e.addr), e.data, e.mask)
  }

  /** Memory traffic of one cycle for a slot: issue it, and count it down. */
  function Due(s: SbSlot): bool { s.issued && s.cycles <= 1 }

  function Counted(s: SbSlot): SbSlot {
    if s.issued && s.cycles > 0 then s.(cycles := s.cycles - 1) else s
  }

  /** How many stores at the front of the buffer are on their way to memory. */
  function OnTheWay(ring: seq<SbSlot>): (n: nat)
    ensures n <= |ring| && (n < |ring| ==> !ring[n].issued) && forall i :: 0 <= i < n ==> ring[i].issued
  {
    if ring == [] || !ring[0].issued then 0
    else
      var n := OnTheWay(ring[1..]);
      assert forall i :: 0 < i < n + 1 ==> ring[i] == ring[1..][i - 1];
      n + 1
  }

  /** The buffer once up to `ports` of the oldest waiting stores have been sent. */
  function Sent(ring: seq<SbSlot>, ports: nat, memLatency: nat): (r: seq<SbSlot>)
    ensures |r| == |ring|
    ensures forall i :: 0 <= i < |ring| ==>
              r[i] == if OnTheWay(ring) <= i < OnTheWay(ring) + ports
                      then ring[i].(issued := true, cycles := memLatency) else ring[i]
  {
    seq(|ring|, i requires 0 <= i < |ring| =>
      if OnTheWay(ring) <= i < OnTheWay(ring) + ports then ring[i].(issued := true, cycles := memLatency) else ring[i])
  }

  /** How many stores at the front of the buffer reach memory this cycle. */
  function DueNow(ring: seq<SbSlot>): (n: nat)
    ensures n <= |ring| && (n < |ring| ==> !Due(ring[n])) && forall i :: 0 <= i < n ==> Due(ring[i])
  {
    if ring == [] || !Due(ring[0]) then 0
    else
      var n := DueNow(ring[1..]);
      assert forall i :: 0 < i < n + 1 ==> ring[i] == ring[1..][i - 1];
      n + 1
  }

  /** What is left in the buffer after a cycle. */
  function CountedDown(ring: seq<SbSlot>): (r: seq<SbSlot>)
    ensures |r| == |ring| && forall i :: 0 <= i < |ring| ==> r[i] == Counted(ring[i])
  {
    seq(|ring|, i requires 0 <= i < |ring| => Counted(ring[i]))
  }

  /** A buffered store after `n` cycles. */
  function CountedFor(s: SbSlot, n: nat): SbSlot {
    if n == 0 then s else Counted(CountedFor(s, n - 1))
  }

  /** A store that has been sent is due in the cycle its latency ends, counting the one it was sent in. */
  lemma {:induction false} DueInTime(s: SbSlot, n: nat)
    requires s.issued
    ensures Due(CountedFor(s, n)) <==> n + 1 >= s.cycles
  {
    CountedTo(s, n);
  }

  lemma {:induction false} CountedTo(s: SbSlot, n: nat)
    requires s.issued
    ensures CountedFor(s, n).issued && CountedFor(s, n).cycles == if n < s.cycles then s.cycles - n else 0
  {
    if n > 0 {
      CountedTo(s, n - 1);
    }
  }

  /** In an ordered buffer a store further back is on its way only if all in front of it are. */
  lemma {:induction false} SentInOrder(ring: seq<SbSlot>, memLatency: nat, i: nat)
    requires InOrder(ring, memLatency) && i < |ring|
    ensures ring[i].issued <==> i < OnTheWay(ring)
  {
  }

  lemma {:induction false} SentStillInOrder(ring: seq<SbSlot>, ports: nat, memLatency: nat)
    requires InOrder(ring, memLatency)
    ensures InOrder(Sent(ring, ports, memLatency), memLatency)
  {
    hide OnTheWay;
    forall i | 0 <= i < |ring| ensures ring[i].issued <==> i < OnTheWay(ring) {
      SentInOrder(ring, memLatency, i);
    }
  }

  lemma {:induction false} RingPut<T>(slots: seq<T>, head: nat, n: nat, i: nat, x: T)
    requires head < |slots| && n <= |slots| && i < n
    ensures Ring(slots[Tag(head, |slots|, i) := x], head, n) == Ring(slots, head, n)[i := x]
  {
  }

  lemma {:induction false} RingGrow<T>(slots: seq<T>, head: nat, n: nat, x: T)
    requires head < |slots| && n < |slots|
    ensures Ring(slots[Tag(head, |slots|, n) := x], head, n + 1) == Ring(slots, head, n) + [x]
  {
  }

  lemma {:induction false} RingDrop<T>(slots: seq<T>, head: nat, n: nat)
    requires head < |slots| && 0 < n <= |slots|
    ensures Ring(slots, RingNext(head, |slots|), n - 1) == Ring(slots, head, n)[1..]
  {
    hide RingNext;
    forall i | 0 <= i < n - 1
      ensures slots[Tag(RingNext(head, |slots|), |slots|, i)] == slots[Tag(head, |slots|, i + 1)]
    {
    }
  }

  // ---------------------------------------------------------------- stores leaving the queue

  /** The first slot holding the store with ROB tag `tag`; the slot count if none does. */
  function StoreSlot(q: seq<LsqEntry>, tag: int, from: nat): (i: nat)
    requires from <= |q|
    ensures from <= i <= |q|
    ensures forall j :: from <= j < i ==> !(q[j].valid && !q[j].body.isLoad && q[j].body.robId == tag)
    ensures i < |q| ==> q[i].valid && !q[i].body.isLoad && q[i].body.robId == tag
    decreases |q| - from
  {
    if from == |q| then from
    else if q[from].valid && !q[from].body.isLoad && q[from].body.robId == tag then from
    else StoreSlot(q, tag, from + 1)
  }

  predicate CanHandOver(q: seq<LsqEntry>, tag: int) {
    StoreSlot(q, tag, 0) < |q| && Known(q[StoreSlot(q, tag, 0)].body)
  }

  /** The buffer entry the store with a tag becomes. */
  function HandedEntry(ba: bool, q: seq<LsqEntry>, tag: int): SbEntry
    requires CanHandOver(q, tag)
  {
    EntryOf(ba, q[StoreSlot(q, tag, 0)].body)
  }

  function WithoutStore(q: seq<LsqEntry>, tag: int): (r: seq<LsqEntry>)
    requires CanHandOver(q, tag)
    ensures |r| == |q|
  {
    var i := StoreSlot(q, tag, 0);
    q[i := q[i].(valid := false)]
  }

  /** What handing over the stores `tags` in turn leaves of the queue and adds to the buffer; it stops at the first
    * store that is missing or not known, or when the room is used up. */
  datatype Handed = Handed(queue: seq<LsqEntry>, entries: seq<SbEntry>)

  function HandOver(ba: bool, q: seq<LsqEntry>, tags: seq<int>, room: nat): (h: Handed)
    ensures |h.queue| == |q| && |h.entries| <= |tags| && |h.entries| <= room
    decreases |tags|
  {
    if tags == [] || room == 0 || !CanHandOver(q, tags[0]) then Handed(q, [])
    else
      var rest := HandOver(ba, WithoutStore(q, tags[0]), tags[1..], room - 1);
      Prepend([HandedEntry(ba, q, tags[0])], rest)
  }

  lemma {:induction false} NothingMore(ba: bool, q: seq<LsqEntry>, tags: seq<int>, room: nat)
    requires tags == [] || room == 0 || !CanHandOver(q, tags[0])
    ensures HandOver(ba, q, tags, room) == Handed(q, [])
  {
  }

  lemma {:induction false} HandOverOne(ba: bool, q: seq<LsqEntry>, tags: seq<int>, room: nat)
    requires tags != [] && room > 0
    ensures HandOver(ba, q, tags, room) ==
            if CanHandOver(q, tags[0])
            then Prepend([HandedEntry(ba, q, tags[0])], HandOver(ba, WithoutStore(q, tags[0]), tags[1..], room - 1))
            else Handed(q, [])
  {
  }

  /** The first `k` stores of `tags` have been handed over as `moved`, leaving the queue `q`. */
  ghost predicate MovedSoFar(ba: bool, q0: seq<LsqEntry>, tags: seq<int>, room: nat, k: nat, q: seq<LsqEntry>,
                             moved: seq<SbEntry>) {
    && k <= |tags| && k <= room && |moved| == k
    && HandOver(ba, q0, tags, room) == Prepend(moved, HandOver(ba, q, tags[k..], room - k))
  }

  lemma {:induction false} NothingMoved(ba: bool, q0: seq<LsqEntry>, tags: seq<int>, room: nat)
    ensures MovedSoFar(ba, q0, tags, room, 0, q0, [])
  {
    hide HandOver;
    var all := HandOver(ba, q0, tags, room);
    assert tags[0..] == tags && [] + all.entries == all.entries;
  }

  lemma {:induction false} MoveOneMore(ba: bool, q0: seq<LsqEntry>, tags: seq<int>, room: nat, k: nat,
                                       q: seq<LsqEntry>, moved: seq<SbEntry>)
    requires MovedSoFar(ba, q0, tags, room, k, q, moved) && k < |tags| && k < room && CanHandOver(q, tags[k])
    ensures MovedSoFar(ba, q0, tags, room, k + 1, WithoutStore(q, tags[k]), moved + [HandedEntry(ba, q, tags[k])])
  {
    hide HandOver, CanHandOver, WithoutStore, HandedEntry, Prepend;
    HandOverOne(ba, q, tags[k..], room - k);
    assert tags[k..][0] == tags[k] && tags[k..][1..] == tags[k + 1..];
    PrependStep(moved, HandedEntry(ba, q, tags[k]), HandOver(ba, WithoutStore(q, tags[k]), tags[k + 1..],
        room - k - 1));
  }

  lemma {:induction false} MovedAll(ba: bool, q0: seq<LsqEntry>, tags: seq<int>, room: nat, k: nat, q: seq<LsqEntry>,
                                    moved: seq<SbEntry>)
    requires MovedSoFar(ba, q0, tags, room, k, q, moved) && (k == |tags| || k == room || !CanHandOver(q, tags[k]))
    ensures HandOver(ba, q0, tags, room) == Handed(q, moved) && |moved| == k
  {
    hide HandOver, CanHandOver;
    NothingMore(ba, q, tags[k..], room - k);
    assert moved + [] == moved;
  }

  function Prepend(moved: seq<SbEntry>, h: Handed): Handed { Handed(h.queue, moved + h.entries) }

  lemma {:induction false} Regroup(a: seq<SbEntry>, b: seq<SbEntry>, e: SbEntry)
    ensures (a + b) + [e] == a + (b + [e])
  {
  }

  lemma {:induction false} PrependStep(moved: seq<SbEntry>, e: SbEntry, rest: Handed)
    ensures Prepend(moved, Prepend([e], rest)) == Prepend(moved + [e], rest)
  {
    assert moved + ([e] + rest.entries) == (moved + [e]) + rest.entries;
  }

  // ---------------------------------------------------------------- one load's progress

  /** A dispatched load: done forwarding, or waiting for the rest of its word. */
  function Dispatched(ba: bool, m: MemOp, c: Cover, fwdLatency: nat, memLatency: nat): MemOp {
    if c.mask == AccessMask(ba, m.size, m.address) then
      m.(accessing := true, cycles := fwdLatency, needsFill := false, partialEn := false,
         buffer := LoadExtend(ba, c.word, m.size, m.isUnsigned, m.address))
    else
      m.(accessing := true, cycles := memLatency, needsFill := true, buffer := 0,
         partialEn := c.mask != NO_LANES, partialWord := c.word, partialMask := c.mask)
  }

  /** One cycle of a dispatched load; memory is read when its countdown ends. */
  function Ticked(ba: bool, m: MemOp, main: seq<Lanes>): MemOp {
    if !m.isLoad || !m.accessing then m
    else
      var cycles := if m.cycles > 0 then m.cycles - 1 else 0;
      if cycles == 0 && m.needsFill && !m.executed then
        var word := MainRead(main, WordIndex(ba, m.address));
        m.(cycles := cycles, needsFill := false, partialEn := false,
           buffer := LoadExtend(ba, if m.partialEn then Merge(word, m.partialWord, m.partialMask) else word,
                                m.size, m.isUnsigned, m.address))
      else m.(cycles := cycles)
  }

  function TickedSlot(ba: bool, e: LsqEntry, main: seq<Lanes>): LsqEntry {
    if e.valid then e.(body := Ticked(ba, e.body, main)) else e
  }

  /** All slots after a cycle of the loads. */
  function TickedSlots(ba: bool, q: seq<LsqEntry>, main: seq<Lanes>): (r: seq<LsqEntry>)
    ensures |r| == |q| && forall i :: 0 <= i < |q| ==> r[i] == TickedSlot(ba, q[i], main)
  {
    seq(|q|, i requires 0 <= i < |q| => TickedSlot(ba, q[i], main))
  }

  /** The load's progress as the speculative machine sees it. */
  function Progress(m: MemOp): LoadState {
    if !m.accessing && !m.executed then LoadIdle
    else if m.needsFill then LoadWaiting(m.partialWord, if m.partialEn then m.partialMask else NO_LANES)
    else LoadReady(m.buffer)
  }

  /** Dispatch starts a load exactly as the speculative machine's dispatch step does. */
  lemma {:induction false} DispatchProgress(ba: bool, m: MemOp, c: Cover, fwdLatency: nat, memLatency: nat)
    ensures Progress(Dispatched(ba, m, c, fwdLatency, memLatency)) ==
            if c.mask == AccessMask(ba, m.size, m.address)
            then LoadReady(LoadExtend(ba, c.word, m.size, m.isUnsigned, m.address))
            else LoadWaiting(c.word, c.mask)
  {
  }

  /** A cycle either leaves a load's progress alone or fills it from memory as the fill step does. */
  lemma {:induction false} TickProgress(ba: bool, m: MemOp, main: seq<Lanes>)
    requires m.isLoad && (m.needsFill ==> m.accessing)
    ensures var p, p' := Progress(m), Progress(Ticked(ba, m, main));
            p' == p || (p.LoadWaiting? && p' == LoadReady(LoadExtend(ba,
              Merge(MainRead(main, WordIndex(ba, m.address)), p.word, p.mask), m.size, m.isUnsigned, m.address)))
  {
    var word := MainRead(main, WordIndex(ba, m.address));
    assert Merge(word, m.partialWord, NO_LANES) == word;
  }

  // ---------------------------------------------------------------- the queue itself

  class LoadStoreQueue {
    const byteAddressed: bool
    const capacity: nat
    const memLatency: nat
    const fwdLatency: nat
    const storeForwarding: bool
    const maxMemPorts: nat
    const sbCapacity: nat
    const queue: array<LsqEntry>
    const sb: array<SbSlot>
    var sbHead: nat
    var sbTail: nat
    var sbCount: nat
    const mainMemory: array<Lanes>

    ghost predicate Shape()
      reads this
    {
      && queue.Length == capacity && 0 < sbCapacity == sb.Length && mainMemory.Length == MEMORY_WORDS
      && sbHead < sbCapacity && sbCount <= sbCapacity
      && sbTail == (if sbCount == sbCapacity then sbHead else Tag(sbHead, sbCapacity, sbCount))
    }

    ghost function Slots(): seq<SbSlot>
      reads this, sb
      requires Shape()
    {
      Ring(sb[..], sbHead, sbCount)
    }

    ghost predicate Valid()
      reads this, queue, sb
    {
      Shape() && DistinctIds(queue[..]) && InOrder(Slots(), memLatency)
    }

    /** Loads and stores in the queue, by instruction id. */
    ghost function Contents(): map<nat, MemOp>
      reads this, queue, sb
      requires Valid()
    {
      Table(queue[..])
    }

    /** Committed stores on their way to memory, oldest first. */
    ghost function Pending(): seq<SbEntry>
      reads this, queue, sb
      requires Valid()
    {
      Buffered(Slots())
    }

    constructor (size: nat, storeBufDepth: int, memoryLatency: nat, forwardLatency: nat, enableForwarding: bool,
                 maxMemoryPorts: nat, bytes: bool, memory: array<Lanes>)
      requires memory.Length == MEMORY_WORDS
      ensures Valid() && fresh(queue) && fresh(sb) && mainMemory == memory && byteAddressed == bytes
      ensures capacity == size && sbCapacity == (if storeBufDepth > 0 then storeBufDepth else 1)
      ensures Contents() == map[] && Pending() == []
    {
      capacity, memLatency, fwdLatency := size, memoryLatency, forwardLatency;
      storeForwarding, maxMemPorts, byteAddressed, mainMemory := enableForwarding, maxMemoryPorts, bytes, memory;
      sbCapacity := if storeBufDepth > 0 then storeBufDepth else 1;
      queue := new LsqEntry[size](_ => Slot(false, 0, FreshOp(false, -1, W, false)));
      sb := new SbSlot[if storeBufDepth > 0 then storeBufDepth else 1](_ => EMPTY_SLOT);
      sbHead, sbTail, sbCount := 0, 0, 0;
    }

    // -------------------------------------------------------------- bookkeeping

    /** Takes the first free slot; fails only when there is none. */
    method Allocate(id: nat, robId: int, isLoad: bool, size: MemSize, isUnsigned: bool) returns (ok: bool)
      requires Valid() && id !in Contents()
      modifies queue
      ensures Valid() && Pending() == old(Pending())
      ensures ok <==> exists i :: 0 <= i < capacity && !old(queue[i]).valid
      ensures Contents()
                == if ok then old(Contents())[id := FreshOp(isLoad, robId, size, isUnsigned)] else old(Contents())
    {
      var i := 0;
      while i < capacity
        invariant 0 <= i <= capacity && queue[..] == old(queue[..])
        invariant forall j :: 0 <= j < i ==> queue[j].valid
      {
        if !queue[i].valid {
          ghost var was := queue[..];
          Filled(was, i, id, FreshOp(isLoad, robId, size, isUnsigned));
          queue[i] := Slot(true, id, FreshOp(isLoad, robId, size, isUnsigned));
          assert queue[..] == was[i := queue[i]];
          return true;
        }
        i := i + 1;
      }
      return false;
    }

    method HasSpace() returns (ok: bool)
      requires Valid()
      ensures ok <==> exists i :: 0 <= i < capacity && !queue[i].valid
    {
      var i := 0;
      while i < capacity
        invariant 0 <= i <= capacity && forall j :: 0 <= j < i ==> queue[j].valid
      {
        if !queue[i].valid { return true; }
        i := i + 1;
      }
      return false;
    }

    /** Nothing queued, and nothing on its way to memory. */
    method IsDrained() returns (drained: bool)
      requires Valid()
      ensures drained <==> Contents() == map[] && Pending() == []
    {
      var i := 0;
      while i < capacity
        invariant 0 <= i <= capacity && forall j :: 0 <= j < i ==> !queue[j].valid
      {
        if queue[i].valid {
          InTable(queue[..], i, queue[i].id);
          return false;
        }
        i := i + 1;
      }
      drained := sbCount == 0;
    }

    /** The slot of an instruction, or the capacity. */
    method Find(id: nat) returns (i: nat)
      requires Valid()
      ensures i <= capacity && (i < capacity ==> Holds(queue[..], i, id))
      ensures i < capacity <==> id in Contents()
    {
      i := 0;
      while i < capacity
        invariant i <= capacity
        invariant forall j :: 0 <= j < i ==> !Holds(queue[..], j, id)
      {
        if queue[i].valid && queue[i].id == id {
          InTable(queue[..], i, id);
          return;
        }
        i := i + 1;
      }
      NotInTable(queue[..], id);
    }

    method SetAddress(id: nat, addr: Word)
      requires Valid()
      modifies queue
      ensures Valid() && Pending() == old(Pending())
      ensures Contents() == if id in old(Contents())
                            then old(Contents())[id := old(Contents())[id].(address := addr, addrReady := true)]
                            else old(Contents())
    {
      var i := Find(id);
      if i < capacity {
        ghost var was := queue[..];
        InTable(was, i, id);
        Changed(was, i, was[i].body.(address := addr, addrReady := true));
        queue[i] := queue[i].(body := queue[i].body.(address := addr, addrReady := true));
        assert queue[..] == was[i := queue[i]];
      }
    }

    /** Only a store takes data. */
    method SetStoreData(id: nat, data: Word)
      requires Valid()
      modifies queue
      ensures Valid() && Pending() == old(Pending())
      ensures Contents() == if id in old(Contents()) && !old(Contents())[id].isLoad
                            then old(Contents())[id := old(Contents())[id].(data := data, dataReady := true)]
                            else old(Contents())
    {
      var i := Find(id);
      if i < capacity {
        ghost var was := queue[..];
        InTable(was, i, id);
        if !queue[i].body.isLoad {
          Changed(was, i, was[i].body.(data := data, dataReady := true));
          queue[i] := queue[i].(body := queue[i].body.(data := data, dataReady := true));
          assert queue[..] == was[i := queue[i]];
        }
      }
    }

    /** A broadcast load has nothing more to do. */
    method ReleaseSlot(i: nat)
      requires Valid() && i < capacity
      modifies queue
      ensures Valid() && Pending() == old(Pending())
      ensures var e := old(queue[i]);
              Contents() == if e.valid && e.body.isLoad
                            then old(Contents())[e.id := e.body.(executed := true,
                                accessing := false)] else old(Contents())
      ensures var e := old(queue[i]);
              queue[..] == if e.valid && e.body.isLoad
                           then old(queue[..])[i := e.(body := e.body.(executed := true, accessing := false))]
                           else old(queue[..])
    {
      if !queue[i].valid || !queue[i].body.isLoad { return; }
      ghost var was := queue[..];
      Changed(was, i, was[i].body.(executed := true, accessing := false));
      queue[i] := queue[i].(body := queue[i].body.(executed := true, accessing := false));
      assert queue[..] == was[i := queue[i]];
    }

    method Free(id: nat)
      requires Valid()
      modifies queue
      ensures Valid() && Pending() == old(Pending()) && Contents() == old(Contents()) - {id}
    {
      var i := Find(id);
      if i < capacity {
        ghost var was := queue[..];
        Freed(was, i);
        queue[i] := queue[i].(valid := false);
        assert queue[..] == was[i := queue[i]];
      }
    }

    /** Recovery frees the squashed instructions' slots; the store buffer is not touched. */
    method SquashInstIds(ids: seq<nat>)
      requires Valid()
      modifies queue
      ensures Valid() && Pending() == old(Pending()) && Contents() == old(Contents()) - (set id | id in ids)
    {
      var k := 0;
      while k < |ids|
        invariant 0 <= k <= |ids| && Valid() && Pending() == old(Pending())
        invariant Contents() == old(Contents()) - (set id | id in ids[..k])
      {
        Free(ids[k]);
        assert ids[..k + 1] == ids[..k] + [ids[k]];
        k := k + 1;
      }
      assert ids[..k] == ids;
    }

    // -------------------------------------------------------------- dispatching a load

    /** Takes from one older store the bytes nobody younger has supplied. */
    method TakeBytes(e: LsqEntry, ld: Want, word: Lanes, mask: Mask, ages: seq<nat>)
      returns (word': Lanes, mask': Mask, ages': seq<nat>)
      requires OlderStore(e, ld.id) && Known(e.body) && |ages| == 4
      ensures |ages'| == 4 && Taken(byteAddressed, e, ld, word, mask, ages, word', mask', ages')
    {
      hide StoreLanes, AccessMask;
      word', mask', ages' := word, mask, ages;
      if !SameWord(byteAddressed, e.body.address, ld.address) { return; }
      var overlap := MaskAnd(AccessMask(byteAddressed, e.body.size, e.body.address), ld.mask);
      var data := StoreLanes(byteAddressed, e.body.data, e.body.size, e.body.address);
      var b := 0;
      while b < 4
        invariant 0 <= b <= 4 && |ages'| == 4
        invariant forall c :: b <= c < 4 ==> mask'[c] == mask[c] && ages'[c] == ages[c] && word'[c] == word[c]
        invariant forall c :: 0 <= c < b ==>
          if overlap[c] && (!mask[c] || e.id > ages[c]) then mask'[c] && ages'[c] == e.id && word'[c] == data[c]
          else mask'[c] == mask[c] && ages'[c] == ages[c] && word'[c] == word[c]
      {
        if overlap[b] && (!mask'[b] || e.id > ages'[b]) {
          word' := word'[b := data[b]];
          ages' := ages'[b := e.id];
          mask' := mask'[b := true];
        }
        b := b + 1;
      }
    }

    /** The search of the queue: is an older store unknown, and what do the known ones supply? */
    method ScanStores(ld: Want) returns (blocked: bool, cover: Cover)
      requires Valid()
      ensures blocked <==> exists j :: 0 <= j < capacity && OlderStore(queue[j], ld.id) && !Known(queue[j].body)
      ensures !blocked ==> cover == QueueCover(byteAddressed, queue[..], capacity, ld)
    {
      hide Gathered, QueueCover, Taken, DistinctIds, InOrder;
      blocked := false;
      var word, mask, ages := ZERO_LANES, NO_LANES, [0, 0, 0, 0];
      var j := 0;
      ghost var q := queue[..];
      NothingGathered(byteAddressed, q, ld);
      while j < capacity
        invariant 0 <= j <= capacity && |ages| == 4 && q == queue[..]
        invariant blocked <==> exists i :: 0 <= i < j && OlderStore(queue[i], ld.id) && !Known(queue[i].body)
        invariant Gathered(byteAddressed, q, j, ld, word, mask, ages)
      {
        if OlderStore(queue[j], ld.id) && queue[j].body.addrReady && queue[j].body.dataReady {
          ghost var w0, m0, a0 := word, mask, ages;
          word, mask, ages := TakeBytes(queue[j], ld, word, mask, ages);
          GatherOne(byteAddressed, q, j, ld, w0, m0, a0, word, mask, ages);
        } else {
          if OlderStore(queue[j], ld.id) { blocked := true; }
          GatherNone(byteAddressed, q, j, ld, word, mask, ages);
        }
        j := j + 1;
      }
      cover := Cover(word, mask);
      GatheredIsCover(byteAddressed, q, ld, word, mask, ages);
    }

    /** The search of the store buffer, oldest first, for the bytes the queue did not supply. */
    method ScanBuffer(ld: Want, top: Cover) returns (cover: Cover)
      requires Valid() && forall b :: 0 <= b < 4 && !top.mask[b] ==> top.word[b] == 0
      ensures cover == Overlaid(top, Forward(byteAddressed, Pending(), WordIndex(byteAddressed, ld.address), ld.mask))
    {
      hide RingNext, RingAt, WordIndex, Forward, Overlaid, SameWord;
      cover := top;
      ghost var list := Pending();
      ghost var w := WordIndex(byteAddressed, ld.address);
      OverNothing(top);
      ForwardNone(byteAddressed, w, ld.mask);
      assert list[..0] == [];
      var s := 0;
      while s < sbCount
        invariant 0 <= s <= sbCount
        invariant cover == Overlaid(top, Forward(byteAddressed, list[..s], w, ld.mask))
      {
        var e := sb[RingAt(sbHead, sbCapacity, s)].entry;
        SameWordIsIndex(byteAddressed, e.addr, ld.address);
        assert list[..s + 1][..s] == list[..s] && list[s] == e;
        OneOnTop(byteAddressed, list[..s + 1], w, ld.mask);
        if SameWord(byteAddressed, e.addr, ld.address) {
          ghost var below := Forward(byteAddressed, list[..s], w, ld.mask);
          cover := FillBytes(e, ld.mask, top.mask, cover);
          FilledIs(byteAddressed, top, below, e, w, ld.mask, cover);
        }
        s := s + 1;
      }
      assert list[..s] == list;
    }

    method FillBytes(e: SbEntry, want: Mask, taken: Mask, cover: Cover) returns (cover': Cover)
      ensures forall b :: 0 <= b < 4 ==>
        if e.mask[b] && want[b] && !taken[b] then cover'.mask[b] && cover'.word[b] == e.data[b]
        else cover'.mask[b] == cover.mask[b] && cover'.word[b] == cover.word[b]
    {
      cover' := cover;
      var b := 0;
      while b < 4
        invariant 0 <= b <= 4
        invariant forall c :: b <= c < 4 ==> cover'.mask[c] == cover.mask[c] && cover'.word[c] == cover.word[c]
        invariant forall c :: 0 <= c < b ==>
          if e.mask[c] && want[c] && !taken[c] then cover'.mask[c] && cover'.word[c] == e.data[c]
          else cover'.mask[c] == cover.mask[c] && cover'.word[c] == cover.word[c]
      {
        if e.mask[b] && want[b] && !taken[b] {
          cover' := Cover(cover'.word[b := e.data[b]], cover'.mask[b := true]);
        }
        b := b + 1;
      }
    }

    /** May the load in slot `i` be dispatched? Every older store must be known, and without forwarding none may
      * be to the same word. */
    ghost predicate MayDispatch(i: nat)
      reads this, queue
      requires queue.Length == capacity && i < capacity
    {
      var m := queue[i].body;
      && m.addrReady && !m.accessing && !m.executed
      && (forall j :: 0 <= j < capacity && OlderStore(queue[j], queue[i].id) ==> Known(queue[j].body))
      && (!storeForwarding ==> forall j :: 0 <= j < capacity && OlderStore(queue[j], queue[i].id) ==>
            !SameWord(byteAddressed, queue[j].body.address, m.address))
    }

    /** Dispatches a load: it starts from the bytes of the youngest older stores laid over the store buffer. */
    method DispatchLoad(id: nat) returns (ok: bool)
      requires Valid()
      modifies queue
      ensures Valid() && Pending() == old(Pending())
      ensures ok <==> exists i :: 0 <= i < capacity && Holds(old(queue[..]), i, id) && old(MayDispatch(i))
      ensures !ok ==> queue[..] == old(queue[..])
      ensures ok ==>
        && id in old(Contents())
        && Contents() == old(Contents())[id := Started(id, old(Contents())[id], old(queue[..]), old(Pending()))]
    {
      hide MayDispatch, Started, Table, DistinctIds, InOrder;
      var i := Find(id);
      if i == capacity {
        forall k | 0 <= k < capacity && Holds(queue[..], k, id) ensures false {
          InTable(queue[..], k, id);
        }
        return false;
      }
      InTable(queue[..], i, id);
      OnlySlot(queue[..], i, id);
      ok := DispatchSlot(i);
    }

    /** The load's entry once dispatched. */
    function Started(id: nat, m: MemOp, q: seq<LsqEntry>, pending: seq<SbEntry>): MemOp {
      var ld := Want(id, m.address, AccessMask(byteAddressed, m.size, m.address));
      Dispatched(byteAddressed, m,
                 Overlaid(QueueCover(byteAddressed, q, |q|, ld),
                          Forward(byteAddressed, pending, WordIndex(byteAddressed, m.address), ld.mask)), fwdLatency,
                              memLatency)
    }

    /** What the load in slot `i` may take, if it may start. */
    method FindCover(i: nat) returns (ok: bool, cover: Cover)
      requires Valid() && i < capacity
      ensures ok <==> MayDispatch(i)
      ensures ok ==> var m := queue[i].body;
                     Dispatched(byteAddressed, m, cover, fwdLatency, memLatency) == Started(queue[i].id, m, queue[..],
                         Pending())
    {
      hide StoreLanes, AccessMask, WordIndex, LoadExtend, Dispatched, Forward, Overlaid, SameWord, Known, Table,
           DistinctIds, InOrder;
      var id, m := queue[i].id, queue[i].body;
      ok, cover := false, Cover(ZERO_LANES, NO_LANES);
      if !m.addrReady || m.accessing || m.executed { return; }
      var ld := Want(id, m.address, AccessMask(byteAddressed, m.size, m.address));
      var blocked;
      blocked, cover := ScanStores(ld);
      if blocked { return; }
      if !storeForwarding {
        var clash := HasSameWord(ld);
        if clash { return; }
      }
      cover := ScanBuffer(ld, cover);
      ok := true;
    }

    method DispatchSlot(i: nat) returns (ok: bool)
      requires Valid() && i < capacity && queue[i].valid
      modifies queue
      ensures Valid() && Pending() == old(Pending()) && (ok <==> old(MayDispatch(i)))
      ensures !ok ==> queue[..] == old(queue[..])
      ensures ok ==> Contents() == old(Contents())[old(queue[i].id) :=
                       Started(old(queue[i].id), old(queue[i].body), old(queue[..]), old(Pending()))]
    {
      hide MayDispatch, Started, Dispatched, Table, DistinctIds, InOrder;
      var cover;
      ok, cover := FindCover(i);
      if ok {
        ghost var was := queue[..];
        var m := Dispatched(byteAddressed, queue[i].body, cover, fwdLatency, memLatency);
        Changed(was, i, m);
        queue[i] := queue[i].(body := m);
        assert queue[..] == was[i := queue[i]];
      }
    }

    // -------------------------------------------------------------- stores leaving for memory

    /** Moves permitted stores to the buffer, in the order permitted, until one cannot go. */
    method EnqueueStores(tags: seq<int>) returns (completed: seq<int>)
      requires Valid()
      modifies this`sbTail, this`sbCount, queue, sb
      ensures Valid()
      ensures var room := if maxMemPorts < sbCapacity - old(sbCount) then maxMemPorts else sbCapacity - old(sbCount);
              var h := HandOver(byteAddressed, old(queue[..]), tags, room);
              && queue[..] == h.queue && Pending() == old(Pending()) + h.entries && completed == tags[..|h.entries|]
    {
      hide HandedEntry, HandOver, CanHandOver, WithoutStore, DistinctIds, InOrder, MovedSoFar, Buffered, Ring;
      completed := [];
      ghost var room: nat := if maxMemPorts < sbCapacity - sbCount then maxMemPorts else sbCapacity - sbCount;
      ghost var q0, moved: seq<SbEntry> := queue[..], [];
      var k := 0;
      NothingMoved(byteAddressed, q0, tags, room);
      while k < |tags|
        invariant 0 <= k <= |tags| && k <= room && Valid() && sbCount == old(sbCount) + k
        invariant completed == tags[..k] && MovedSoFar(byteAddressed, q0, tags, room, k, queue[..], moved)
        invariant Pending() == old(Pending()) + moved
      {
        if k >= maxMemPorts || sbCount >= sbCapacity { break; }
        ghost var q := queue[..];
        var ok := EnqueueOne(tags[k]);
        if !ok { break; }
        MoveOneMore(byteAddressed, q0, tags, room, k, q, moved);
        Regroup(old(Pending()), moved, HandedEntry(byteAddressed, q, tags[k]));
        moved := moved + [HandedEntry(byteAddressed, q, tags[k])];
        completed := completed + [tags[k]];
        k := k + 1;
      }
      MovedAll(byteAddressed, q0, tags, room, k, queue[..], moved);
    }

    method EnqueueOne(tag: int) returns (ok: bool)
      requires Valid() && sbCount < sbCapacity
      modifies this`sbTail, this`sbCount, queue, sb
      ensures Valid() && (ok <==> CanHandOver(old(queue[..]), tag))
      ensures !ok ==> queue[..] == old(queue[..]) && sbCount == old(sbCount) && Pending() == old(Pending())
      ensures ok ==> queue[..] == WithoutStore(old(queue[..]), tag) && sbCount == old(sbCount) + 1
      ensures ok ==> Pending() == old(Pending()) + [HandedEntry(byteAddressed, old(queue[..]), tag)]
    {
      hide EntryOf;
      var i := FindStore(tag);
      if i == capacity || !queue[i].body.addrReady || !queue[i].body.dataReady { return false; }
      HandOne(i);
      return true;
    }

    method FindStore(tag: int) returns (i: nat)
      requires Valid()
      ensures i == StoreSlot(queue[..], tag, 0)
    {
      i := 0;
      while i < capacity
        invariant 0 <= i <= capacity && StoreSlot(queue[..], tag, 0) == StoreSlot(queue[..], tag, i)
      {
        if queue[i].valid && !queue[i].body.isLoad && queue[i].body.robId == tag { return; }
        i := i + 1;
      }
    }

    /** One store moves from its slot to the end of the buffer. */
    method HandOne(i: nat)
      requires Valid() && i < capacity && queue[i].valid && sbCount < sbCapacity
      modifies this`sbTail, this`sbCount, queue, sb
      ensures Valid() && sbCount == old(sbCount) + 1
      ensures queue[..] == old(queue[..])[i := old(queue[i]).(valid := false)]
      ensures Pending() == old(Pending()) + [EntryOf(byteAddressed, old(queue[i].body))]
    {
      hide StoreLanes, AccessMask, RingNext;
      ghost var ring, was := Slots(), queue[..];
      var slot := SbSlot(true, false, EntryOf(byteAddressed, queue[i].body), 0);
      RingGrow(sb[..], sbHead, sbCount, slot);
      ghost var slots := sb[..];
      sb[sbTail] := slot;
      assert sb[..] == slots[sbTail := slot];
      sbTail := RingNext(sbTail, sbCapacity);
      sbCount := sbCount + 1;
      assert Slots() == ring + [slot];
      Freed(was, i);
      queue[i] := queue[i].(valid := false);
      assert queue[..] == was[i := was[i].(valid := false)];
    }

    // -------------------------------------------------------------- one cycle of the ideal memory

    /** Loads: count down, and read memory when the count ends. */
    method TickLoads()
      requires Valid()
      modifies queue
      ensures Valid() && Pending() == old(Pending())
      ensures Contents() == map id | id in old(Contents()) :: Ticked(byteAddressed, old(Contents())[id], mainMemory[..])
      ensures queue[..] == TickedSlots(byteAddressed, old(queue[..]), mainMemory[..])
    {
      hide Ticked, Table, DistinctIds, InOrder;
      ghost var main, was := mainMemory[..], queue[..];
      var i := 0;
      while i < capacity
        invariant 0 <= i <= capacity && mainMemory[..] == main && queue.Length == capacity == |was|
        invariant forall j :: i <= j < capacity ==> queue[j] == was[j]
        invariant forall j :: 0 <= j < i ==> queue[j] == TickedSlot(byteAddressed, was[j], main)
      {
        TickSlot(i);
        i := i + 1;
      }
      Mapped(was, queue[..], m => Ticked(byteAddressed, m, main));
    }

    method TickSlot(i: nat)
      requires i < queue.Length && mainMemory.Length == MEMORY_WORDS
      modifies queue
      ensures queue[..] == old(queue[..])[i := TickedSlot(byteAddressed, old(queue[i]), mainMemory[..])]
    {
      hide LoadExtend, WordIndex, Merge;
      var m := queue[i].body;
      if queue[i].valid && m.isLoad && m.accessing {
        if m.cycles > 0 { m := m.(cycles := m.cycles - 1); }
        if m.cycles == 0 && m.needsFill && !m.executed {
          var idx := WordIndex(byteAddressed, m.address);
          var word := if 0 <= idx < mainMemory.Length then mainMemory[idx] else ZERO_LANES;
          if m.partialEn { word := Merge(word, m.partialWord, m.partialMask); }
          m := m.(buffer := LoadExtend(byteAddressed, word, m.size, m.isUnsigned, m.address),
                  needsFill := false, partialEn := false);
        }
        queue[i] := queue[i].(body := m);
      }
    }

    /** As many of the oldest waiting stores as there are ports start their way to memory. */
    method IssueStores()
      requires Valid()
      modifies sb
      ensures Valid() && Pending() == old(Pending()) && Slots() == Sent(old(Slots()), maxMemPorts, memLatency)
    {
      hide RingAt, InOrder, Buffered;
      ghost var ring := Slots();
      ghost var first := OnTheWay(ring);
      var lane, s := 0, 0;
      while s < sbCount && lane < maxMemPorts
        invariant 0 <= s <= sbCount == |ring| && Shape() && 0 <= lane <= maxMemPorts
        invariant lane == if s < first then 0 else s - first
        invariant forall i :: 0 <= i < s ==>
                    Slots()[i] == if i < first then ring[i] else ring[i].(issued := true, cycles := memLatency)
        invariant forall i :: s <= i < sbCount ==> Slots()[i] == ring[i]
      {
        var at := RingAt(sbHead, sbCapacity, s);
        assert sb[at] == Slots()[s];
        SentInOrder(ring, memLatency, s);
        if !sb[at].issued {
          ghost var slots := sb[..];
          RingPut(slots, sbHead, sbCount, s, sb[at].(issued := true, cycles := memLatency));
          sb[at] := sb[at].(issued := true, cycles := memLatency);
          assert sb[..] == slots[at := sb[at]];
          lane := lane + 1;
        }
        s := s + 1;
      }
      SentTo(ring, Slots(), maxMemPorts, memLatency, s);
      SentStillInOrder(ring, maxMemPorts, memLatency);
    }

    /** Stores whose countdown ends are written, head to tail; they are always the oldest ones. */
    method CompleteStores() returns (drained: nat)
      requires Valid()
      modifies sb, mainMemory
      ensures Shape() && CompletedUpTo(old(Slots()), Slots(), drained, sbCount)
      ensures mainMemory[..] == Written(byteAddressed, old(mainMemory[..]), old(Pending())[..drained])
    {
      hide RingAt, WordIndex, Due, Counted, InOrder, CompletedUpTo, DistinctIds;
      ghost var ring, list := Slots(), Pending();
      drained := 0;
      var s := 0;
      assert list[..0] == [];
      NothingCompleted(ring);
      while s < sbCount
        invariant 0 <= drained <= s <= sbCount == |ring| && Shape() && CompletedUpTo(ring, Slots(), drained, s)
        invariant mainMemory[..] == Written(byteAddressed, old(mainMemory[..]), list[..drained])
      {
        CompleteOneMore(ring, Slots(), drained, s, memLatency);
        SlotStays(ring, Slots(), drained, s);
        var done := CompleteSlot(s);
        if done {
          assert list[..s + 1][..s] == list[..s];
          drained := drained + 1;
        }
        s := s + 1;
      }
    }

    /** Counts down the slot `s` places from the head, and writes and clears it when it is due. */
    method CompleteSlot(s: nat) returns (done: bool)
      requires Shape() && s < sbCount
      modifies sb, mainMemory
      ensures Shape() && (done <==> Due(old(Slots())[s]))
      ensures Slots() == old(Slots())[s := if done then EMPTY_SLOT else Counted(old(Slots())[s])]
      ensures var e := old(Slots())[s].entry;
              mainMemory[..] == if done then MainWrite(old(mainMemory[..]), WordIndex(byteAddressed, e.addr), e.data,
                  e.mask)
                                else old(mainMemory[..])
    {
      hide RingAt, WordIndex;
      done := false;
      var at := RingAt(sbHead, sbCapacity, s);
      if sb[at].issued {
        ghost var slots := sb[..];
        var slot := sb[at];
        if slot.cycles > 0 { slot := slot.(cycles := slot.cycles - 1); }
        if slot.cycles == 0 {
          WriteMasked(slot.entry);
          slot, done := EMPTY_SLOT, true;
        }
        RingPut(slots, sbHead, sbCount, s, slot);
        sb[at] := slot;
        assert sb[..] == slots[at := slot];
      }
    }

    /** Writes outside memory are dropped. */
    method WriteMasked(e: SbEntry)
      requires mainMemory.Length == MEMORY_WORDS
      modifies mainMemory
      ensures mainMemory[..] == MainWrite(old(mainMemory[..]), WordIndex(byteAddressed, e.addr), e.data, e.mask)
    {
      hide WordIndex;
      var idx := WordIndex(byteAddressed, e.addr);
      if 0 <= idx < mainMemory.Length {
        mainMemory[idx] := Merge(mainMemory[idx], e.data, e.mask);
      }
    }

    /** The completed slots at the head are given back. */
    method PopCompleted(ghost drained: nat)
      requires Shape() && drained <= sbCount
      requires forall i :: 0 <= i < sbCount ==> (Slots()[i].valid <==> i >= drained)
      modifies this`sbHead, this`sbCount
      ensures Shape() && Slots() == old(Slots())[drained..]
    {
      hide RingNext;
      ghost var ring := Slots();
      var k := 0;
      assert ring[0..] == ring;
      while k < sbCapacity
        invariant 0 <= k <= drained && Shape() && sbCount == |ring| - k && Slots() == ring[k..]
      {
        if sbCount == 0 { break; }
        assert Slots()[0] == ring[k..][0] == ring[k];
        if sb[sbHead].valid { break; }
        RingDrop(sb[..], sbHead, sbCount);
        assert ring[k..][1..] == ring[k + 1..];
        sbHead := RingNext(sbHead, sbCapacity);
        sbCount := sbCount - 1;
        k := k + 1;
      }
      assert k == drained;
    }

    /** Store-buffer traffic of one cycle: the stores due, always the oldest, reach memory in order and leave the
      * buffer, and the others on their way count down. */
    method TickStores() returns (drained: nat)
      requires Valid()
      modifies this`sbHead, this`sbCount, sb, mainMemory
      ensures Valid() && queue[..] == old(queue[..])
      ensures var ring := Sent(old(Slots()), maxMemPorts, memLatency);
              drained == DueNow(ring) && Slots() == CountedDown(ring[drained..])
      ensures drained <= |old(Pending())| && Pending() == old(Pending())[drained..]
      ensures mainMemory[..] == Written(byteAddressed, old(mainMemory[..]), old(Pending())[..drained])
    {
      hide RingNext, InOrder, CompletedUpTo, DistinctIds, Written, Buffered;
      IssueStores();
      ghost var ring := Slots();
      drained := CompleteStores();
      AllCompleted(ring, Slots(), drained, memLatency);
      DueAre(ring, Slots(), drained);
      PopCompleted(drained);
    }

    /** One cycle of the queue: loads read memory before this cycle's stores are written. */
    method Tick() returns (drained: nat)
      requires Valid()
      modifies this`sbHead, this`sbCount, queue, sb, mainMemory
      ensures Valid()
      ensures var ring := Sent(old(Slots()), maxMemPorts, memLatency);
              drained == DueNow(ring) && Slots() == CountedDown(ring[drained..])
      ensures Contents()
                == map id | id in old(Contents()) :: Ticked(byteAddressed, old(Contents())[id], old(mainMemory[..]))
      ensures queue[..] == TickedSlots(byteAddressed, old(queue[..]), old(mainMemory[..]))
      ensures drained <= |old(Pending())| && Pending() == old(Pending())[drained..]
      ensures mainMemory[..] == Written(byteAddressed, old(mainMemory[..]), old(Pending())[..drained])
    {
      TickLoads();
      drained := TickStores();
    }

    /** The extra check without forwarding: is an older store to the same word still in the queue? */
    method HasSameWord(ld: Want) returns (clash: bool)
      requires Valid()
      requires forall j :: 0 <= j < capacity && OlderStore(queue[j], ld.id) ==> Known(queue[j].body)
      ensures clash <==> exists j :: 0 <= j < capacity && OlderStore(queue[j], ld.id)
                                     && SameWord(byteAddressed, queue[j].body.address, ld.address)
    {
      clash := false;
      var j := 0;
      while j < capacity
        invariant 0 <= j <= capacity
        invariant forall i :: 0 <= i < j ==>
          !(OlderStore(queue[i], ld.id) && SameWord(byteAddressed, queue[i].body.address, ld.address))
      {
        if OlderStore(queue[j], ld.id) && (!queue[j].body.addrReady || SameWord(byteAddressed, queue[j].body.address,
            ld.address)) {
          return true;
        }
        j := j + 1;
      }
    }
  }

  /** What completing the first `s` slots of `ring` leaves: free slots first, `d` of them, the others counted down. */
  ghost predicate CompletedUpTo(ring: seq<SbSlot>, now: seq<SbSlot>, d: nat, s: nat) {
    && d <= s <= |ring| == |now|
    && (forall i :: 0 <= i < d ==> now[i] == EMPTY_SLOT && Due(ring[i]))
    && (forall i :: d <= i < s ==> now[i] == Counted(ring[i]) && !Due(ring[i]))
    && (forall i :: s <= i < |ring| ==> now[i] == ring[i])
  }

  lemma {:induction false} SentTo(ring: seq<SbSlot>, now: seq<SbSlot>, ports: nat, memLatency: nat, s: nat)
    requires s <= |ring| == |now|
    requires var lane := if s < OnTheWay(ring) then 0 else s - OnTheWay(ring);
             lane <= ports && (s == |ring| || lane == ports)
    requires forall i :: 0 <= i < s ==>
               now[i] == if i < OnTheWay(ring) then ring[i] else ring[i].(issued := true, cycles := memLatency)
    requires forall i :: s <= i < |ring| ==> now[i] == ring[i]
    ensures now == Sent(ring, ports, memLatency) && Buffered(now) == Buffered(ring)
  {
  }

  lemma {:induction false} DueAre(ring: seq<SbSlot>, now: seq<SbSlot>, d: nat)
    requires CompletedUpTo(ring, now, d, |ring|)
    ensures d == DueNow(ring) && d <= |now| && now[d..] == CountedDown(ring[d..])
  {
    hide Due, Counted;
    var n := DueNow(ring);
    assert d < |ring| ==> !Due(ring[d]);
    assert n < |ring| ==> !Due(ring[n]);
  }

  lemma {:induction false} NothingCompleted(ring: seq<SbSlot>)
    ensures CompletedUpTo(ring, ring, 0, 0)
  {
  }

  lemma {:induction false} SlotStays(ring: seq<SbSlot>, now: seq<SbSlot>, d: nat, s: nat)
    requires CompletedUpTo(ring, now, d, s) && s < |ring|
    ensures d <= s < |now| && now[s] == ring[s]
  {
  }

  lemma {:induction false} AllCompleted(ring: seq<SbSlot>, now: seq<SbSlot>, d: nat, memLatency: nat)
    requires CompletedUpTo(ring, now, d, |ring|) && InOrder(ring, memLatency)
    ensures d <= |now| == |ring| && InOrder(now[d..], memLatency) && Buffered(now[d..]) == Buffered(ring)[d..]
    ensures forall i :: 0 <= i < |now| ==> (now[i].valid <==> i >= d)
  {
    StillInOrder(ring, now[d..], d, memLatency);
  }

  lemma {:induction false} CompleteOneMore(ring: seq<SbSlot>, now: seq<SbSlot>, d: nat, s: nat, memLatency: nat)
    requires CompletedUpTo(ring, now, d, s) && s < |ring| && InOrder(ring, memLatency)
    ensures Due(ring[s]) ==> d == s && CompletedUpTo(ring, now[s := EMPTY_SLOT], d + 1, s + 1)
    ensures !Due(ring[s]) ==> CompletedUpTo(ring, now[s := Counted(ring[s])], d, s + 1)
  {
    hide Due, Counted, InOrder;
    if Due(ring[s]) { OldestDue(ring, memLatency, d, s); }
  }

  /** The first slot found due is the oldest one left. */
  lemma {:induction false} OldestDue(ring: seq<SbSlot>, memLatency: nat, d: nat, s: nat)
    requires InOrder(ring, memLatency) && d <= s < |ring| && Due(ring[s])
    requires forall i :: d <= i < s ==> !Due(ring[i])
    ensures d == s
  {
    if d < s {
      NotDueYet(ring, memLatency, d, s);
    }
  }

  lemma {:induction false} NotDueYet(ring: seq<SbSlot>, memLatency: nat, d: nat, s: nat)
    requires InOrder(ring, memLatency) && d < s < |ring| && !Due(ring[d])
    ensures !Due(ring[s])
  {
    assert ring[s].issued ==> ring[d].issued && ring[d].cycles <= ring[s].cycles;
  }

  /** What is left after the oldest due stores have gone is still in order. */
  lemma {:induction false} StillInOrder(was: seq<SbSlot>, now: seq<SbSlot>, d: nat, memLatency: nat)
    requires InOrder(was, memLatency) && d <= |was| && |now| == |was| - d
    requires forall i :: 0 <= i < |now| ==> now[i] == Counted(was[d + i]) && !Due(was[d + i])
    ensures InOrder(now, memLatency) && Buffered(now) == Buffered(was)[d..]
  {
  }

  /** Filling in the bytes nobody younger has supplied is laying the rest over one more buffered store. */
  lemma {:induction false} FilledIs(ba: bool, top: Cover, below: Cover, e: SbEntry, w: int, want: Mask, cover: Cover)
    requires WordIndex(ba, e.addr) == w
    requires forall b :: 0 <= b < 4 ==>
      if e.mask[b] && want[b] && !top.mask[b] then cover.mask[b] && cover.word[b] == e.data[b]
      else cover.mask[b] == Overlaid(top, below).mask[b] && cover.word[b] == Overlaid(top, below).word[b]
    ensures cover == Overlaid(top, OnTop(ba, below, e, w, want))
  {
    hide WordIndex;
    SameCover(cover, Overlaid(top, OnTop(ba, below, e, w, want)));
  }

  lemma {:induction false} OnlySlot(q: seq<LsqEntry>, i: nat, id: nat)
    requires DistinctIds(q) && Holds(q, i, id)
    ensures forall k :: 0 <= k < |q| && Holds(q, k, id) ==> k == i
  {
  }

  lemma {:induction false} ForwardNone(ba: bool, w: int, want: Mask)
    ensures Forward(ba, [], w, want) == Cover(ZERO_LANES, NO_LANES)
  {
  }

  lemma {:induction false} OverNothing(top: Cover)
    requires forall b :: 0 <= b < 4 && !top.mask[b] ==> top.word[b] == 0
    ensures Overlaid(top, Cover(ZERO_LANES, NO_LANES)) == top
  {
    SameCover(Overlaid(top, Cover(ZERO_LANES, NO_LANES)), top);
  }
}
