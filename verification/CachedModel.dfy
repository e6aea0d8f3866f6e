/** The core over the cached memory: its stores and loads go through the data cache, over one request port.
  *
  * `core` is the speculative machine; its main memory is what the cache stands for. The queue's own bookkeeping is kept
  * beside it: stores the cache has taken but not answered (`echoes`), which the queue still forwards from, and, by
  * instruction id, what a dispatched load has forwarded (`parts`), the request it has sent (`asked`) and the value it
  * offers (`ready`). `aim` and `lines` record, for the proofs, the word a load should see and the line a store went to.
  */
module CachedModel {
  import opened Words
  import opened Isa
  import opened Core
  import opened MemTypes
  import M = CacheModel
  import R = CacheRun

  /** A store the cache has taken; `id` counts stores in the order they are taken, `line` is the one it is to. */
  datatype Echo = Echo(id: nat, line: nat, entry: SbEntry)

  /** A dispatched load waiting for memory, with the bytes it has forwarded. */
  datatype Part = Part(addr: Word, size: MemSize, isUnsigned: bool, cover: Cover)

  datatype Linked = Linked(core: Core, mem: R.MemSys, took: nat, echoes: seq<Echo>,
                           parts: map<nat, Part>, asked: map<nat, Req>, ready: map<nat, Word>,
                           aim: map<nat, Lanes>, lines: map<nat, nat>)

  // ---------------------------------------------------------------- addresses

  /** The cache's byte address of a load or store. */
  function ToMemsys(byteAddressed: bool, addr: Word): nat {
    if byteAddressed then Unsigned(addr) else Unsigned(addr) * 4
  }

  function WordLine(w: nat, k: nat): nat
    requires w > 0
  {
    k / w
  }

  function WordOff(w: nat, k: nat): (o: nat)
    requires w > 0
    ensures o < w && WordLine(w, k) * w + o == k
  {
    k % w
  }

  /** A line and a place in it name one word. */
  lemma {:induction false} WordOf(w: nat, k: nat, j: nat)
    requires w > 0
    ensures WordLine(w, k) == WordLine(w, j) && WordOff(w, k) == WordOff(w, j) ==> k == j
  {
  }

  /** The cache looks a load or store up at the line and place of the core's word. */
  lemma {:induction false} SameAddress(w: nat, ba: bool, addr: Word)
    requires w > 0 && WordIndex(ba, addr) >= 0
    ensures LineNumber(4 * w, ToMemsys(ba, addr)) == WordLine(w, WordIndex(ba, addr))
    ensures WordInLine(4 * w, ToMemsys(ba, addr)) == WordOff(w, WordIndex(ba, addr))
  {
    var a := ToMemsys(ba, addr);
    assert a / 4 == WordIndex(ba, addr);
    AddressSplits(w, 4 * w, a);
    Split(w, a / 4, LineNumber(4 * w, a), WordInLine(4 * w, a));
  }

  lemma {:induction false} Split(w: nat, k: nat, line: nat, off: nat)
    requires w > 0 && k == line * w + off && off < w
    ensures line == k / w && off == k % w
  {
    var q := k / w;
    if q < line {
      Times(q + 1, line, w);
    } else if line < q {
      Times(line + 1, q, w);
    }
  }

  lemma {:induction false} Times(a: nat, b: nat, w: nat)
    requires a <= b
    ensures a * w <= b * w
  {
  }

  // ---------------------------------------------------------------- requests

  function StoreReq(c: Config, w: nat, e: SbEntry, id: nat): Req
    requires w > 0 && WordIndex(c.byteAddressed, e.addr) >= 0
  {
    var k := WordIndex(c.byteAddressed, e.addr);
    Req(true, WordLine(w, k), WordOff(w, k), e.data, e.mask, id, 0)
  }

  function LoadReq(c: Config, w: nat, p: Part, cookie: nat, slot: nat): Req
    requires w > 0 && WordIndex(c.byteAddressed, p.addr) >= 0
  {
    var k := WordIndex(c.byteAddressed, p.addr);
    Req(false, WordLine(w, k), WordOff(w, k), ZERO_LANES, NO_LANES, slot, cookie)
  }

  // ---------------------------------------------------------------- steps

  /** The core's own steps; a load's dispatch; requests into the cache; the cache's own steps; the port taking a
    * request; a reply reaching the queue; a ready load getting the bus. */
  datatype LinkStep =
    | CoreStep(step: Step) | Dispatch(i: nat) | SendStore | SendLoad(i: nat, slot: nat)
    | Inside(mem: R.MemStep) | TakeRequest | Answer | Offer(i: nat)

  function Entries(echoes: seq<Echo>): (list: seq<SbEntry>)
    ensures |list| == |echoes| && forall i :: 0 <= i < |echoes| ==> list[i] == echoes[i].entry
  {
    seq(|echoes|, i requires 0 <= i < |echoes| => echoes[i].entry)
  }

  predicate InFlightId(s: Core, id: nat) { exists i :: 0 <= i < |s.dy| && s.dy[i].id == id && !s.dy[i].done }

  /** What the queue holds of loads in flight; the entries of others are free. */
  function Kept<T>(s: Core, m: map<nat, T>): map<nat, T> { map id | id in m && InFlightId(s, id) :: m[id] }

  predicate OwnStep(e: Step) { !e.DoDrain? && !e.DoFillLoad? && !e.DoDispatchLoad? && !e.DoBroadcastLoad? }

  ghost predicate LinkEnabled(c: Config, cc: M.DConf, l: Linked, e: LinkStep)
    requires R.SysInv(cc, l.mem)
  {
    var s, m := l.core, l.mem;
    match e
    case CoreStep(x) => OwnStep(x) && Enabled(c, s, x)
    case Dispatch(i) => CanDispatchLoad(s, i)
    case SendStore =>
      && s.sb != [] && WordIndex(c.byteAddressed, s.sb[0].addr) >= 0
      && R.MemEnabled(cc, m, R.Accept(0, StoreReq(c, cc.w, s.sb[0], l.took)))
    case SendLoad(i, slot) =>
      && i < |s.dy| && !s.dy[i].done && s.dy[i].id in l.parts && s.dy[i].id !in l.asked
      && WordIndex(c.byteAddressed, l.parts[s.dy[i].id].addr) >= 0
      && R.MemEnabled(cc, m, R.Accept(0, LoadReq(c, cc.w, l.parts[s.dy[i].id], s.dy[i].id, slot)))
    case Inside(x) => s.phase == Writeback && R.MemEnabled(cc, m, x) && !x.Accept? && !x.Take? && !x.Port?
    case TakeRequest => s.phase == Writeback && R.MemEnabled(cc, m, R.Port(0))
    case Answer => s.phase == Writeback && R.MemEnabled(cc, m, R.Take)
    case Offer(i) =>
      && s.phase == Writeback && i < |s.st| == |s.dy| && !s.dy[i].done && s.dy[i].id in l.ready
      && s.dy[i].load != LoadIdle
  }

  /** A dispatched load forwards from stores the cache has not answered too, older than the buffered ones. */
  function Forwarded(c: Config, l: Linked, i: nat): Cover
    requires CanDispatchLoad(l.core, i)
  {
    var s := l.core;
    var d, ins := s.dy[i], s.st[i].instr;
    Forward(c.byteAddressed, Entries(l.echoes) + (s.sb + QueueStores(c, s.st, s.dy, i)),
            WordIndex(c.byteAddressed, d.addr), AccessMask(c.byteAddressed, ins.size, d.addr))
  }

  /** The word the load will have seen: memory now under what the machine forwards. */
  ghost function Aim(c: Config, s: Core, i: nat): Lanes
    requires CanDispatchLoad(s, i)
  {
    var d, ins := s.dy[i], s.st[i].instr;
    var w := WordIndex(c.byteAddressed, d.addr);
    var r := Forward(c.byteAddressed, s.sb + QueueStores(c, s.st, s.dy, i), w, AccessMask(c.byteAddressed, ins.size,
        d.addr));
    Merge(MainRead(s.main, w), r.word, r.mask)
  }

  function WithoutEcho(echoes: seq<Echo>, id: int): (r: seq<Echo>) {
    if echoes == [] then []
    else if echoes[0].id == id then echoes[1..]
    else [echoes[0]] + WithoutEcho(echoes[1..], id)
  }

  function Extended(c: Config, p: Part, word: Lanes): Word {
    LoadExtend(c.byteAddressed, Merge(word, p.cover.word, p.cover.mask), p.size, p.isUnsigned, p.addr)
  }

  /** A reply: a store's buffer slot is free; a load's value is ready, if the queue still holds the load that asked. */
  function Answered(c: Config, l: Linked, r: Resp): Linked {
    if r.isWrite then l.(echoes := WithoutEcho(l.echoes, r.id))
    else if r.cookie in l.parts && r.cookie in l.asked then
      l.(ready := l.ready[r.cookie := Extended(c, l.parts[r.cookie], r.data)], parts := l.parts - {r.cookie})
    else l
  }

  /** A granted load completes with the value the machine reads for it. */
  function Offered(c: Config, s: Core, i: nat): Core
    requires s.phase == Writeback && i < |s.st| == |s.dy| && !s.dy[i].done && s.dy[i].load != LoadIdle
  {
    BroadcastLoad(c, if s.dy[i].load.LoadWaiting? then FillLoad(c, s, i) else s, i)
  }

  /** The machine has moved on to `s'`: the queue keeps the loads still in flight. */
  function Moved(l: Linked, s': Core): Linked { l.(core := s', parts := Kept(s', l.parts), ready := Kept(s', l.ready)) }

  /** The oldest buffered store has been taken: memory has changed, and its buffer slot waits for the answer. */
  function TakenStore(c: Config, l: Linked, line: nat): Linked
    requires l.core.sb != []
  {
    l.(core := Drain(c, l.core), echoes := l.echoes + [Echo(l.took, line, l.core.sb[0])],
       took := l.took + 1, lines := l.lines[l.took := line])
  }

  ghost function Started(c: Config, l: Linked, i: nat): Linked
    requires CanDispatchLoad(l.core, i)
  {
    var s := l.core;
    var d, ins, r := s.dy[i], s.st[i].instr, Forwarded(c, l, i);
    var started := l.(core := DispatchLoad(c, s, i), aim := l.aim[d.id := Aim(c, s, i)]);
    if r.mask == AccessMask(c.byteAddressed, ins.size, d.addr)
    then started.(ready := l.ready[d.id := LoadExtend(c.byteAddressed, r.word, ins.size, ins.unsignedLoad, d.addr)])
    else started.(parts := l.parts[d.id := Part(d.addr, ins.size, ins.unsignedLoad, r)])
  }

  ghost function LinkApply(c: Config, cc: M.DConf, l: Linked, e: LinkStep): Linked
    requires R.SysInv(cc, l.mem) && LinkEnabled(c, cc, l, e)
  {
    var s := l.core;
    match e
    case CoreStep(x) => Moved(l, Apply(c, s, x))
    case Dispatch(i) => Started(c, l, i)
    case SendStore => l.(mem := R.MemApply(cc, l.mem, R.Accept(0, StoreReq(c, cc.w, s.sb[0], l.took))))
    case SendLoad(i, slot) =>
      var id := s.dy[i].id;
      var r := LoadReq(c, cc.w, l.parts[id], id, slot);
      l.(mem := R.MemApply(cc, l.mem, R.Accept(0, r)), asked := l.asked[id := r])
    case Inside(x) => l.(mem := R.MemApply(cc, l.mem, x))
    case TakeRequest =>
      var after := l.(mem := R.MemApply(cc, l.mem, R.Port(0)));
      if R.Takes(cc, l.mem, 0) && l.mem.d.pipe[0].req.write && s.sb != []
      then TakenStore(c, after, l.mem.d.pipe[0].req.line) else after
    case Answer => Answered(c, l.(mem := R.MemApply(cc, l.mem, R.Take)), l.mem.d.respQ[0])
    case Offer(i) => Moved(l, Offered(c, s, i))
  }
}
