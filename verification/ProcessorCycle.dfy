/** What each stage of a cycle does, as functions of the machine: how far it goes as well as what its steps are.
  *
  * Which results are out of their units, which get the bus, which units have room and what fetch predicts are
  * parameters of a cycle; everything else is determined.
  */
module ProcessorCycle {
  import opened Words
  import opened Isa
  import opened Core
  import opened CoreInv
  import opened CoreResolve
  import opened LoadStoreQueue
  import opened SlotTable
  import opened ProcessorMemory
  import opened ProcessorIssue

  /** What is left open about a cycle. */
  datatype Cycle = Cycle(outputs: set<int>, grants: seq<Grant>, room: set<nat>, guesses: seq<Guess>)

  datatype Grant = UnitGrant(tag: int) | LoadGrant(slot: nat)

  datatype Guess = Guess(taken: bool, target: Pc)

  /** The processor's widths, depths and latencies. */
  datatype Sizes = Sizes(width: nat, ports: nat, bufferDepth: nat, stations: nat, queueSlots: nat, memLatency: nat,
                         forwarding: bool)

  // ---------------------------------------------------------------- commit

  /** A branch that has been resolved against its prediction. */
  predicate WrongPath(s: Core, i: nat)
    requires i < |s.st| == |s.dy|
  {
    s.st[i].instr.IsControl() && s.dy[i].done && Mispredicted(s.st[i], s.dy[i].value != 0)
  }

  /** Places of the stores permitted to leave, from `lane` on: the walk passes over what is done and over waiting
    * stores, up to the width, and ends at a branch known to be wrong and at anything else. */
  function Permits(s: Core, width: nat, lane: nat): seq<nat>
    requires |s.st| == |s.dy|
    decreases if lane < width then width - lane else 0
  {
    if lane >= width || lane >= |s.st| then []
    else if s.dy[lane].done then if WrongPath(s, lane) then [] else Permits(s, width, lane + 1)
    else if s.st[lane].instr.IsStore() then [lane] + Permits(s, width, lane + 1)
    else []
  }

  /** Permitted stores enter the buffer in turn, until the room is used up or one is not ready. */
  function HandedOver(c: Config, s: Core, places: seq<nat>, room: nat): (t: Core)
    ensures t.phase == s.phase && (|s.st| == |s.dy| ==> |t.st| == |t.dy|)
    decreases |places|
  {
    if places == [] || room == 0 || !CanEnqueueStore(s, places[0]) then s
    else HandedOver(c, EnqueueStore(c, s, places[0]), places[1..], room - 1)
  }

  /** A cycle's stores enter the buffer through the memory ports, as far as the buffer has space. */
  function RoomLeft(z: Sizes, s: Core): nat {
    var space := if |s.sb| < z.bufferDepth then z.bufferDepth - |s.sb| else 0;
    if z.ports < space then z.ports else space
  }

  function StoresHanded(c: Config, z: Sizes, s: Core): (t: Core)
    requires |s.st| == |s.dy|
    ensures t.phase == s.phase && |t.st| == |t.dy|
  {
    HandedOver(c, s, Permits(s, z.width, 0), RoomLeft(z, s))
  }

  /** Up to `n` of the oldest instructions retire. */
  function Retired(c: Config, s: Core, n: nat): (t: Core)
    ensures t.phase == s.phase && (|s.st| == |s.dy| ==> |t.st| == |t.dy|)
    decreases n
  {
    if n == 0 || !CanCommit(s) then s else Retired(c, CommitHead(c, s), n - 1)
  }

  /** As many instructions retire as there are done ones at the head, up to `n`. */
  lemma {:induction false} RetiredCount(c: Config, s: Core, n: nat)
    requires s.phase == Commit && |s.st| == |s.dy|
    ensures Retired(c, s, n).commits == s.commits + if n < DonePrefix(s.dy) then n else DonePrefix(s.dy)
    ensures Retired(c, s, n).commits == s.commits + n || !CanCommit(Retired(c, s, n))
    decreases n
  {
    hide WriteReg, CommitCkpts, RatCommit, Tag;
    if n > 0 && CanCommit(s) {
      RetiredCount(c, CommitHead(c, s), n - 1);
    }
  }

  // ---------------------------------------------------------------- write-back

  /** The machine with the queue's slots and the store buffer, whose latencies it does not know. */
  datatype Glance = Glance(core: Core, queue: seq<LsqEntry>, buffer: seq<SbSlot>)

  /** The progress of an instruction by its entry in the queue, if it is a load. */
  ghost function LoadIn(queue: seq<LsqEntry>, id: nat): LoadState
    requires DistinctIds(queue)
  {
    if id in Table(queue) && Table(queue)[id].isLoad then Progress(Table(queue)[id]) else LoadIdle
  }

  /** Memory's cycle: every load counts down and reads memory when its count ends, then stores are sent, and those
    * that are due are written. */
  ghost predicate MemoryCycled(c: Config, z: Sizes, a: Glance, b: Glance) {
    var ring := Sent(a.buffer, z.ports, z.memLatency);
    var n := DueNow(ring);
    && n <= |a.core.sb| && b.buffer == CountedDown(ring[n..])
    && b.queue == TickedSlots(c.byteAddressed, a.queue, a.core.main) && DistinctIds(b.queue)
    && |b.core.dy| == |a.core.dy|
    && b.core == a.core.(main := Written(c.byteAddressed, a.core.main, a.core.sb[..n]), sb := a.core.sb[n..],
                         dy := b.core.dy)
    && (forall i :: 0 <= i < |a.core.dy| ==>
          b.core.dy[i] == a.core.dy[i].(load := LoadIn(b.queue, a.core.dy[i].id)))
  }

  /** The branch results that are out of their units, oldest first. */
  ghost predicate OnTheBus(c: Config, s: Core, outputs: set<int>, todo: seq<Beat>) {
    && OldestFirst(c, s.head, todo)
    && forall b :: b in todo <==> b in s.fu && b.tag in outputs && IsBranch(c, s, b)
  }

  function BeatAt(fu: seq<Beat>, tag: int): (k: nat)
    ensures k <= |fu| && (k < |fu| ==> fu[k].tag == tag) && forall i :: 0 <= i < k ==> fu[i].tag != tag
  {
    if fu == [] || fu[0].tag == tag then 0
    else
      var k := BeatAt(fu[1..], tag);
      assert forall i :: 0 < i < k + 1 ==> fu[i] == fu[1..][i - 1];
      k + 1
  }

  /** A unit's result is broadcast, if it is there and no branch's. */
  function UnitGranted(c: Config, s: Core, tag: int): Core {
    var k := BeatAt(s.fu, tag);
    if CanBroadcast(c, s, k) then Broadcast(c, s, k) else s
  }

  predicate OffersSlot(queue: seq<LsqEntry>, slot: nat) {
    slot < |queue| && queue[slot].valid && Offers(queue[slot].body)
  }

  /** A granted load broadcasts and is released; a grant for a slot that offers nothing is void. */
  ghost predicate LoadGranted(c: Config, slot: nat, a: Glance, b: Glance) {
    if OffersSlot(a.queue, slot) then
      && b.queue == a.queue[slot := a.queue[slot].(body := ReleasedOp(a.queue[slot].body))]
      && exists i: nat :: CanBroadcastLoad(a.core, i) && a.core.dy[i].id == a.queue[slot].id
                     && b.core == BroadcastLoad(c, a.core, i)
    else b.queue == a.queue && b.core == a.core
  }

  ghost predicate Granted(c: Config, g: Grant, a: Glance, b: Glance) {
    && b.buffer == a.buffer
    && match g
       case UnitGrant(tag) => b.queue == a.queue && b.core == UnitGranted(c, a.core, tag)
       case LoadGrant(slot) => LoadGranted(c, slot, a, b)
  }

  /** The grants of a cycle, one after another. */
  ghost predicate GrantedAll(c: Config, grants: seq<Grant>, bus: seq<Glance>) {
    && |bus| == |grants| + 1
    && forall k :: 0 <= k < |grants| ==> Granted(c, grants[k], bus[k], bus[k + 1])
  }

  // ---------------------------------------------------------------- dispatch

  /** Every memory instruction whose base is known has its address. */
  function Addressed(s: Core): (t: Core)
    requires |s.st| == |s.dy|
    ensures |t.st| == |t.dy|
  {
    s.(dy := seq(|s.dy|, i requires 0 <= i < |s.dy| =>
      if CanComputeAddr(s, i) then ComputeAddr(s, i).dy[i] else s.dy[i]))
  }

  /** The place of an instruction in flight. */
  function PlaceAt(dy: seq<Dyn>, id: nat): (i: nat)
    ensures i <= |dy| && (i < |dy| ==> dy[i].id == id) && forall j :: 0 <= j < i ==> dy[j].id != id
  {
    if dy == [] || dy[0].id == id then 0
    else
      var i := PlaceAt(dy[1..], id);
      assert forall j :: 0 < j < i + 1 ==> dy[j] == dy[1..][j - 1];
      i + 1
  }

  function IssuedIf(c: Config, s: Core, id: nat, room: set<nat>): (t: Core)
    ensures |s.st| == |s.dy| ==> |t.st| == |t.dy|
  {
    var i := PlaceAt(s.dy, id);
    if id in room && CanIssue(s, i) then Issue(c, s, i) else s
  }

  /** The instructions `ids` go to their units, those that have room. */
  function IssueAll(c: Config, s: Core, ids: seq<nat>, room: set<nat>): (t: Core)
    ensures |s.st| == |s.dy| ==> |t.st| == |t.dy|
    decreases |ids|
  {
    if ids == [] then s else IssueAll(c, IssuedIf(c, s, ids[0], room), ids[1..], room)
  }

  /** All instructions waiting with both operands, each once. */
  ghost predicate ReadyList(s: Core, ids: seq<nat>) {
    && (forall id :: id in ids <==> InStation(s, id))
    && forall m, n :: 0 <= m < n < |ids| ==> ids[m] != ids[n]
  }

  /** May the load at place `i` start? Without forwarding, no older store to its word may be left in the queue. */
  predicate CanStart(c: Config, forwarding: bool, s: Core, i: nat) {
    && CanDispatchLoad(s, i)
    && (!forwarding ==> forall j :: 0 <= j < i && WaitingStore(s.st[j], s.dy[j]) ==>
          WordIndex(c.byteAddressed, s.dy[j].addr) != WordIndex(c.byteAddressed, s.dy[i].addr))
  }

  /** From place `i` on, oldest first, loads that may start do, up to `n` of them. */
  function LoadsStarted(c: Config, forwarding: bool, s: Core, i: nat, n: nat): (t: Core)
    ensures |s.st| == |s.dy| ==> |t.st| == |t.dy|
    decreases if i < |s.dy| then |s.dy| - i else 0
  {
    if i >= |s.dy| || n == 0 then s
    else if CanStart(c, forwarding, s, i) then LoadsStarted(c, forwarding, DispatchLoad(c, s, i), i + 1, n - 1)
    else LoadsStarted(c, forwarding, s, i + 1, n)
  }

  // ---------------------------------------------------------------- rename and fetch

  /** Has the load/store queue an entry for the instruction at place `i`? */
  predicate Queued(s: Core, i: nat)
    requires i < |s.st| == |s.dy|
  {
    s.st[i].instr.IsLoad() || WaitingStore(s.st[i], s.dy[i])
  }

  ghost function QueuedIds(s: Core): set<nat>
    requires |s.st| == |s.dy|
  {
    set i | 0 <= i < |s.dy| && Queued(s, i) :: s.dy[i].id
  }

  /** Have the reorder buffer and the structure it waits in room for the next instruction? */
  ghost predicate NextFits(c: Config, z: Sizes, s: Core)
    requires |s.st| == |s.dy|
  {
    && CanRename(c, s)
    && if s.front[0].instr.IsMem() then |QueuedIds(s)| < z.queueSlots else |s.rs| < z.stations
  }

  /** Up to `n` instructions are renamed, as long as there is one and it fits. */
  ghost function RenamedUpTo(c: Config, z: Sizes, s: Core, n: nat): (t: Core)
    requires |s.st| == |s.dy|
    ensures |t.st| == |t.dy|
    decreases n
  {
    if n == 0 || !NextFits(c, z, s) then s else RenamedUpTo(c, z, Rename(c, s), n - 1)
  }

  /** Fetch follows the guesses while there is code. */
  function FetchedAlong(c: Config, s: Core, guesses: seq<Guess>): (t: Core)
    decreases |guesses|
  {
    if guesses == [] || !CanFetch(c, s, false) then s
    else
      var taken := guesses[0].taken && c.prog[s.fetchPc].IsControl();
      FetchedAlong(c, Fetch(c, s, taken, guesses[0].target), guesses[1..])
  }

  // ---------------------------------------------------------------- a whole cycle

  /** What is seen on the way: the start of write-back, memory's cycle and the resolve bus done, the bus grant by
    * grant, and the branch results and ready instructions in the order they were taken. */
  datatype Trace = Trace(entered: Glance, memory: Glance, todo: seq<Beat>, bus: seq<Glance>, ready: seq<nat>)

  ghost predicate CommitIs(c: Config, z: Sizes, s: Core, t: Core) {
    CanStartCycle(s) && t == NextPhase(Retired(c, StoresHanded(c, z, StartCycle(s)), z.width))
  }

  ghost predicate WritebackIs(c: Config, z: Sizes, o: Cycle, x: Trace) {
    && MemoryCycled(c, z, x.entered, x.memory) && OnTheBus(c, x.memory.core, o.outputs, x.todo)
    && GrantedAll(c, o.grants, x.bus) && x.bus[0].core == ResolveAll(c, x.memory.core, x.todo).core
  }

  ghost predicate FrontIs(c: Config, z: Sizes, o: Cycle, ready: seq<nat>, s: Core, t: Core) {
    && |s.st| == |s.dy| && ReadyList(Addressed(s), ready)
    && var issued := IssueAll(c, Addressed(s), ready, o.room);
       var started := LoadsStarted(c, z.forwarding, issued, 0, z.width);
       t == FetchedAlong(c, RenamedUpTo(c, z, started, z.width), o.guesses)
  }

  /** One cycle: wake-ups, commit, write-back, then dispatch, rename and fetch, each as far as it can go. */
  ghost predicate CycleIs(c: Config, z: Sizes, o: Cycle, x: Trace, s: Core, t: Core) {
    && CommitIs(c, z, s, x.entered.core) && WritebackIs(c, z, o, x)
    && FrontIs(c, z, o, x.ready, NextPhase(x.bus[|o.grants|].core), t)
  }
}
