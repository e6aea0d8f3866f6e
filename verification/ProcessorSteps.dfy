/** What commit, broadcast and recovery do to table and components, and that they are the machine's steps. */
module ProcessorSteps {
  import opened Words
  import opened Isa
  import opened Core
  import opened LoadStoreQueue
  import opened ProcessorState

  // ---------------------------------------------------------------- commit

  predicate Writes(c: Config, ins: Instr) { HasDest(ins) && ins.dest < c.nregs }

  function WithoutHead(c: Config, v: View): View
    requires v.entries != []
  {
    v.(entries := v.entries[1..], head := Tag(v.head, c.cap, 1))
  }

  function WithoutLoad(v: View, id: nat, ins: Instr): View { if ins.IsLoad() then v.(mem := v.mem - {id}) else v }

  /** The result reaches the register file, and the retiring tag leaves the maps. */
  function WithRegister(c: Config, v: View, ins: Instr, value: Word, tag: int): View
    requires |v.regs| == c.nregs
  {
    if Writes(c, ins) then
      v.(regs := v.regs[ins.dest := value], names := RatCommit(v.names, ins.dest, tag), live := CkClear(v.live,
          ins.dest, tag))
    else v
  }

  function WithoutCheckpoint(v: View, ins: Instr, tag: int): View {
    if ins.IsControl() then v.(live := v.live - {tag}) else v
  }

  /** Components after the oldest instruction, `id`, has retired. */
  function RetiredView(c: Config, v: View, id: nat, ins: Instr): View
    requires v.entries != [] && |v.regs| == c.nregs
  {
    WithoutCheckpoint(WithRegister(c, WithoutLoad(WithoutHead(c, v), id, ins), ins, v.entries[0].value, v.head), ins,
        v.head)
  }

  lemma {:induction false} RetiredViewIs(c: Config, v: View, id: nat, ins: Instr)
    requires v.entries != [] && |v.regs| == c.nregs
    ensures RetiredView(c, v, id, ins) ==
            v.(entries := v.entries[1..], head := Tag(v.head, c.cap, 1),
               mem := if ins.IsLoad() then v.mem - {id} else v.mem,
               regs := if Writes(c, ins) then v.regs[ins.dest := v.entries[0].value] else v.regs,
               names := if Writes(c, ins) then RatCommit(v.names, ins.dest, v.head) else v.names,
               live := CommitCkpts(c, v.live, ins, v.head))
  {
    hide RatCommit, CkClear;
  }

  function RetiredOwn(o: Own, head: nat): Own
    requires o.flight != []
  {
    o.(table := o.table - {o.flight[0]}, flight := o.flight[1..], freed := o.freed + {head},
        committed := o.committed + 1)
  }

  /** The oldest entry's identity. */
  lemma {:induction false} Oldest(c: Config, o: Own, v: View)
    requires AllOk(c, o, v) && v.entries != []
    ensures o.flight != [] && o.flight[0] in o.table
    ensures EntryOk(c, o.table[o.flight[0]], v.head, v.entries[0])
    ensures !o.table[o.flight[0]].fetched.instr.IsLoad() && v.entries[0].done ==> o.flight[0] !in v.mem
  {
    assert EntryOk(c, o.table[o.flight[0]], Tag(v.head, c.cap, 0), v.entries[0]);
    var id := o.flight[0];
    if id in v.mem {
      assert MemOpOk(o.table[id], v.mem[id]);
    }
  }

  lemma {:induction false} NextTag(head: nat, cap: nat, i: nat)
    requires head < cap && i + 1 < cap
    ensures Tag(head, cap, 1) < cap && Tag(Tag(head, cap, 1), cap, i) == Tag(head, cap, i + 1)
  {
  }

  lemma {:induction false} RetiredTable(c: Config, o: Own, v: View)
    requires TableOk(c, o.table, o.flight, o.nextId, v.head, v.entries) && v.head < c.cap && |v.entries| <= c.cap
    requires v.entries != [] && o.flight != []
    ensures TableOk(c, o.table - {o.flight[0]}, o.flight[1..], o.nextId, Tag(v.head, c.cap, 1), v.entries[1..])
  {
    hide EntryOk, Tag;
    var flight', table', head' := o.flight[1..], o.table - {o.flight[0]}, Tag(v.head, c.cap, 1);
    forall i | 0 <= i < |flight'|
      ensures flight'[i] in table' && flight'[i] < o.nextId
      ensures EntryOk(c, table'[flight'[i]], Tag(head', c.cap, i), v.entries[1..][i])
    {
      RetiredEntry(c, o, v, i);
    }
    RetiredMembers(o.table, o.flight);
  }

  /** The new `i`-th entry, once the oldest has gone. */
  ghost predicate RetiredEntryOk(c: Config, o: Own, v: View, i: nat)
    requires i + 1 < |o.flight| == |v.entries|
  {
    var id, table' := o.flight[1..][i], o.table - {o.flight[0]};
    id in table' && id < o.nextId && EntryOk(c, table'[id], Tag(Tag(v.head, c.cap, 1), c.cap, i), v.entries[1..][i])
  }

  lemma {:induction false} RetiredEntry(c: Config, o: Own, v: View, i: nat)
    requires TableOk(c, o.table, o.flight, o.nextId, v.head, v.entries) && v.head < c.cap && |v.entries| <= c.cap
    requires i + 1 < |o.flight|
    ensures RetiredEntryOk(c, o, v, i)
  {
    hide EntryOk, Tag;
    NextTag(v.head, c.cap, i);
    assert o.flight[0] < o.flight[i + 1];
  }

  lemma {:induction false} RetiredMembers(table: map<nat, InstInfo>, flight: seq<nat>)
    requires flight != [] && forall x :: x in table ==> x in flight
    ensures forall x :: x in table - {flight[0]} ==> x in flight[1..]
  {
    forall x | x in table - {flight[0]} ensures x in flight[1..] {
      var i :| 0 <= i < |flight| && flight[i] == x;
      assert flight[1..][i - 1] == x;
    }
  }

  lemma {:induction false} RetiredMemory(table: map<nat, InstInfo>, mem: map<nat, MemOp>, id: nat)
    requires MemoryOk(table, mem)
    ensures MemoryOk(table - {id}, mem - {id})
  {
  }

  lemma {:induction false} RetiredFlight(o: Own, v: View)
    requires Sized(o, v) && o.flight != [] && Ascending(o.flight)
    ensures InTableAll(o.table - {o.flight[0]}, o.flight[1..])
    ensures Statics(o.table - {o.flight[0]}, o.flight[1..]) == Statics(o.table, o.flight)[1..]
    ensures Dynamics(o.table - {o.flight[0]}, o.flight[1..], v.entries[1..], v.mem - {o.flight[0]})
         == Dynamics(o.table, o.flight, v.entries, v.mem)[1..]
  {
    forall i | 0 <= i < |o.flight[1..]| ensures o.flight[1..][i] != o.flight[0] && o.flight[1..][i] in o.table {
      assert o.flight[0] < o.flight[i + 1];
    }
  }

  lemma {:induction false} RetiredNames(c: Config, v: View, id: nat, ins: Instr)
    requires ViewOk(c, v) && v.entries != []
    ensures ViewOk(c, RetiredView(c, v, id, ins))
  {
    RetiredViewIs(c, v, id, ins);
    var live' := CommitCkpts(c, v.live, ins, v.head);
    forall t | t in live' ensures NamesInRange(c, live'[t]) {
      assert NamesInRange(c, v.live[t]);
    }
  }

  lemma {:induction false} RetiredOk(c: Config, o: Own, v: View)
    requires AllOk(c, o, v) && v.entries != [] && v.entries[0].done && o.flight != [] && o.flight[0] in o.table
    ensures var ins := o.table[o.flight[0]].fetched.instr;
            AllOk(c, RetiredOwn(o, v.head), RetiredView(c, v, o.flight[0], ins))
            && RetiredView(c, v, o.flight[0], ins).mem == v.mem - {o.flight[0]}
  {
    hide MemoryOk, TableOk, EntryOk, MemOpOk, CommitCkpts, RatCommit, NamesInRange, RetiredView;
    var id := o.flight[0];
    var ins := o.table[id].fetched.instr;
    Shapes(c, o, v);
    RetiredViewIs(c, v, id, ins);
    Oldest(c, o, v);
    RetiredTable(c, o, v);
    RetiredMemory(o.table, v.mem, id);
    if !ins.IsLoad() { assert v.mem - {id} == v.mem; }
    RetiredNames(c, v, id, ins);
  }

  /** Retiring the oldest instruction everywhere is the machine's commit step. */
  lemma {:induction false} RetiringIsCommit(c: Config, o: Own, v: View)
    requires AllOk(c, o, v) && v.entries != [] && v.entries[0].done && o.phase == Commit && o.flight != []
    requires o.flight[0] in o.table
    ensures var ins := o.table[o.flight[0]].fetched.instr;
            var o', v' := RetiredOwn(o, v.head), RetiredView(c, v, o.flight[0], ins);
            && AllOk(c, o', v') && Sized(o, v) && CanCommit(Machine(o, v))
            && Sized(o', v') && Machine(o', v') == CommitHead(c, Machine(o, v))
  {
    hide AllOk, CommitCkpts, RatCommit, RetiredView;
    RetiredOk(c, o, v);
    OldestDone(c, o, v);
    Shapes(c, o, v);
    RetiredViewIs(c, v, o.flight[0], o.table[o.flight[0]].fetched.instr);
    RetiredFlight(o, v);
  }

  lemma {:induction false} Shapes(c: Config, o: Own, v: View)
    requires AllOk(c, o, v)
    ensures Sized(o, v) && Ascending(o.flight) && |v.regs| == c.nregs == |v.names| && v.head < c.cap
    ensures |v.entries| <= c.cap
  {
  }

  lemma {:induction false} OldestDone(c: Config, o: Own, v: View)
    requires AllOk(c, o, v) && v.entries != [] && v.entries[0].done
    ensures o.flight != [] && o.flight[0] in o.table && o.table[o.flight[0]].completed
  {
    Oldest(c, o, v);
  }

  /** The machine can commit exactly when the oldest ROB entry is done. */
  lemma {:induction false} WhenCommit(c: Config, o: Own, v: View)
    requires AllOk(c, o, v) && o.phase == Commit
    ensures Sized(o, v) && (CanCommit(Machine(o, v)) <==> v.entries != [] && v.entries[0].done)
  {
    if v.entries != [] {
      assert EntryOk(c, o.table[o.flight[0]], Tag(v.head, c.cap, 0), v.entries[0]);
    }
  }

  /** The oldest instruction is the one with the head's tag. */
  lemma {:induction false} OldestFound(c: Config, o: Own, v: View)
    requires AllOk(c, o, v) && v.entries != []
    ensures o.flight != [] && o.flight[0] in o.table && o.table[o.flight[0]].robId == v.head
    ensures o.table[o.flight[0]].fetched.instr.dest == v.entries[0].dest
    ensures forall x :: x in o.table && o.table[x].robId == v.head ==> x == o.flight[0]
  {
    Oldest(c, o, v);
    forall x | x in o.table && o.table[x].robId == v.head ensures x == o.flight[0] {
      var i :| 0 <= i < |o.flight| && o.flight[i] == x;
      assert EntryOk(c, o.table[o.flight[i]], Tag(v.head, c.cap, i), v.entries[i]);
    }
  }

  // ---------------------------------------------------------------- results

  /** An instruction's result reaches its ROB entry. */
  function CompletedView(v: View, i: nat, value: Word): View
    requires i < |v.entries|
  {
    v.(entries := v.entries[i := v.entries[i].(done := true, value := value)])
  }

  function CompletedOwn(o: Own, id: nat): Own
    requires id in o.table
  {
    o.(table := o.table[id := o.table[id].(completed := true)])
  }

  lemma {:induction false} CompletedTable(c: Config, o: Own, v: View, i: nat, value: Word)
    requires AllOk(c, o, v) && i < |o.flight| == |v.entries| && o.flight[i] in o.table
    ensures var t := CompletedOwn(o, o.flight[i]).table;
            TableOk(c, t, o.flight, o.nextId, v.head, CompletedView(v, i, value).entries)
  {
    var id := o.flight[i];
    var t, entries' := CompletedOwn(o, id).table, CompletedView(v, i, value).entries;
    forall j | 0 <= j < |o.flight|
      ensures o.flight[j] < o.nextId && EntryOk(c, t[o.flight[j]], Tag(v.head, c.cap, j), entries'[j])
    {
      assert EntryOk(c, o.table[o.flight[j]], Tag(v.head, c.cap, j), v.entries[j]);
      assert j < i ==> o.flight[j] < o.flight[i];
      assert i < j ==> o.flight[i] < o.flight[j];
    }
  }

  lemma {:induction false} CompletedMemory(table: map<nat, InstInfo>, mem: map<nat, MemOp>, id: nat)
    requires MemoryOk(table, mem) && id in table && !table[id].fetched.instr.IsMem()
    ensures MemoryOk(table[id := table[id].(completed := true)], mem)
  {
    var t := table[id := table[id].(completed := true)];
    forall x | x in mem ensures x in t && MemOpOk(t[x], mem[x]) {
      assert MemOpOk(table[x], mem[x]);
    }
  }

  /** Completing an instruction that does not go to memory completes it in the machine. */
  lemma {:induction false} Completes(c: Config, o: Own, v: View, i: nat, value: Word)
    requires AllOk(c, o, v) && i < |o.flight| && o.flight[i] in o.table && !o.table[o.flight[i]].fetched.instr.IsMem()
    ensures Sized(o, v)
    ensures var o', v' := CompletedOwn(o, o.flight[i]), CompletedView(v, i, value);
            && AllOk(c, o', v') && Sized(o', v')
            && Statics(o'.table, o'.flight) == Statics(o.table, o.flight)
            && Dynamics(o'.table, o'.flight, v'.entries, v'.mem)
                 == Complete(Dynamics(o.table, o.flight, v.entries, v.mem), i, value)
  {
    Shapes(c, o, v);
    CompletedTable(c, o, v, i, value);
    CompletedMemory(o.table, v.mem, o.flight[i]);
    hide MemoryOk, TableOk, MemOpOk, NamesInRange;
    CompletedFlight(o, v, i, value);
  }

  lemma {:induction false} CompletingIs(c: Config, o: Own, v: View, i: nat, value: Word)
    requires AllOk(c, o, v) && i < |o.flight| && o.flight[i] in o.table && !o.table[o.flight[i]].fetched.instr.IsMem()
    ensures var o', v' := CompletedOwn(o, o.flight[i]), CompletedView(v, i, value);
            && Sized(o, v) && AllOk(c, o', v') && Sized(o', v')
            && Machine(o', v') == Machine(o, v).(dy := Complete(Machine(o, v).dy, i, value))
  {
    Completes(c, o, v, i, value);
    hide AllOk, Complete;
  }

  lemma {:induction false} CompletedFlight(o: Own, v: View, i: nat, value: Word)
    requires Sized(o, v) && Ascending(o.flight) && i < |o.flight|
    ensures var o', v' := CompletedOwn(o, o.flight[i]), CompletedView(v, i, value);
            && Sized(o', v') && Statics(o'.table, o'.flight) == Statics(o.table, o.flight)
            && Dynamics(o'.table, o'.flight, v'.entries, v'.mem)
                 == Complete(Dynamics(o.table, o.flight, v.entries, v.mem), i, value)
  {
    var o', v' := CompletedOwn(o, o.flight[i]), CompletedView(v, i, value);
    var dy, dy' := Dynamics(o.table, o.flight, v.entries, v.mem), Dynamics(o'.table, o'.flight, v'.entries, v'.mem);
    forall j | 0 <= j < |o.flight| ensures dy'[j] == Complete(dy, i, value)[j] {
      assert j < i ==> o.flight[j] < o.flight[i];
      assert i < j ==> o.flight[i] < o.flight[j];
    }
  }

  function GrantedOwn(o: Own, id: nat, k: nat): Own
    requires id in o.table && k < |o.fu|
  {
    CompletedOwn(o, id).(wakeups := o.wakeups + [o.fu[k]], fu := o.fu[..k] + o.fu[k + 1..])
  }

  /** A granted functional-unit result is the machine's broadcast step. */
  lemma {:induction false} GrantIsBroadcast(c: Config, o: Own, v: View, k: nat)
    requires AllOk(c, o, v) && Sized(o, v) && CanBroadcast(c, Machine(o, v), k)
    requires var i := Age(v.head, c.cap, o.fu[k].tag); !o.table[o.flight[i]].fetched.instr.IsMem()
    ensures var i := Age(v.head, c.cap, o.fu[k].tag);
            var o', v' := GrantedOwn(o, o.flight[i], k), CompletedView(v, i, o.fu[k].val);
            AllOk(c, o', v') && Sized(o', v') && Machine(o', v') == Broadcast(c, Machine(o, v), k)
  {
    var i := Age(v.head, c.cap, o.fu[k].tag);
    Completes(c, o, v, i, o.fu[k].val);
    hide AllOk, CompletedOwn, CompletedView;
    GrantedSame(c, o, CompletedView(v, i, o.fu[k].val), i, k);
  }

  /** A result the machine can take is that of an entry in flight. */
  lemma {:induction false} GrantedEntry(c: Config, o: Own, v: View, k: nat)
    requires AllOk(c, o, v) && Sized(o, v) && CanTakeBeat(c, Machine(o, v), k)
    ensures var i := Age(v.head, c.cap, o.fu[k].tag);
            && 0 <= i < |o.flight| == |v.entries| && o.flight[i] in o.table && o.fu[k].tag == Tag(v.head, c.cap, i)
            && Machine(o, v).st[i] == o.table[o.flight[i]].fetched && k < |o.fu| && 0 <= o.fu[k].tag < c.cap
  {
    Shapes(c, o, v);
    TagPlaces(c, o, v);
  }

  lemma {:induction false} GrantedSame(c: Config, o: Own, v: View, i: nat, k: nat)
    requires i < |o.flight| && o.flight[i] in o.table && k < |o.fu| && AllOk(c, CompletedOwn(o, o.flight[i]), v)
    ensures AllOk(c, GrantedOwn(o, o.flight[i], k), v)
  {
  }

  function ConsumedOwn(o: Own, k: nat): Own
    requires k < |o.fu|
  {
    o.(fu := o.fu[..k] + o.fu[k + 1..])
  }

  lemma {:induction false} ConsumedOk(c: Config, o: Own, v: View, k: nat)
    requires AllOk(c, o, v) && k < |o.fu|
    ensures AllOk(c, ConsumedOwn(o, k), v) && Sized(ConsumedOwn(o, k), v) && Sized(o, v)
    ensures Machine(ConsumedOwn(o, k), v) == Machine(o, v).(fu := o.fu[..k] + o.fu[k + 1..])
  {
  }

  lemma {:induction false} MachineShape(c: Config, o: Own, v: View)
    requires AllOk(c, o, v) && Sized(o, v)
    ensures |Machine(o, v).st| == |Machine(o, v).dy| == |o.flight| == |v.entries|
    ensures Machine(o, v).head == v.head && Machine(o, v).fu == o.fu
  {
  }

  lemma {:induction false} TagHeld(c: Config, o: Own, v: View, tag: int)
    requires AllOk(c, o, v) && 0 <= tag < c.cap
    ensures (exists x :: x in o.table && o.table[x].robId == tag) <==> 0 <= Age(v.head, c.cap, tag) < |o.flight|
  {
    TagPlaces(c, o, v);
    Shapes(c, o, v);
    AgeOfTag(v.head, c.cap, |o.flight|);
    hide AllOk, Tag;
    var a := Age(v.head, c.cap, tag);
    if 0 <= a < |o.flight| {
      assert o.table[o.flight[a]].robId == Tag(v.head, c.cap, a);
    }
    forall x | x in o.table && o.table[x].robId == tag ensures 0 <= a < |o.flight| {
      var i := PlaceOf(c, o, v, x);
    }
  }

  lemma {:induction false} EntryAt(c: Config, o: Own, v: View, i: nat)
    requires AllOk(c, o, v) && i < |o.flight|
    ensures i < |v.entries| && o.flight[i] in o.table
    ensures EntryOk(c, o.table[o.flight[i]], Tag(v.head, c.cap, i), v.entries[i])
  {
  }

  lemma {:induction false} AgeInverse(c: Config, head: nat, tag: int)
    requires head < c.cap && 0 <= tag < c.cap
    ensures Tag(head, c.cap, Age(head, c.cap, tag)) == tag
  {
  }

  /** The machine's entry `i` is the `i`-th instruction in flight. */
  lemma {:induction false} MachineEntry(c: Config, o: Own, v: View, i: nat)
    requires AllOk(c, o, v) && Sized(o, v) && i < |o.flight|
    ensures |Machine(o, v).st| == |Machine(o, v).dy| == |o.flight| == |v.entries|
    ensures o.flight[i] in o.table && o.table[o.flight[i]].robId == Tag(v.head, c.cap, i)
    ensures Machine(o, v).dy[i].id == o.flight[i] && Machine(o, v).st[i] == o.table[o.flight[i]].fetched
  {
    TagPlaces(c, o, v);
  }

  lemma {:induction false} RecoverKeeps(c: Config, s: Core, a: nat, next: Pc)
    requires a < |s.st| == |s.dy|
    ensures var r := Recover(c, s, a, next); a < |r.st| == |r.dy| && r.st[a] == s.st[a] && r.dy[a] == s.dy[a]
  {
    hide Scrub, Without, KillTags, KillIds;
  }

  // ---------------------------------------------------------------- recovery

  /** Instructions younger than entry `a`, and their tags. */
  ghost function YoungerIds(o: Own, a: nat): set<nat> { set j | a < j < |o.flight| :: o.flight[j] }

  ghost function YoungerTags(c: Config, head: nat, a: nat, n: nat): set<int> {
    set j | a < j < n :: Tag(head, c.cap, j)
  }

  /** Components once everything younger than entry `a`, the branch `id`, has gone. */
  function RecoveredView(v: View, a: nat, tag: int, snapshot: seq<int>, freed: set<int>, ids: set<nat>,
                         tags: set<int>): View
    requires a < |v.entries|
  {
    v.(names := Scrub(if tag in v.live then v.live[tag] else snapshot, freed + tags),
       live := v.live - tags, stations := v.stations - ids, mem := v.mem - ids, entries := v.entries[..a + 1])
  }

  function RecoveredOwn(o: Own, a: nat, next: Pc, ids: set<nat>, tags: set<int>): Own
    requires a < |o.flight|
  {
    o.(table := o.table - ids, flight := o.flight[..a + 1], fu := Without(o.fu, tags), wakeups := Without(o.wakeups,
        tags),
       front := [], fetchPc := next, squashed := o.squashed + (|o.flight| - (a + 1)))
  }

  lemma {:induction false} RecoveredTable(c: Config, o: Own, v: View, a: nat)
    requires AllOk(c, o, v) && a < |o.flight|
    ensures TableOk(c, o.table - YoungerIds(o, a), o.flight[..a + 1], o.nextId, v.head, v.entries[..a + 1])
  {
    var table', flight' := o.table - YoungerIds(o, a), o.flight[..a + 1];
    forall i | 0 <= i < |flight'| ensures flight'[i] in table' {
      forall j | a < j < |o.flight| ensures o.flight[j] != flight'[i] {
        assert o.flight[i] < o.flight[j];
      }
    }
    forall x | x in table' ensures x in flight' {
      var i :| 0 <= i < |o.flight| && o.flight[i] == x;
      assert i <= a;
      assert flight'[i] == x;
    }
  }

  lemma {:induction false} RecoveredMemory(table: map<nat, InstInfo>, mem: map<nat, MemOp>, ids: set<nat>)
    requires MemoryOk(table, mem)
    ensures MemoryOk(table - ids, mem - ids)
  {
  }

  lemma {:induction false} RecoveredNames(c: Config, v: View, a: nat, tag: int, snapshot: seq<int>, freed: set<int>,
                                          ids: set<nat>, tags: set<int>)
    requires ViewOk(c, v) && a < |v.entries| && NamesInRange(c, snapshot)
    ensures ViewOk(c, RecoveredView(v, a, tag, snapshot, freed, ids, tags))
  {
    assert tag in v.live ==> NamesInRange(c, v.live[tag]);
  }

  lemma {:induction false} RecoveredFlight(o: Own, v: View, a: nat)
    requires Sized(o, v) && Ascending(o.flight) && a < |o.flight|
    ensures var ids := YoungerIds(o, a);
            && InTableAll(o.table - ids, o.flight[..a + 1])
            && Statics(o.table - ids, o.flight[..a + 1]) == Statics(o.table, o.flight)[..a + 1]
            && Dynamics(o.table - ids, o.flight[..a + 1], v.entries[..a + 1], v.mem - ids)
               == Dynamics(o.table, o.flight, v.entries, v.mem)[..a + 1]
  {
    forall i | 0 <= i <= a ensures o.flight[i] in o.table - YoungerIds(o, a) {
      forall j | a < j < |o.flight| ensures o.flight[j] != o.flight[i] {
        assert o.flight[i] < o.flight[j];
      }
    }
  }

  /** What recovery drops, as the machine names it. */
  lemma {:induction false} SameKill(c: Config, o: Own, v: View, a: nat)
    requires Sized(o, v) && a < |o.flight|
    ensures YoungerIds(o, a) == KillIds(Machine(o, v), a)
    ensures YoungerTags(c, v.head, a, |o.flight|) == KillTags(c, Machine(o, v), a)
  {
    var s := Machine(o, v);
    forall j | a < j < |o.flight| ensures s.dy[j].id == o.flight[j] {
    }
  }

  lemma {:induction false} BeatsLeft(c: Config, fu: seq<Beat>, kill: set<int>)
    requires BeatsOk(c, fu)
    ensures BeatsOk(c, Without(fu, kill))
  {
    if fu != [] { BeatsLeft(c, fu[1..], kill); }
  }

  lemma {:induction false} RecoveredOk(c: Config, o: Own, v: View, a: nat, next: Pc)
    requires AllOk(c, o, v) && a < |o.flight| == |v.entries| && o.flight[a] in o.table
    ensures var id, tag := o.flight[a], Tag(v.head, c.cap, a);
            var ids, tags := YoungerIds(o, a), YoungerTags(c, v.head, a, |o.flight|);
            AllOk(c, RecoveredOwn(o, a, next, ids, tags), RecoveredView(v, a, tag, o.table[id].snapshot, o.freed, ids,
                tags))
  {
    var id, tag := o.flight[a], Tag(v.head, c.cap, a);
    var ids, tags := YoungerIds(o, a), YoungerTags(c, v.head, a, |o.flight|);
    assert EntryOk(c, o.table[o.flight[a]], Tag(v.head, c.cap, a), v.entries[a]);
    RecoveredTable(c, o, v, a);
    RecoveredMemory(o.table, v.mem, ids);
    RecoveredNames(c, v, a, tag, o.table[id].snapshot, o.freed, ids, tags);
    BeatsLeft(c, o.fu, tags);
    hide MemoryOk, TableOk, EntryOk, NamesInRange, Scrub, Without, BeatsOk;
  }

  /** Dropping what is younger everywhere is the machine's recovery. */
  lemma {:induction false} RecoveringIsRecover(c: Config, o: Own, v: View, a: nat, next: Pc)
    requires AllOk(c, o, v) && Sized(o, v) && a < |o.flight|
    ensures var id, tag := o.flight[a], Tag(v.head, c.cap, a);
            var ids, tags := YoungerIds(o, a), YoungerTags(c, v.head, a, |o.flight|);
            var o', v' := RecoveredOwn(o, a, next, ids, tags), RecoveredView(v, a, tag, o.table[id].snapshot, o.freed,
                ids, tags);
            AllOk(c, o', v') && Sized(o', v') && Machine(o', v') == Recover(c, Machine(o, v), a, next)
  {
    hide AllOk, Scrub, Without, YoungerIds, YoungerTags, KillIds, KillTags, Statics, Dynamics;
    RecoveredOk(c, o, v, a, next);
    Shapes(c, o, v);
    SameKill(c, o, v, a);
    RecoveredFlight(o, v, a);
  }

  /** Every tag in the table is a ROB slot, at the place of its instruction. */
  lemma {:induction false} TagPlaces(c: Config, o: Own, v: View)
    requires AllOk(c, o, v)
    ensures |o.flight| == |v.entries|
    ensures forall i :: 0 <= i < |o.flight| ==>
              o.flight[i] in o.table && o.table[o.flight[i]].robId == Tag(v.head, c.cap, i)
    ensures forall x :: x in o.table ==> 0 <= o.table[x].robId < c.cap && x in o.flight
  {
    forall i | 0 <= i < |o.flight|
      ensures o.flight[i] in o.table && o.table[o.flight[i]].robId == Tag(v.head, c.cap, i)
    {
      assert EntryOk(c, o.table[o.flight[i]], Tag(v.head, c.cap, i), v.entries[i]);
    }
    forall x | x in o.table ensures 0 <= o.table[x].robId < c.cap {
      var i :| 0 <= i < |o.flight| && o.flight[i] == x;
      assert EntryOk(c, o.table[o.flight[i]], Tag(v.head, c.cap, i), v.entries[i]);
    }
  }

  lemma {:induction false} AgeOfTag(head: nat, cap: nat, n: nat)
    requires head < cap && n <= cap
    ensures forall i :: 0 <= i < n ==> Age(head, cap, Tag(head, cap, i)) == i
  {
  }

  /** Where an instruction of the table is in flight. */
  lemma {:induction false} PlaceOf(c: Config, o: Own, v: View, x: nat) returns (i: nat)
    requires AllOk(c, o, v) && x in o.table
    ensures i < |o.flight| && o.flight[i] == x && Age(v.head, c.cap, o.table[x].robId) == i
    ensures o.table[x].robId == Tag(v.head, c.cap, i)
  {
    TagPlaces(c, o, v);
    Shapes(c, o, v);
    AgeOfTag(v.head, c.cap, |o.flight|);
    hide AllOk, Age, Tag;
    i :| 0 <= i < |o.flight| && o.flight[i] == x;
  }

  ghost predicate HeldBySome(table: map<nat, InstInfo>, ids: set<nat>, tag: int) {
    exists x :: x in ids && x in table && table[x].robId == tag
  }

  /** Tags collected along with ids. */
  lemma {:induction false} CollectedTags(table: map<nat, InstInfo>, ids: seq<nat>, tags: seq<int>)
    requires |tags| == |ids| && forall k :: 0 <= k < |ids| ==> ids[k] in table && tags[k] == table[ids[k]].robId
    ensures forall t :: t in tags <==> HeldBySome(table, (set x | x in ids), t)
  {
    forall t | t in tags ensures HeldBySome(table, (set x | x in ids), t) {
      var k :| 0 <= k < |tags| && tags[k] == t;
      assert ids[k] in ids;
    }
  }

  /** What a walk over the table by ROB age collects is what is younger. */
  lemma {:induction false} YoungerAre(c: Config, o: Own, v: View, a: nat, ids: set<nat>, tags: set<int>)
    requires AllOk(c, o, v) && a < |o.flight|
    requires forall x :: x in ids <==> x in o.table && Age(v.head, c.cap, o.table[x].robId) > a
    requires forall t :: t in tags <==> HeldBySome(o.table, ids, t)
    ensures ids == YoungerIds(o, a) && tags == YoungerTags(c, v.head, a, |o.flight|)
  {
    YoungerIdsAre(c, o, v, a, ids);
    TagPlaces(c, o, v);
    hide AllOk, Age, Tag;
    forall t | t in tags ensures t in YoungerTags(c, v.head, a, |o.flight|) {
      var x :| x in ids && x in o.table && o.table[x].robId == t;
      var i := PlaceOf(c, o, v, x);
    }
    forall t | t in YoungerTags(c, v.head, a, |o.flight|) ensures t in tags {
      var j :| a < j < |o.flight| && Tag(v.head, c.cap, j) == t;
      assert o.flight[j] in YoungerIds(o, a);
    }
  }

  lemma {:induction false} YoungerIdsAre(c: Config, o: Own, v: View, a: nat, ids: set<nat>)
    requires AllOk(c, o, v) && a < |o.flight|
    requires forall x :: x in ids <==> x in o.table && Age(v.head, c.cap, o.table[x].robId) > a
    ensures ids == YoungerIds(o, a)
  {
    TagPlaces(c, o, v);
    Shapes(c, o, v);
    AgeOfTag(v.head, c.cap, |o.flight|);
    hide AllOk, Age, Tag;
    forall x | x in ids ensures x in YoungerIds(o, a) {
      var i := PlaceOf(c, o, v, x);
    }
    forall x | x in YoungerIds(o, a) ensures x in ids {
      var j :| a < j < |o.flight| && o.flight[j] == x;
    }
  }

  lemma {:induction false} MapsFit(c: Config, o: Own, v: View, a: nat)
    requires AllOk(c, o, v) && a < |o.flight|
    ensures o.flight[a] in o.table && |o.table[o.flight[a]].snapshot| == c.nregs
    ensures forall t :: t in v.live ==> |v.live[t]| == c.nregs
  {
    assert EntryOk(c, o.table[o.flight[a]], Tag(v.head, c.cap, a), v.entries[a]);
    forall t | t in v.live ensures |v.live[t]| == c.nregs {
      assert NamesInRange(c, v.live[t]);
    }
  }

  /** The instruction with entry `i`'s tag is the `i`-th in flight. */
  lemma {:induction false} IsEntry(c: Config, o: Own, v: View, i: nat)
    requires AllOk(c, o, v) && i < |o.flight|
    ensures forall x :: x in o.table && o.table[x].robId == Tag(v.head, c.cap, i) ==> x == o.flight[i]
  {
    Shapes(c, o, v);
    AgeOfTag(v.head, c.cap, |o.flight|);
    hide AllOk, Age, Tag;
    forall x | x in o.table && o.table[x].robId == Tag(v.head, c.cap, i) ensures x == o.flight[i] {
      var j := PlaceOf(c, o, v, x);
    }
  }
}
