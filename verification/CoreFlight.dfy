/** The two ends of the flight: rename appends, commit removes the oldest and moves the in-order model. */
module CoreFlight {
  import opened Words
  import opened Isa
  import opened Core
  import opened CoreInv
  import opened CoreSteps

  // ---------------------------------------------------------------- rename

  lemma {:induction false} AppendMeaning(c: Config, g: Arch, st: seq<Fetched>, f: Fetched, i: nat)
    requires i <= |st|
    ensures SpecAt(c, g, st + [f], i) == SpecAt(c, g, st, i)
    ensures forall r :: LastWriter(c, st + [f], i, r) == LastWriter(c, st, i, r)
  {
    SpecPrefix(c, g, st, [f], i);
    forall r ensures LastWriter(c, st + [f], i, r) == LastWriter(c, st, i, r) {
      WriterPrefix(c, st, [f], i, r);
    }
  }

  /** Rename captures the in-order value of a register, or the tag of the entry that will produce it. */
  lemma {:induction false} NewOperandOk(c: Config, g: Arch, s: Core, r: int)
    requires |s.st| == |s.dy| <= c.cap && s.head < c.cap && RegsOk(c, g, s.arf)
    requires ProgOk(c) && AllFetched(c, s.st) && AllValues(c, g, s.st, s.dy)
    requires IsMap(c, s.head, s.st, |s.st|, s.rat)
    ensures OperandOk(c, g, s.st, s.dy, s.head, s.wake, |s.st|, r, ResolveOperand(c, s, r))
  {
    hide Exec;
    DestIsWritten(c, s.st);
    RegFromWriter(c, g, s.st, |s.st|, r);
    if 0 < r < c.nregs {
      var j := LastWriter(c, s.st, |s.st|, r);
      MapAt(c, s.head, s.st, |s.st|, s.rat, r);
      if j >= 0 && s.dy[j].done {
        DoneValue(c, g, s.st, s.dy, j);
      }
    }
  }

  lemma {:induction false} AppendOperand(c: Config, g: Arch, st: seq<Fetched>, dy: seq<Dyn>, head: nat, wake: seq<Beat>,
                      f: Fetched, d: Dyn, i: nat, r: int, o: Operand)
    requires i <= |st| == |dy| && OperandOk(c, g, st, dy, head, wake, i, r, o)
    ensures OperandOk(c, g, st + [f], dy + [d], head, wake, i, r, o)
  {
    AppendMeaning(c, g, st, f, i);
  }

  lemma {:induction false} RenameSources(c: Config, g: Arch, s: Core)
    requires CanRename(c, s) && s.head < c.cap && RegsOk(c, g, s.arf)
    requires ProgOk(c) && AllFetched(c, s.st) && AllValues(c, g, s.st, s.dy)
    requires IsMap(c, s.head, s.st, |s.st|, s.rat)
    requires AllSources(c, g, s.st, s.dy, s.head, s.wake)
    ensures var s' := Rename(c, s); AllSources(c, g, s'.st, s'.dy, s.head, s.wake)
  {
    hide Exec;
    var f := s.front[0];
    var d := NewDyn(c, s, f.instr);
    var st', dy' := s.st + [f], s.dy + [d];
    forall i | 0 <= i < |st'| && !dy'[i].done ensures SourcesOk(c, g, st', dy', s.head, s.wake, i) {
      if i < |s.st| {
        assert SourcesOk(c, g, s.st, s.dy, s.head, s.wake, i);
        AppendSources(c, g, s.st, s.dy, s.head, s.wake, f, d, i);
      } else {
        NewSources(c, g, s);
      }
    }
  }

  lemma {:induction false} AppendSources(c: Config, g: Arch, st: seq<Fetched>, dy: seq<Dyn>, head: nat, wake: seq<Beat>,
                      f: Fetched, d: Dyn, i: nat)
    requires i < |st| == |dy| && SourcesOk(c, g, st, dy, head, wake, i)
    ensures SourcesOk(c, g, st + [f], dy + [d], head, wake, i)
  {
    var e, ins := dy[i], st[i].instr;
    AppendOperand(c, g, st, dy, head, wake, f, d, i, ins.src1, e.src1);
    if ins.op != ADDI {
      AppendOperand(c, g, st, dy, head, wake, f, d, i, ins.src2, e.src2);
    }
    if ins.IsStore() && ins.dest > 0 {
      AppendOperand(c, g, st, dy, head, wake, f, d, i, ins.dest, e.data);
    }
  }

  lemma {:induction false} NewSources(c: Config, g: Arch, s: Core)
    requires CanRename(c, s) && s.head < c.cap && RegsOk(c, g, s.arf)
    requires ProgOk(c) && AllFetched(c, s.st) && AllValues(c, g, s.st, s.dy)
    requires IsMap(c, s.head, s.st, |s.st|, s.rat)
    ensures var s' := Rename(c, s); SourcesOk(c, g, s'.st, s'.dy, s.head, s.wake, |s.st|)
  {
    hide Exec;
    var f := s.front[0];
    var ins := f.instr;
    var d := NewDyn(c, s, ins);
    NewOperandOk(c, g, s, ins.src1);
    AppendOperand(c, g, s.st, s.dy, s.head, s.wake, f, d, |s.st|, ins.src1, ResolveOperand(c, s, ins.src1));
    if ins.op != ADDI {
      NewOperandOk(c, g, s, ins.src2);
      AppendOperand(c, g, s.st, s.dy, s.head, s.wake, f, d, |s.st|, ins.src2, ResolveOperand(c, s, ins.src2));
    }
    if ins.IsStore() && ins.dest > 0 {
      NewOperandOk(c, g, s, ins.dest);
      AppendOperand(c, g, s.st, s.dy, s.head, s.wake, f, d, |s.st|, ins.dest, ResolveOperand(c, s, ins.dest));
    }
  }

  lemma {:induction false} AppendMap(c: Config, head: nat, st: seq<Fetched>, f: Fetched, i: nat, m: seq<int>)
    requires i <= |st| && IsMap(c, head, st, i, m)
    ensures IsMap(c, head, st + [f], i, m)
  {
    forall r | 0 <= r < c.nregs ensures m[r] == MapEntry(c, head, LastWriter(c, st + [f], i, r)) {
      WriterPrefix(c, st, [f], i, r);
    }
    MapIs(c, head, st + [f], i, m);
  }

  /** Renaming the destination gives the map of the longer flight. */
  lemma {:induction false} RenameMap(c: Config, head: nat, st: seq<Fetched>, f: Fetched, rat: seq<int>)
    requires IsMap(c, head, st, |st|, rat) && (f.instr.IsControl() ==> f.instr.dest <= 0)
    ensures IsMap(c, head, st + [f], |st| + 1,
                  if HasDest(f.instr) then RatRename(rat, f.instr.dest, Tag(head, c.cap, |st|)) else rat)
  {
    var n, st' := |st|, st + [f];
    var rat' := if HasDest(f.instr) then RatRename(rat, f.instr.dest, Tag(head, c.cap, n)) else rat;
    forall r | 0 <= r < c.nregs ensures rat'[r] == MapEntry(c, head, LastWriter(c, st', n + 1, r)) {
      assert st'[n] == f;
      MapAt(c, head, st, n, rat, r);
      WriterPrefix(c, st, [f], n, r);
    }
    MapIs(c, head, st', n + 1, rat');
  }

  ghost function RenameCkpts(c: Config, ck: map<int, seq<int>>, ins: Instr, tag: int, rat': seq<int>): map<int,
                             seq<int>> {
    if ins.IsControl() then ck[tag := rat'] else ck
  }

  lemma {:induction false} RenameCkEntry(c: Config, head: nat, st: seq<Fetched>, f: Fetched, ck: map<int, seq<int>>,
                                         rat': seq<int>, i: nat)
    requires i < |st| < c.cap && head < c.cap && CkOk(c, head, st, ck) && st[i].instr.IsControl()
    ensures var ck', tag := RenameCkpts(c, ck, f.instr, Tag(head, c.cap, |st|), rat'), Tag(head, c.cap, i);
            tag in ck' && IsMap(c, head, st + [f], i + 1, ck'[tag])
  {
    hide Exec;
    var tag := Tag(head, c.cap, i);
    AppendMap(c, head, st, f, i + 1, ck[tag]);
    assert RenameCkpts(c, ck, f.instr, Tag(head, c.cap, |st|), rat')[tag] == ck[tag];
  }

  lemma {:induction false} RenameCk(c: Config, head: nat, st: seq<Fetched>, f: Fetched, ck: map<int, seq<int>>,
                                    rat': seq<int>)
    requires |st| < c.cap && head < c.cap && CkOk(c, head, st, ck)
    requires IsMap(c, head, st + [f], |st| + 1, rat')
    ensures CkOk(c, head, st + [f], RenameCkpts(c, ck, f.instr, Tag(head, c.cap, |st|), rat'))
  {
    var n, st' := |st|, st + [f];
    var ck' := RenameCkpts(c, ck, f.instr, Tag(head, c.cap, n), rat');
    forall i | 0 <= i < |st'| && st'[i].instr.IsControl()
      ensures Tag(head, c.cap, i) in ck' && IsMap(c, head, st', i + 1, ck'[Tag(head, c.cap, i)])
    {
      if i < n {
        RenameCkEntry(c, head, st, f, ck, rat', i);
      }
    }
  }

  lemma {:induction false} RenameEntries(c: Config, g: Arch, s: Core)
    requires CanRename(c, s) && AllValues(c, g, s.st, s.dy) && AllLoads(c, g, s.st, s.dy, s.sb)
    ensures var s' := Rename(c, s); AllValues(c, g, s'.st, s'.dy) && AllLoads(c, g, s'.st, s'.dy, s.sb)
  {
    var s' := Rename(c, s);
    forall i | 0 <= i < |s'.st| ensures ValuesOk(c, g, s'.st, s'.dy, i) {
      if i < |s.st| {
        assert ValuesOk(c, g, s.st, s.dy, i);
        AppendMeaning(c, g, s.st, s.front[0], i);
      }
    }
    forall i | 0 <= i < |s'.st| ensures LoadOk(c, g, s'.st, s'.dy, s.sb, i) {
      if i < |s.st| {
        assert LoadOk(c, g, s.st, s.dy, s.sb, i);
        AppendMeaning(c, g, s.st, s.front[0], i);
        QueuePrefix(c, s.st, s.dy, s'.st, s'.dy, i);
      }
    }
  }

  lemma {:induction false} RenameRs(c: Config, s: Core)
    requires CanRename(c, s) && RsOk(s.st, s.dy, s.rs) && IdsOk(s.dy, s.nextId)
    ensures var s' := Rename(c, s); RsOk(s'.st, s'.dy, s'.rs) && IdsOk(s'.dy, s'.nextId)
  {
    hide Exec;
    var s' := Rename(c, s);
    var n := |s.st|;
    assert s.nextId !in s.rs;
    forall i | 0 <= i < |s'.st|
      ensures s'.dy[i].id in s'.rs <==> !s'.st[i].instr.IsMem() && !s'.dy[i].issued
    {
      if i < n {
        assert s'.dy[i] == s.dy[i] && s.dy[i].id != s.nextId;
      }
    }
    forall id | id in s'.rs ensures exists i :: 0 <= i < |s'.dy| && s'.dy[i].id == id {
      if id in s.rs {
        var i :| 0 <= i < |s.dy| && s.dy[i].id == id;
        assert s'.dy[i].id == id;
      } else {
        assert s'.dy[n].id == id;
      }
    }
  }

  lemma {:induction false} RenameBeats(c: Config, g: Arch, s: Core)
    requires CanRename(c, s) && FuOk(c, g, s.st, s.dy, s.head, s.fu) && WakeOk(c, s.dy, s.head, s.wake)
    ensures var s' := Rename(c, s); FuOk(c, g, s'.st, s'.dy, s.head, s.fu) && WakeOk(c, s'.dy, s.head, s.wake)
  {
    var s' := Rename(c, s);
    forall b | b in s.fu ensures BeatOk(c, g, s'.st, s'.dy, s.head, b) {
      assert BeatOk(c, g, s.st, s.dy, s.head, b);
      AppendMeaning(c, g, s.st, s.front[0], Age(s.head, c.cap, b.tag));
    }
    forall b | b in s.wake ensures WakeBeatOk(c, s'.dy, s.head, b) {
      assert WakeBeatOk(c, s.dy, s.head, b);
    }
    forall i | 0 <= i < |s'.st| && s'.dy[i].issued && !s'.dy[i].done ensures HasBeat(s.fu, Tag(s.head, c.cap, i)) {
      assert i < |s.st|;
      assert s.dy[i].issued && !s.dy[i].done;
    }
  }

  lemma {:induction false} RenameMem(c: Config, g: Arch, s: Core)
    requires CanRename(c, s) && MemOk(c, g, s.st, s.dy, s.main, s.sb)
    ensures var s' := Rename(c, s); MemOk(c, g, s'.st, s'.dy, s.main, s.sb)
  {
    var n := DonePrefix(s.dy);
    DonePrefixIs(Rename(c, s).dy, n);
    AppendMeaning(c, g, s.st, s.front[0], n);
  }

  lemma {:induction false} RenamePath(c: Config, g: Arch, s: Core)
    requires CanRename(c, s) && PathOk(c, g.pc, s.st, s.dy, s.front, s.fetchPc)
    ensures var s' := Rename(c, s); PathOk(c, g.pc, s'.st, s'.dy, s'.front, s'.fetchPc)
  {
    var s' := Rename(c, s);
    var n := |s.st|;
    var start, start' := FlightPc(g.pc, s.st, s.dy, n), FlightPc(g.pc, s'.st, s'.dy, n + 1);
    assert s.front[0].pc == FrontPc(start, s.front, 0);
    assert start' == PredNext(s.front[0]);
    forall i | 0 <= i < |s'.st| ensures s'.st[i].pc == FlightPc(g.pc, s'.st, s'.dy, i) {
      assert FlightPc(g.pc, s'.st, s'.dy, i) == FlightPc(g.pc, s.st, s.dy, i);
    }
    forall j | 0 <= j < |s'.front| ensures s'.front[j].pc == FrontPc(start', s'.front, j) {
      assert FrontPc(start', s'.front, j) == FrontPc(start, s.front, j + 1);
    }
    assert FrontPc(start', s'.front, |s'.front|) == FrontPc(start, s.front, |s.front|);
    forall i | 0 <= i < |s'.st| ensures FetchedOk(c, s'.st[i]) {
      if i == n {
        assert FetchedOk(c, s.front[0]);
      } else {
        assert FetchedOk(c, s.st[i]);
      }
    }
  }

  lemma {:induction false} RenameNames(c: Config, s: Core)
    requires CanRename(c, s) && s.head < c.cap && ProgOk(c) && FetchedOk(c, s.front[0])
    requires IsMap(c, s.head, s.st, |s.st|, s.rat) && CkOk(c, s.head, s.st, s.ck)
    ensures var s' := Rename(c, s);
            IsMap(c, s.head, s'.st, |s'.st|, s'.rat) && CkOk(c, s.head, s'.st, s'.ck)
  {
    RenameMap(c, s.head, s.st, s.front[0], s.rat);
    RenameCk(c, s.head, s.st, s.front[0], s.ck, Rename(c, s).rat);
  }

  lemma {:induction false} RenameBack(c: Config, g: Arch, s: Core)
    requires ProgOk(c) && BackInv(c, g, s) && AllFetched(c, s.st) && CanRename(c, s) && FetchedOk(c, s.front[0])
    ensures BackInv(c, g, Rename(c, s))
  {
    RenameNames(c, s);
    RenameSources(c, g, s);
    RenameEntries(c, g, s);
    RenameRs(c, s);
    RenameBeats(c, g, s);
    RenameMem(c, g, s);
  }

  lemma {:induction false} RenameKeeps(c: Config, g: Arch, s: Core)
    requires ProgOk(c) && Inv(c, g, s) && CanRename(c, s)
    ensures Inv(c, g, Rename(c, s))
  {
    assert FetchedOk(c, s.front[0]);
    RenameBack(c, g, s);
    RenamePath(c, g, s);
  }

  // ---------------------------------------------------------------- commit

  lemma {:induction false} TagShift(c: Config, head: nat, i: nat)
    requires head < c.cap && i + 1 < c.cap
    ensures Tag(Tag(head, c.cap, 1), c.cap, i) == Tag(head, c.cap, i + 1)
  {
  }

  /** Clearing the committing tag from a map gives the map of the shorter flight. */
  lemma {:induction false} CommitMap(c: Config, head: nat, st: seq<Fetched>, i: nat, m: seq<int>)
    requires 0 < i <= |st| <= c.cap && head < c.cap && IsMap(c, head, st, i, m)
    requires st[0].instr.IsControl() ==> st[0].instr.dest <= 0
    ensures IsMap(c, Tag(head, c.cap, 1), st[1..], i - 1, CommitOne(c, m, st[0].instr, head))
  {
    var head' := Tag(head, c.cap, 1);
    var m' := CommitOne(c, m, st[0].instr, head);
    forall r | 0 <= r < c.nregs ensures m'[r] == MapEntry(c, head', LastWriter(c, st[1..], i - 1, r)) {
      MapAt(c, head, st, i, m, r);
      WriterShift(c, st, i, r);
      var j := LastWriter(c, st, i, r);
      if j > 0 {
        TagShift(c, head, j - 1);
      }
    }
    MapIs(c, head', st[1..], i - 1, m');
  }

  /** What commit makes of one rename map. */
  ghost function CommitOne(c: Config, m: seq<int>, ins: Instr, tag: int): seq<int> {
    if HasDest(ins) && ins.dest < c.nregs then RatCommit(m, ins.dest, tag) else m
  }

  lemma {:induction false} CommitCkEntry(c: Config, head: nat, st: seq<Fetched>, ck: map<int, seq<int>>, i: nat)
    requires 0 < i < |st| <= c.cap && head < c.cap && CkOk(c, head, st, ck) && st[i].instr.IsControl()
    requires st[0].instr.IsControl() ==> st[0].instr.dest <= 0
    ensures var ck', tag := CommitCkpts(c, ck, st[0].instr, head), Tag(head, c.cap, i);
            tag in ck' && IsMap(c, Tag(head, c.cap, 1), st[1..], i, ck'[tag])
  {
    var tag := Tag(head, c.cap, i);
    CommitMap(c, head, st, i + 1, ck[tag]);
    assert tag != head;
    assert CommitCkpts(c, ck, st[0].instr, head)[tag] == CommitOne(c, ck[tag], st[0].instr, head);
  }

  lemma {:induction false} CommitCkTag(c: Config, head: nat, st: seq<Fetched>, ck: map<int, seq<int>>, t: int)
    requires st != [] && |st| <= c.cap && head < c.cap && CkOk(c, head, st, ck)
    requires t in ck && (st[0].instr.IsControl() ==> t != head)
    ensures var head' := Tag(head, c.cap, 1);
            && 0 <= t < c.cap && 0 <= Age(head', c.cap, t) < |st| - 1
            && st[1..][Age(head', c.cap, t)].instr.IsControl()
  {
    var a := Age(head, c.cap, t);
    assert a != 0;
    assert Age(Tag(head, c.cap, 1), c.cap, t) == a - 1;
  }

  lemma {:induction false} CommitCk(c: Config, head: nat, st: seq<Fetched>, ck: map<int, seq<int>>)
    requires st != [] && |st| <= c.cap && head < c.cap && CkOk(c, head, st, ck)
    requires st[0].instr.IsControl() ==> st[0].instr.dest <= 0
    ensures CkOk(c, Tag(head, c.cap, 1), st[1..], CommitCkpts(c, ck, st[0].instr, head))
  {
    var head', st', ck' := Tag(head, c.cap, 1), st[1..], CommitCkpts(c, ck, st[0].instr, head);
    forall i | 0 <= i < |st'| && st'[i].instr.IsControl()
      ensures Tag(head', c.cap, i) in ck' && IsMap(c, head', st', i + 1, ck'[Tag(head', c.cap, i)])
    {
      TagShift(c, head, i);
      CommitCkEntry(c, head, st, ck, i + 1);
    }
    forall t | t in ck'
      ensures 0 <= t < c.cap && 0 <= Age(head', c.cap, t) < |st'| && st'[Age(head', c.cap, t)].instr.IsControl()
    {
      CommitCkTag(c, head, st, ck, t);
    }
  }

  lemma {:induction false} CommitOperand(c: Config, g: Arch, st: seq<Fetched>, dy: seq<Dyn>, head: nat, i: nat,
                                         r: int, o: Operand)
    requires 0 < i < |st| == |dy| <= c.cap && head < c.cap && g.pc == st[0].pc && dy[0].done
    requires OperandOk(c, g, st, dy, head, [], i, r, o)
    ensures OperandOk(c, Exec(c, g, st[0].instr), st[1..], dy[1..], Tag(head, c.cap, 1), [], i - 1, r, o)
  {
    hide Exec;
    SpecShift(c, g, st, i);
    if !o.ready {
      var j := LastWriter(c, st, i, r);
      WriterShift(c, st, i, r);
      TagShift(c, head, j - 1);
    }
  }

  lemma {:induction false} CommitSourcesAt(c: Config, g: Arch, st: seq<Fetched>, dy: seq<Dyn>, head: nat, i: nat)
    requires 0 < i < |st| == |dy| <= c.cap && head < c.cap && g.pc == st[0].pc && dy[0].done
    requires SourcesOk(c, g, st, dy, head, [], i)
    ensures SourcesOk(c, Exec(c, g, st[0].instr), st[1..], dy[1..], Tag(head, c.cap, 1), [], i - 1)
  {
    var d, ins := dy[i], st[i].instr;
    assert st[1..][i - 1] == st[i] && dy[1..][i - 1] == dy[i];
    CommitOperand(c, g, st, dy, head, i, ins.src1, d.src1);
    if ins.op != ADDI {
      CommitOperand(c, g, st, dy, head, i, ins.src2, d.src2);
    }
    if ins.IsStore() && ins.dest > 0 {
      CommitOperand(c, g, st, dy, head, i, ins.dest, d.data);
    }
  }

  lemma {:induction false} CommitSources(c: Config, g: Arch, st: seq<Fetched>, dy: seq<Dyn>, head: nat)
    requires 0 < |st| == |dy| <= c.cap && head < c.cap && g.pc == st[0].pc && dy[0].done
    requires AllSources(c, g, st, dy, head, [])
    ensures AllSources(c, Exec(c, g, st[0].instr), st[1..], dy[1..], Tag(head, c.cap, 1), [])
  {
    hide Exec;
    var g', st', dy', head' := Exec(c, g, st[0].instr), st[1..], dy[1..], Tag(head, c.cap, 1);
    forall i | 0 <= i < |st'| && !dy'[i].done ensures SourcesOk(c, g', st', dy', head', [], i) {
      assert SourcesOk(c, g, st, dy, head, [], i + 1);
      CommitSourcesAt(c, g, st, dy, head, i + 1);
    }
  }

  lemma {:induction false} CommitValues(c: Config, g: Arch, st: seq<Fetched>, dy: seq<Dyn>)
    requires 0 < |st| == |dy| && g.pc == st[0].pc && AllValues(c, g, st, dy)
    ensures AllValues(c, Exec(c, g, st[0].instr), st[1..], dy[1..])
  {
    hide Exec;
    var g', st', dy' := Exec(c, g, st[0].instr), st[1..], dy[1..];
    forall i | 0 <= i < |st'| ensures ValuesOk(c, g', st', dy', i) {
      assert ValuesOk(c, g, st, dy, i + 1);
      SpecShift(c, g, st, i + 1);
    }
  }

  lemma {:induction false} CommitLoad(c: Config, g: Arch, st: seq<Fetched>, dy: seq<Dyn>, sb: seq<SbEntry>, i: nat)
    requires 0 < i < |st| == |dy| && g.pc == st[0].pc && dy[0].done && LoadOk(c, g, st, dy, sb, i)
    ensures LoadOk(c, Exec(c, g, st[0].instr), st[1..], dy[1..], sb, i - 1)
  {
    SpecShift(c, g, st, i);
    QueueShift(c, st, dy, i);
    if dy[i].load.LoadWaiting? && !dy[i].done {
      assert StoresKnown(st[1..], dy[1..], i - 1) by {
        assert forall j :: 0 <= j < i - 1 ==> st[1..][j] == st[j + 1] && dy[1..][j] == dy[j + 1];
      }
    }
  }

  lemma {:induction false} CommitLoads(c: Config, g: Arch, st: seq<Fetched>, dy: seq<Dyn>, sb: seq<SbEntry>)
    requires 0 < |st| == |dy| && g.pc == st[0].pc && dy[0].done && AllLoads(c, g, st, dy, sb)
    ensures AllLoads(c, Exec(c, g, st[0].instr), st[1..], dy[1..], sb)
  {
    var g', st', dy' := Exec(c, g, st[0].instr), st[1..], dy[1..];
    forall i | 0 <= i < |st'| ensures LoadOk(c, g', st', dy', sb, i) {
      assert LoadOk(c, g, st, dy, sb, i + 1);
      CommitLoad(c, g, st, dy, sb, i + 1);
    }
  }

  lemma {:induction false} CommitRs(c: Config, g: Arch, s: Core)
    requires CanCommit(s) && RsOk(s.st, s.dy, s.rs) && IdsOk(s.dy, s.nextId) && AllValues(c, g, s.st, s.dy)
    ensures RsOk(s.st[1..], s.dy[1..], s.rs) && IdsOk(s.dy[1..], s.nextId)
  {
    hide Exec;
    assert ValuesOk(c, g, s.st, s.dy, 0);
    assert s.dy[0].id !in s.rs;
    forall id | id in s.rs ensures exists i :: 0 <= i < |s.dy[1..]| && s.dy[1..][i].id == id {
      var i :| 0 <= i < |s.dy| && s.dy[i].id == id;
      assert s.dy[1..][i - 1].id == id;
    }
  }

  lemma {:induction false} CommitBeat(c: Config, g: Arch, st: seq<Fetched>, dy: seq<Dyn>, head: nat, b: Beat)
    requires 0 < |st| == |dy| <= c.cap && head < c.cap && g.pc == st[0].pc && dy[0].done
    requires BeatOk(c, g, st, dy, head, b)
    ensures BeatOk(c, Exec(c, g, st[0].instr), st[1..], dy[1..], Tag(head, c.cap, 1), b)
  {
    var a := Age(head, c.cap, b.tag);
    assert a > 0;
    assert Age(Tag(head, c.cap, 1), c.cap, b.tag) == a - 1;
    SpecShift(c, g, st, a);
  }

  lemma {:induction false} CommitFu(c: Config, g: Arch, st: seq<Fetched>, dy: seq<Dyn>, head: nat, fu: seq<Beat>)
    requires 0 < |st| == |dy| <= c.cap && head < c.cap && g.pc == st[0].pc && dy[0].done
    requires FuOk(c, g, st, dy, head, fu)
    ensures FuOk(c, Exec(c, g, st[0].instr), st[1..], dy[1..], Tag(head, c.cap, 1), fu)
  {
    var g', st', dy', head' := Exec(c, g, st[0].instr), st[1..], dy[1..], Tag(head, c.cap, 1);
    forall b | b in fu ensures BeatOk(c, g', st', dy', head', b) {
      assert BeatOk(c, g, st, dy, head, b);
      CommitBeat(c, g, st, dy, head, b);
    }
    forall i | 0 <= i < |st'| && dy'[i].issued && !dy'[i].done ensures HasBeat(fu, Tag(head', c.cap, i)) {
      TagShift(c, head, i);
      assert dy[i + 1].issued && !dy[i + 1].done;
    }
  }

  lemma {:induction false} CommitMem(c: Config, g: Arch, s: Core)
    requires CanCommit(s) && g.pc == s.st[0].pc && MemOk(c, g, s.st, s.dy, s.main, s.sb)
    ensures MemOk(c, Exec(c, g, s.st[0].instr), s.st[1..], s.dy[1..], s.main, s.sb)
  {
    var n := DonePrefix(s.dy);
    DonePrefixIs(s.dy[1..], n - 1);
    SpecShift(c, g, s.st, n);
  }

  /** The in-order pc after the head instruction is the one the flight continues from. */
  lemma {:induction false} CommitPc(c: Config, g: Arch, st: seq<Fetched>, dy: seq<Dyn>)
    requires 0 < |st| == |dy| && dy[0].done && g.pc == st[0].pc && FetchedOk(c, st[0]) && AllValues(c, g, st, dy)
    ensures Exec(c, g, st[0].instr).pc == NextOf(st[0], dy[0])
  {
    DoneValue(c, g, st, dy, 0);
    assert SpecAt(c, g, st, 0) == g;
  }

  lemma {:induction false} ChainShift(c: Config, pc: Pc, pc': Pc, st: seq<Fetched>, dy: seq<Dyn>, front: seq<Fetched>,
                                      fetchPc: Pc)
    requires 0 < |st| == |dy| && PathOk(c, pc, st, dy, front, fetchPc) && pc' == NextOf(st[0], dy[0])
    ensures PathOk(c, pc', st[1..], dy[1..], front, fetchPc)
  {
    var st', dy' := st[1..], dy[1..];
    forall i | 0 <= i <= |st'| ensures FlightPc(pc', st', dy', i) == FlightPc(pc, st, dy, i + 1) {
    }
    forall i | 0 <= i < |st'| ensures st'[i].pc == FlightPc(pc', st', dy', i) {
      assert st[i + 1].pc == FlightPc(pc, st, dy, i + 1);
    }
    assert AllFetched(c, st') by {
      forall i | 0 <= i < |st'| ensures FetchedOk(c, st'[i]) {
        assert FetchedOk(c, st[i + 1]);
      }
    }
  }

  lemma {:induction false} CommitPath(c: Config, g: Arch, s: Core)
    requires CanCommit(s) && PathOk(c, g.pc, s.st, s.dy, s.front, s.fetchPc) && AllValues(c, g, s.st, s.dy)
    ensures g.pc == s.st[0].pc
    ensures PathOk(c, Exec(c, g, s.st[0].instr).pc, s.st[1..], s.dy[1..], s.front, s.fetchPc)
  {
    assert s.st[0].pc == FlightPc(g.pc, s.st, s.dy, 0);
    CommitPc(c, g, s.st, s.dy);
    ChainShift(c, g.pc, Exec(c, g, s.st[0].instr).pc, s.st, s.dy, s.front, s.fetchPc);
  }

  lemma {:induction false} CommitRegs(c: Config, g: Arch, s: Core)
    requires CanCommit(s) && RegsOk(c, g, s.arf) && AllValues(c, g, s.st, s.dy)
    requires s.st[0].instr.IsControl() ==> s.st[0].instr.dest <= 0
    ensures RegsOk(c, Exec(c, g, s.st[0].instr), CommitHead(c, s).arf)
  {
    assert ValuesOk(c, g, s.st, s.dy, 0);
  }

  lemma {:induction false} CommitPhase(c: Config, s: Core)
    requires CanCommit(s) && |s.st| <= c.cap && s.head < c.cap
    requires PhaseOk(c, s.phase, s.head, |s.st|, s.freed, s.wake)
    ensures var s' := CommitHead(c, s); PhaseOk(c, s'.phase, s'.head, |s'.st|, s'.freed, s'.wake)
  {
    var s' := CommitHead(c, s);
    forall i | 0 <= i < |s'.st| ensures Tag(s'.head, c.cap, i) !in s'.freed {
      TagShift(c, s.head, i);
      assert Tag(s.head, c.cap, i + 1) !in s.freed;
    }
  }

  lemma {:induction false} CommitNames(c: Config, s: Core)
    requires CanCommit(s) && |s.st| <= c.cap && s.head < c.cap
    requires s.st[0].instr.IsControl() ==> s.st[0].instr.dest <= 0
    requires IsMap(c, s.head, s.st, |s.st|, s.rat) && CkOk(c, s.head, s.st, s.ck)
    ensures var s' := CommitHead(c, s);
            IsMap(c, s'.head, s'.st, |s'.st|, s'.rat) && CkOk(c, s'.head, s'.st, s'.ck)
  {
    CommitMap(c, s.head, s.st, |s.st|, s.rat);
    CommitCk(c, s.head, s.st, s.ck);
  }

  lemma {:induction false} CommitEntries(c: Config, g: Arch, s: Core)
    requires CanCommit(s) && |s.st| <= c.cap && s.head < c.cap && g.pc == s.st[0].pc && s.wake == []
    requires AllSources(c, g, s.st, s.dy, s.head, s.wake) && AllValues(c, g, s.st, s.dy)
    requires AllLoads(c, g, s.st, s.dy, s.sb) && FuOk(c, g, s.st, s.dy, s.head, s.fu)
    ensures var s', g' := CommitHead(c, s), Exec(c, g, s.st[0].instr);
            && AllSources(c, g', s'.st, s'.dy, s'.head, s'.wake) && AllValues(c, g', s'.st, s'.dy)
            && AllLoads(c, g', s'.st, s'.dy, s'.sb) && FuOk(c, g', s'.st, s'.dy, s'.head, s'.fu)
  {
    CommitSources(c, g, s.st, s.dy, s.head);
    CommitValues(c, g, s.st, s.dy);
    CommitLoads(c, g, s.st, s.dy, s.sb);
    CommitFu(c, g, s.st, s.dy, s.head, s.fu);
  }

  lemma {:induction false} CommitBack(c: Config, g: Arch, s: Core)
    requires BackInv(c, g, s) && CanCommit(s) && g.pc == s.st[0].pc
    requires s.st[0].instr.IsControl() ==> s.st[0].instr.dest <= 0
    ensures BackInv(c, Exec(c, g, s.st[0].instr), CommitHead(c, s))
  {
    CommitRegs(c, g, s);
    CommitNames(c, s);
    CommitEntries(c, g, s);
    CommitRs(c, g, s);
    CommitMem(c, g, s);
    CommitPhase(c, s);
  }

  /** Commit executes the head instruction on the in-order model and keeps the invariant with the result. */
  lemma {:induction false} CommitKeeps(c: Config, g: Arch, s: Core)
    requires ProgOk(c) && Inv(c, g, s) && CanCommit(s)
    ensures g.pc == s.st[0].pc && g.pc in c.prog && c.prog[g.pc] == s.st[0].instr
    ensures Inv(c, Exec(c, g, c.prog[g.pc]), CommitHead(c, s))
  {
    CommitPath(c, g, s);
    assert FetchedOk(c, s.st[0]);
    CommitBack(c, g, s);
  }
}
