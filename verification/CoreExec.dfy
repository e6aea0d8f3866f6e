/** Issue, broadcast, branch resolution and recovery. */
module CoreExec {
  import opened Words
  import opened Isa
  import opened Core
  import opened CoreInv
  import opened CoreSteps
  import opened CoreMemory

  // ---------------------------------------------------------------- issue to a functional unit

  /** Ready operands in the reservation station are the in-order operands. */
  lemma {:induction false} IssueValue(c: Config, g: Arch, s: Core, i: nat)
    requires CanIssue(s, i) && RsOk(s.st, s.dy, s.rs) && !s.dy[i].done
    requires AllSources(c, g, s.st, s.dy, s.head, s.wake)
    ensures Compute(c, s.st[i].instr.op, s.dy[i].src1.val, s.dy[i].src2.val) == SpecResult(c, g, s.st, i)
  {
    assert SourcesOk(c, g, s.st, s.dy, s.head, s.wake, i);
  }

  lemma {:induction false} NotDoneBeforeIssue(c: Config, g: Arch, s: Core, i: nat)
    requires CanIssue(s, i) && AllValues(c, g, s.st, s.dy)
    ensures !s.dy[i].done
  {
    assert ValuesOk(c, g, s.st, s.dy, i);
  }

  lemma {:induction false} NotInFu(c: Config, g: Arch, s: Core, i: nat, b: Beat)
    requires i < |s.st| == |s.dy| <= c.cap && s.head < c.cap && !s.dy[i].issued
    requires FuOk(c, g, s.st, s.dy, s.head, s.fu) && b in s.fu
    ensures b.tag != Tag(s.head, c.cap, i)
  {
    BeatIsIssued(c, g, s.st, s.dy, s.head, s.fu, b);
    assert Age(s.head, c.cap, b.tag) != i;
  }

  lemma {:induction false} BeatIsIssued(c: Config, g: Arch, st: seq<Fetched>, dy: seq<Dyn>, head: nat, fu: seq<Beat>,
                                        b: Beat)
    requires |st| == |dy| && FuOk(c, g, st, dy, head, fu) && b in fu
    ensures 0 <= b.tag < c.cap && 0 <= Age(head, c.cap, b.tag) < |st|
    ensures dy[Age(head, c.cap, b.tag)].issued && !dy[Age(head, c.cap, b.tag)].done
  {
    assert BeatOk(c, g, st, dy, head, b);
  }

  lemma {:induction false} AppendDistinct(fu: seq<Beat>, b: Beat)
    requires DistinctTags(fu) && forall x :: x in fu ==> x.tag != b.tag
    ensures DistinctTags(fu + [b])
  {
    forall p, q | 0 <= p < q < |fu + [b]| ensures (fu + [b])[p].tag != (fu + [b])[q].tag {
      assert (fu + [b])[p] == fu[p] && fu[p] in fu;
    }
  }

  lemma {:induction false} IssueFu(c: Config, g: Arch, s: Core, i: nat)
    requires CanIssue(s, i) && ShapeOk(c, s.head, s.st, s.dy) && !s.dy[i].done
    requires FuOk(c, g, s.st, s.dy, s.head, s.fu)
    requires Compute(c, s.st[i].instr.op, s.dy[i].src1.val, s.dy[i].src2.val) == SpecResult(c, g, s.st, i)
    ensures var s' := Issue(c, s, i); FuOk(c, g, s.st, s'.dy, s.head, s'.fu)
  {
    hide Exec;
    var s' := Issue(c, s, i);
    forall b | b in s'.fu ensures BeatOk(c, g, s.st, s'.dy, s.head, b) {
      if b in s.fu {
        assert BeatOk(c, g, s.st, s.dy, s.head, b);
      }
    }
    forall b | b in s.fu ensures b.tag != Tag(s.head, c.cap, i) {
      NotInFu(c, g, s, i, b);
    }
    AppendDistinct(s.fu, s'.fu[|s.fu|]);
    forall j | 0 <= j < |s.st| && s'.dy[j].issued && !s'.dy[j].done ensures HasBeat(s'.fu, Tag(s.head, c.cap, j)) {
      if j == i {
        assert s'.fu[|s.fu|] in s'.fu;
      } else {
        assert HasBeat(s.fu, Tag(s.head, c.cap, j));
        var b :| b in s.fu && b.tag == Tag(s.head, c.cap, j);
        assert b in s'.fu;
      }
    }
  }

  lemma {:induction false} IssueEntries(c: Config, g: Arch, s: Core, i: nat)
    requires CanIssue(s, i) && AllValues(c, g, s.st, s.dy) && AllSources(c, g, s.st, s.dy, s.head, s.wake)
    requires AllLoads(c, g, s.st, s.dy, s.sb)
    ensures var dy' := Issue(c, s, i).dy;
            && AllValues(c, g, s.st, dy') && AllSources(c, g, s.st, dy', s.head, s.wake)
            && AllLoads(c, g, s.st, dy', s.sb)
  {
    var dy' := Issue(c, s, i).dy;
    assert ValuesOk(c, g, s.st, s.dy, i);
    ValuesFrame(c, g, s.st, s.dy, i, dy'[i]);
    SourcesFrame(c, g, s.st, s.dy, dy', s.head, s.wake);
    LoadsFrame(c, g, s.st, s.dy, dy', s.sb);
  }

  lemma {:induction false} IssueRs(st: seq<Fetched>, dy: seq<Dyn>, rs: map<nat, RsOps>, nextId: nat, i: nat)
    requires i < |st| == |dy| && RsOk(st, dy, rs) && IdsOk(dy, nextId) && !st[i].instr.IsMem()
    ensures var dy' := dy[i := dy[i].(issued := true)]; RsOk(st, dy', rs - {dy[i].id}) && IdsOk(dy', nextId)
  {
    var dy', rs' := dy[i := dy[i].(issued := true)], rs - {dy[i].id};
    forall j | 0 <= j < |st| ensures dy'[j].id in rs' <==> !st[j].instr.IsMem() && !dy'[j].issued {
      if j != i {
        assert dy[j].id != dy[i].id;
      }
    }
    forall id | id in rs' ensures exists j :: 0 <= j < |dy'| && dy'[j].id == id {
      var j :| 0 <= j < |dy| && dy[j].id == id;
      assert dy'[j].id == id;
    }
  }

  lemma {:induction false} IssueResults(c: Config, g: Arch, s: Core, i: nat)
    requires CanIssue(s, i) && PathOk(c, g.pc, s.st, s.dy, s.front, s.fetchPc)
    requires WakeOk(c, s.dy, s.head, s.wake) && MemOk(c, g, s.st, s.dy, s.main, s.sb)
    ensures var dy' := Issue(c, s, i).dy;
            && PathOk(c, g.pc, s.st, dy', s.front, s.fetchPc)
            && WakeOk(c, dy', s.head, s.wake) && MemOk(c, g, s.st, dy', s.main, s.sb)
  {
    ResultsFrame(c, g, s, Issue(c, s, i).dy);
  }

  lemma {:induction false} IssueKeeps(c: Config, g: Arch, s: Core, i: nat)
    requires Inv(c, g, s) && CanIssue(s, i)
    ensures Inv(c, g, Issue(c, s, i))
  {
    NotDoneBeforeIssue(c, g, s, i);
    IssueValue(c, g, s, i);
    IssueFu(c, g, s, i);
    IssueEntries(c, g, s, i);
    IssueRs(s.st, s.dy, s.rs, s.nextId, i);
    IssueResults(c, g, s, i);
  }

  // ---------------------------------------------------------------- completing an entry

  lemma {:induction false} CompleteEntries(c: Config, g: Arch, st: seq<Fetched>, dy: seq<Dyn>, sb: seq<SbEntry>,
                                           i: nat, v: Word)
    requires i < |st| == |dy| && !dy[i].done && !st[i].instr.IsStore() && v == SpecResult(c, g, st, i)
    requires !st[i].instr.IsMem() ==> dy[i].issued
    requires AllValues(c, g, st, dy) && AllLoads(c, g, st, dy, sb)
    ensures AllValues(c, g, st, Complete(dy, i, v)) && AllLoads(c, g, st, Complete(dy, i, v), sb)
  {
    assert ValuesOk(c, g, st, dy, i);
    ValuesFrame(c, g, st, dy, i, Complete(dy, i, v)[i]);
    LoadsFrame(c, g, st, dy, Complete(dy, i, v), sb);
  }

  /** Completing anything but a store extends the done prefix over no store, so memory stays as it was. */
  lemma {:induction false} CompleteMem(c: Config, g: Arch, st: seq<Fetched>, dy: seq<Dyn>, main: seq<Lanes>,
                                       sb: seq<SbEntry>, i: nat, v: Word)
    requires i < |st| == |dy| && !dy[i].done && !st[i].instr.IsStore()
    requires AllValues(c, g, st, dy) && MemOk(c, g, st, dy, main, sb)
    ensures MemOk(c, g, st, Complete(dy, i, v), main, sb)
  {
    var dy' := Complete(dy, i, v);
    var n, n' := DonePrefix(dy), DonePrefix(dy');
    assert n <= n' by {
      if n' < n {
        assert false;
      }
    }
    forall j | n <= j < n' ensures !st[j].instr.IsStore() {
      assert ValuesOk(c, g, st, dy, j);
      assert dy'[j].done;
    }
    MemSkip(c, g, st, n, n');
  }

  /** A broadcast makes the value visible in the ROB now and to waiting operands next cycle. */
  lemma {:induction false} CompleteSources(c: Config, g: Arch, st: seq<Fetched>, dy: seq<Dyn>, head: nat,
                                           wake: seq<Beat>, i: nat, v: Word)
    requires i < |st| == |dy| <= c.cap && head < c.cap && !dy[i].done
    requires AllSources(c, g, st, dy, head, wake) && WakeOk(c, dy, head, wake)
    ensures var wake' := wake + [Beat(Tag(head, c.cap, i), v)];
            && AllSources(c, g, st, Complete(dy, i, v), head, wake')
            && WakeOk(c, Complete(dy, i, v), head, wake')
  {
    var dy', b := Complete(dy, i, v), Beat(Tag(head, c.cap, i), v);
    var wake' := wake + [b];
    assert b in wake';
    assert forall x :: x in wake ==> x in wake';
    forall m | 0 <= m < |st| && !dy'[m].done ensures SourcesOk(c, g, st, dy', head, wake', m) {
      assert SourcesOk(c, g, st, dy, head, wake, m);
    }
    forall x | x in wake' ensures WakeBeatOk(c, dy', head, x) {
      if x in wake {
        assert WakeBeatOk(c, dy, head, x);
      } else {
        assert x == b;
      }
    }
  }

  lemma {:induction false} RemoveDistinct(fu: seq<Beat>, k: nat)
    requires k < |fu| && DistinctTags(fu)
    ensures DistinctTags(fu[..k] + fu[k + 1..])
  {
    var fu' := fu[..k] + fu[k + 1..];
    forall p, q | 0 <= p < q < |fu'| ensures fu'[p].tag != fu'[q].tag {
      assert fu'[p] == fu[if p < k then p else p + 1] && fu'[q] == fu[if q < k then q else q + 1];
    }
  }

  lemma {:induction false} RemoveKeepsOthers(fu: seq<Beat>, k: nat, tag: int)
    requires k < |fu| && HasBeat(fu, tag) && fu[k].tag != tag
    ensures HasBeat(fu[..k] + fu[k + 1..], tag)
  {
    var fu' := fu[..k] + fu[k + 1..];
    var b :| b in fu && b.tag == tag;
    var m :| 0 <= m < |fu| && fu[m] == b;
    assert b == if m < k then fu'[m] else fu'[m - 1];
    assert b in fu';
  }

  /** Taking an entry's beat and completing it leaves the other beats right. */
  lemma {:induction false} TakeBeat(c: Config, g: Arch, st: seq<Fetched>, dy: seq<Dyn>, head: nat, fu: seq<Beat>,
                                    k: nat)
    requires |st| == |dy| <= c.cap && head < c.cap && k < |fu| && FuOk(c, g, st, dy, head, fu)
    requires 0 <= Age(head, c.cap, fu[k].tag) < |st|
    ensures FuOk(c, g, st, Complete(dy, Age(head, c.cap, fu[k].tag), fu[k].val), head, fu[..k] + fu[k + 1..])
  {
    hide Exec, ResultOf, SpecAt, AccessMask, StoreLanes, LoadExtend;
    var i := Age(head, c.cap, fu[k].tag);
    var dy', fu' := Complete(dy, i, fu[k].val), fu[..k] + fu[k + 1..];
    assert BeatOk(c, g, st, dy, head, fu[k]);
    forall b | b in fu' ensures BeatOk(c, g, st, dy', head, b) {
      BeatElsewhere(fu, k, b);
      assert BeatOk(c, g, st, dy, head, b);
    }
    RemoveDistinct(fu, k);
    forall j | 0 <= j < |st| && dy'[j].issued && !dy'[j].done ensures HasBeat(fu', Tag(head, c.cap, j)) {
      assert HasBeat(fu, Tag(head, c.cap, j));
      RemoveKeepsOthers(fu, k, Tag(head, c.cap, j));
    }
  }

  lemma {:induction false} BeatElsewhere(fu: seq<Beat>, k: nat, b: Beat)
    requires k < |fu| && DistinctTags(fu) && b in fu[..k] + fu[k + 1..]
    ensures b in fu && b.tag != fu[k].tag
  {
    if b in fu[..k] {
      var m :| 0 <= m < k && fu[m] == b;
    } else {
      var m :| 0 <= m < |fu[k + 1..]| && fu[k + 1..][m] == b;
      assert fu[k + 1 + m] == b;
    }
  }

  lemma {:induction false} BroadcastKeeps(c: Config, g: Arch, s: Core, k: nat)
    requires Inv(c, g, s) && CanBroadcast(c, s, k)
    ensures Inv(c, g, Broadcast(c, s, k))
  {
    var i := Age(s.head, c.cap, s.fu[k].tag);
    var v := s.fu[k].val;
    assert BeatOk(c, g, s.st, s.dy, s.head, s.fu[k]);
    CompleteEntries(c, g, s.st, s.dy, s.sb, i, v);
    CompleteMem(c, g, s.st, s.dy, s.main, s.sb, i, v);
    CompleteSources(c, g, s.st, s.dy, s.head, s.wake, i, v);
    TakeBeat(c, g, s.st, s.dy, s.head, s.fu, k);
    CompleteIds(s, i, v);
    CompletePath(c, g, s, i, v);
    assert s.fu[k] == Beat(Tag(s.head, c.cap, i), v);
  }

  lemma {:induction false} LoadNotInFu(c: Config, g: Arch, s: Core, i: nat, v: Word)
    requires i < |s.st| == |s.dy| && s.st[i].instr.IsMem() && FuOk(c, g, s.st, s.dy, s.head, s.fu)
    requires AllValues(c, g, s.st, s.dy)
    ensures FuOk(c, g, s.st, Complete(s.dy, i, v), s.head, s.fu)
  {
    FuFrame(c, g, s.st, s.dy, Complete(s.dy, i, v), s.head, s.fu);
  }

  lemma {:induction false} LoadToBroadcast(c: Config, g: Arch, s: Core, i: nat)
    requires CanBroadcastLoad(s, i) && AllValues(c, g, s.st, s.dy)
    ensures s.st[i].instr.IsLoad() && s.dy[i].load.buf == SpecResult(c, g, s.st, i)
  {
    assert ValuesOk(c, g, s.st, s.dy, i);
  }

  lemma {:induction false} BroadcastLoadEntries(c: Config, g: Arch, s: Core, i: nat)
    requires BackInv(c, g, s) && CanBroadcastLoad(s, i)
    ensures BackInv(c, g, BroadcastLoad(c, s, i))
  {
    var v := s.dy[i].load.buf;
    LoadToBroadcast(c, g, s, i);
    CompleteEntries(c, g, s.st, s.dy, s.sb, i, v);
    CompleteMem(c, g, s.st, s.dy, s.main, s.sb, i, v);
    CompleteSources(c, g, s.st, s.dy, s.head, s.wake, i, v);
    LoadNotInFu(c, g, s, i, v);
    CompleteIds(s, i, v);
  }

  lemma {:induction false} BroadcastLoadKeeps(c: Config, g: Arch, s: Core, i: nat)
    requires Inv(c, g, s) && CanBroadcastLoad(s, i)
    ensures Inv(c, g, BroadcastLoad(c, s, i))
  {
    hide Exec, ResultOf, SpecAt, AccessMask, StoreLanes, LoadExtend;
    BroadcastLoadEntries(c, g, s, i);
    LoadToBroadcast(c, g, s, i);
    CompletePath(c, g, s, i, s.dy[i].load.buf);
  }

  // ---------------------------------------------------------------- branch resolution

  /** Completing a branch: nobody waits for it, and its taken bit is the in-order one. */
  lemma {:induction false} CompleteBranchSources(c: Config, g: Arch, st: seq<Fetched>, dy: seq<Dyn>, head: nat,
                                                 wake: seq<Beat>, i: nat, v: Word)
    requires i < |st| == |dy| && !dy[i].done && st[i].instr.IsControl()
    requires AllSources(c, g, st, dy, head, wake) && WakeOk(c, dy, head, wake)
    ensures AllSources(c, g, st, Complete(dy, i, v), head, wake) && WakeOk(c, Complete(dy, i, v), head, wake)
  {
    var dy' := Complete(dy, i, v);
    SourcesFrame(c, g, st, dy, dy', head, wake);
    forall x | x in wake ensures WakeBeatOk(c, dy', head, x) {
      assert WakeBeatOk(c, dy, head, x);
    }
  }

  /** A right prediction is the actual next pc. */
  lemma {:induction false} PredictedRight(c: Config, g: Arch, s: Core, i: nat, v: Word)
    requires i < |s.st| == |s.dy| && PathOk(c, g.pc, s.st, s.dy, s.front, s.fetchPc)
    requires !s.dy[i].done && s.st[i].instr.IsControl() && !Mispredicted(s.st[i], v != 0)
    ensures PathOk(c, g.pc, s.st, Complete(s.dy, i, v), s.front, s.fetchPc)
  {
    var dy' := Complete(s.dy, i, v);
    forall j | 0 <= j <= |s.st| ensures FlightPc(g.pc, s.st, dy', j) == FlightPc(g.pc, s.st, s.dy, j) {
    }
  }

  /** A resolved branch before the path is checked: everything but the chain of pcs is in order. */
  ghost function Resolved(c: Config, s: Core, k: nat): Core
    requires CanResolve(c, s, k)
  {
    s.(fu := s.fu[..k] + s.fu[k + 1..], dy := Complete(s.dy, Age(s.head, c.cap, s.fu[k].tag), s.fu[k].val))
  }

  lemma {:induction false} ResolvedBack(c: Config, g: Arch, s: Core, k: nat)
    requires Inv(c, g, s) && CanResolve(c, s, k)
    ensures BackInv(c, g, Resolved(c, s, k))
  {
    var i := Age(s.head, c.cap, s.fu[k].tag);
    var v := s.fu[k].val;
    assert BeatOk(c, g, s.st, s.dy, s.head, s.fu[k]);
    CompleteEntries(c, g, s.st, s.dy, s.sb, i, v);
    CompleteMem(c, g, s.st, s.dy, s.main, s.sb, i, v);
    CompleteBranchSources(c, g, s.st, s.dy, s.head, s.wake, i, v);
    TakeBeat(c, g, s.st, s.dy, s.head, s.fu, k);
    CompleteIds(s, i, v);
  }

  lemma {:induction false} ResolveRightKeeps(c: Config, g: Arch, s: Core, k: nat)
    requires Inv(c, g, s) && CanResolve(c, s, k)
    requires !Mispredicted(s.st[Age(s.head, c.cap, s.fu[k].tag)], s.fu[k].val != 0)
    ensures Inv(c, g, Resolve(c, s, k))
  {
    var i := Age(s.head, c.cap, s.fu[k].tag);
    assert BeatOk(c, g, s.st, s.dy, s.head, s.fu[k]);
    ResolvedBack(c, g, s, k);
    PredictedRight(c, g, s, i, s.fu[k].val);
    assert Resolve(c, s, k) == Resolved(c, s, k);
  }
}
