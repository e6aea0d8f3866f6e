/** Early recovery keeps exactly the mispredicted branch and everything older. */
module CoreRecover {
  import opened Words
  import opened Isa
  import opened Core
  import opened CoreInv
  import opened CoreSteps
  import opened CoreMemory
  import opened CoreExec

  // ---------------------------------------------------------------- tags and filtered beats

  /** The killed tags are those of the entries younger than `k`. */
  lemma {:induction false} Killed(c: Config, s: Core, k: nat, t: int)
    requires |s.st| <= c.cap && s.head < c.cap && k < |s.st|
    requires 0 <= t < c.cap && 0 <= Age(s.head, c.cap, t) < |s.st|
    ensures t in KillTags(c, s, k) <==> Age(s.head, c.cap, t) > k
  {
    var a := Age(s.head, c.cap, t);
    assert Tag(s.head, c.cap, a) == t;
  }

  lemma {:induction false} SurvivorTag(c: Config, s: Core, k: nat, i: nat)
    requires |s.st| <= c.cap && s.head < c.cap && i <= k < |s.st|
    ensures Tag(s.head, c.cap, i) !in KillTags(c, s, k)
  {
    Killed(c, s, k, Tag(s.head, c.cap, i));
  }

  lemma {:induction false} WithoutIn(beats: seq<Beat>, kill: set<int>, b: Beat)
    ensures b in Without(beats, kill) <==> b in beats && b.tag !in kill
  {
    if beats != [] {
      WithoutIn(beats[1..], kill, b);
      assert b in beats <==> b == beats[0] || b in beats[1..];
    }
  }

  lemma {:induction false} WithoutDistinct(beats: seq<Beat>, kill: set<int>)
    requires DistinctTags(beats)
    ensures DistinctTags(Without(beats, kill))
  {
    if beats != [] {
      var rest := Without(beats[1..], kill);
      WithoutDistinct(beats[1..], kill);
      forall b | b in rest ensures b.tag != beats[0].tag {
        WithoutIn(beats[1..], kill, b);
        var m :| 0 <= m < |beats[1..]| && beats[1..][m] == b;
        assert beats[m + 1] == b;
      }
      if beats[0].tag !in kill {
        forall p, q | 0 <= p < q < |[beats[0]] + rest|
          ensures ([beats[0]] + rest)[p].tag != ([beats[0]] + rest)[q].tag
        {
          assert ([beats[0]] + rest)[q] == rest[q - 1] && rest[q - 1] in rest;
        }
      }
    }
  }

  // ---------------------------------------------------------------- the surviving prefix

  lemma {:induction false} PrefixMeaning(c: Config, g: Arch, st: seq<Fetched>, k: nat, i: nat)
    requires i <= k + 1 <= |st|
    ensures SpecAt(c, g, st[..k + 1], i) == SpecAt(c, g, st, i)
    ensures forall r :: LastWriter(c, st[..k + 1], i, r) == LastWriter(c, st, i, r)
  {
    assert st == st[..k + 1] + st[k + 1..];
    SpecPrefix(c, g, st[..k + 1], st[k + 1..], i);
    forall r ensures LastWriter(c, st[..k + 1], i, r) == LastWriter(c, st, i, r) {
      WriterPrefix(c, st[..k + 1], st[k + 1..], i, r);
    }
  }

  lemma {:induction false} PrefixMap(c: Config, head: nat, st: seq<Fetched>, k: nat, i: nat, m: seq<int>)
    requires i <= k + 1 <= |st| && IsMap(c, head, st, i, m)
    ensures IsMap(c, head, st[..k + 1], i, m)
  {
    forall r | 0 <= r < c.nregs ensures m[r] == MapEntry(c, head, LastWriter(c, st[..k + 1], i, r)) {
      assert st == st[..k + 1] + st[k + 1..];
      WriterPrefix(c, st[..k + 1], st[k + 1..], i, r);
    }
    MapIs(c, head, st[..k + 1], i, m);
  }

  /** No live mapping is scrubbed: the checkpoint names only surviving tags, and none of those was freed. */
  lemma {:induction false} ScrubDropsNothing(c: Config, head: nat, st: seq<Fetched>, k: nat, m: seq<int>,
                                             dropped: set<int>)
    requires k <= |st| <= c.cap && (c.cap > 0 ==> head < c.cap) && IsMap(c, head, st, k, m)
    requires forall i :: 0 <= i < k ==> Tag(head, c.cap, i) !in dropped
    ensures Scrub(m, dropped) == m
  {
    forall r | 0 <= r < |m| ensures Scrub(m, dropped)[r] == m[r] {
      MapAt(c, head, st, k, m, r);
    }
  }

  lemma {:induction false} RecoverUsesCheckpoint(c: Config, s: Core, k: nat, next: Pc)
    requires k < |s.st| == |s.dy| <= c.cap && s.head < c.cap
    requires Tag(s.head, c.cap, k) in s.ck && IsMap(c, s.head, s.st, k + 1, s.ck[Tag(s.head, c.cap, k)])
    requires forall i :: 0 <= i < |s.st| ==> Tag(s.head, c.cap, i) !in s.freed
    ensures Recover(c, s, k, next).rat == s.ck[Tag(s.head, c.cap, k)]
  {
    forall i | 0 <= i < k + 1 ensures Tag(s.head, c.cap, i) !in s.freed + KillTags(c, s, k) {
      SurvivorTag(c, s, k, i);
    }
    ScrubDropsNothing(c, s.head, s.st, k + 1, s.ck[Tag(s.head, c.cap, k)], s.freed + KillTags(c, s, k));
  }

  lemma {:induction false} RecoverRat(c: Config, s: Core, k: nat, next: Pc)
    requires k < |s.st| == |s.dy| <= c.cap && s.head < c.cap && s.st[k].instr.IsControl()
    requires CkOk(c, s.head, s.st, s.ck) && s.phase != Back
    requires PhaseOk(c, s.phase, s.head, |s.st|, s.freed, s.wake)
    ensures Tag(s.head, c.cap, k) in s.ck
    ensures Recover(c, s, k, next).rat == s.ck[Tag(s.head, c.cap, k)]
    ensures CurrentMap(c, s.head, s.st[..k + 1], Recover(c, s, k, next).rat)
  {
    RecoverUsesCheckpoint(c, s, k, next);
    hide Recover, Exec, PhaseOk;
    PrefixMap(c, s.head, s.st, k, k + 1, s.ck[Tag(s.head, c.cap, k)]);
    WholeMap(c, s.head, s.st[..k + 1], k + 1, s.ck[Tag(s.head, c.cap, k)]);
  }

  lemma {:induction false} RecoverCkEntry(c: Config, s: Core, k: nat, i: nat)
    requires i <= k < |s.st| == |s.dy| <= c.cap && s.head < c.cap && CkOk(c, s.head, s.st, s.ck)
    requires s.st[i].instr.IsControl()
    ensures var ck', tag := s.ck - KillTags(c, s, k), Tag(s.head, c.cap, i);
            tag in ck' && IsMap(c, s.head, s.st[..k + 1], i + 1, ck'[tag])
  {
    hide IsMap, Exec;
    PrefixMap(c, s.head, s.st, k, i + 1, s.ck[Tag(s.head, c.cap, i)]);
    SurvivorTag(c, s, k, i);
  }

  lemma {:induction false} RecoverCk(c: Config, s: Core, k: nat)
    requires k < |s.st| == |s.dy| <= c.cap && s.head < c.cap && CkOk(c, s.head, s.st, s.ck)
    ensures CkOk(c, s.head, s.st[..k + 1], s.ck - KillTags(c, s, k))
  {
    var st', ck' := s.st[..k + 1], s.ck - KillTags(c, s, k);
    forall i | 0 <= i < |st'| && st'[i].instr.IsControl()
      ensures Tag(s.head, c.cap, i) in ck' && IsMap(c, s.head, st', i + 1, ck'[Tag(s.head, c.cap, i)])
    {
      RecoverCkEntry(c, s, k, i);
    }
    forall t | t in ck'
      ensures 0 <= t < c.cap && 0 <= Age(s.head, c.cap, t) < |st'| && st'[Age(s.head, c.cap, t)].instr.IsControl()
    {
      assert t in s.ck;
      Killed(c, s, k, t);
    }
  }

  lemma {:induction false} PrefixOperand(c: Config, g: Arch, s: Core, k: nat, i: nat, r: int, o: Operand)
    requires i <= k < |s.st| == |s.dy| <= c.cap && s.head < c.cap
    requires OperandOk(c, g, s.st, s.dy, s.head, s.wake, i, r, o)
    ensures OperandOk(c, g, s.st[..k + 1], s.dy[..k + 1], s.head, Without(s.wake, KillTags(c, s, k)), i, r, o)
  {
    PrefixMeaning(c, g, s.st, k, i);
    if !o.ready {
      var j := LastWriter(c, s.st, i, r);
      SurvivorTag(c, s, k, j);
      WithoutIn(s.wake, KillTags(c, s, k), Beat(o.tag, s.dy[j].value));
    }
  }

  lemma {:induction false} RecoverSources(c: Config, g: Arch, s: Core, k: nat)
    requires k < |s.st| == |s.dy| <= c.cap && s.head < c.cap && AllSources(c, g, s.st, s.dy, s.head, s.wake)
    ensures AllSources(c, g, s.st[..k + 1], s.dy[..k + 1], s.head, Without(s.wake, KillTags(c, s, k)))
  {
    var st', dy', wake' := s.st[..k + 1], s.dy[..k + 1], Without(s.wake, KillTags(c, s, k));
    forall i | 0 <= i < k + 1 && !dy'[i].done ensures SourcesOk(c, g, st', dy', s.head, wake', i) {
      assert SourcesOk(c, g, s.st, s.dy, s.head, s.wake, i);
      var d, ins := s.dy[i], s.st[i].instr;
      PrefixOperand(c, g, s, k, i, ins.src1, d.src1);
      if ins.op != ADDI {
        PrefixOperand(c, g, s, k, i, ins.src2, d.src2);
      }
      if ins.IsStore() && ins.dest > 0 {
        PrefixOperand(c, g, s, k, i, ins.dest, d.data);
      }
    }
  }

  lemma {:induction false} RecoverValues(c: Config, g: Arch, st: seq<Fetched>, dy: seq<Dyn>, k: nat)
    requires k < |st| == |dy| && AllValues(c, g, st, dy)
    ensures AllValues(c, g, st[..k + 1], dy[..k + 1])
  {
    var st', dy' := st[..k + 1], dy[..k + 1];
    forall i | 0 <= i < k + 1 ensures ValuesOk(c, g, st', dy', i) {
      assert ValuesOk(c, g, st, dy, i);
      PrefixMeaning(c, g, st, k, i);
    }
  }

  lemma {:induction false} RecoverLoads(c: Config, g: Arch, st: seq<Fetched>, dy: seq<Dyn>, sb: seq<SbEntry>, k: nat)
    requires k < |st| == |dy| && AllLoads(c, g, st, dy, sb)
    ensures AllLoads(c, g, st[..k + 1], dy[..k + 1], sb)
  {
    var st', dy' := st[..k + 1], dy[..k + 1];
    forall i | 0 <= i < k + 1 ensures LoadOk(c, g, st', dy', sb, i) {
      assert LoadOk(c, g, st, dy, sb, i);
      PrefixMeaning(c, g, st, k, i);
      QueuePrefix(c, st, dy, st', dy', i);
    }
  }

  lemma {:induction false} SurvivorIndex(s: Core, k: nat, i: nat)
    requires i < |s.st| == |s.dy| && s.dy[i].id !in KillIds(s, k)
    ensures i <= k
  {
  }

  lemma {:induction false} RecoverRs(s: Core, k: nat)
    requires k < |s.st| == |s.dy| && RsOk(s.st, s.dy, s.rs) && IdsOk(s.dy, s.nextId)
    ensures RsOk(s.st[..k + 1], s.dy[..k + 1], s.rs - KillIds(s, k)) && IdsOk(s.dy[..k + 1], s.nextId)
  {
    hide Exec;
    var dy', rs' := s.dy[..k + 1], s.rs - KillIds(s, k);
    forall i | 0 <= i < k + 1 ensures dy'[i].id !in KillIds(s, k) {
    }
    forall id | id in rs' ensures exists i :: 0 <= i < |dy'| && dy'[i].id == id {
      var i :| 0 <= i < |s.dy| && s.dy[i].id == id;
      SurvivorIndex(s, k, i);
      assert dy'[i].id == id;
    }
  }

  lemma {:induction false} RecoverBeat(c: Config, g: Arch, s: Core, k: nat, b: Beat)
    requires k < |s.st| == |s.dy| <= c.cap && s.head < c.cap && b.tag !in KillTags(c, s, k)
    requires BeatOk(c, g, s.st, s.dy, s.head, b)
    ensures BeatOk(c, g, s.st[..k + 1], s.dy[..k + 1], s.head, b)
  {
    Killed(c, s, k, b.tag);
    PrefixMeaning(c, g, s.st, k, Age(s.head, c.cap, b.tag));
  }

  lemma {:induction false} RecoverFu(c: Config, g: Arch, s: Core, k: nat)
    requires k < |s.st| == |s.dy| <= c.cap && s.head < c.cap && FuOk(c, g, s.st, s.dy, s.head, s.fu)
    ensures FuOk(c, g, s.st[..k + 1], s.dy[..k + 1], s.head, Without(s.fu, KillTags(c, s, k)))
  {
    var kill := KillTags(c, s, k);
    var fu' := Without(s.fu, kill);
    forall b | b in fu' ensures BeatOk(c, g, s.st[..k + 1], s.dy[..k + 1], s.head, b) {
      WithoutIn(s.fu, kill, b);
      assert BeatOk(c, g, s.st, s.dy, s.head, b);
      RecoverBeat(c, g, s, k, b);
    }
    WithoutDistinct(s.fu, kill);
    var dy' := s.dy[..k + 1];
    forall i | 0 <= i < k + 1 && dy'[i].issued && !dy'[i].done
      ensures HasBeat(fu', Tag(s.head, c.cap, i))
    {
      assert HasBeat(s.fu, Tag(s.head, c.cap, i));
      var b :| b in s.fu && b.tag == Tag(s.head, c.cap, i);
      SurvivorTag(c, s, k, i);
      WithoutIn(s.fu, kill, b);
    }
  }

  lemma {:induction false} RecoverWake(c: Config, s: Core, k: nat)
    requires k < |s.st| == |s.dy| <= c.cap && s.head < c.cap && WakeOk(c, s.dy, s.head, s.wake)
    ensures WakeOk(c, s.dy[..k + 1], s.head, Without(s.wake, KillTags(c, s, k)))
  {
    var kill := KillTags(c, s, k);
    forall b | b in Without(s.wake, kill) ensures WakeBeatOk(c, s.dy[..k + 1], s.head, b) {
      WithoutIn(s.wake, kill, b);
      assert WakeBeatOk(c, s.dy, s.head, b);
      Killed(c, s, k, b.tag);
    }
  }

  /** No store younger than the branch has left the LSQ, so memory does not notice the squash. */
  lemma {:induction false} RecoverMem(c: Config, g: Arch, s: Core, k: nat)
    requires k < |s.st| == |s.dy| && MemOk(c, g, s.st, s.dy, s.main, s.sb)
    requires forall j :: k < j < |s.st| && s.st[j].instr.IsStore() ==> !s.dy[j].done
    ensures MemOk(c, g, s.st[..k + 1], s.dy[..k + 1], s.main, s.sb)
  {
    var n := DonePrefix(s.dy);
    var n' := if n <= k then n else k + 1;
    DonePrefixIs(s.dy[..k + 1], n');
    PrefixMeaning(c, g, s.st, k, n');
    MemSkip(c, g, s.st, n', n);
  }

  lemma {:induction false} RecoverEntries(c: Config, g: Arch, s: Core, k: nat, next: Pc)
    requires k < |s.st| == |s.dy| <= c.cap && s.head < c.cap
    requires AllSources(c, g, s.st, s.dy, s.head, s.wake) && AllValues(c, g, s.st, s.dy)
    requires AllLoads(c, g, s.st, s.dy, s.sb)
    requires FuOk(c, g, s.st, s.dy, s.head, s.fu) && WakeOk(c, s.dy, s.head, s.wake)
    ensures var s' := Recover(c, s, k, next);
            && AllSources(c, g, s'.st, s'.dy, s'.head, s'.wake) && AllValues(c, g, s'.st, s'.dy)
            && AllLoads(c, g, s'.st, s'.dy, s'.sb)
            && FuOk(c, g, s'.st, s'.dy, s'.head, s'.fu) && WakeOk(c, s'.dy, s'.head, s'.wake)
  {
    RecoverSources(c, g, s, k);
    RecoverValues(c, g, s.st, s.dy, k);
    RecoverLoads(c, g, s.st, s.dy, s.sb, k);
    RecoverFu(c, g, s, k);
    RecoverWake(c, s, k);
  }

  lemma {:induction false} WholeMap(c: Config, head: nat, st: seq<Fetched>, k: nat, m: seq<int>)
    requires k == |st| && IsMap(c, head, st, k, m)
    ensures CurrentMap(c, head, st, m)
  {
  }

  lemma {:induction false} RecoverNames(c: Config, s: Core, k: nat, next: Pc)
    requires NamesInv(c, s) && s.phase == Writeback && k < |s.st| && s.st[k].instr.IsControl()
    ensures NamesInv(c, Recover(c, s, k, next))
  {
    hide CkOk, RsOk, IdsOk, CurrentMap, Scrub, Without;
    RecoverRat(c, s, k, next);
    RecoverCk(c, s, k);
    RecoverRs(s, k);
  }

  lemma {:induction false} RecoverBack(c: Config, g: Arch, s: Core, k: nat, next: Pc)
    requires BackInv(c, g, s) && s.phase == Writeback && k < |s.st| && s.st[k].instr.IsControl()
    requires forall j :: k < j < |s.st| && s.st[j].instr.IsStore() ==> !s.dy[j].done
    ensures BackInv(c, g, Recover(c, s, k, next))
  {
    RecoverNames(c, s, k, next);
    RecoverEntries(c, g, s, k, next);
    RecoverMem(c, g, s, k);
  }

  /** After recovery the path is the surviving prefix and then the branch's actual target. */
  lemma {:induction false} RecoverPath(c: Config, g: Arch, s: Core, k: nat, v: Word)
    requires k < |s.st| == |s.dy| && s.st[k].instr.IsControl()
    requires PathOk(c, g.pc, s.st, s.dy, s.front, s.fetchPc)
    ensures PathOk(c, g.pc, s.st[..k + 1], Complete(s.dy, k, v)[..k + 1], [], NextPc(s.st[k].pc, s.st[k].instr, v != 0))
  {
    var st', dy' := s.st[..k + 1], Complete(s.dy, k, v)[..k + 1];
    forall i | 0 <= i < k + 1 ensures st'[i].pc == FlightPc(g.pc, st', dy', i) {
      assert FlightPc(g.pc, st', dy', i) == FlightPc(g.pc, s.st, s.dy, i);
    }
    assert AllFetched(c, st') by {
      forall i | 0 <= i < k + 1 ensures FetchedOk(c, st'[i]) {
        assert FetchedOk(c, s.st[i]);
      }
    }
    assert FlightPc(g.pc, st', dy', k + 1) == NextPc(s.st[k].pc, s.st[k].instr, v != 0);
  }

  /** Completing the branch before or after dropping younger entries is the same. */
  lemma {:induction false} ResolveWrongIsRecover(c: Config, s: Core, k: nat)
    requires CanResolve(c, s, k)
    requires Mispredicted(s.st[Age(s.head, c.cap, s.fu[k].tag)], s.fu[k].val != 0)
    ensures var i := Age(s.head, c.cap, s.fu[k].tag);
            Resolve(c, s, k) == Recover(c, Resolved(c, s, k), i, NextPc(s.st[i].pc, s.st[i].instr, s.fu[k].val != 0))
  {
    var i := Age(s.head, c.cap, s.fu[k].tag);
    var v := s.fu[k].val;
    var next := NextPc(s.st[i].pc, s.st[i].instr, v != 0);
    var s1 := s.(fu := s.fu[..k] + s.fu[k + 1..]);
    var sC := Resolved(c, s, k);
    assert KillTags(c, s1, i) == KillTags(c, sC, i);
    assert KillIds(s1, i) == KillIds(sC, i) by {
      assert forall j :: 0 <= j < |s.dy| ==> sC.dy[j].id == s1.dy[j].id;
    }
    assert Complete(s1.dy[..i + 1], i, v) == sC.dy[..i + 1];
  }

  lemma {:induction false} StoresBehindBranch(c: Config, g: Arch, s: Core, i: nat)
    requires i < |s.st| == |s.dy| && !s.dy[i].done && AllValues(c, g, s.st, s.dy)
    ensures forall j :: i < j < |s.st| && s.st[j].instr.IsStore() ==> !s.dy[j].done
  {
    forall j | i < j < |s.st| && s.st[j].instr.IsStore() ensures !s.dy[j].done {
      assert ValuesOk(c, g, s.st, s.dy, j);
    }
  }

  lemma {:induction false} ResolvedEntry(c: Config, g: Arch, s: Core, k: nat)
    requires CanResolve(c, s, k) && FuOk(c, g, s.st, s.dy, s.head, s.fu) && AllValues(c, g, s.st, s.dy)
    ensures var i := Age(s.head, c.cap, s.fu[k].tag);
            forall j :: i < j < |s.st| && s.st[j].instr.IsStore() ==> !Resolved(c, s, k).dy[j].done
  {
    BeatIsIssued(c, g, s.st, s.dy, s.head, s.fu, s.fu[k]);
    StoresBehindBranch(c, g, s, Age(s.head, c.cap, s.fu[k].tag));
  }

  lemma {:induction false} ResolveWrongBack(c: Config, g: Arch, s: Core, k: nat)
    requires Inv(c, g, s) && CanResolve(c, s, k)
    requires Mispredicted(s.st[Age(s.head, c.cap, s.fu[k].tag)], s.fu[k].val != 0)
    ensures BackInv(c, g, Resolve(c, s, k))
  {
    hide Exec, ResultOf, SpecAt, AccessMask, StoreLanes, LoadExtend;
    var i := Age(s.head, c.cap, s.fu[k].tag);
    ResolvedEntry(c, g, s, k);
    ResolvedBack(c, g, s, k);
    ResolveWrongIsRecover(c, s, k);
    RecoverBack(c, g, Resolved(c, s, k), i, NextPc(s.st[i].pc, s.st[i].instr, s.fu[k].val != 0));
  }

  lemma {:induction false} ResolveWrongPath(c: Config, g: Arch, s: Core, k: nat)
    requires CanResolve(c, s, k) && PathOk(c, g.pc, s.st, s.dy, s.front, s.fetchPc)
    requires Mispredicted(s.st[Age(s.head, c.cap, s.fu[k].tag)], s.fu[k].val != 0)
    ensures var s' := Resolve(c, s, k); |s'.st| == |s'.dy| && PathOk(c, g.pc, s'.st, s'.dy, s'.front, s'.fetchPc)
  {
    ResolveWrongIsRecover(c, s, k);
    RecoverPath(c, g, s, Age(s.head, c.cap, s.fu[k].tag), s.fu[k].val);
  }

  lemma {:induction false} ResolveWrongKeeps(c: Config, g: Arch, s: Core, k: nat)
    requires Inv(c, g, s) && CanResolve(c, s, k)
    requires Mispredicted(s.st[Age(s.head, c.cap, s.fu[k].tag)], s.fu[k].val != 0)
    ensures Inv(c, g, Resolve(c, s, k))
  {
    ResolveWrongBack(c, g, s, k);
    ResolveWrongPath(c, g, s, k);
  }
}
