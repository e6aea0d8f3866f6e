/** The resolve bus of one cycle: branch outputs are resolved oldest first, and at most one recovers. */
module CoreResolve {
  import opened Isa
  import opened Core

  /** Is the instruction of `b` still in flight? */
  predicate StillThere(c: Config, s: Core, b: Beat) { 0 <= Age(s.head, c.cap, b.tag) < |s.st| }

  predicate IsBranch(c: Config, s: Core, b: Beat) {
    StillThere(c, s, b) && s.st[Age(s.head, c.cap, b.tag)].instr.IsControl()
  }

  predicate WrongBeat(c: Config, s: Core, b: Beat)
    requires StillThere(c, s, b)
  {
    Mispredicted(s.st[Age(s.head, c.cap, b.tag)], b.val != 0)
  }

  function BeatIndex(fu: seq<Beat>, b: Beat): (k: nat)
    requires b in fu
    ensures k < |fu| && fu[k] == b
  {
    if fu[0] == b then 0 else 1 + BeatIndex(fu[1..], b)
  }

  datatype Outcome = Outcome(core: Core, recoveries: nat, run: seq<Step>)

  /** Resolves the outputs `todo` in turn; one whose instruction has been squashed meanwhile is passed over. */
  function ResolveAll(c: Config, s: Core, todo: seq<Beat>): Outcome
    decreases |todo|
  {
    if todo == [] then Outcome(s, 0, [])
    else if todo[0] in s.fu && CanResolve(c, s, BeatIndex(s.fu, todo[0])) then
      var k := BeatIndex(s.fu, todo[0]);
      var rest := ResolveAll(c, Resolve(c, s, k), todo[1..]);
      Outcome(rest.core, rest.recoveries + (if IsMispredict(c, s, k) then 1 else 0), [DoResolve(k)] + rest.run)
    else ResolveAll(c, s, todo[1..])
  }

  /** Outputs of branch units, each with its instruction in flight or squashed since. */
  ghost predicate Offered(c: Config, s: Core, todo: seq<Beat>) {
    && s.phase == Writeback && |s.st| == |s.dy|
    && forall i :: 0 <= i < |todo| && StillThere(c, s, todo[i]) ==>
         todo[i] in s.fu && s.st[Age(s.head, c.cap, todo[i].tag)].instr.IsControl()
  }

  /** In ROB age order. */
  ghost predicate OldestFirst(c: Config, head: nat, todo: seq<Beat>) {
    && (forall i :: 0 <= i < |todo| ==> 0 <= Age(head, c.cap, todo[i].tag))
    && (forall i, j :: 0 <= i < j < |todo| ==> Age(head, c.cap, todo[i].tag) < Age(head, c.cap, todo[j].tag))
  }

  /** The first of `todo` that was predicted wrongly, if any. */
  function FirstWrong(c: Config, s: Core, todo: seq<Beat>): (n: nat)
    ensures n <= |todo|
    ensures n < |todo| ==> StillThere(c, s, todo[n]) && WrongBeat(c, s, todo[n])
    ensures forall i :: 0 <= i < n && StillThere(c, s, todo[i]) ==> !WrongBeat(c, s, todo[i])
  {
    if todo == [] || (StillThere(c, s, todo[0]) && WrongBeat(c, s, todo[0])) then 0
    else 1 + FirstWrong(c, s, todo[1..])
  }

  /** Outputs of different ROB slots. */
  ghost predicate DistinctSlots(c: Config, todo: seq<Beat>) {
    && (forall i :: 0 <= i < |todo| ==> 0 <= todo[i].tag < c.cap)
    && forall i, j :: 0 <= i < j < |todo| ==> todo[i].tag != todo[j].tag
  }

  /** Puts an output where it belongs by age. */
  function InsertByAge(c: Config, head: nat, todo: seq<Beat>, b: Beat): (r: seq<Beat>)
    ensures multiset(r) == multiset(todo) + multiset{b}
  {
    if todo == [] then [b]
    else if Age(head, c.cap, b.tag) < Age(head, c.cap, todo[0].tag) then [b] + todo
    else
      assert todo == [todo[0]] + todo[1..];
      [todo[0]] + InsertByAge(c, head, todo[1..], b)
  }

  ghost predicate YoungerThan(c: Config, head: nat, tag: int, todo: seq<Beat>) {
    forall i :: 0 <= i < |todo| ==> Age(head, c.cap, todo[i].tag) > Age(head, c.cap, tag)
  }

  lemma {:induction false} OldestThenRest(c: Config, head: nat, b: Beat, rest: seq<Beat>)
    requires OldestFirst(c, head, rest) && YoungerThan(c, head, b.tag, rest) && 0 <= Age(head, c.cap, b.tag)
    ensures OldestFirst(c, head, [b] + rest)
  {
    hide Age;
  }

  lemma {:induction false} InsertYounger(c: Config, head: nat, todo: seq<Beat>, b: Beat, tag: int)
    requires YoungerThan(c, head, tag, todo) && Age(head, c.cap, b.tag) > Age(head, c.cap, tag)
    ensures YoungerThan(c, head, tag, InsertByAge(c, head, todo, b))
  {
    hide Age;
    if todo != [] { InsertYounger(c, head, todo[1..], b, tag); }
  }

  lemma {:induction false} OldestAndRest(c: Config, head: nat, todo: seq<Beat>)
    requires todo != [] && OldestFirst(c, head, todo)
    ensures OldestFirst(c, head, todo[1..]) && YoungerThan(c, head, todo[0].tag, todo[1..])
    ensures todo == [todo[0]] + todo[1..]
    ensures 0 <= Age(head, c.cap, todo[0].tag)
  {
    hide Age;
  }

  lemma {:induction false} AllYounger(c: Config, head: nat, todo: seq<Beat>, b: Beat)
    requires todo != [] && OldestFirst(c, head, todo) && Age(head, c.cap, b.tag) < Age(head, c.cap, todo[0].tag)
    ensures YoungerThan(c, head, b.tag, todo)
  {
    hide Age;
  }

  lemma {:induction false} InsertKeepsOrder(c: Config, head: nat, todo: seq<Beat>, b: Beat)
    requires OldestFirst(c, head, todo) && 0 <= Age(head, c.cap, b.tag)
    requires forall i :: 0 <= i < |todo| ==> Age(head, c.cap, todo[i].tag) != Age(head, c.cap, b.tag)
    ensures OldestFirst(c, head, InsertByAge(c, head, todo, b))
  {
    if todo == [] {
      assert InsertByAge(c, head, todo, b) == [b];
    } else if Age(head, c.cap, b.tag) < Age(head, c.cap, todo[0].tag) {
      AllYounger(c, head, todo, b);
      OldestThenRest(c, head, b, todo);
    } else {
      OldestAndRest(c, head, todo);
      hide Age, YoungerThan, OldestFirst;
      InsertKeepsOrder(c, head, todo[1..], b);
      InsertYounger(c, head, todo[1..], b, todo[0].tag);
      OldestThenRest(c, head, todo[0], InsertByAge(c, head, todo[1..], b));
    }
  }

  lemma {:induction false} SlotAge(c: Config, head: nat, tag: int)
    requires head < c.cap && 0 <= tag < c.cap
    ensures 0 <= Age(head, c.cap, tag)
  {
  }

  lemma {:induction false} AgesDiffer(c: Config, head: nat, t: int, u: int)
    requires head < c.cap && 0 <= t < c.cap && 0 <= u < c.cap && t != u
    ensures Age(head, c.cap, t) != Age(head, c.cap, u)
  {
  }

  /** Sorting does not change what is on offer. */
  lemma {:induction false} SameOffer(c: Config, s: Core, outputs: seq<Beat>, todo: seq<Beat>)
    requires Offered(c, s, outputs) && multiset(todo) == multiset(outputs)
    ensures Offered(c, s, todo)
  {
    hide Age;
    forall i | 0 <= i < |todo| && StillThere(c, s, todo[i])
      ensures todo[i] in s.fu && s.st[Age(s.head, c.cap, todo[i].tag)].instr.IsControl()
    {
      assert todo[i] in multiset(outputs);
    }
  }

  /** One more output sorted in. */
  lemma {:induction false} SortStep(c: Config, head: nat, outputs: seq<Beat>, todo: seq<Beat>, n: nat)
    requires head < c.cap && DistinctSlots(c, outputs) && n < |outputs|
    requires OldestFirst(c, head, todo) && multiset(todo) == multiset(outputs[..n])
    ensures var r := InsertByAge(c, head, todo, outputs[n]);
            OldestFirst(c, head, r) && multiset(r) == multiset(outputs[..n + 1])
  {
    hide Age, InsertByAge;
    SlotAge(c, head, outputs[n].tag);
    forall i | 0 <= i < |todo| ensures Age(head, c.cap, todo[i].tag) != Age(head, c.cap, outputs[n].tag) {
      assert todo[i] in multiset(outputs[..n]);
      var m :| 0 <= m < n && outputs[..n][m] == todo[i];
      AgesDiffer(c, head, outputs[m].tag, outputs[n].tag);
    }
    InsertKeepsOrder(c, head, todo, outputs[n]);
    assert outputs[..n + 1] == outputs[..n] + [outputs[n]];
  }

  lemma {:induction false} NothingYet(c: Config, head: nat)
    ensures OldestFirst(c, head, [])
  {
  }

  lemma {:induction false} NoneLeft(c: Config, s: Core, todo: seq<Beat>)
    requires todo == []
    ensures ResolveAll(c, s, todo) == Outcome(s, 0, [])
  {
  }

  lemma {:induction false} TagInSlot(c: Config, outputs: seq<Beat>, todo: seq<Beat>, n: nat)
    requires DistinctSlots(c, outputs) && multiset(todo) == multiset(outputs) && n < |todo|
    ensures 0 <= todo[n].tag < c.cap
  {
    assert todo[n] in multiset(outputs);
  }

  // ---------------------------------------------------------------- one resolution

  /** A prediction is right exactly if it had the direction, and fetch went on where the program does. */
  lemma {:induction false} RightWay(f: Fetched, taken: bool)
    requires f.instr.IsControl()
    ensures !Mispredicted(f, taken) <==> taken == f.predTaken && PredNext(f) == NextPc(f.pc, f.instr, taken)
  {
  }

  lemma {:induction false} BeatRemains(fu: seq<Beat>, k: nat, b: Beat)
    requires k < |fu| && b in fu && b.tag != fu[k].tag
    ensures b in fu[..k] + fu[k + 1..]
  {
    var m :| 0 <= m < |fu| && fu[m] == b;
    var rest := fu[..k] + fu[k + 1..];
    assert rest[if m < k then m else m - 1] == b;
  }

  lemma {:induction false} RightShape(c: Config, s: Core, k: nat)
    requires CanResolve(c, s, k) && !IsMispredict(c, s, k)
    ensures var t := Resolve(c, s, k);
            t.st == s.st && t.head == s.head && t.phase == s.phase && |t.dy| == |t.st| && t.fu
                == s.fu[..k] + s.fu[k + 1..]
  {
  }

  /** A misprediction leaves nothing younger than its branch. */
  lemma {:induction false} WrongShape(c: Config, s: Core, k: nat)
    requires CanResolve(c, s, k) && IsMispredict(c, s, k)
    ensures var t, i := Resolve(c, s, k), Age(s.head, c.cap, s.fu[k].tag);
            t.st == s.st[..i + 1] && t.head == s.head && t.phase == s.phase && |t.dy| == |t.st|
  {
  }

  /** After a correct prediction the remaining outputs are still on offer. */
  lemma {:induction false} RightOffers(c: Config, s: Core, todo: seq<Beat>, k: nat)
    requires todo != [] && Offered(c, s, todo) && OldestFirst(c, s.head, todo)
    requires k < |s.fu| && s.fu[k] == todo[0] && CanResolve(c, s, k) && !IsMispredict(c, s, k)
    ensures Offered(c, Resolve(c, s, k), todo[1..])
  {
    RightShape(c, s, k);
    hide Resolve;
    var t := Resolve(c, s, k);
    forall i | 0 <= i < |todo[1..]| && StillThere(c, t, todo[1..][i])
      ensures todo[1..][i] in t.fu && t.st[Age(t.head, c.cap, todo[1..][i].tag)].instr.IsControl()
    {
      assert todo[1..][i] == todo[i + 1];
      BeatRemains(s.fu, k, todo[i + 1]);
    }
  }

  /** Nothing happens to outputs whose instructions have all gone. */
  lemma {:induction false} AllGone(c: Config, s: Core, todo: seq<Beat>)
    requires forall i :: 0 <= i < |todo| ==> !StillThere(c, s, todo[i])
    ensures ResolveAll(c, s, todo) == Outcome(s, 0, [])
    decreases |todo|
  {
    hide Resolve;
    if todo != [] {
      assert !StillThere(c, s, todo[0]);
      forall i | 0 <= i < |todo[1..]| ensures !StillThere(c, s, todo[1..][i]) {
        assert todo[1..][i] == todo[i + 1];
      }
      AllGone(c, s, todo[1..]);
    }
  }

  /** What resolving one output leaves, and whether it recovered. */
  function ResolveOne(c: Config, s: Core, b: Beat): (r: (Core, bool)) {
    if b in s.fu && CanResolve(c, s, BeatIndex(s.fu, b))
    then (Resolve(c, s, BeatIndex(s.fu, b)), IsMispredict(c, s, BeatIndex(s.fu, b))) else (s, false)
  }

  lemma {:induction false} OneThenRest(c: Config, s: Core, todo: seq<Beat>)
    requires todo != []
    ensures var one, all := ResolveOne(c, s, todo[0]), ResolveAll(c, s, todo);
            var rest := ResolveAll(c, one.0, todo[1..]);
            all.core == rest.core && all.recoveries == rest.recoveries + if one.1 then 1 else 0
  {
    hide Resolve, IsMispredict;
  }

  /** Whatever happens to the oldest output, the others are still on offer or gone. */
  lemma {:induction false} OneOffers(c: Config, s: Core, todo: seq<Beat>)
    requires todo != [] && Offered(c, s, todo) && OldestFirst(c, s.head, todo)
    ensures OldestFirst(c, s.head, todo[1..]) && Offered(c, ResolveOne(c, s, todo[0]).0, todo[1..])
    ensures ResolveOne(c, s, todo[0]).0.head == s.head
    ensures StillThere(c, s, todo[0]) <==> todo[0] in s.fu && CanResolve(c, s, BeatIndex(s.fu, todo[0]))
  {
    hide Resolve, Age;
    OldestAndRest(c, s.head, todo);
    if StillThere(c, s, todo[0]) {
      var k := BeatIndex(s.fu, todo[0]);
      if IsMispredict(c, s, k) {
        WrongShape(c, s, k);
      } else {
        RightShape(c, s, k);
        RightOffers(c, s, todo, k);
      }
    } else {
      RestOffered(c, s, todo);
    }
  }

  lemma {:induction false} RestOffered(c: Config, s: Core, todo: seq<Beat>)
    requires todo != [] && Offered(c, s, todo)
    ensures Offered(c, s, todo[1..])
  {
    hide Age;
    forall i | 0 <= i < |todo[1..]| && StillThere(c, s, todo[1..][i])
      ensures todo[1..][i] in s.fu && s.st[Age(s.head, c.cap, todo[1..][i].tag)].instr.IsControl()
    {
      assert todo[1..][i] == todo[i + 1];
    }
  }

  // ---------------------------------------------------------------- the whole bus

  lemma {:induction false} ResolvePhase(c: Config, s: Core, k: nat)
    requires CanResolve(c, s, k)
    ensures Resolve(c, s, k).phase == s.phase
  {
  }

  /** Resolving a bus is a run of resolve steps. */
  lemma {:induction false} ResolveAllRuns(c: Config, s: Core, todo: seq<Beat>)
    ensures var r := ResolveAll(c, s, todo);
            && Reaches(c, s, r.run, r.core) && r.core.phase == s.phase
            && |r.run| <= |todo| && forall i :: 0 <= i < |r.run| ==> r.run[i].DoResolve?
    decreases |todo|
  {
    hide Resolve;
    if todo != [] {
      if todo[0] in s.fu && CanResolve(c, s, BeatIndex(s.fu, todo[0])) {
        var k := BeatIndex(s.fu, todo[0]);
        ResolvePhase(c, s, k);
        ResolveAllRuns(c, Resolve(c, s, k), todo[1..]);
        var r := ResolveAll(c, s, todo);
        assert r.run[1..] == ResolveAll(c, Resolve(c, s, k), todo[1..]).run;
      } else {
        ResolveAllRuns(c, s, todo[1..]);
      }
    }
  }

  ghost predicate RecoversOnce(c: Config, s: Core, todo: seq<Beat>) {
    var r, w := ResolveAll(c, s, todo), FirstWrong(c, s, todo);
    && r.recoveries == (if w < |todo| then 1 else 0)
    && r.core.st == (if w < |todo| then s.st[..Age(s.head, c.cap, todo[w].tag) + 1] else s.st)
  }

  /** Age order recovers at most once: exactly if some output was predicted wrongly, at the oldest such branch. */
  lemma {:induction false} OldestFirstRecoversOnce(c: Config, s: Core, todo: seq<Beat>)
    requires Offered(c, s, todo) && OldestFirst(c, s.head, todo)
    ensures var r, w := ResolveAll(c, s, todo), FirstWrong(c, s, todo);
            && r.recoveries == (if w < |todo| then 1 else 0)
            && r.core.st == (if w < |todo| then s.st[..Age(s.head, c.cap, todo[w].tag) + 1] else s.st)
  {
    hide Resolve, Age, Mispredicted, ResolveAll, FirstWrong, OldestFirst, Offered;
    OldestWrong(c, s, todo);
  }

  lemma {:induction false} OldestWrong(c: Config, s: Core, todo: seq<Beat>)
    requires Offered(c, s, todo) && OldestFirst(c, s.head, todo)
    ensures RecoversOnce(c, s, todo)
    decreases |todo|
  {
    hide Resolve, Age, Mispredicted, RecoversOnce, ResolveAll, FirstWrong;
    if todo == [] {
      GoneIsOnce(c, s, todo);
    } else {
      OldestAndRest(c, s.head, todo);
      if !StillThere(c, s, todo[0]) {
        PassOver(c, s, todo);
        GoneIsOnce(c, s, todo);
      } else {
        var k := BeatIndex(s.fu, todo[0]);
        if IsMispredict(c, s, k) {
          WrongIsOnce(c, s, todo, k);
        } else {
          RightOffers(c, s, todo, k);
          RightShape(c, s, k);
          OldestWrong(c, Resolve(c, s, k), todo[1..]);
          RightGoesOn(c, s, todo, k);
        }
      }
    }
  }

  lemma {:induction false} GoneIsOnce(c: Config, s: Core, todo: seq<Beat>)
    requires todo == [] || (FirstWrong(c, s, todo) == |todo| && ResolveAll(c, s, todo) == Outcome(s, 0, []))
    ensures RecoversOnce(c, s, todo)
  {
  }

  lemma {:induction false} WrongIsOnce(c: Config, s: Core, todo: seq<Beat>, k: nat)
    requires todo != [] && OldestFirst(c, s.head, todo) && todo[0] in s.fu && k == BeatIndex(s.fu, todo[0])
    requires CanResolve(c, s, k) && IsMispredict(c, s, k)
    ensures RecoversOnce(c, s, todo)
  {
    hide Resolve, Age, Mispredicted, ResolveAll;
    WrongEndsIt(c, s, todo, k);
  }

  lemma {:induction false} RightGoesOn(c: Config, s: Core, todo: seq<Beat>, k: nat)
    requires todo != [] && todo[0] in s.fu && k == BeatIndex(s.fu, todo[0]) && CanResolve(c, s, k)
    requires !IsMispredict(c, s, k) && RecoversOnce(c, Resolve(c, s, k), todo[1..])
    ensures RecoversOnce(c, s, todo)
  {
    hide Resolve, Age, Mispredicted;
    RightShape(c, s, k);
    SameFirstWrong(c, s, Resolve(c, s, k), todo[1..]);
  }

  /** After a misprediction nothing that follows is still in flight. */
  lemma {:induction false} WrongEndsIt(c: Config, s: Core, todo: seq<Beat>, k: nat)
    requires todo != [] && OldestFirst(c, s.head, todo) && todo[0] in s.fu && k == BeatIndex(s.fu, todo[0])
    requires CanResolve(c, s, k) && IsMispredict(c, s, k)
    ensures ResolveAll(c, s, todo) == Outcome(Resolve(c, s, k), 1, [DoResolve(k)])
    ensures Resolve(c, s, k).st == s.st[..Age(s.head, c.cap, todo[0].tag) + 1]
  {
    OldestAndRest(c, s.head, todo);
    WrongShape(c, s, k);
    hide Resolve, Age, Mispredicted;
    AllGone(c, Resolve(c, s, k), todo[1..]);
  }

  lemma {:induction false} SameFirstWrong(c: Config, s: Core, t: Core, todo: seq<Beat>)
    requires s.st == t.st && s.head == t.head
    ensures FirstWrong(c, s, todo) == FirstWrong(c, t, todo)
  {
    if todo != [] {
      SameFirstWrong(c, s, t, todo[1..]);
    }
  }

  /** If the oldest output's instruction has gone, so have all the others'. */
  lemma {:induction false} PassOver(c: Config, s: Core, todo: seq<Beat>)
    requires todo != [] && OldestFirst(c, s.head, todo) && !StillThere(c, s, todo[0])
    ensures FirstWrong(c, s, todo) == |todo| && ResolveAll(c, s, todo) == Outcome(s, 0, [])
  {
    forall i | 0 <= i < |todo| ensures !StillThere(c, s, todo[i]) {
    }
    AllGone(c, s, todo);
  }

  /** Without the age order one cycle could recover twice: a younger wrong branch first, then an older one. */
  lemma {:induction false} YoungestFirstRecoversTwice(c: Config, s: Core, young: Beat, elder: Beat)
    requires Offered(c, s, [young, elder]) && StillThere(c, s, young) && StillThere(c, s, elder)
    requires Age(s.head, c.cap, elder.tag) < Age(s.head, c.cap, young.tag)
    requires WrongBeat(c, s, young) && WrongBeat(c, s, elder) && |s.st| <= c.cap && s.head < c.cap
    requires 0 <= elder.tag < c.cap
    ensures ResolveAll(c, s, [young, elder]).recoveries == 2
  {
    assert young == [young, elder][0] && elder == [young, elder][1];
    var k := BeatIndex(s.fu, young);
    var t := Resolve(c, s, k);
    WrongShape(c, s, k);
    BeatRemains(s.fu, k, elder);
    OlderBeatStays(c, s, k, elder);
    hide Resolve;
    assert [young, elder][1..] == [elder];
    assert t.st[Age(t.head, c.cap, elder.tag)] == s.st[Age(s.head, c.cap, elder.tag)];
    assert IsMispredict(c, t, BeatIndex(t.fu, elder));
    assert ResolveAll(c, t, [elder]).recoveries == 1 by {
      assert [elder][1..] == [];
    }
  }

  lemma {:induction false} OlderBeatStays(c: Config, s: Core, k: nat, b: Beat)
    requires CanResolve(c, s, k) && IsMispredict(c, s, k) && b in s.fu[..k] + s.fu[k + 1..]
    requires |s.st| <= c.cap && s.head < c.cap && 0 <= b.tag < c.cap
    requires Age(s.head, c.cap, b.tag) < Age(s.head, c.cap, s.fu[k].tag)
    ensures b in Resolve(c, s, k).fu
  {
    var i := Age(s.head, c.cap, s.fu[k].tag);
    var fu1 := s.fu[..k] + s.fu[k + 1..];
    var kill := KillTags(c, s.(fu := fu1), i);
    assert b.tag !in kill;
    KeptBeat(fu1, kill, b);
  }

  lemma {:induction false} KeptBeat(beats: seq<Beat>, kill: set<int>, b: Beat)
    requires b in beats && b.tag !in kill
    ensures b in Without(beats, kill)
  {
    if b != beats[0] {
      KeptBeat(beats[1..], kill, b);
    }
  }

  // ---------------------------------------------------------------- nothing is left on the bus

  ghost predicate OwnTags(fu: seq<Beat>) { forall i, j :: 0 <= i < j < |fu| ==> fu[i].tag != fu[j].tag }

  lemma {:induction false} WithoutIs(beats: seq<Beat>, kill: set<int>, b: Beat)
    ensures b in Without(beats, kill) ==> b in beats && b.tag !in kill
  {
    if beats != [] {
      WithoutIs(beats[1..], kill, b);
    }
  }

  lemma {:induction false} ResolveTakes(c: Config, s: Core, k: nat, b: Beat)
    requires CanResolve(c, s, k)
    ensures b in Resolve(c, s, k).fu ==> b in s.fu[..k] + s.fu[k + 1..] && b in s.fu
    ensures IsMispredict(c, s, k) && b in Resolve(c, s, k).fu ==>
              b.tag !in KillTags(c, s, Age(s.head, c.cap, s.fu[k].tag))
  {
    var fu1 := s.fu[..k] + s.fu[k + 1..];
    var s1 := s.(fu := fu1);
    WithoutIs(fu1, KillTags(c, s1, Age(s.head, c.cap, s.fu[k].tag)), b);
    hide Complete, Scrub, Without;
  }

  /** Resolving only takes results out of the units. */
  lemma {:induction false} OnlyTakes(c: Config, s: Core, todo: seq<Beat>, b: Beat)
    ensures b in ResolveAll(c, s, todo).core.fu ==> b in s.fu
    decreases |todo|
  {
    hide Resolve;
    if todo != [] {
      if todo[0] in s.fu && CanResolve(c, s, BeatIndex(s.fu, todo[0])) {
        var k := BeatIndex(s.fu, todo[0]);
        ResolveTakes(c, s, k, b);
        OnlyTakes(c, Resolve(c, s, k), todo[1..], b);
      } else {
        OnlyTakes(c, s, todo[1..], b);
      }
    }
  }

  lemma {:induction false} TakenOut(fu: seq<Beat>, k: nat)
    requires k < |fu| && OwnTags(fu)
    ensures fu[k] !in fu[..k] + fu[k + 1..] && OwnTags(fu[..k] + fu[k + 1..])
  {
    var rest := fu[..k] + fu[k + 1..];
    forall i | 0 <= i < |rest| ensures rest[i] == fu[if i < k then i else i + 1] {
    }
  }

  lemma {:induction false} Killed(c: Config, s: Core, i: nat, b: Beat)
    requires s.head < c.cap && 0 <= b.tag < c.cap && StillThere(c, s, b) && i < Age(s.head, c.cap, b.tag)
    ensures b.tag in KillTags(c, s, i)
  {
  }

  /** After the bus's cycle none of its results is left in a unit: each has been resolved, or squashed by an older
    * one. */
  lemma {:induction false} AllTaken(c: Config, s: Core, todo: seq<Beat>)
    requires s.phase == Writeback && |s.st| == |s.dy| && OwnTags(s.fu) && (s.fu != [] ==> s.head < c.cap)
    requires OldestFirst(c, s.head, todo)
    requires forall b :: b in todo ==> b in s.fu && IsBranch(c, s, b) && 0 <= b.tag < c.cap
    ensures forall b :: b in todo ==> b !in ResolveAll(c, s, todo).core.fu
    decreases |todo|
  {
    hide Resolve, Age, Mispredicted, KillTags;
    if todo != [] {
      OldestAndRest(c, s.head, todo);
      assert todo[0] in todo;
      var k := BeatIndex(s.fu, todo[0]);
      var t := Resolve(c, s, k);
      TakenOut(s.fu, k);
      if IsMispredict(c, s, k) {
        WrongEndsIt(c, s, todo, k);
        forall b | b in todo ensures b !in t.fu {
          ResolveTakes(c, s, k, b);
          if b != todo[0] {
            Killed(c, s, Age(s.head, c.cap, todo[0].tag), b);
          }
        }
      } else {
        RightShape(c, s, k);
        RestOnBus(c, s, todo, k);
        AllTaken(c, t, todo[1..]);
        OnlyTakes(c, t, todo[1..], todo[0]);
      }
    }
  }

  lemma {:induction false} RestOnBus(c: Config, s: Core, todo: seq<Beat>, k: nat)
    requires todo != [] && OldestFirst(c, s.head, todo) && k < |s.fu| && s.fu[k] == todo[0] && CanResolve(c, s, k)
    requires !IsMispredict(c, s, k)
    requires forall b :: b in todo ==> b in s.fu && IsBranch(c, s, b)
    ensures forall b :: b in todo[1..] ==> b in Resolve(c, s, k).fu && IsBranch(c, Resolve(c, s, k), b)
  {
    OldestAndRest(c, s.head, todo);
    RightShape(c, s, k);
    hide Resolve, Age;
    forall b | b in todo[1..] ensures b in Resolve(c, s, k).fu && IsBranch(c, Resolve(c, s, k), b) {
      assert b in todo;
      BeatRemains(s.fu, k, b);
    }
  }
}
