/** Functional units: pipelines that freeze behind an output nobody has taken, one bus lane each. */
module ExecutionEngine {
  import opened Words
  import opened Isa
  import opened CdbArbiter

  datatype Kind = ALU | MULTIPLIER | DIVIDER | BRANCH

  /** One pipeline stage; a control stage that does not offer the bus completes through the resolve path. */
  datatype Stage = Stage(valid: bool, robId: int, value: Word, isControl: bool, offerCdb: bool)

  const EMPTY := Stage(false, -1, 0, false, true)

  function KindOf(op: Op): Kind {
    match op
    case MUL => MULTIPLIER
    case DIV => DIVIDER
    case BEQ | BNE => BRANCH
    case _ => ALU
  }

  /** The stage a trace instruction enters the pipe as. */
  function StageOf(op: Op, a: Word, b: Word, tag: int): Stage {
    var isBranch := op == BEQ || op == BNE;
    var value := match op
      case BEQ => if a == b then 1 else 0
      case BNE => if a != b then 1 else 0
      case _ => ToyAlu(op, a, b);
    Stage(true, tag, value, isBranch, !isBranch)
  }

  /** The stage carries the value in-order execution computes, under the tag issued. Branches, and only they, go to a
    * branch unit and stay off the bus. */
  lemma {:induction false} StageIsCompute(c: Config, op: Op, a: Word, b: Word, tag: int)
    requires c.alu(op, a, b) == ToyAlu(op, a, b)
    ensures var s := StageOf(op, a, b, tag);
            && s.valid && s.robId == tag && s.value == Compute(c, op, a, b)
            && (s.isControl <==> op == BEQ || op == BNE) && s.offerCdb == !s.isControl
            && (s.isControl <==> KindOf(op) == BRANCH)
    ensures (KindOf(op) == MULTIPLIER <==> op == MUL) && (KindOf(op) == DIVIDER <==> op == DIV)
  {
  }

  // ---------------------------------------------------------------- pipes as values; the last stage is the output

  function Output(p: seq<Stage>): Stage
    requires p != []
  {
    p[|p| - 1]
  }

  function Consumed(p: seq<Stage>): (q: seq<Stage>)
    requires p != []
    ensures |q| == |p|
  {
    p[|p| - 1 := EMPTY]
  }

  function Shifted(p: seq<Stage>, ready: bool): (q: seq<Stage>)
    requires p != []
    ensures |q| == |p|
  {
    if !ready || Output(p).valid then p else [EMPTY] + p[..|p| - 1]
  }

  /** One unit's part of the cycle: hand over the output if taken, then move up if the lane is ready. */
  function Cycled(p: seq<Stage>, taken: bool, ready: bool): (q: seq<Stage>)
    requires p != []
    ensures |q| == |p|
  {
    Shifted(if taken && Output(p).valid then Consumed(p) else p, ready)
  }

  function SquashedStage(s: Stage, kill: set<int>): Stage {
    if s.valid && s.robId in kill then EMPTY else s
  }

  function Squashed(p: seq<Stage>, kill: set<int>): (q: seq<Stage>)
    ensures |q| == |p| && forall i :: 0 <= i < |p| ==> q[i] == SquashedStage(p[i], kill)
  {
    seq(|p|, i requires 0 <= i < |p| => SquashedStage(p[i], kill))
  }

  /** The bus lane of unit `i`. */
  function LaneOf(p: seq<Stage>, i: nat): Producer
    requires p != []
  {
    var o := Output(p);
    if o.valid && o.offerCdb then Producer(true, o.robId, o.value, i) else Producer(false, -1, 0, i)
  }

  // ---------------------------------------------------------------- a pipe is a queue

  /** The instructions in a pipe, oldest first. */
  function InPipe(p: seq<Stage>): seq<Stage> {
    if p == [] then []
    else (if p[|p| - 1].valid then [p[|p| - 1]] else []) + InPipe(p[..|p| - 1])
  }

  function Survivors(q: seq<Stage>, kill: set<int>): seq<Stage> {
    if q == [] then []
    else (if q[0].robId in kill then [] else [q[0]]) + Survivors(q[1..], kill)
  }

  lemma {:induction false} BubbleAtBack(p: seq<Stage>)
    ensures InPipe([EMPTY] + p) == InPipe(p)
  {
    if p == [] {
      assert [EMPTY] + p == [EMPTY] && [EMPTY][..0] == [];
    } else {
      BubbleAtBack(p[..|p| - 1]);
      assert ([EMPTY] + p)[..|p|] == [EMPTY] + p[..|p| - 1];
    }
  }

  /** Issuing puts the new instruction behind everything in the pipe. */
  lemma {:induction false} IssueAppends(p: seq<Stage>, s: Stage)
    requires p != [] && !p[0].valid && s.valid
    ensures InPipe(p[0 := s]) == InPipe(p) + [s]
  {
    if |p| == 1 {
      assert p[0 := s][..0] == [] && p[..0] == [];
    } else {
      var front, last := p[..|p| - 1], p[|p| - 1];
      assert p[0 := s][..|p| - 1] == front[0 := s] && p[0 := s][|p| - 1] == last;
      IssueAppends(front, s);
      var head := if last.valid then [last] else [];
      assert InPipe(p) == head + InPipe(front) && InPipe(p[0 := s]) == head + InPipe(front[0 := s]);
      assert head + (InPipe(front) + [s]) == (head + InPipe(front)) + [s];
    }
  }

  /** Handing over the output removes the oldest; shifting changes nothing. */
  lemma {:induction false} CycleTakesOldest(p: seq<Stage>, taken: bool, ready: bool)
    requires p != []
    ensures InPipe(Cycled(p, taken, ready)) == if taken && Output(p).valid then InPipe(p)[1..] else InPipe(p)
    ensures Output(p).valid ==> InPipe(p) != [] && InPipe(p)[0] == Output(p)
  {
    var q := if taken && Output(p).valid then Consumed(p) else p;
    assert q[..|q| - 1] == p[..|p| - 1];
    if !Output(q).valid {
      BubbleAtBack(q[..|q| - 1]);
    }
  }

  /** Recovery drops exactly the squashed instructions. */
  lemma {:induction false} SquashFilters(p: seq<Stage>, kill: set<int>)
    ensures InPipe(Squashed(p, kill)) == Survivors(InPipe(p), kill)
  {
    if p != [] {
      SquashFilters(p[..|p| - 1], kill);
      assert Squashed(p, kill)[..|p| - 1] == Squashed(p[..|p| - 1], kill);
      var s, rest, q := p[|p| - 1], InPipe(p[..|p| - 1]), Squashed(p, kill);
      assert ([s] + rest)[1..] == rest && ([s] + rest)[0] == s;
      if s.valid {
        assert InPipe(p) == [s] + rest;
        assert InPipe(q) == (if s.robId in kill then [] else [s]) + InPipe(q[..|p| - 1]);
      } else {
        assert InPipe(p) == rest && InPipe(q) == InPipe(q[..|p| - 1]);
      }
    }
  }

  /** A pipe after `n` cycles in which its lane is ready and its outputs are taken. */
  function CycledFor(p: seq<Stage>, n: nat): (q: seq<Stage>)
    requires p != []
    ensures |q| == |p|
  {
    if n == 0 then p else Cycled(CycledFor(p, n - 1), true, true)
  }

  /** Whatever else is in the pipe, an instruction moves one stage a cycle, and is the output after as many cycles as
    * there are stages behind the first. */
  lemma {:induction false} ReachesOutput(p: seq<Stage>, j: nat, n: nat)
    requires j + n < |p|
    ensures CycledFor(p, n)[j + n] == p[j]
    ensures j + n == |p| - 1 ==> Output(CycledFor(p, n)) == p[j]
  {
    if n > 0 {
      ReachesOutput(p, j, n - 1);
    }
  }

  // ---------------------------------------------------------------- a lane and its holding register

  /** A held beat is always the live, frozen output. */
  predicate HoldsOutput(h: Held, p: seq<Stage>, i: nat) {
    p != [] && (h.valid ==> LaneOf(p, i).valid && h.beat == LaneOf(p, i))
  }

  datatype LaneEvent =
    | Cycle(granted: bool, resolved: bool)
    | Issue(stage: Stage)
    | Squash(kill: set<int>)

  datatype LaneState = LaneState(held: Held, pipe: seq<Stage>)

  /** A grant goes to a requesting lane, a resolution to a control output off the bus, an issue to a free ready pipe. */
  predicate LaneEnabled(l: LaneState, i: nat, e: LaneEvent)
    requires l.pipe != []
  {
    match e
    case Cycle(granted, resolved) =>
      && (granted ==> Requests(l.held, LaneOf(l.pipe, i)))
      && (resolved ==> Output(l.pipe).valid && Output(l.pipe).isControl && !Output(l.pipe).offerCdb)
    case Issue(s) => s.valid && !l.pipe[0].valid
    case Squash(_) => true
  }

  /** Arbitration, pipe advance and register update of one cycle; or an issue; or a recovery. */
  function LaneStep(l: LaneState, i: nat, e: LaneEvent): (n: LaneState)
    requires l.pipe != [] && LaneEnabled(l, i, e)
    ensures |n.pipe| == |l.pipe|
  {
    match e
    case Cycle(granted, resolved) =>
      var pipe := Cycled(l.pipe, granted || resolved, !l.held.valid || granted);
      LaneState(NextHeld(l.held, granted, LaneOf(pipe, i)), pipe)
    case Issue(s) => LaneState(l.held, l.pipe[0 := s])
    case Squash(kill) => LaneState(Purge(l.held, kill), Squashed(l.pipe, kill))
  }

  /** What one event does to the lane seen as a queue. */
  function QueueStep(q: seq<Stage>, e: LaneEvent): seq<Stage> {
    match e
    case Cycle(granted, resolved) => if (granted || resolved) && q != [] then q[1..] else q
    case Issue(s) => q + [s]
    case Squash(kill) => Survivors(q, kill)
  }

  /** Every event keeps the held beat equal to the live output, a grant delivers the oldest instruction's own result,
    * and the lane stays a first-in first-out queue. */
  lemma {:induction false} LaneStepIsQueue(l: LaneState, i: nat, e: LaneEvent)
    requires HoldsOutput(l.held, l.pipe, i) && LaneEnabled(l, i, e)
    ensures var n := LaneStep(l, i, e);
            HoldsOutput(n.held, n.pipe, i) && InPipe(n.pipe) == QueueStep(InPipe(l.pipe), e)
    ensures e.Cycle? && e.granted ==>
              var s, o := Output(l.pipe), Offer(l.held, LaneOf(l.pipe, i));
              s.valid && s.offerCdb && o == LaneOf(l.pipe, i) && o.robId == s.robId && o.value == s.value
    ensures e.Cycle? && (e.granted || e.resolved) ==> InPipe(l.pipe) != [] && InPipe(l.pipe)[0] == Output(l.pipe)
  {
    match e
    case Cycle(granted, resolved) =>
      CycleTakesOldest(l.pipe, granted || resolved, !l.held.valid || granted);
    case Issue(s) =>
      IssueAppends(l.pipe, s);
    case Squash(kill) =>
      SquashFilters(l.pipe, kill);
  }

  predicate LaneRuns(l: LaneState, i: nat, es: seq<LaneEvent>)
    requires l.pipe != []
    decreases |es|
  {
    es == [] || (LaneEnabled(l, i, es[0]) && LaneRuns(LaneStep(l, i, es[0]), i, es[1..]))
  }

  function LaneAfter(l: LaneState, i: nat, es: seq<LaneEvent>): LaneState
    requires l.pipe != [] && LaneRuns(l, i, es)
    decreases |es|
  {
    if es == [] then l else LaneAfter(LaneStep(l, i, es[0]), i, es[1..])
  }

  function QueueAfter(q: seq<Stage>, es: seq<LaneEvent>): seq<Stage>
    decreases |es|
  {
    if es == [] then q else QueueAfter(QueueStep(q, es[0]), es[1..])
  }

  /** Over any run of grants, stalls, issues and recoveries, the lane is that queue: each result leaves it once, in
    * order, and none is lost unless squashed. */
  lemma {:induction false} LaneIsQueue(l: LaneState, i: nat, es: seq<LaneEvent>)
    requires HoldsOutput(l.held, l.pipe, i) && LaneRuns(l, i, es)
    ensures var n := LaneAfter(l, i, es);
            HoldsOutput(n.held, n.pipe, i) && InPipe(n.pipe) == QueueAfter(InPipe(l.pipe), es)
    decreases |es|
  {
    hide LaneStep, QueueStep, LaneEnabled;
    if es != [] {
      LaneStepIsQueue(l, i, es[0]);
      LaneIsQueue(LaneStep(l, i, es[0]), i, es[1..]);
    }
  }

  // ---------------------------------------------------------------- the units themselves

  class ExecutionUnit {
    const kind: Kind
    const pipe: array<Stage>

    ghost predicate Valid() { pipe.Length > 0 }

    /** A latency below one is taken as one. */
    constructor (k: Kind, latency: int)
      ensures Valid() && fresh(pipe) && kind == k
      ensures pipe.Length == if latency < 1 then 1 else latency
      ensures forall j :: 0 <= j < pipe.Length ==> pipe[j] == EMPTY
    {
      kind := k;
      pipe := new Stage[if latency < 1 then 1 else latency](_ => EMPTY);
    }

    function CanIssue(laneReady: bool): bool
      requires Valid()
      reads pipe
    {
      laneReady && !pipe[0].valid
    }

    method IssueOp(op: Op, a: Word, b: Word, tag: int) returns (ok: bool)
      requires Valid()
      modifies pipe
      ensures ok <==> !old(pipe[0]).valid
      ensures pipe[..] == if ok then old(pipe[..])[0 := StageOf(op, a, b, tag)] else old(pipe[..])
    {
      if !CanIssue(true) { return false; }
      pipe[0] := StageOf(op, a, b, tag);
      return true;
    }

    method ConsumeOutput()
      requires Valid() && pipe[pipe.Length - 1].valid
      modifies pipe
      ensures pipe[..] == Consumed(old(pipe[..]))
    {
      pipe[pipe.Length - 1] := EMPTY;
    }

    /** The pipe moves only when the lane is ready and the output has been taken. */
    method Advance(cdbReady: bool)
      requires Valid()
      modifies pipe
      ensures pipe[..] == Shifted(old(pipe[..]), cdbReady)
    {
      if !cdbReady || pipe[pipe.Length - 1].valid { return; }
      MoveStages();
    }

    /** Every stage takes what the one before it held. */
    method MoveStages()
      requires Valid()
      modifies pipe
      ensures pipe[0] == EMPTY && forall j :: 0 < j < pipe.Length ==> pipe[j] == old(pipe[j - 1])
    {
      var i := pipe.Length - 1;
      while i > 0
        invariant 0 <= i < pipe.Length
        invariant forall j :: 0 <= j <= i ==> pipe[j] == old(pipe[j])
        invariant forall j :: i < j < pipe.Length ==> pipe[j] == old(pipe[j - 1])
      {
        pipe[i] := pipe[i - 1];
        i := i - 1;
      }
      pipe[0] := EMPTY;
    }

    method SquashRobTags(kill: set<int>)
      requires Valid()
      modifies pipe
      ensures pipe[..] == Squashed(old(pipe[..]), kill)
    {
      var i := 0;
      while i < pipe.Length
        invariant 0 <= i <= pipe.Length
        invariant forall j :: i <= j < pipe.Length ==> pipe[j] == old(pipe[j])
        invariant forall j :: 0 <= j < i ==> pipe[j] == SquashedStage(old(pipe[j]), kill)
      {
        if pipe[i].valid && pipe[i].robId in kill { pipe[i] := EMPTY; }
        i := i + 1;
      }
    }
  }

  class ExecutionEngine {
    const units: seq<ExecutionUnit>
    const laneReady: array<bool>

    ghost predicate Valid() {
      && laneReady.Length == |units|
      && (forall i :: 0 <= i < |units| ==> units[i].Valid())
      && forall i, j :: 0 <= i < j < |units| ==> units[i].pipe != units[j].pipe
    }

    ghost function Pipes(): set<array<Stage>> {
      set i | 0 <= i < |units| :: units[i].pipe
    }

    /** The contents of unit `i`'s pipe. */
    ghost function At(i: nat): seq<Stage>
      requires i < |units|
      reads units[i].pipe
    {
      units[i].pipe[..]
    }

    /** Unit `i` can take an instruction of the kind. */
    ghost predicate Free(i: nat, kind: Kind)
      requires Valid() && i < |units|
      reads laneReady, units[i].pipe
    {
      units[i].kind == kind && laneReady[i] && !At(i)[0].valid
    }

    /** Gives the instruction to the first free unit of its kind whose lane is ready. */
    method IssueInstruction(op: Op, a: Word, b: Word, tag: int) returns (ok: bool, unit: nat)
      requires Valid()
      modifies Pipes()
      ensures unit <= |units| && (ok <==> unit < |units|)
      ensures forall j :: 0 <= j < unit ==> !old(Free(j, KindOf(op)))
      ensures ok ==> old(Free(unit, KindOf(op)))
      ensures ok ==> At(unit) == old(At(unit))[0 := StageOf(op, a, b, tag)]
      ensures forall j :: 0 <= j < |units| && (ok ==> j != unit) ==> At(j) == old(At(j))
    {
      ok, unit := false, 0;
      while unit < |units|
        invariant 0 <= unit <= |units| && !ok
        invariant forall j :: 0 <= j < |units| ==> At(j) == old(At(j))
        invariant forall j :: 0 <= j < unit ==> !old(Free(j, KindOf(op)))
      {
        if units[unit].kind == KindOf(op) && units[unit].CanIssue(laneReady[unit]) {
          ok := units[unit].IssueOp(op, a, b, tag);
          return;
        }
        unit := unit + 1;
      }
    }

    /** One fixed lane for each unit. */
    method CollectProducersFixed() returns (lanes: seq<Producer>)
      requires Valid()
      ensures |lanes| == |units|
      ensures forall i :: 0 <= i < |units| ==> lanes[i] == LaneOf(At(i), i)
    {
      lanes := [];
      var i := 0;
      while i < |units|
        invariant i == |lanes| <= |units|
        invariant forall j :: 0 <= j < i ==> lanes[j] == LaneOf(At(j), j)
      {
        var o := units[i].pipe[units[i].pipe.Length - 1];
        lanes := lanes + [if o.valid && o.offerCdb then Producer(true, o.robId, o.value, i) else Producer(false, -1,
            0, i)];
        i := i + 1;
      }
    }

    /** Missing entries leave a lane ready. */
    method SetLaneReady(ready: seq<bool>)
      requires Valid()
      modifies laneReady
      ensures forall i :: 0 <= i < |units| ==> laneReady[i] == (i < |ready| ==> ready[i])
    {
      var i := 0;
      while i < |units|
        invariant 0 <= i <= |units|
        invariant forall j :: 0 <= j < i ==> laneReady[j] == (j < |ready| ==> ready[j])
      {
        laneReady[i] := i < |ready| ==> ready[i];
        i := i + 1;
      }
    }

    /** Takes the granted outputs and advances every pipe. */
    method ApplyCdbAndAdvance(granted: set<nat>)
      requires Valid()
      modifies Pipes()
      ensures forall i :: 0 <= i < |units| ==> At(i) == Cycled(old(At(i)), i in granted, laneReady[i])
    {
      var i := 0;
      while i < |units|
        invariant 0 <= i <= |units|
        invariant forall j :: i <= j < |units| ==> At(j) == old(At(j))
        invariant forall j :: 0 <= j < i ==> At(j) == Cycled(old(At(j)), j in granted, laneReady[j])
      {
        var u := units[i];
        ghost var before := At(i);
        if u.pipe[u.pipe.Length - 1].valid && i in granted { u.ConsumeOutput(); }
        u.Advance(laneReady[i]);
        assert At(i) == Cycled(before, i in granted, laneReady[i]);
        i := i + 1;
      }
    }

    method SquashRobTags(kill: set<int>)
      requires Valid()
      modifies Pipes()
      ensures forall i :: 0 <= i < |units| ==> At(i) == Squashed(old(At(i)), kill)
    {
      var i := 0;
      while i < |units|
        invariant 0 <= i <= |units|
        invariant forall j :: i <= j < |units| ==> At(j) == old(At(j))
        invariant forall j :: 0 <= j < i ==> At(j) == Squashed(old(At(j)), kill)
      {
        units[i].SquashRobTags(kill);
        i := i + 1;
      }
    }
  }
}
