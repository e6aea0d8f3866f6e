/** The common-data-bus arbiter: round-robin grants over fixed lanes, with a holding register for each lane. */
module CdbArbiter {
  import opened Words
  import opened Core
  import opened ReorderBuffer

  /** What a lane offers to the bus. */
  datatype Producer = Producer(valid: bool, robId: int, value: Word, slot: int)

  const IDLE := Producer(false, -1, 0, -1)

  // ---------------------------------------------------------------- round-robin selection

  /** Distance from the pointer to the first requesting lane at distance `off` or more; the lane count if none. */
  function FirstFrom(req: seq<bool>, rr: nat, off: nat): (o: nat)
    requires rr < |req| && off <= |req|
    ensures off <= o <= |req|
    ensures forall k :: off <= k < o ==> !req[Tag(rr, |req|, k)]
    ensures o < |req| ==> req[Tag(rr, |req|, o)]
    decreases |req| - off
  {
    if off == |req| then off
    else if req[Tag(rr, |req|, off)] then off
    else FirstFrom(req, rr, off + 1)
  }

  /** The lanes granted when `width` slots go round from the pointer, in grant order. */
  function Grants(req: seq<bool>, rr: nat, width: nat): seq<nat>
    requires rr < |req|
    decreases width
  {
    if width == 0 then []
    else
      var o := FirstFrom(req, rr, 0);
      if o == |req| then []
      else
        var i := Tag(rr, |req|, o);
        [i] + Grants(req[i := false], RingNext(i, |req|), width - 1)
  }

  /** The round-robin pointer after those grants. */
  function PointerAfter(req: seq<bool>, rr: nat, width: nat): (p: nat)
    requires rr < |req|
    ensures p < |req|
    decreases width
  {
    if width == 0 then rr
    else
      var o := FirstFrom(req, rr, 0);
      if o == |req| then rr
      else
        var i := Tag(rr, |req|, o);
        PointerAfter(req[i := false], RingNext(i, |req|), width - 1)
  }

  function Count(req: seq<bool>): (n: nat)
    ensures n == 0 <==> forall i :: 0 <= i < |req| ==> !req[i]
  {
    if req == [] then 0 else (if req[0] then 1 else 0) + Count(req[1..])
  }

  lemma {:induction false} CountDrop(req: seq<bool>, i: nat)
    requires i < |req| && req[i]
    ensures Count(req[i := false]) == Count(req) - 1
  {
    if i == 0 {
      assert req[0 := false][1..] == req[1..];
    } else {
      assert req[i := false][1..] == req[1..][i - 1 := false];
      CountDrop(req[1..], i - 1);
    }
  }

  lemma {:induction false} NoneFrom(req: seq<bool>, rr: nat)
    requires rr < |req|
    ensures FirstFrom(req, rr, 0) == |req| <==> Count(req) == 0
  {
    if FirstFrom(req, rr, 0) == |req| {
      forall i | 0 <= i < |req| ensures !req[i] {
        assert Tag(rr, |req|, Age(rr, |req|, i)) == i;
      }
    }
  }

  /** Grants go to requesting lanes, each at most once. */
  lemma {:induction false} GrantsRequested(req: seq<bool>, rr: nat, width: nat)
    requires rr < |req|
    ensures forall k :: 0 <= k < |Grants(req, rr, width)| ==>
              Grants(req, rr, width)[k] < |req| && req[Grants(req, rr, width)[k]]
    ensures forall j, k :: 0 <= j < k < |Grants(req, rr, width)| ==>
              Grants(req, rr, width)[j] != Grants(req, rr, width)[k]
    decreases width
  {
    if width > 0 {
      var o := FirstFrom(req, rr, 0);
      if o < |req| {
        var i := Tag(rr, |req|, o);
        GrantsRequested(req[i := false], RingNext(i, |req|), width - 1);
      }
    }
  }

  /** And there are as many of them as the bus is wide, or as there are requests. */
  lemma {:induction false} GrantsNumber(req: seq<bool>, rr: nat, width: nat)
    requires rr < |req|
    ensures |Grants(req, rr, width)| == if Count(req) < width then Count(req) else width
    decreases width
  {
    NoneFrom(req, rr);
    if width > 0 && Count(req) > 0 {
      var i := Tag(rr, |req|, FirstFrom(req, rr, 0));
      CountDrop(req, i);
      GrantsNumber(req[i := false], RingNext(i, |req|), width - 1);
    }
  }

  // ---------------------------------------------------------------- fairness

  lemma {:induction false} StepCloser(rr: nat, n: nat, o: nat, i: nat)
    requires rr < n && o < n && i < n && o < Age(rr, n, i)
    ensures Age(RingNext(Tag(rr, n, o), n), n, i) == Age(rr, n, i) - o - 1
  {
  }

  /** A requesting lane is granted, or the pointer comes at least `width` lanes closer to it. */
  lemma {:induction false} GrantedOrCloser(req: seq<bool>, rr: nat, width: nat, i: nat)
    requires rr < |req| && i < |req| && req[i]
    ensures i in Grants(req, rr, width)
         || Age(PointerAfter(req, rr, width), |req|, i) + width <= Age(rr, |req|, i)
    decreases width
  {
    if width > 0 {
      var o, a := FirstFrom(req, rr, 0), Age(rr, |req|, i);
      assert Tag(rr, |req|, a) == i;
      assert o <= a;
      var j := Tag(rr, |req|, o);
      if o < a {
        StepCloser(rr, |req|, o, i);
        GrantedOrCloser(req[j := false], RingNext(j, |req|), width - 1, i);
      }
    }
  }

  /** The pointer after a run of calls. */
  function PointerAt(reqs: seq<seq<bool>>, n: nat, rr: nat, width: nat, k: nat): (p: nat)
    requires rr < n && k <= |reqs| && forall j :: 0 <= j < |reqs| ==> |reqs[j]| == n
    ensures p < n
  {
    if k == 0 then rr else PointerAfter(reqs[k - 1], PointerAt(reqs, n, rr, width, k - 1), width)
  }

  ghost predicate GrantedAt(reqs: seq<seq<bool>>, n: nat, rr: nat, width: nat, i: nat, k: nat)
    requires rr < n && k < |reqs| && forall j :: 0 <= j < |reqs| ==> |reqs[j]| == n
  {
    i in Grants(reqs[k], PointerAt(reqs, n, rr, width, k), width)
  }

  lemma {:induction false} CloserEachCall(reqs: seq<seq<bool>>, n: nat, rr: nat, width: nat, i: nat, k: nat)
    requires rr < n && i < n && k <= |reqs| && forall j :: 0 <= j < |reqs| ==> |reqs[j]| == n && reqs[j][i]
    requires forall j :: 0 <= j < k ==> !GrantedAt(reqs, n, rr, width, i, j)
    ensures Age(PointerAt(reqs, n, rr, width, k), n, i) + k * width <= Age(rr, n, i)
  {
    if k > 0 {
      CloserEachCall(reqs, n, rr, width, i, k - 1);
      assert !GrantedAt(reqs, n, rr, width, i, k - 1);
      GrantedOrCloser(reqs[k - 1], PointerAt(reqs, n, rr, width, k - 1), width, i);
      assert k * width == (k - 1) * width + width;
    }
  }

  /** A lane that keeps requesting is granted within `calls` calls as soon as `calls * width` covers all lanes,
    * whatever the other lanes request. */
  lemma {:induction false} Fair(reqs: seq<seq<bool>>, n: nat, rr: nat, width: nat, i: nat)
    requires rr < n && i < n && forall j :: 0 <= j < |reqs| ==> |reqs[j]| == n && reqs[j][i]
    requires |reqs| * width >= n
    ensures exists k :: 0 <= k < |reqs| && GrantedAt(reqs, n, rr, width, i, k)
  {
    if forall k :: 0 <= k < |reqs| ==> !GrantedAt(reqs, n, rr, width, i, k) {
      CloserEachCall(reqs, n, rr, width, i, |reqs|);
      assert false;
    }
  }

  /** One call fewer than that is not always enough: with every lane requesting, lane `n - 1` waits its turn. */
  lemma {:induction false} WaitsItsTurn(n: nat, width: nat, rr: nat)
    requires rr + width < n
    ensures var all := seq(n, _ => true);
            n - 1 !in Grants(all, rr, width) && PointerAfter(all, rr, width) == rr + width
  {
    OnesFrom(seq(n, _ => true), rr, width);
  }

  lemma {:induction false} OnesFrom(req: seq<bool>, rr: nat, width: nat)
    requires rr + width < |req| && forall k :: rr <= k < |req| ==> req[k]
    ensures |req| - 1 !in Grants(req, rr, width) && PointerAfter(req, rr, width) == rr + width
    decreases width
  {
    if width > 0 {
      assert Tag(rr, |req|, 0) == rr;
      OnesFrom(req[rr := false], rr + 1, width - 1);
    }
  }

  // ---------------------------------------------------------------- the holding registers

  /** A lane's holding register: valid bit and payload. */
  datatype Held = Held(valid: bool, beat: Producer)

  predicate Requests(h: Held, live: Producer) { h.valid || live.valid }

  /** What a lane puts on the bus if granted. */
  function Offer(h: Held, live: Producer): Producer { if h.valid then h.beat else if live.valid then live else IDLE }

  /** The register after a cycle, given what the lane offers next. */
  function NextHeld(h: Held, granted: bool, after: Producer): Held {
    if h.valid then
      if !granted then h else if after.valid then Held(true, after) else Held(false, IDLE)
    else if after.valid && !granted then Held(true, after)
    else h
  }

  /** Recovery empties the register of a squashed instruction. */
  function Purge(h: Held, kill: set<int>): Held {
    if h.valid && h.beat.robId in kill then Held(false, IDLE) else h
  }

  function RequestVector(held: seq<Held>, live: seq<Producer>): (req: seq<bool>)
    requires |held| == |live|
    ensures |req| == |held| && forall i :: 0 <= i < |held| ==> req[i] == Requests(held[i], live[i])
  {
    seq(|held|, i requires 0 <= i < |held| => Requests(held[i], live[i]))
  }

  lemma {:induction false} Regroup(a: seq<nat>, i: nat, b: seq<nat>)
    ensures a + ([i] + b) == (a + [i]) + b
  {
  }

  class CdbArbiter {
    const cdbWidth: nat
    const numProducers: nat
    var rrPtr: nat
    const held: array<Held>
    const lastGrant: array<bool>

    ghost predicate Valid()
      reads this
    {
      held.Length == numProducers == lastGrant.Length && rrPtr < numProducers
    }

    constructor (width: nat, producers: nat)
      requires width > 0 && producers > 0
      ensures Valid() && fresh(held) && fresh(lastGrant) && cdbWidth == width && numProducers == producers && rrPtr == 0
      ensures forall i :: 0 <= i < producers ==> held[i] == Held(false, IDLE) && !lastGrant[i]
    {
      cdbWidth, numProducers, rrPtr := width, producers, 0;
      held := new Held[producers](_ => Held(false, IDLE));
      lastGrant := new bool[producers](_ => false);
    }

    /** Drops the held beats of squashed instructions. */
    method InvalidateTags(kill: set<int>)
      requires Valid()
      modifies held
      ensures forall i :: 0 <= i < numProducers ==> held[i] == Purge(old(held[i]), kill)
    {
      var i := 0;
      while i < numProducers
        invariant i <= numProducers
        invariant forall j :: i <= j < numProducers ==> held[j] == old(held[j])
        invariant forall j :: 0 <= j < i ==> held[j] == Purge(old(held[j]), kill)
      {
        if held[i].valid && held[i].beat.robId in kill {
          held[i] := Held(false, IDLE);
        }
        i := i + 1;
      }
    }

    /** The slots of one arbitration, each to the next requesting lane round the ring. */
    method FillSlots(live: seq<Producer>) returns (granted: seq<nat>, lanes: seq<Producer>)
      requires Valid() && |live| == numProducers
      modifies this`rrPtr, lastGrant
      ensures Valid()
      ensures var req := RequestVector(held[..], live);
              && granted == Grants(req, old(rrPtr), cdbWidth)
              && rrPtr == PointerAfter(req, old(rrPtr), cdbWidth)
      ensures |lanes| == |granted|
      ensures forall k :: 0 <= k < |granted| ==>
                granted[k] < numProducers && lanes[k] == Offer(held[granted[k]], live[granted[k]])
      ensures forall i :: 0 <= i < numProducers ==> (lastGrant[i] <==> i in granted)
    {
      hide RingAt, RingNext;
      var open := RequestVector(held[..], live);
      ghost var rr0, req0 := rrPtr, open;
      forall i | 0 <= i < lastGrant.Length { lastGrant[i] := false; }
      granted, lanes := [], [];
      var slot := 0;
      while slot < cdbWidth
        invariant slot <= cdbWidth && rrPtr < numProducers == |open| && |lanes| == |granted|
        invariant granted + Grants(open, rrPtr, cdbWidth - slot) == Grants(req0, rr0, cdbWidth)
        invariant PointerAfter(open, rrPtr, cdbWidth - slot) == PointerAfter(req0, rr0, cdbWidth)
        invariant forall k :: 0 <= k < |granted| ==>
                    granted[k] < numProducers && lanes[k] == Offer(held[granted[k]], live[granted[k]])
        invariant forall i :: 0 <= i < numProducers ==> (lastGrant[i] <==> i in granted)
      {
        var offset := FindRequest(open);
        if offset == numProducers { break; }
        var idx := RingAt(rrPtr, numProducers, offset);
        Regroup(granted, idx, Grants(open[idx := false], RingNext(idx, numProducers), cdbWidth - slot - 1));
        open := open[idx := false];
        lastGrant[idx] := true;
        granted := granted + [idx];
        lanes := lanes + [Offer(held[idx], live[idx])];
        rrPtr := RingNext(idx, numProducers);
        slot := slot + 1;
      }
      assert Grants(open, rrPtr, cdbWidth - slot) == [];
      assert granted + [] == granted;
      assert held[..] == old(held[..]);
    }

    /** One arbitration. A lane is ready for more if it holds nothing back, or was granted. */
    method SelectGrants(live: seq<Producer>) returns (granted: seq<nat>, lanes: seq<Producer>, ready: seq<bool>)
      requires Valid() && |live| == numProducers
      modifies this`rrPtr, lastGrant
      ensures Valid()
      ensures var req := RequestVector(held[..], live);
              && granted == Grants(req, old(rrPtr), cdbWidth)
              && rrPtr == PointerAfter(req, old(rrPtr), cdbWidth)
      ensures |lanes| == |granted|
      ensures forall k :: 0 <= k < |granted| ==>
                granted[k] < numProducers && lanes[k] == Offer(held[granted[k]], live[granted[k]])
      ensures forall k :: 0 <= k < |granted| ==>
                lanes[k] == if held[granted[k]].valid then held[granted[k]].beat else live[granted[k]]
      ensures forall i :: 0 <= i < numProducers ==> (lastGrant[i] <==> i in granted)
      ensures |ready| == numProducers
      ensures forall i :: 0 <= i < numProducers ==> (ready[i] <==> !held[i].valid || i in granted)
    {
      granted, lanes := FillSlots(live);
      GrantsRequested(RequestVector(held[..], live), old(rrPtr), cdbWidth);
      ready := seq(numProducers, i requires 0 <= i < numProducers => false);
      var i := 0;
      while i < numProducers
        invariant i <= numProducers == |ready|
        invariant forall j :: 0 <= j < i ==> (ready[j] <==> !held[j].valid || lastGrant[j])
      {
        ready := ready[i := !held[i].valid || lastGrant[i]];
        i := i + 1;
      }
    }

    /** The inner search: distance from the pointer to the first lane still requesting. */
    method FindRequest(open: seq<bool>) returns (offset: nat)
      requires Valid() && |open| == numProducers
      ensures offset == FirstFrom(open, rrPtr, 0)
    {
      hide RingAt;
      offset := 0;
      while offset < numProducers
        invariant offset <= numProducers && FirstFrom(open, rrPtr, 0) == FirstFrom(open, rrPtr, offset)
      {
        if open[RingAt(rrPtr, numProducers, offset)] { return; }
        offset := offset + 1;
      }
    }

    /** After the granted lanes have moved on, the holding registers take what was offered and not granted. */
    method CommitPending(after: seq<Producer>)
      requires Valid() && |after| == numProducers
      modifies held
      ensures forall i :: 0 <= i < numProducers ==> held[i] == NextHeld(old(held[i]), lastGrant[i], after[i])
    {
      var i := 0;
      while i < numProducers
        invariant i <= numProducers
        invariant forall j :: i <= j < numProducers ==> held[j] == old(held[j])
        invariant forall j :: 0 <= j < i ==> held[j] == NextHeld(old(held[j]), lastGrant[j], after[j])
      {
        var granted, valid := lastGrant[i], after[i].valid;
        if held[i].valid {
          if granted {
            if valid { held[i] := Held(true, after[i]); } else { held[i] := Held(false, IDLE); }
          }
        } else if valid && !granted {
          held[i] := Held(true, after[i]);
        }
        i := i + 1;
      }
    }
  }
}
