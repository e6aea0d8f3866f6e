/** Every accepted request is in exactly one place until it is answered. */
module CacheConserve {
  import opened Words
  import opened MemTypes
  import opened CacheModel
  import opened CacheInv
  import opened CacheRun
  import opened CacheTheorems

  /** What identifies a request and its reply. */
  datatype Token = Token(id: int, cookie: nat, write: bool)

  // ---------------------------------------------------------------- how often a token is held

  function OfReq(r: Req, k: Token): nat { if Token(r.id, r.cookie, r.write) == k then 1 else 0 }

  function OfResp(p: Resp, k: Token): nat { if Token(p.id, p.cookie, p.isWrite) == k then 1 else 0 }

  function OfPipe(p: Pipe, k: Token): nat { if p.valid then OfReq(p.req, k) else 0 }

  function OfHit(h: HitPend, k: Token): nat { if h.valid then OfResp(h.resp, k) else 0 }

  /** Waiters a register has not answered yet, from place `from` on. */
  function OfWaiters(reqs: seq<Req>, from: nat, k: Token): nat
    decreases |reqs| - from
  {
    if from >= |reqs| then 0 else OfReq(reqs[from], k) + OfWaiters(reqs, from + 1, k)
  }

  function OfMshr(m: Mshr, k: Token): nat { if m.valid then OfWaiters(m.waiters, m.drainIdx, k) else 0 }

  function OfQueue(q: seq<Resp>, k: Token): nat {
    if q == [] then 0 else OfResp(q[0], k) + OfQueue(q[1..], k)
  }

  function Sum(s: seq<nat>): nat { if s == [] then 0 else s[0] + Sum(s[1..]) }

  function InPipes(pipe: seq<Pipe>, k: Token): seq<nat> {
    seq(|pipe|, i requires 0 <= i < |pipe| => OfPipe(pipe[i], k))
  }

  function InHits(hits: seq<HitPend>, k: Token): seq<nat> {
    seq(|hits|, i requires 0 <= i < |hits| => OfHit(hits[i], k))
  }

  function InMshrs(mshrs: seq<Mshr>, k: Token): seq<nat> {
    seq(|mshrs|, i requires 0 <= i < |mshrs| => OfMshr(mshrs[i], k))
  }

  /** How often `k` is accepted and not yet taken as a reply: in a pipe, a hit delay, a waiter slot or the queue. */
  function Held(d: DState, k: Token): nat {
    Sum(InPipes(d.pipe, k)) + Sum(InHits(d.hitPend, k)) + Sum(InMshrs(d.mshrs, k)) + OfQueue(d.respQ, k)
  }

  lemma {:induction false} SumPut(s: seq<nat>, i: nat, x: nat)
    requires i < |s|
    ensures Sum(s[i := x]) + s[i] == Sum(s) + x
  {
    if i == 0 {
      assert s[0 := x][1..] == s[1..];
    } else {
      assert s[i := x][1..] == s[1..][i - 1 := x];
      SumPut(s[1..], i - 1, x);
    }
  }

  lemma {:induction false} PipePut(pipe: seq<Pipe>, p: nat, x: Pipe, k: Token)
    requires p < |pipe|
    ensures Sum(InPipes(pipe[p := x], k)) + OfPipe(pipe[p], k) == Sum(InPipes(pipe, k)) + OfPipe(x, k)
  {
    assert InPipes(pipe[p := x], k) == InPipes(pipe, k)[p := OfPipe(x, k)];
    SumPut(InPipes(pipe, k), p, OfPipe(x, k));
  }

  lemma {:induction false} HitPut(hits: seq<HitPend>, p: nat, x: HitPend, k: Token)
    requires p < |hits|
    ensures Sum(InHits(hits[p := x], k)) + OfHit(hits[p], k) == Sum(InHits(hits, k)) + OfHit(x, k)
  {
    assert InHits(hits[p := x], k) == InHits(hits, k)[p := OfHit(x, k)];
    SumPut(InHits(hits, k), p, OfHit(x, k));
  }

  lemma {:induction false} MshrPut(mshrs: seq<Mshr>, i: nat, x: Mshr, k: Token)
    requires i < |mshrs|
    ensures Sum(InMshrs(mshrs[i := x], k)) + OfMshr(mshrs[i], k) == Sum(InMshrs(mshrs, k)) + OfMshr(x, k)
  {
    assert InMshrs(mshrs[i := x], k) == InMshrs(mshrs, k)[i := OfMshr(x, k)];
    SumPut(InMshrs(mshrs, k), i, OfMshr(x, k));
  }

  lemma {:induction false} QueueAppend(q: seq<Resp>, p: Resp, k: Token)
    ensures OfQueue(q + [p], k) == OfQueue(q, k) + OfResp(p, k)
  {
    if q == [] {
      assert [] + [p] == [p] && [p][1..] == [];
    } else {
      assert (q + [p])[1..] == q[1..] + [p];
      QueueAppend(q[1..], p, k);
    }
  }

  lemma {:induction false} WaitersAppend(reqs: seq<Req>, r: Req, from: nat, k: Token)
    requires from <= |reqs|
    ensures OfWaiters(reqs + [r], from, k) == OfWaiters(reqs, from, k) + OfReq(r, k)
    decreases |reqs| - from
  {
    if from < |reqs| {
      WaitersAppend(reqs, r, from + 1, k);
    }
  }

  // ---------------------------------------------------------------- every step conserves requests

  lemma {:induction false} PortConserves(c: DConf, m: MemSys, p: nat, k: Token)
    requires SysInv(c, m) && p < c.ports
    ensures Held(ProcessPort(c, m.d, p), k) == Held(m.d, k)
  {
    var d := m.d;
    if d.pipe[p].valid {
      var req := d.pipe[p].req;
      var s, tag := SetOf(c.sets, req.line), TagOf(c.sets, req.line);
      var existing := FindMshr(d.mshrs, req.line, 0);
      if existing >= 0 {
        if !Holds(c, d.mshrs[existing]) { JoinConserves(c, m, p, existing, k); }
      } else {
        var hit := FindHit(d.cache[s], tag, 0);
        if hit >= 0 {
          HitConserves(c, d, p, s, hit, k);
        } else {
          var i, v := AllocMshr(d.mshrs, 0), FindVictim(d.cache[s]);
          if i >= 0 && v >= 0 { MissConserves(c, d, p, s, v, i, k); }
        }
      }
    }
  }

  lemma {:induction false} JoinConserves(c: DConf, m: MemSys, p: nat, i: nat, k: Token)
    requires SysInv(c, m) && p < c.ports && m.d.pipe[p].valid && i < c.mshrCount && m.d.mshrs[i].valid
    requires !Holds(c, m.d.mshrs[i])
    ensures Held(JoinMshr(m.d, p, i), k) == Held(m.d, k)
  {
    var d, e := m.d, m.d.mshrs[i];
    assert MshrOk(c, d.cache, e);
    PipePut(d.pipe, p, d.pipe[p].(valid := false), k);
    WaitersAppend(e.waiters, d.pipe[p].req, e.drainIdx, k);
    MshrPut(d.mshrs, i, e.(waiters := e.waiters + [d.pipe[p].req]), k);
  }

  lemma {:induction false} MissConserves(c: DConf, d: DState, p: nat, s: nat, v: nat, i: nat, k: Token)
    requires Shaped(c, d) && p < c.ports && d.pipe[p].valid && s < c.sets && v < c.ways && i < c.mshrCount
    requires !d.mshrs[i].valid
    ensures Held(MissPort(c, d, p, s, v, i), k) == Held(d, k)
  {
    var n := NewMshr(c, d.cache[s][v], s, v, d.pipe[p].req);
    PipePut(d.pipe, p, d.pipe[p].(valid := false), k);
    assert OfWaiters(n.waiters, 1, k) == 0;
    MshrPut(d.mshrs, i, n, k);
  }

  lemma {:induction false} HitConserves(c: DConf, d: DState, p: nat, s: nat, i: nat, k: Token)
    requires Shaped(c, d) && p < c.ports && d.pipe[p].valid && s < c.sets && i < c.ways && d.cache[s][i].valid
    ensures Held(HitPort(c, d, p, s, i), k) == Held(d, k)
  {
    var req := d.pipe[p].req;
    PipePut(d.pipe, p, d.pipe[p].(valid := false), k);
    if req.write {
      QueueAppend(d.respQ, ReplyTo(req, ZERO_LANES), k);
    } else if !d.hitPend[p].valid {
      HitPut(d.hitPend, p, HitPend(true, c.hitLatency, ReplyTo(req, d.cache[s][i].data[req.off])), k);
    }
  }

  lemma {:induction false} EmitConserves(d: DState, p: nat, k: Token)
    requires p < |d.hitPend|
    ensures Held(EmitHit(d, p), k) == Held(d, k)
  {
    var h := d.hitPend[p];
    if h.valid {
      var left := if h.cycles > 0 then h.cycles - 1 else 0;
      QueueAppend(d.respQ, h.resp, k);
      HitPut(d.hitPend, p, if left == 0 then NO_HIT else h.(cycles := left), k);
    }
  }

  lemma {:induction false} FillConserves(c: DConf, m: MemSys, i: nat, k: Token)
    requires SysInv(c, m) && MemEnabled(c, m, Fill(i))
    ensures Held(MemApply(c, m, Fill(i)).d, k) == Held(m.d, k)
  {
    FillNeeds(c, m, i);
    assert MshrOk(c, m.d.cache, m.d.mshrs[i]);
    MshrPut(m.d.mshrs, i, Draining(m.d.mshrs[i]), k);
  }

  lemma {:induction false} AnswerConserves(m: Mshr, k: Token)
    requires m.valid && m.drainIdx <= |m.waiters|
    requires forall j :: 0 <= j < |m.waiters| ==> m.waiters[j].off < |m.drainLine|
    ensures OfMshr(Answered(m), k) + OfQueue(NextReplies(m), k) == OfMshr(m, k)
  {
    if m.drainIdx < |m.waiters| {
      assert NextReplies(m)[1..] == [];
      assert OfQueue(NextReplies(m), k) == OfReq(m.waiters[m.drainIdx], k);
      assert OfMshr(Answered(m), k) == OfWaiters(m.waiters, m.drainIdx + 1, k);
    }
  }

  lemma {:induction false} DrainConserves(c: DConf, m: MemSys, k: Token)
    requires SysInv(c, m)
    ensures Held(MemApply(c, m, Drain).d, k) == Held(m.d, k)
  {
    DrainNeeds(c, m);
    var i := DrainTurn(m.d);
    if i >= 0 {
      var n := m.d.mshrs[i];
      assert MshrOk(c, m.d.cache, n);
      AnswerConserves(n, k);
      if n.drainIdx < |n.waiters| {
        QueueAppend(m.d.respQ, NextReplies(n)[0], k);
        assert NextReplies(n) == [NextReplies(n)[0]] && NextReplies(n)[1..] == [];
      } else {
        assert m.d.respQ + [] == m.d.respQ;
      }
      MshrPut(m.d.mshrs, i, Answered(n), k);
    }
  }

  lemma {:induction false} DramConserves(c: DConf, m: MemSys, e: MemStep, k: Token)
    requires SysInv(c, m) && MemEnabled(c, m, e)
    requires e.SlotTick? || e.Reply? || e.CacheToDram? || e.OtherToDram?
    ensures Held(MemApply(c, m, e).d, k) == Held(m.d, k)
  {
    var d := m.d;
    if e.CacheToDram? {
      var i := PickDramMshr(d.mshrs);
      MshrPut(d.mshrs, i, DramAccepted(d).mshrs[i], k);
    } else if e.Reply? && m.slots[e.k].client.FromD? {
      var i := m.slots[e.k].client.mshr;
      if i < |d.mshrs| && d.mshrs[i].valid {
        MshrPut(d.mshrs, i, DramReplied(c, d, i, m.slots[e.k].data).mshrs[i], k);
      }
    }
  }

  /** Requests a step accepts, and replies it hands over. */
  function In(e: MemStep, k: Token): nat { if e.Accept? then OfReq(e.req, k) else 0 }

  ghost function Out(m: MemSys, e: MemStep, k: Token): nat {
    if e.Take? && m.d.respQ != [] then OfResp(m.d.respQ[0], k) else 0
  }

  lemma {:induction false} AcceptConserves(c: DConf, m: MemSys, p: nat, req: Req, k: Token)
    requires SysInv(c, m) && MemEnabled(c, m, Accept(p, req))
    ensures Held(MemApply(c, m, Accept(p, req)).d, k) + Out(m, Accept(p, req), k)
              == Held(m.d, k) + In(Accept(p, req), k)
  {
    PipePut(m.d.pipe, p, Pipe(true, req), k);
  }

  lemma {:induction false} TakeConserves(c: DConf, m: MemSys, k: Token)
    requires SysInv(c, m) && MemEnabled(c, m, Take)
    ensures Held(MemApply(c, m, Take).d, k) + Out(m, Take, k) == Held(m.d, k) + In(Take, k)
  {
  }

  /** What is held after a step is what was held, plus what came in, less what went out. */
  lemma {:induction false} StepConserves(c: DConf, m: MemSys, e: MemStep, k: Token)
    requires SysInv(c, m) && MemEnabled(c, m, e)
    ensures Held(MemApply(c, m, e).d, k) + Out(m, e, k) == Held(m.d, k) + In(e, k)
  {
    hide Held;
    match e
    case Port(p) => PortConserves(c, m, p, k);
    case Emit(p) => EmitConserves(m.d, p, k);
    case Fill(i) => FillConserves(c, m, i, k);
    case Drain => DrainConserves(c, m, k);
    case Accept(p, req) => AcceptConserves(c, m, p, req, k);
    case Take => TakeConserves(c, m, k);
    case _ => DramConserves(c, m, e, k);
  }

  function AcceptedIn(run: seq<MemStep>, k: Token): nat
    decreases |run|
  {
    if run == [] then 0 else In(run[0], k) + AcceptedIn(run[1..], k)
  }

  ghost function AnsweredIn(c: DConf, m: MemSys, run: seq<MemStep>, k: Token): nat
    requires SysInv(c, m)
    decreases |run|
  {
    if run == [] || !MemEnabled(c, m, run[0]) || !StepInMemory(c, run[0]) then 0
    else
      FlatMemory(c, m, run[0]);
      Out(m, run[0], k) + AnsweredIn(c, MemApply(c, m, run[0]), run[1..], k)
  }

  /** Over any run, what was held and what was accepted is exactly what has been answered and what is still held:
    * no request is lost, duplicated or answered twice. */
  lemma {:induction false} RequestsConserved(c: DConf, m: MemSys, run: seq<MemStep>, t: MemSys, k: Token)
    requires SysInv(c, m) && MemReaches(c, m, run, t)
    ensures Held(m.d, k) + AcceptedIn(run, k) == AnsweredIn(c, m, run, k) + Held(t.d, k)
    decreases |run|
  {
    hide MemApply, Held, AbsLine;
    if run != [] {
      FlatMemory(c, m, run[0]);
      StepConserves(c, m, run[0], k);
      RequestsConserved(c, MemApply(c, m, run[0]), run[1..], t, k);
    }
  }
}
