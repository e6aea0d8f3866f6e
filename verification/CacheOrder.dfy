/** Acknowledgements of stores: the cache answers the stores to a line in the order it has taken them. */
module CacheOrder {
  import opened Words
  import opened MemTypes
  import opened CacheModel
  import opened CacheInv
  import opened CacheRun

  /** The store replies in the queue with an id of `ids`. */
  function RepliesTo(q: seq<Resp>, ids: set<int>): seq<int> {
    if q == [] then []
    else RepliesTo(q[..|q| - 1], ids) + ReplyOf(q[|q| - 1], ids)
  }

  function ReplyOf(p: Resp, ids: set<int>): seq<int> { if p.isWrite && p.id in ids then [p.id] else [] }

  /** The stores among the waiters from `from` on. */
  function StoresWaiting(reqs: seq<Req>, from: nat): seq<int>
    requires from <= |reqs|
    decreases |reqs| - from
  {
    if from == |reqs| then []
    else StoreOf(reqs[from]) + StoresWaiting(reqs, from + 1)
  }

  function StoreOf(r: Req): seq<int> { if r.write then [r.id] else [] }

  function WaitingIn(m: Mshr): seq<int> {
    if m.drainIdx <= |m.waiters| then StoresWaiting(m.waiters, m.drainIdx) else []
  }

  function WaitingFor(mshrs: seq<Mshr>, ln: nat): seq<int> {
    var i := FindMshr(mshrs, ln, 0);
    if i < 0 then [] else WaitingIn(mshrs[i])
  }

  /** Stores to line `ln`, with the ids `ids`, that the cache has taken and the core has no answer to, in the order the
    * answers will come. */
  function Owed(d: DState, ln: nat, ids: set<int>): seq<int> { RepliesTo(d.respQ, ids) + WaitingFor(d.mshrs, ln) }

  lemma {:induction false} RepliesAppend(q: seq<Resp>, p: Resp, ids: set<int>)
    ensures RepliesTo(q + [p], ids) == RepliesTo(q, ids) + ReplyOf(p, ids)
  {
    assert (q + [p])[..|q + [p]| - 1] == q;
  }

  lemma {:induction false} RepliesPop(q: seq<Resp>, ids: set<int>)
    requires q != []
    ensures RepliesTo(q, ids) == ReplyOf(q[0], ids) + RepliesTo(q[1..], ids)
  {
    hide ReplyOf;
    if |q| > 1 {
      var front, last := q[..|q| - 1], q[|q| - 1];
      RepliesPop(front, ids);
      assert front[0] == q[0] && front[1..] + [last] == q[1..];
      RepliesAppend(front[1..], last, ids);
      Moved(ReplyOf(q[0], ids), RepliesTo(front[1..], ids), ReplyOf(last, ids));
    } else {
      OneReply(q, ids);
    }
  }

  lemma {:induction false} OneReply(q: seq<Resp>, ids: set<int>)
    requires |q| == 1
    ensures RepliesTo(q, ids) == ReplyOf(q[0], ids) + RepliesTo(q[1..], ids)
  {
    assert q[..0] == [] && q[1..] == [];
    assert RepliesTo([], ids) == [];
  }

  lemma {:induction false} WaitersAppend(reqs: seq<Req>, r: Req, from: nat)
    requires from <= |reqs|
    ensures StoresWaiting(reqs + [r], from) == StoresWaiting(reqs, from) + StoreOf(r)
    decreases |reqs| - from
  {
    if from < |reqs| {
      WaitersAppend(reqs, r, from + 1);
    } else {
      assert StoresWaiting(reqs + [r], from + 1) == [];
    }
  }

  /** Register `i` holds a store, or a load, as its `k`-th waiter. */
  predicate WaitingStore(d: DState, i: int, k: int) { WaitsAt(d, i, k) && d.mshrs[i].waiters[k].write }

  predicate WaitingLoad(d: DState, i: int, k: int) { WaitsAt(d, i, k) && !d.mshrs[i].waiters[k].write }

  predicate WaitsAt(d: DState, i: int, k: int) {
    0 <= i < |d.mshrs| && d.mshrs[i].valid && 0 <= k < |d.mshrs[i].waiters|
  }

  /** `ids` are the ids of stores to line `ln`: of those waiting in a register, exactly that line's. */
  ghost predicate IdsOf(d: DState, ln: nat, ids: set<int>) {
    forall i, k :: WaitingStore(d, i, k) && d.mshrs[i].drainIdx <= k ==>
      (d.mshrs[i].waiters[k].id in ids <==> d.mshrs[i].line == ln)
  }

  /** Registers hold different lines. */
  ghost predicate OneEach(mshrs: seq<Mshr>) {
    forall i, j :: 0 <= i < j < |mshrs| && mshrs[i].valid && mshrs[j].valid ==> mshrs[i].line != mshrs[j].line
  }

  lemma {:induction false} RegistersDiffer(c: DConf, m: MemSys)
    requires SysInv(c, m)
    ensures OneEach(m.d.mshrs) && forall i :: 0 <= i < |m.d.mshrs| && m.d.mshrs[i].valid ==>
              m.d.mshrs[i].drainIdx <= |m.d.mshrs[i].waiters|
  {
    forall i, j | 0 <= i < j < |m.d.mshrs| && m.d.mshrs[i].valid && m.d.mshrs[j].valid
      ensures m.d.mshrs[i].line != m.d.mshrs[j].line
    {
      assert Compatible(m.d.mshrs[i], m.d.mshrs[j]);
    }
    forall i | 0 <= i < |m.d.mshrs| && m.d.mshrs[i].valid ensures m.d.mshrs[i].drainIdx <= |m.d.mshrs[i].waiters| {
      assert MshrOk(c, m.d.cache, m.d.mshrs[i]);
    }
  }

  /** The register of a line, if there is one. */
  lemma {:induction false} TheRegister(mshrs: seq<Mshr>, ln: nat, i: nat)
    requires OneEach(mshrs) && i < |mshrs| && mshrs[i].valid && mshrs[i].line == ln
    ensures FindMshr(mshrs, ln, 0) == i && WaitingFor(mshrs, ln) == WaitingIn(mshrs[i])
  {
  }

  lemma {:induction false} NoRegister(mshrs: seq<Mshr>, ln: nat)
    requires forall i :: 0 <= i < |mshrs| && mshrs[i].valid ==> mshrs[i].line != ln
    ensures WaitingFor(mshrs, ln) == []
  {
  }

  /** A register that changes without changing what waits in it, or changes for another line, owes the same. */
  lemma {:induction false} SameWaiting(mshrs: seq<Mshr>, i: nat, n: Mshr, ln: nat)
    requires OneEach(mshrs) && i < |mshrs| && OneEach(mshrs[i := n])
    requires (mshrs[i].valid && mshrs[i].line == ln) <==> (n.valid && n.line == ln)
    requires mshrs[i].valid && mshrs[i].line == ln ==> WaitingIn(n) == WaitingIn(mshrs[i])
    ensures WaitingFor(mshrs[i := n], ln) == WaitingFor(mshrs, ln)
  {
    hide WaitingIn;
    var mshrs' := mshrs[i := n];
    if j :| 0 <= j < |mshrs| && mshrs[j].valid && mshrs[j].line == ln {
      TheRegister(mshrs, ln, j);
      TheRegister(mshrs', ln, j);
    } else {
      NoRegister(mshrs, ln);
      forall k | 0 <= k < |mshrs'| && mshrs'[k].valid ensures mshrs'[k].line != ln {
        if k != i { assert mshrs'[k] == mshrs[k]; }
      }
      NoRegister(mshrs', ln);
    }
  }

  // ---------------------------------------------------------------- the steps

  /** A store that is taken comes last among those to its line; nothing else changes what is owed. */
  lemma {:induction false} PortOwes(c: DConf, m: MemSys, p: nat, ln: nat, ids: set<int>)
    requires SysInv(c, m) && p < c.ports && SysInv(c, MemApply(c, m, Port(p)))
    requires Takes(c, m, p) && m.d.pipe[p].req.write ==> (m.d.pipe[p].req.id in ids <==> m.d.pipe[p].req.line == ln)
    ensures Owed(MemApply(c, m, Port(p)).d, ln, ids)
         == Owed(m.d, ln, ids) + if Takes(c, m, p) && m.d.pipe[p].req.line == ln then StoreOf(m.d.pipe[p].req) else []
  {
    hide Owed, WaitingFor;
    var d := m.d;
    RegistersDiffer(c, m);
    RegistersDiffer(c, MemApply(c, m, Port(p)));
    if d.pipe[p].valid {
      var req := d.pipe[p].req;
      var existing := FindMshr(d.mshrs, req.line, 0);
      if existing >= 0 {
        if !Holds(c, d.mshrs[existing]) { JoinOwes(c, d, p, existing, ln, ids); }
      } else {
        var s := SetOf(c.sets, req.line);
        var hit := FindHit(d.cache[s], TagOf(c.sets, req.line), 0);
        if hit >= 0 {
          HitOwes(c, d, p, s, hit, ln, ids);
        } else {
          var i, v := AllocMshr(d.mshrs, 0), FindVictim(d.cache[s]);
          if i >= 0 && v >= 0 { MissOwes(c, d, p, s, v, i, ln, ids); }
        }
      }
    }
  }

  lemma {:induction false} JoinOwes(c: DConf, d: DState, p: nat, i: nat, ln: nat, ids: set<int>)
    requires p < |d.pipe| && i < |d.mshrs| && d.mshrs[i].valid && d.mshrs[i].line == d.pipe[p].req.line
    requires OneEach(d.mshrs) && d.mshrs[i].drainIdx <= |d.mshrs[i].waiters|
    ensures Owed(JoinMshr(d, p, i), ln, ids) == Owed(d, ln, ids) + if d.pipe[p].req.line
              == ln then StoreOf(d.pipe[p].req) else []
  {
    var req, m := d.pipe[p].req, d.mshrs[i];
    var n := m.(waiters := m.waiters + [req]);
    if req.line == ln {
      TheRegister(d.mshrs, ln, i);
      TheRegister(d.mshrs[i := n], ln, i);
      WaitersAppend(m.waiters, req, m.drainIdx);
      assert RepliesTo(d.respQ, ids) + (WaitingIn(m) + StoreOf(req)) == (RepliesTo(d.respQ,
          ids) + WaitingIn(m)) + StoreOf(req);
    } else {
      SameWaiting(d.mshrs, i, n, ln);
    }
  }

  lemma {:induction false} HitOwes(c: DConf, d: DState, p: nat, s: nat, i: nat, ln: nat, ids: set<int>)
    requires Shaped(c, d) && p < c.ports && d.pipe[p].valid && s < c.sets && i < c.ways && d.cache[s][i].valid
    requires FindMshr(d.mshrs, d.pipe[p].req.line, 0) < 0
    requires d.pipe[p].req.write ==> (d.pipe[p].req.id in ids <==> d.pipe[p].req.line == ln)
    ensures Owed(HitPort(c, d, p, s, i), ln, ids) == Owed(d, ln, ids) + if d.pipe[p].req.line
              == ln then StoreOf(d.pipe[p].req) else []
  {
    hide RepliesTo, WaitingFor;
    var req := d.pipe[p].req;
    var waits, replies, more := WaitingFor(d.mshrs, ln), RepliesTo(d.respQ, ids), ReplyOf(ReplyTo(req, ZERO_LANES),
        ids);
    if req.write {
      RepliesAppend(d.respQ, ReplyTo(req, ZERO_LANES), ids);
      assert HitPort(c, d, p, s, i).respQ == d.respQ + [ReplyTo(req, ZERO_LANES)] && HitPort(c, d, p, s,
          i).mshrs == d.mshrs;
      if req.line == ln {
        NoRegister(d.mshrs, ln);
        assert (replies + more) + [] == (replies + []) + more;
      } else {
        assert replies + [] == replies && (replies + waits) + [] == replies + waits;
      }
    } else {
      assert HitPort(c, d, p, s, i).respQ == d.respQ && HitPort(c, d, p, s, i).mshrs == d.mshrs;
      assert (replies + waits) + [] == replies + waits;
    }
  }

  lemma {:induction false} MissOwes(c: DConf, d: DState, p: nat, s: nat, v: nat, i: nat, ln: nat, ids: set<int>)
    requires Shaped(c, d) && p < c.ports && s < c.sets && v < c.ways && i < c.mshrCount && !d.mshrs[i].valid
    requires OneEach(d.mshrs) && FindMshr(d.mshrs, d.pipe[p].req.line, 0) < 0
    ensures Owed(MissPort(c, d, p, s, v, i), ln, ids) == Owed(d, ln, ids) + if d.pipe[p].req.line
              == ln then StoreOf(d.pipe[p].req) else []
  {
    var req := d.pipe[p].req;
    var n := NewMshr(c, d.cache[s][v], s, v, req);
    var mshrs' := d.mshrs[i := n];
    assert OneEach(mshrs');
    if req.line == ln {
      NoRegister(d.mshrs, ln);
      TheRegister(mshrs', ln, i);
      assert StoresWaiting([req], 1) == [];
    } else {
      SameWaiting(d.mshrs, i, n, ln);
    }
  }

  /** Answering a waiter moves it from the register to the queue. */
  lemma {:induction false} DrainOwes(c: DConf, m: MemSys, ln: nat, ids: set<int>)
    requires SysInv(c, m) && IdsOf(m.d, ln, ids) && SysInv(c, MemApply(c, m, Drain))
    ensures Owed(MemApply(c, m, Drain).d, ln, ids) == Owed(m.d, ln, ids)
  {
    RegistersDiffer(c, m);
    RegistersDiffer(c, MemApply(c, m, Drain));
    DrainNeeds(c, m);
    var i := DrainTurn(m.d);
    if i >= 0 {
      var n := m.d.mshrs[i];
      DrainMoves(m.d, i, ln, ids);
    }
  }

  lemma {:induction false} DrainMoves(d: DState, i: nat, ln: nat, ids: set<int>)
    requires i < |d.mshrs| && d.mshrs[i].valid && OneEach(d.mshrs) && IdsOf(d, ln, ids)
    requires OneEach(d.mshrs[i := Answered(d.mshrs[i])])
    requires var m := d.mshrs[i]; m.drainIdx <= |m.waiters| && forall k :: 0 <= k < |m.waiters| ==>
               m.waiters[k].off < |m.drainLine|
    ensures Owed(DrainOne(d, i), ln, ids) == Owed(d, ln, ids)
  {
    var m := d.mshrs[i];
    var n := Answered(m);
    if m.drainIdx < |m.waiters| {
      var r := m.waiters[m.drainIdx];
      RepliesAppend(d.respQ, ReplyTo(r, m.drainLine[r.off]), ids);
      NextReply(d, i, ln, ids);
      if m.line == ln {
        TheRegister(d.mshrs, ln, i);
        AnsweredWaits(d.mshrs, i, ln);
      } else {
        SameWaiting(d.mshrs, i, n, ln);
      }
      hide RepliesTo, WaitingFor, WaitingIn, ReplyOf, StoreOf, Answered;
      Moved(RepliesTo(d.respQ, ids), if m.line == ln then StoreOf(r) else [], WaitingFor(d.mshrs[i := n], ln));
    } else {
      assert d.respQ + [] == d.respQ;
      if m.line == ln {
        TheRegister(d.mshrs, ln, i);
        NoRegister(d.mshrs[i := n], ln);
      } else {
        SameWaiting(d.mshrs, i, n, ln);
      }
    }
  }

  lemma {:induction false} Moved(a: seq<int>, b: seq<int>, c: seq<int>)
    ensures (a + b) + c == a + (b + c) && (b == [] ==> a + c == (a + b) + c)
  {
  }

  lemma {:induction false} NextReply(d: DState, i: nat, ln: nat, ids: set<int>)
    requires i < |d.mshrs| && d.mshrs[i].valid && IdsOf(d, ln, ids) && d.mshrs[i].drainIdx < |d.mshrs[i].waiters|
    ensures var m := d.mshrs[i];
            var r := m.waiters[m.drainIdx];
            forall data :: ReplyOf(ReplyTo(r, data), ids) == if m.line == ln then StoreOf(r) else []
  {
  }

  lemma {:induction false} AnsweredWaits(mshrs: seq<Mshr>, i: nat, ln: nat)
    requires OneEach(mshrs) && i < |mshrs| && mshrs[i].valid && mshrs[i].line == ln
    requires mshrs[i].drainIdx < |mshrs[i].waiters|
    ensures WaitingIn(mshrs[i])
         == StoreOf(mshrs[i].waiters[mshrs[i].drainIdx]) + WaitingFor(mshrs[i := Answered(mshrs[i])], ln)
  {
    var m, mshrs' := mshrs[i], mshrs[i := Answered(mshrs[i])];
    NextWaits(m);
    hide WaitingIn, StoreOf;
    if m.drainIdx + 1 < |m.waiters| {
      TheRegister(mshrs', ln, i);
    } else {
      NoRegister(mshrs', ln);
    }
    hide WaitingFor, OneEach;
  }

  lemma {:induction false} NextWaits(m: Mshr)
    requires m.drainIdx < |m.waiters|
    ensures WaitingIn(m) == StoreOf(m.waiters[m.drainIdx])
         + if m.drainIdx + 1 < |m.waiters| then WaitingIn(m.(drainIdx := m.drainIdx + 1)) else []
  {
    if m.drainIdx + 1 == |m.waiters| { assert StoresWaiting(m.waiters, m.drainIdx + 1) == []; }
  }

  /** The other steps change nothing that is owed. */
  lemma {:induction false} QuietOwes(c: DConf, m: MemSys, e: MemStep, ln: nat, ids: set<int>)
    requires SysInv(c, m) && MemEnabled(c, m, e) && SysInv(c, MemApply(c, m, e))
    requires e.SlotTick? || e.Reply? || e.CacheToDram? || e.OtherToDram? || e.Fill? || e.Accept?
    ensures Owed(MemApply(c, m, e).d, ln, ids) == Owed(m.d, ln, ids)
  {
    RegistersDiffer(c, m);
    RegistersDiffer(c, MemApply(c, m, e));
    var d := m.d;
    if e.CacheToDram? {
      var i := PickDramMshr(d.mshrs);
      SameWaiting(d.mshrs, i, DramAccepted(d).mshrs[i], ln);
    } else if e.Reply? && m.slots[e.k].client.FromD? {
      var i := m.slots[e.k].client.mshr;
      if i < |d.mshrs| && d.mshrs[i].valid {
        SameWaiting(d.mshrs, i, DramReplied(c, d, i, m.slots[e.k].data).mshrs[i], ln);
      }
    } else if e.Fill? {
      FillNeeds(c, m, e.i);
      assert MshrOk(c, d.cache, d.mshrs[e.i]);
      SameWaiting(d.mshrs, e.i, Draining(d.mshrs[e.i]), ln);
    }
  }

  /** Loads of the hit delay are the only replies it holds. */
  ghost predicate HitsAreLoads(d: DState) {
    forall p :: 0 <= p < |d.hitPend| && d.hitPend[p].valid ==> !d.hitPend[p].resp.isWrite
  }

  lemma {:induction false} EmitMoves(d: DState, p: nat, ln: nat, ids: set<int>)
    requires p < |d.hitPend| && HitsAreLoads(d)
    ensures Owed(EmitHit(d, p), ln, ids) == Owed(d, ln, ids)
  {
    hide WaitingFor;
    var h := d.hitPend[p];
    if h.valid {
      RepliesAppend(d.respQ, h.resp, ids);
      assert RepliesTo(d.respQ, ids) + [] == RepliesTo(d.respQ, ids);
    }
  }

  lemma {:induction false} EmitOwes(c: DConf, m: MemSys, p: nat, ln: nat, ids: set<int>)
    requires SysInv(c, m) && MemEnabled(c, m, Emit(p)) && HitsAreLoads(m.d)
    ensures Owed(MemApply(c, m, Emit(p)).d, ln, ids) == Owed(m.d, ln, ids)
  {
    hide Owed, DataOk, DramOk;
    EmitMoves(m.d, p, ln, ids);
  }

  /** Taking a reply answers the first store owed, if the reply is that line's. */
  lemma {:induction false} TakeOwes(c: DConf, m: MemSys, ln: nat, ids: set<int>)
    requires SysInv(c, m) && MemEnabled(c, m, Take)
    ensures Owed(m.d, ln, ids) == ReplyOf(m.d.respQ[0], ids) + Owed(MemApply(c, m, Take).d, ln, ids)
  {
    hide DataOk, DramOk, RepliesTo, ReplyOf, WaitingFor;
    RepliesPop(m.d.respQ, ids);
    Moved(ReplyOf(m.d.respQ[0], ids), RepliesTo(m.d.respQ[1..], ids), WaitingFor(m.d.mshrs, ln));
  }

  // ---------------------------------------------------------------- whose requests are in the cache

  /** Every store in the cache, waiting or answered, has an id below `n`. */
  ghost predicate StoresBelow(d: DState, n: int) {
    && (forall i :: 0 <= i < |d.respQ| && d.respQ[i].isWrite ==> d.respQ[i].id < n)
    && (forall i, k :: WaitingStore(d, i, k) ==> d.mshrs[i].waiters[k].id < n)
    && HitsAreLoads(d)
  }

  /** Every load in the cache has a cookie of `cookies`. */
  ghost predicate LoadsAmong(d: DState, cookies: set<nat>) {
    && (forall p :: 0 <= p < |d.pipe| && d.pipe[p].valid && !d.pipe[p].req.write ==> d.pipe[p].req.cookie in cookies)
    && (forall p :: 0 <= p < |d.hitPend| && d.hitPend[p].valid && !d.hitPend[p].resp.isWrite ==>
         d.hitPend[p].resp.cookie in cookies)
    && (forall i :: 0 <= i < |d.respQ| && !d.respQ[i].isWrite ==> d.respQ[i].cookie in cookies)
    && (forall i, k :: WaitingLoad(d, i, k) ==> d.mshrs[i].waiters[k].cookie in cookies)
  }

  lemma {:induction false} RegisterBelow(d: DState, d': DState, i: nat, x: Mshr, n: int)
    requires StoresBelow(d, n) && i < |d.mshrs| && d'.mshrs == d.mshrs[i := x] && d'.respQ == d.respQ
    requires HitsAreLoads(d')
    requires x.valid ==> forall k :: 0 <= k < |x.waiters| && x.waiters[k].write ==> x.waiters[k].id < n
    ensures StoresBelow(d', n)
  {
    hide HitsAreLoads;
  }

  lemma {:induction false} ReplyBelow(d: DState, d': DState, more: seq<Resp>, n: int)
    requires StoresBelow(d, n) && d'.mshrs == d.mshrs && d'.respQ == d.respQ + more && HitsAreLoads(d')
    requires forall k :: 0 <= k < |more| && more[k].isWrite ==> more[k].id < n
    ensures StoresBelow(d', n)
  {
    hide HitsAreLoads;
  }

  lemma {:induction false} PortBelow(c: DConf, m: MemSys, p: nat, n: int)
    requires SysInv(c, m) && p < c.ports && StoresBelow(m.d, n)
    requires Takes(c, m, p) && m.d.pipe[p].req.write ==> m.d.pipe[p].req.id < n
    ensures StoresBelow(MemApply(c, m, Port(p)).d, n)
  {
    hide DataOk, DramOk, PipesOk, StoresBelow;
    var d, d' := m.d, ProcessPort(c, m.d, p);
    HitsStayLoads(d, c, p, n);
    if d.pipe[p].valid {
      var req := d.pipe[p].req;
      var existing, s := FindMshr(d.mshrs, req.line, 0), SetOf(c.sets, req.line);
      WaitersBelow(d, n);
      if existing >= 0 {
        if !Holds(c, d.mshrs[existing]) { RegisterBelow(d, d', existing, d'.mshrs[existing], n); }
      } else if FindHit(d.cache[s], TagOf(c.sets, req.line), 0) >= 0 {
        ReplyBelow(d, d', if req.write then [ReplyTo(req, ZERO_LANES)] else [], n);
      } else {
        var i := AllocMshr(d.mshrs, 0);
        if i >= 0 && FindVictim(d.cache[s]) >= 0 { RegisterBelow(d, d', i, d'.mshrs[i], n); }
      }
    }
  }

  lemma {:induction false} WaitersBelow(d: DState, n: int)
    requires StoresBelow(d, n)
    ensures HitsAreLoads(d)
    ensures forall i, k :: WaitingStore(d, i, k) ==> d.mshrs[i].waiters[k].id < n
  {
  }

  lemma {:induction false} HitsStayLoads(d: DState, c: DConf, p: nat, n: int)
    requires Shaped(c, d) && p < c.ports && StoresBelow(d, n)
    ensures HitsAreLoads(ProcessPort(c, d, p))
  {
  }

  lemma {:induction false} PortAmong(c: DConf, m: MemSys, p: nat, cookies: set<nat>)
    requires SysInv(c, m) && p < c.ports && LoadsAmong(m.d, cookies)
    ensures LoadsAmong(MemApply(c, m, Port(p)).d, cookies)
  {
    hide DataOk, DramOk, PipesOk, LoadsAmong;
    ProcessAmong(c, m.d, p, cookies);
  }

  lemma {:induction false} ProcessAmong(c: DConf, d: DState, p: nat, cookies: set<nat>)
    requires Shaped(c, d) && p < c.ports && LoadsAmong(d, cookies)
    ensures LoadsAmong(ProcessPort(c, d, p), cookies)
  {
    hide LoadsAmong, JoinMshr, HitPort, MissPort;
    if d.pipe[p].valid {
      var req := d.pipe[p].req;
      var existing, s := FindMshr(d.mshrs, req.line, 0), SetOf(c.sets, req.line);
      var hit := FindHit(d.cache[s], TagOf(c.sets, req.line), 0);
      if existing >= 0 {
        JoinAmong(d, p, existing, cookies);
      } else if hit >= 0 {
        HitAmong(c, d, p, s, hit, cookies);
      } else {
        var i, v := AllocMshr(d.mshrs, 0), FindVictim(d.cache[s]);
        if i >= 0 && v >= 0 { MissAmong(c, d, p, s, v, i, cookies); }
      }
    }
  }

  lemma {:induction false} JoinAmong(d: DState, p: nat, i: nat, cookies: set<nat>)
    requires p < |d.pipe| && i < |d.mshrs| && d.pipe[p].valid && d.mshrs[i].valid && LoadsAmong(d, cookies)
    ensures LoadsAmong(JoinMshr(d, p, i), cookies)
  {
  }

  lemma {:induction false} HitAmong(c: DConf, d: DState, p: nat, s: nat, i: nat, cookies: set<nat>)
    requires Shaped(c, d) && p < c.ports && d.pipe[p].valid && s < c.sets && i < c.ways && d.cache[s][i].valid
    requires LoadsAmong(d, cookies)
    ensures LoadsAmong(HitPort(c, d, p, s, i), cookies)
  {
  }

  lemma {:induction false} MissAmong(c: DConf, d: DState, p: nat, s: nat, v: nat, i: nat, cookies: set<nat>)
    requires Shaped(c, d) && p < c.ports && d.pipe[p].valid && s < c.sets && v < c.ways && i < c.mshrCount
    requires LoadsAmong(d, cookies)
    ensures LoadsAmong(MissPort(c, d, p, s, v, i), cookies)
  {
  }

  lemma {:induction false} DrainKeepsStores(c: DConf, m: MemSys, n: int)
    requires SysInv(c, m) && StoresBelow(m.d, n)
    ensures StoresBelow(MemApply(c, m, Drain).d, n)
  {
    DrainNeeds(c, m);
    hide DataOk, DramOk, PipesOk, StoresBelow;
    var i := DrainTurn(m.d);
    WaitersBelow(m.d, n);
    if i >= 0 {
      var x := m.d.mshrs[i];
      var d1 := m.d.(respQ := m.d.respQ + NextReplies(x));
      ReplyBelow(m.d, d1, NextReplies(x), n);
      RegisterBelow(d1, DrainOne(m.d, i), i, Answered(x), n);
    } else {
      SameBelow(m.d, MemApply(c, m, Drain).d, n);
    }
  }

  lemma {:induction false} SameBelow(d: DState, d': DState, n: int)
    requires StoresBelow(d, n) && d'.mshrs == d.mshrs && d'.respQ == d.respQ && d'.hitPend == d.hitPend
    ensures StoresBelow(d', n)
  {
  }

  lemma {:induction false} DrainKeepsLoads(c: DConf, m: MemSys, cookies: set<nat>)
    requires SysInv(c, m) && LoadsAmong(m.d, cookies)
    ensures LoadsAmong(MemApply(c, m, Drain).d, cookies)
  {
    DrainNeeds(c, m);
    hide DataOk, DramOk, PipesOk;
  }

  lemma {:induction false} FillKeepsStores(c: DConf, m: MemSys, i: nat, n: int)
    requires SysInv(c, m) && MemEnabled(c, m, Fill(i)) && StoresBelow(m.d, n)
    ensures StoresBelow(MemApply(c, m, Fill(i)).d, n)
  {
    FillNeeds(c, m, i);
    hide DataOk, DramOk, PipesOk;
  }

  lemma {:induction false} FillKeepsLoads(c: DConf, m: MemSys, i: nat, cookies: set<nat>)
    requires SysInv(c, m) && MemEnabled(c, m, Fill(i)) && LoadsAmong(m.d, cookies)
    ensures LoadsAmong(MemApply(c, m, Fill(i)).d, cookies)
  {
    FillNeeds(c, m, i);
    hide DataOk, DramOk, PipesOk;
  }

  lemma {:induction false} DramKeepsStores(c: DConf, m: MemSys, e: MemStep, n: int)
    requires SysInv(c, m) && MemEnabled(c, m, e) && (e.SlotTick? || e.Reply? || e.CacheToDram? || e.OtherToDram?)
    requires StoresBelow(m.d, n)
    ensures StoresBelow(MemApply(c, m, e).d, n)
  {
    WaitersBelow(m.d, n);
    hide DataOk, DramOk, PipesOk, StoresBelow;
    var d, d' := m.d, MemApply(c, m, e).d;
    if e.CacheToDram? {
      var i := PickDramMshr(d.mshrs);
      RegisterBelow(d, d', i, d'.mshrs[i], n);
    } else if e.Reply? && m.slots[e.k].client.FromD? && m.slots[e.k].client.mshr < |d.mshrs| {
      var i := m.slots[e.k].client.mshr;
      RegisterBelow(d, d', i, d'.mshrs[i], n);
    } else {
      SameBelow(d, d', n);
    }
  }

  lemma {:induction false} DramKeepsLoads(c: DConf, m: MemSys, e: MemStep, cookies: set<nat>)
    requires SysInv(c, m) && MemEnabled(c, m, e) && (e.SlotTick? || e.Reply? || e.CacheToDram? || e.OtherToDram?)
    requires LoadsAmong(m.d, cookies)
    ensures LoadsAmong(MemApply(c, m, e).d, cookies)
  {
    hide DataOk, DramOk, PipesOk;
  }

  lemma {:induction false} SideKeepsStores(c: DConf, m: MemSys, e: MemStep, n: int)
    requires SysInv(c, m) && MemEnabled(c, m, e) && (e.Emit? || e.Take?) && StoresBelow(m.d, n)
    ensures StoresBelow(MemApply(c, m, e).d, n)
  {
    hide DataOk, DramOk, PipesOk;
  }

  lemma {:induction false} SideKeepsLoads(c: DConf, m: MemSys, e: MemStep, cookies: set<nat>)
    requires SysInv(c, m) && MemEnabled(c, m, e) && (e.Emit? || e.Take?) && LoadsAmong(m.d, cookies)
    ensures LoadsAmong(MemApply(c, m, e).d, cookies)
  {
    hide DataOk, DramOk, PipesOk;
  }

  /** Steps of the cache's own keep ids and cookies among those it has been given. */
  lemma {:induction false} KeepsOwners(c: DConf, m: MemSys, e: MemStep, n: int, cookies: set<nat>)
    requires SysInv(c, m) && MemEnabled(c, m, e) && !e.Accept? && !e.Port?
    ensures StoresBelow(m.d, n) ==> StoresBelow(MemApply(c, m, e).d, n)
    ensures LoadsAmong(m.d, cookies) ==> LoadsAmong(MemApply(c, m, e).d, cookies)
  {
    hide SysInv, StoresBelow, LoadsAmong, MemApply;
    if StoresBelow(m.d, n) {
      match e
      case Drain => DrainKeepsStores(c, m, n);
      case Fill(i) => FillKeepsStores(c, m, i, n);
      case Emit(_) => SideKeepsStores(c, m, e, n);
      case Take => SideKeepsStores(c, m, e, n);
      case _ => DramKeepsStores(c, m, e, n);
    }
    if LoadsAmong(m.d, cookies) {
      match e
      case Drain => DrainKeepsLoads(c, m, cookies);
      case Fill(i) => FillKeepsLoads(c, m, i, cookies);
      case Emit(_) => SideKeepsLoads(c, m, e, cookies);
      case Take => SideKeepsLoads(c, m, e, cookies);
      case _ => DramKeepsLoads(c, m, e, cookies);
    }
  }

  /** An id above all the cache's stores matches no reply. */
  lemma {:induction false} RepliesUnmatched(q: seq<Resp>, ids: set<int>, x: int)
    requires forall i :: 0 <= i < |q| && q[i].isWrite ==> q[i].id < x
    ensures RepliesTo(q, ids + {x}) == RepliesTo(q, ids)
  {
    if q != [] {
      RepliesUnmatched(q[..|q| - 1], ids, x);
    }
  }

  lemma {:induction false} OwedUnmatched(d: DState, ln: nat, ids: set<int>, x: int)
    requires StoresBelow(d, x)
    ensures Owed(d, ln, ids + {x}) == Owed(d, ln, ids)
  {
    RepliesUnmatched(d.respQ, ids, x);
  }
}
