/** The non-blocking write-back data cache: its methods do to its fields what the model's functions say. */
module DataCache {
  import opened Words
  import opened MemTypes
  import opened CacheModel

  /** Register fields stay inside the cache and its lines. */
  ghost predicate RegistersOk(c: DConf, d: DState) {
    forall i :: 0 <= i < |d.mshrs| && d.mshrs[i].valid ==> RegisterOk(c, d.mshrs[i])
  }

  ghost predicate RegisterOk(c: DConf, m: Mshr) {
    && m.setIdx < c.sets && m.wayIdx < c.ways && AllIn(m.waiters, c.w)
    && (m.fillReady ==> |m.fill| == c.w) && (m.draining ==> |m.drainLine| == c.w)
  }

  ghost predicate CacheOk(c: DConf, d: DState) {
    Shaped(c, d) && RegistersOk(c, d)
  }

  /** All ports from `p` on, in port order. */
  ghost function PortsFrom(c: DConf, d: DState, p: nat): (e: DState)
    requires CacheOk(c, d) && p <= c.ports
    ensures CacheOk(c, e)
    decreases c.ports - p
  {
    if p == c.ports then d else PortKeepsOk(c, d, p); PortsFrom(c, ProcessPort(c, d, p), p + 1)
  }

  lemma {:induction false} PortKeepsOk(c: DConf, d: DState, p: nat)
    requires CacheOk(c, d) && p < c.ports
    ensures CacheOk(c, ProcessPort(c, d, p))
  {
    if d.pipe[p].valid {
      var req := d.pipe[p].req;
      var s, tag := SetOf(c.sets, req.line), TagOf(c.sets, req.line);
      var existing := FindMshr(d.mshrs, req.line, 0);
      if existing >= 0 {
        if !Holds(c, d.mshrs[existing]) { JoinKeepsOk(c, d, p, existing); }
      } else {
        var hit := FindHit(d.cache[s], tag, 0);
        if hit >= 0 {
          HitKeepsOk(c, d, p, s, hit);
        } else {
          var i, v := AllocMshr(d.mshrs, 0), FindVictim(d.cache[s]);
          if i >= 0 && v >= 0 { MissKeepsOk(c, d, p, s, v, i); }
        }
      }
    }
  }

  lemma {:induction false} JoinKeepsOk(c: DConf, d: DState, p: nat, i: nat)
    requires CacheOk(c, d) && p < c.ports && d.pipe[p].valid && i < c.mshrCount && d.mshrs[i].valid
    ensures CacheOk(c, JoinMshr(d, p, i))
  {
    var e := JoinMshr(d, p, i);
    forall k | 0 <= k < |e.mshrs| && e.mshrs[k].valid ensures RegisterOk(c, e.mshrs[k]) {
      assert RegisterOk(c, d.mshrs[k]);
    }
  }

  lemma {:induction false} HitKeepsOk(c: DConf, d: DState, p: nat, s: nat, i: nat)
    requires CacheOk(c, d) && p < c.ports && d.pipe[p].valid && s < c.sets && i < c.ways && d.cache[s][i].valid
    ensures CacheOk(c, HitPort(c, d, p, s, i))
  {
    var e := HitPort(c, d, p, s, i);
    forall k | 0 <= k < |e.mshrs| && e.mshrs[k].valid ensures RegisterOk(c, e.mshrs[k]) {
      assert RegisterOk(c, d.mshrs[k]);
    }
  }

  lemma {:induction false} MissKeepsOk(c: DConf, d: DState, p: nat, s: nat, v: nat, i: nat)
    requires CacheOk(c, d) && p < c.ports && d.pipe[p].valid && s < c.sets && v < c.ways && i < c.mshrCount
    ensures CacheOk(c, MissPort(c, d, p, s, v, i))
  {
    var e := MissPort(c, d, p, s, v, i);
    forall k | 0 <= k < |e.mshrs| && e.mshrs[k].valid ensures RegisterOk(c, e.mshrs[k]) {
      assert k != i ==> RegisterOk(c, d.mshrs[k]);
    }
  }

  ghost function EmitsFrom(c: DConf, d: DState, p: nat): (e: DState)
    requires CacheOk(c, d) && p <= c.ports
    ensures CacheOk(c, e)
    decreases c.ports - p
  {
    if p == c.ports then d else EmitsFrom(c, EmitHit(d, p), p + 1)
  }

  ghost function FillsFrom(c: DConf, d: DState, i: nat): (e: DState)
    requires CacheOk(c, d) && i <= c.mshrCount
    ensures CacheOk(c, e)
    decreases c.mshrCount - i
  {
    if i == c.mshrCount then d
    else if d.mshrs[i].valid && d.mshrs[i].fillReady then
      FillKeepsOk(c, d, i);
      FillsFrom(c, CompleteFill(c, d, i), i + 1)
    else FillsFrom(c, d, i + 1)
  }

  lemma {:induction false} FillKeepsOk(c: DConf, d: DState, i: nat)
    requires CacheOk(c, d) && i < c.mshrCount && d.mshrs[i].valid && d.mshrs[i].fillReady
    ensures var m := d.mshrs[i]; m.setIdx < c.sets && m.wayIdx < c.ways && AllIn(m.waiters, |m.fill|)
    ensures CacheOk(c, CompleteFill(c, d, i))
  {
    var e := CompleteFill(c, d, i);
    assert RegisterOk(c, d.mshrs[i]);
    forall k | 0 <= k < |e.mshrs| && e.mshrs[k].valid ensures RegisterOk(c, e.mshrs[k]) {
      assert RegisterOk(c, d.mshrs[k]);
    }
  }

  lemma {:induction false} DrainKeepsOk(c: DConf, d: DState)
    requires CacheOk(c, d)
    ensures forall i :: 0 <= i < |d.mshrs| && d.mshrs[i].valid && d.mshrs[i].draining ==>
              forall k :: 0 <= k < |d.mshrs[i].waiters| ==> d.mshrs[i].waiters[k].off < |d.mshrs[i].drainLine|
    ensures CacheOk(c, StepDrain(d))
  {
    forall i | 0 <= i < |d.mshrs| && d.mshrs[i].valid && d.mshrs[i].draining
      ensures forall k :: 0 <= k < |d.mshrs[i].waiters| ==> d.mshrs[i].waiters[k].off < |d.mshrs[i].drainLine|
    {
      assert RegisterOk(c, d.mshrs[i]);
    }
    var e := StepDrain(d);
    forall k | 0 <= k < |e.mshrs| && e.mshrs[k].valid ensures RegisterOk(c, e.mshrs[k]) {
      assert RegisterOk(c, d.mshrs[k]);
    }
  }

  /** `tickEnd` */
  ghost function TickedEnd(c: DConf, d: DState): (e: DState)
    requires CacheOk(c, d)
    ensures CacheOk(c, e)
  {
    var f := FillsFrom(c, PortsFrom(c, EmitsFrom(c, d, 0), 0), 0);
    DrainKeepsOk(c, f);
    StepDrain(f)
  }

  class DCache {
    const conf: DConf
    var cache: seq<seq<Way>>
    var mshrs: seq<Mshr>
    var pipe: seq<Pipe>
    var hitPend: seq<HitPend>
    var respQ: seq<Resp>
    var dramMshr: int
    var dramIsWb: bool
    var drainMshr: int
    var lruClock: nat
    var cpuAccepts: nat

    ghost function State(): DState
      reads this
    {
      DState(cache, mshrs, pipe, hitPend, respQ, dramMshr, dramIsWb, drainMshr, lruClock, cpuAccepts)
    }

    ghost predicate Valid()
      reads this
    {
      CacheOk(conf, State())
    }

    constructor (c: DConf)
      requires c.w > 0 && c.sets > 0
      ensures Valid() && conf == c && respQ == [] && dramMshr == -1 && drainMshr == -1 && cpuAccepts == 0
      ensures forall s, i :: 0 <= s < c.sets && 0 <= i < c.ways ==> !cache[s][i].valid && !cache[s][i].reserved
      ensures forall i :: 0 <= i < c.mshrCount ==> mshrs[i] == NO_MSHR
      ensures forall p :: 0 <= p < c.ports ==> !pipe[p].valid && !hitPend[p].valid
    {
      conf := c;
      cache := seq(c.sets, _ => seq(c.ways, _ => Way(false, false, false, 0, seq(c.w, _ => ZERO_LANES), 0)));
      mshrs := seq(c.mshrCount, _ => NO_MSHR);
      pipe := seq(c.ports, _ => Pipe(false, NO_REQ));
      hitPend := seq(c.ports, _ => NO_HIT);
      respQ, dramMshr, dramIsWb, drainMshr, lruClock, cpuAccepts := [], -1, false, -1, 1, 0;
    }

    // -------------------------------------------------------------- searches

    method FindHitWay(s: nat, tag: nat) returns (w: int)
      requires Valid() && s < conf.sets
      ensures w == FindHit(cache[s], tag, 0)
    {
      var i := 0;
      while i < conf.ways
        invariant 0 <= i <= conf.ways && FindHit(cache[s], tag, 0) == FindHit(cache[s], tag, i)
      {
        if cache[s][i].valid && !cache[s][i].reserved && cache[s][i].tag == tag { return i; }
        i := i + 1;
      }
      return -1;
    }

    method FindVictimWay(s: nat) returns (w: int)
      requires Valid() && s < conf.sets
      ensures w == FindVictim(cache[s])
    {
      var i := 0;
      while i < conf.ways
        invariant 0 <= i <= conf.ways && FindInvalid(cache[s], 0) == FindInvalid(cache[s], i)
      {
        if !cache[s][i].valid && !cache[s][i].reserved { return i; }
        i := i + 1;
      }
      w := -1;
      var best := 0;
      i := 0;
      while i < conf.ways
        invariant 0 <= i <= conf.ways && w == FindLru(cache[s], i) && (w >= 0 ==> best == cache[s][w].lru)
      {
        if !cache[s][i].reserved && (w < 0 || cache[s][i].lru < best) {
          best, w := cache[s][i].lru, i;
        }
        i := i + 1;
      }
    }

    method AllocRegister() returns (m: int)
      requires Valid()
      ensures m == AllocMshr(mshrs, 0)
    {
      var i := 0;
      while i < conf.mshrCount
        invariant 0 <= i <= conf.mshrCount && AllocMshr(mshrs, 0) == AllocMshr(mshrs, i)
      {
        if !mshrs[i].valid { return i; }
        i := i + 1;
      }
      return -1;
    }

    method FindRegister(line: nat) returns (m: int)
      requires Valid()
      ensures m == FindMshr(mshrs, line, 0)
    {
      var i := 0;
      while i < conf.mshrCount
        invariant 0 <= i <= conf.mshrCount && FindMshr(mshrs, line, 0) == FindMshr(mshrs, line, i)
      {
        if mshrs[i].valid && mshrs[i].line == line { return i; }
        i := i + 1;
      }
      return -1;
    }

    method PickDramRegister() returns (m: int)
      requires Valid()
      ensures m == PickDramMshr(mshrs)
    {
      var i := 0;
      while i < conf.mshrCount
        invariant 0 <= i <= conf.mshrCount && FindWb(mshrs, 0) == FindWb(mshrs, i)
      {
        if mshrs[i].valid && mshrs[i].needWb && !mshrs[i].wbDone && !mshrs[i].wbSent { return i; }
        i := i + 1;
      }
      i := 0;
      while i < conf.mshrCount
        invariant 0 <= i <= conf.mshrCount && FindFill(mshrs, 0) == FindFill(mshrs, i)
      {
        if mshrs[i].valid && mshrs[i].wbDone && !mshrs[i].fillSent { return i; }
        i := i + 1;
      }
      return -1;
    }

    // -------------------------------------------------------------- requests and replies

    method TickBegin()
      requires Valid()
      modifies this`cpuAccepts
      ensures Valid() && State() == old(State()).(cpuAccepts := 0)
    {
      cpuAccepts := 0;
    }

    /** Latches a request into the first free port, at most one for each port in a cycle. */
    method TryCpuReq(req: Req) returns (ok: bool, port: nat)
      requires Valid() && req.off < conf.w
      modifies this`pipe, this`cpuAccepts
      ensures Valid()
      ensures ok <==> old(cpuAccepts) < conf.ports
                      && exists p :: 0 <= p < conf.ports && !old(pipe)[p].valid && !old(hitPend)[p].valid
      ensures !ok ==> State() == old(State())
      ensures ok ==> port < conf.ports && !old(pipe)[port].valid && !old(hitPend)[port].valid
      ensures forall p :: 0 <= p < port && p < conf.ports ==> old(pipe)[p].valid || old(hitPend)[p].valid
      ensures ok ==>
        State() == old(State()).(pipe := old(pipe)[port := Pipe(true, req)], cpuAccepts := old(cpuAccepts) + 1)
    {
      ok, port := false, 0;
      if cpuAccepts >= conf.ports { return; }
      while port < conf.ports
        invariant 0 <= port <= conf.ports && State() == old(State()) && !ok
        invariant forall p :: 0 <= p < port ==> pipe[p].valid || hitPend[p].valid
      {
        if !pipe[port].valid && !hitPend[port].valid {
          pipe := pipe[port := Pipe(true, req)];
          cpuAccepts := cpuAccepts + 1;
          ok := true;
          return;
        }
        port := port + 1;
      }
    }

    /** Hands over up to `maxResp` queued replies, oldest first. */
    method PopCpuResps() returns (out: seq<Resp>)
      requires Valid()
      modifies this`respQ
      ensures Valid() && out + respQ == old(respQ) && State() == old(State()).(respQ := respQ)
      ensures |out| == (var maxResp := if conf.ports <= 2 then 4 else conf.ports;
                        if |old(respQ)| < maxResp then |old(respQ)| else maxResp)
    {
      out := TakeReplies(if conf.ports <= 2 then 4 else conf.ports);
    }

    method TakeReplies(maxResp: nat) returns (out: seq<Resp>)
      modifies this`respQ
      ensures out + respQ == old(respQ) && |out| == if |old(respQ)| < maxResp then |old(respQ)| else maxResp
    {
      out := [];
      ghost var q, n := respQ, 0;
      while respQ != [] && |out| < maxResp
        invariant 0 <= n <= |q| && n <= maxResp && out == q[..n] && respQ == q[n..]
        decreases |respQ|
      {
        assert q[n..][0] == q[n] && q[n..][1..] == q[n + 1..] && q[..n] + [q[n]] == q[..n + 1];
        out := out + [respQ[0]];
        respQ := respQ[1..];
        n := n + 1;
      }
      assert q[..n] + q[n..] == q;
    }

    // -------------------------------------------------------------- the DRAM side

    method DramReqAccepted()
      requires Valid()
      modifies this`dramMshr, this`dramIsWb, this`mshrs
      ensures Valid()
      ensures State() == if PickDramMshr(old(mshrs)) >= 0 then DramAccepted(old(State())) else old(State())
    {
      var i := PickDramRegister();
      if i < 0 { return; }
      assert RegisterOk(conf, mshrs[i]);
      dramMshr := i;
      if mshrs[i].needWb && !mshrs[i].wbDone && !mshrs[i].wbSent {
        mshrs := mshrs[i := mshrs[i].(wbSent := true)];
        dramIsWb := true;
      } else {
        mshrs := mshrs[i := mshrs[i].(fillSent := true)];
        dramIsWb := false;
      }
    }

    method DramResp(i: nat, line: Line)
      requires Valid() && |line| == conf.w
      modifies this`dramMshr, this`dramIsWb, this`mshrs
      ensures Valid() && State() == DramReplied(conf, old(State()), i, line)
    {
      if i >= conf.mshrCount || !mshrs[i].valid { return; }
      assert RegisterOk(conf, mshrs[i]);
      if dramMshr == i {
        var wasWb := dramIsWb;
        dramMshr := -1;
        dramIsWb := false;
        if wasWb {
          mshrs := mshrs[i := mshrs[i].(wbDone := true)];
          return;
        }
      } else if mshrs[i].wbSent && !mshrs[i].wbDone {
        mshrs := mshrs[i := mshrs[i].(wbDone := true)];
        return;
      }
      mshrs := mshrs[i := mshrs[i].(fill := line, fillReady := true)];
    }

    // -------------------------------------------------------------- one cycle

    /** The latest store hit of the cycle: its line as merged so far is what its way now holds. */
    ghost predicate ShadowOk(valid: bool, s: nat, w: nat, line: Line)
      requires Shaped(conf, State())
      reads this
    {
      valid ==> s < conf.sets && w < conf.ways && line == cache[s][w].data && |line| == conf.w
    }

    method HitWay(p: nat, s: nat, w: nat, shadowValid: bool, shadowSet: nat, shadowWay: nat, shadowLine: Line)
      returns (valid': bool, set': nat, way': nat, line': Line)
      requires Valid() && p < conf.ports && pipe[p].valid && s < conf.sets && w < conf.ways && cache[s][w].valid
      requires ShadowOk(shadowValid, shadowSet, shadowWay, shadowLine)
      modifies this`cache, this`pipe, this`hitPend, this`respQ, this`lruClock
      ensures Valid() && State() == HitPort(conf, old(State()), p, s, w) && ShadowOk(valid', set', way', line')
    {
      valid', set', way', line' := shadowValid, shadowSet, shadowWay, shadowLine;
      var req, way := pipe[p].req, cache[s][w].(lru := lruClock);
      lruClock := lruClock + 1;
      var merged := shadowValid && shadowSet == s && shadowWay == w;
      if req.write {
        var line := ApplyStore(if merged then shadowLine else way.data, req);
        way := way.(data := line, dirty := true);
        valid', set', way', line' := true, s, w, line;
        pipe := pipe[p := pipe[p].(valid := false)];
        respQ := respQ + [ReplyTo(req, ZERO_LANES)];
      } else if !hitPend[p].valid {
        var word := (if merged then shadowLine else way.data)[req.off];
        pipe := pipe[p := pipe[p].(valid := false)];
        hitPend := hitPend[p := HitPend(true, conf.hitLatency, ReplyTo(req, word))];
      }
      cache := cache[s := cache[s][w := way]];
    }

    /** Compares every waiting request with the tags, in port order. */
    method ProcessPipes()
      requires Valid()
      modifies this`cache, this`mshrs, this`pipe, this`hitPend, this`respQ, this`lruClock
      ensures Valid() && State() == PortsFrom(conf, old(State()), 0)
    {
      hide ProcessPort;
      var shadowValid, shadowSet, shadowWay, shadowLine := false, 0, 0, [];
      var p := 0;
      while p < conf.ports
        invariant 0 <= p <= conf.ports && Valid() && ShadowOk(shadowValid, shadowSet, shadowWay, shadowLine)
        invariant PortsFrom(conf, State(), p) == PortsFrom(conf, old(State()), 0)
      {
        shadowValid, shadowSet, shadowWay, shadowLine := ProcessOne(p, shadowValid, shadowSet, shadowWay, shadowLine);
        p := p + 1;
      }
    }

    method ProcessOne(p: nat, shadowValid: bool, shadowSet: nat, shadowWay: nat, shadowLine: Line)
      returns (valid': bool, set': nat, way': nat, line': Line)
      requires Valid() && p < conf.ports && ShadowOk(shadowValid, shadowSet, shadowWay, shadowLine)
      modifies this`cache, this`mshrs, this`pipe, this`hitPend, this`respQ, this`lruClock
      ensures Valid() && State() == ProcessPort(conf, old(State()), p) && ShadowOk(valid', set', way', line')
    {
      PortKeepsOk(conf, State(), p);
      valid', set', way', line' := shadowValid, shadowSet, shadowWay, shadowLine;
      if !pipe[p].valid { return; }
      var req := pipe[p].req;
      var s, tag := SetOf(conf.sets, req.line), TagOf(conf.sets, req.line);
      var existing := FindRegister(req.line);
      if existing >= 0 {
        var m := mshrs[existing];
        if m.fillReady || m.draining || |m.waiters| >= conf.waiters { return; }
        pipe := pipe[p := pipe[p].(valid := false)];
        mshrs := mshrs[existing := m.(waiters := m.waiters + [req])];
        return;
      }
      var hit := FindHitWay(s, tag);
      if hit >= 0 {
        valid', set', way', line' := HitWay(p, s, hit, shadowValid, shadowSet, shadowWay, shadowLine);
        return;
      }
      var mi := AllocRegister();
      var victim := FindVictimWay(s);
      if mi < 0 || victim < 0 { return; }
      var way := cache[s][victim];
      pipe := pipe[p := pipe[p].(valid := false)];
      mshrs := mshrs[mi := NewMshr(conf, way, s, victim, req)];
      cache := cache[s := cache[s][victim := way.(reserved := true)]];
    }

    /** A line and the stores waiting for it, in the order they arrived. */
    method MergeWaiters(line: Line, waiters: seq<Req>) returns (merged: Line, anyStore: bool)
      requires AllIn(waiters, |line|)
      ensures merged == ApplyStores(line, waiters)
      ensures anyStore <==> exists k :: 0 <= k < |waiters| && waiters[k].write
    {
      merged, anyStore := line, false;
      var k := 0;
      assert waiters[..0] == [];
      while k < |waiters|
        invariant 0 <= k <= |waiters| && merged == ApplyStores(line, waiters[..k])
        invariant anyStore <==> exists j :: 0 <= j < k && waiters[j].write
      {
        assert waiters[..k + 1] == waiters[..k] + [waiters[k]];
        ApplyOneMore(line, waiters[..k], waiters[k]);
        if waiters[k].write {
          merged := ApplyStore(merged, waiters[k]);
          anyStore := true;
        }
        k := k + 1;
      }
      assert waiters[..k] == waiters;
    }

    method CompleteOneFill(i: nat)
      requires Valid() && i < conf.mshrCount && mshrs[i].valid && mshrs[i].fillReady
      modifies this`cache, this`mshrs, this`drainMshr, this`lruClock
      ensures RegisterOk(conf, old(mshrs)[i])
      ensures Valid() && State() == CompleteFill(conf, old(State()), i)
    {
      FillKeepsOk(conf, State(), i);
      var m := mshrs[i];
      assert RegisterOk(conf, m);
      if m.draining { return; }
      var line, anyStore := MergeWaiters(m.fill, m.waiters);
      var way := Way(true, anyStore, false, TagOf(conf.sets, m.line), line, lruClock);
      lruClock := lruClock + 1;
      cache := cache[m.setIdx := cache[m.setIdx][m.wayIdx := way]];
      mshrs := mshrs[i := m.(fillReady := false, drainLine := line, draining := true, drainIdx := 0)];
      if drainMshr < 0 { drainMshr := i; }
    }

    /** Gives the turn to the first draining register when nobody has it. */
    method FindTurn()
      requires Valid()
      modifies this`drainMshr
      ensures Valid()
      ensures State()
                == old(State()).(drainMshr := if old(drainMshr) < 0 then FindDraining(mshrs, 0) else old(drainMshr))
    {
      if drainMshr >= 0 { return; }
      var i := 0;
      while i < conf.mshrCount
        invariant 0 <= i <= conf.mshrCount && State() == old(State())
        invariant FindDraining(mshrs, 0) == FindDraining(mshrs, i)
      {
        if mshrs[i].valid && mshrs[i].draining {
          drainMshr := i;
          return;
        }
        i := i + 1;
      }
    }

    /** Answers one waiter of the draining register whose turn it is. */
    method StepOneDrain()
      requires Valid()
      modifies this`mshrs, this`respQ, this`drainMshr
      ensures CacheOk(conf, old(State()))
      ensures Valid() && (DrainKeepsOk(conf, old(State())); State() == StepDrain(old(State())))
    {
      DrainKeepsOk(conf, State());
      FindTurn();
      if drainMshr < 0 { return; }
      if !mshrs[drainMshr].valid || !mshrs[drainMshr].draining {
        drainMshr := -1;
        return;
      }
      DrainRegister();
    }

    method DrainRegister()
      requires Valid() && drainMshr >= 0 && mshrs[drainMshr].valid && mshrs[drainMshr].draining
      modifies this`mshrs, this`respQ, this`drainMshr
      ensures var m := old(mshrs)[old(drainMshr)]; forall k :: 0 <= k < |m.waiters| ==> m.waiters[k].off < |m.drainLine|
      ensures State() == DrainOne(old(State()), old(drainMshr))
    {
      var at := drainMshr;
      var m := mshrs[at];
      assert RegisterOk(conf, m);
      if m.drainIdx < |m.waiters| {
        var w := m.waiters[m.drainIdx];
        respQ := respQ + [ReplyTo(w, m.drainLine[w.off])];
        m := m.(drainIdx := m.drainIdx + 1);
      }
      mshrs := mshrs[at := m];
      if m.drainIdx >= |m.waiters| {
        mshrs := mshrs[at := NO_MSHR];
        drainMshr := -1;
      }
    }

    /** The cache's part of a cycle: emit hits, process pipes, complete fills, drain one waiter. */
    method TickEnd()
      requires Valid()
      modifies this
      ensures Valid() && State() == TickedEnd(conf, old(State()))
    {
      hide ProcessPort, CompleteFill, StepDrain, EmitHit;
      EmitPending();
      ProcessPipes();
      var i := 0;
      ghost var start := State();
      while i < conf.mshrCount
        invariant 0 <= i <= conf.mshrCount && Valid()
        invariant FillsFrom(conf, State(), i) == FillsFrom(conf, start, 0)
      {
        if mshrs[i].valid && mshrs[i].fillReady {
          CompleteOneFill(i);
        }
        i := i + 1;
      }
      StepOneDrain();
    }

    method EmitPending()
      requires Valid()
      modifies this`hitPend, this`respQ
      ensures Valid() && State() == EmitsFrom(conf, old(State()), 0)
    {
      var p := 0;
      while p < conf.ports
        invariant 0 <= p <= conf.ports && Valid()
        invariant EmitsFrom(conf, State(), p) == EmitsFrom(conf, old(State()), 0)
      {
        var h := hitPend[p];
        if h.valid {
          if h.cycles > 0 { h := h.(cycles := h.cycles - 1); }
          if h.cycles == 0 {
            respQ := respQ + [h.resp];
            h := NO_HIT;
          }
          hitPend := hitPend[p := h];
        }
        p := p + 1;
      }
    }
  }
}
