/** Stores on their way through the cache: the machine's main memory is the cache's flat memory, and the stores the
  * queue still forwards from agree with it. */
module CachedStores {
  import opened Words
  import opened Isa
  import opened Core
  import opened MemTypes
  import opened CachedModel
  import Q = LoadStoreQueue
  import M = CacheModel
  import V = CacheInv
  import S = CacheSteps
  import R = CacheRun
  import O = CacheOrder

  // ---------------------------------------------------------------- main memory is the flat memory

  ghost function WordAt(cc: M.DConf, m: R.MemSys, k: nat): Lanes
    requires R.SysInv(cc, m)
  {
    var l := R.Flat(cc, m, WordLine(cc.w, k));
    if WordOff(cc.w, k) < |l| then l[WordOff(cc.w, k)] else ZERO_LANES
  }

  ghost predicate MainIsFlat(cc: M.DConf, main: seq<Lanes>, m: R.MemSys)
    requires R.SysInv(cc, m)
  {
    forall k: nat :: MainRead(main, k) == WordAt(cc, m, k)
  }

  lemma {:induction false} SameFlat(cc: M.DConf, main: seq<Lanes>, m: R.MemSys, m': R.MemSys)
    requires R.SysInv(cc, m) && R.SysInv(cc, m') && R.FlatSame(cc, m, m') && MainIsFlat(cc, main, m)
    ensures MainIsFlat(cc, main, m')
  {
    hide V.DataOk, V.DramOk, V.AbsLine, WordOff;
    forall k: nat ensures MainRead(main, k) == WordAt(cc, m', k) {
      assert R.Flat(cc, m', WordLine(cc.w, k)) == R.Flat(cc, m, WordLine(cc.w, k));
    }
  }

  /** A store the cache takes is a masked write of main memory. */
  lemma {:induction false} TakenIsDrained(c: Config, cc: M.DConf, main: seq<Lanes>, m: R.MemSys, m': R.MemSys,
                                          e: SbEntry, id: nat)
    requires R.SysInv(cc, m) && R.SysInv(cc, m') && MainIsFlat(cc, main, m)
    requires 0 <= WordIndex(c.byteAddressed, e.addr) < |main|
    requires S.Requested(cc, m.d.cache, m.d.mshrs, m'.d.cache, m'.d.mshrs, m.main, StoreReq(c, cc.w, e, id))
    requires m'.main == m.main
    ensures MainIsFlat(cc, MainWrite(main, WordIndex(c.byteAddressed, e.addr), e.data, e.mask), m')
  {
    hide V.DataOk, V.DramOk, V.AbsLine;
    var i, r := WordIndex(c.byteAddressed, e.addr), StoreReq(c, cc.w, e, id);
    var main' := MainWrite(main, i, e.data, e.mask);
    forall k: nat ensures MainRead(main', k) == WordAt(cc, m', k) {
      assert MainRead(main, k) == WordAt(cc, m, k);
      var ln := WordLine(cc.w, k);
      var l, l' := R.Flat(cc, m, ln), R.Flat(cc, m', ln);
      assert r.off < |l| && l' == if ln == r.line then ApplyStore(l, r) else l;
      WordOf(cc.w, k, i);
    }
  }

  // ---------------------------------------------------------------- echoes agree with memory

  /** What the queue could forward from stores the cache has taken is what memory holds. */
  ghost predicate EchoesAgree(c: Config, main: seq<Lanes>, echoes: seq<Echo>) {
    forall w: int, want: Mask, b: nat :: b < 4 ==> EchoAgrees(c, main, echoes, w, want, b)
  }

  ghost predicate EchoAgrees(c: Config, main: seq<Lanes>, echoes: seq<Echo>, w: int, want: Mask, b: nat)
    requires b < 4
  {
    var r := Forward(c.byteAddressed, Entries(echoes), w, want);
    r.mask[b] ==> r.word[b] == MainRead(main, w)[b]
  }

  lemma {:induction false} ForwardWanted(ba: bool, list: seq<SbEntry>, w: int, want: Mask, b: nat)
    requires b < 4 && Forward(ba, list, w, want).mask[b]
    ensures want[b]
    decreases |list|
  {
    if WordIndex(ba, list[|list| - 1].addr) != w || !MaskAnd(list[|list| - 1].mask, want)[b] {
      ForwardWanted(ba, list[..|list| - 1], w, want, b);
    }
  }

  /** The store just taken agrees with the memory it has changed. */
  lemma {:induction false} EchoTaken(c: Config, main: seq<Lanes>, echoes: seq<Echo>, e: SbEntry, id: nat, line: nat)
    requires EchoesAgree(c, main, echoes) && 0 <= WordIndex(c.byteAddressed, e.addr) < |main|
    ensures EchoesAgree(c, MainWrite(main, WordIndex(c.byteAddressed, e.addr), e.data, e.mask), echoes + [Echo(id,
              line, e)])
  {
    hide WordIndex;
    var main' := MainWrite(main, WordIndex(c.byteAddressed, e.addr), e.data, e.mask);
    var list, list' := Entries(echoes), Entries(echoes + [Echo(id, line, e)]);
    assert list' == list + [e] && list'[..|list' | - 1] == list;
    forall w: int, want: Mask, b: nat | b < 4 ensures EchoAgrees(c, main', echoes + [Echo(id, line, e)], w, want, b) {
      assert EchoAgrees(c, main, echoes, w, want, b);
      Q.OneOnTop(c.byteAddressed, list', w, want);
      var r := Forward(c.byteAddressed, list, w, want);
      if r.mask[b] { ForwardWanted(c.byteAddressed, list, w, want, b); }
    }
  }

  /** No store before place `j` is to its word. */
  ghost predicate FirstToWord(c: Config, echoes: seq<Echo>, j: nat)
    requires j < |echoes|
  {
    forall i :: 0 <= i < j ==> WordIndex(c.byteAddressed, echoes[i].entry.addr) != WordIndex(c.byteAddressed,
        echoes[j].entry.addr)
  }

  lemma {:induction false} ForwardElsewhere(ba: bool, list: seq<SbEntry>, w: int, want: Mask)
    requires forall i :: 0 <= i < |list| ==> WordIndex(ba, list[i].addr) != w
    ensures Forward(ba, list, w, want) == Cover(ZERO_LANES, NO_LANES)
    decreases |list|
  {
    if list != [] { ForwardElsewhere(ba, list[..|list| - 1], w, want); }
  }

  /** Forgetting the oldest store to its word leaves only bytes that agree. */
  lemma {:induction false} EchoGone(c: Config, main: seq<Lanes>, echoes: seq<Echo>, j: nat)
    requires EchoesAgree(c, main, echoes) && j < |echoes| && FirstToWord(c, echoes, j)
    ensures EchoesAgree(c, main, echoes[..j] + echoes[j + 1..])
  {
    hide Forward, EchoesAgree;
    var echoes' := echoes[..j] + echoes[j + 1..];
    forall w: int, want: Mask, b: nat | b < 4 ensures EchoAgrees(c, main, echoes', w, want, b) {
      GoneAgrees(c, main, echoes, j, w, want, b);
    }
    AllAgree(c, main, echoes');
  }

  lemma {:induction false} AllAgree(c: Config, main: seq<Lanes>, echoes: seq<Echo>)
    requires forall w: int, want: Mask, b: nat :: b < 4 ==> EchoAgrees(c, main, echoes, w, want, b)
    ensures EchoesAgree(c, main, echoes)
  {
    hide EchoAgrees;
  }

  lemma {:induction false} GoneAgrees(c: Config, main: seq<Lanes>, echoes: seq<Echo>, j: nat, w: int, want: Mask,
                                      b: nat)
    requires EchoesAgree(c, main, echoes) && j < |echoes| && FirstToWord(c, echoes, j) && b < 4
    ensures EchoAgrees(c, main, echoes[..j] + echoes[j + 1..], w, want, b)
  {
    var ba, x := c.byteAddressed, echoes[j].entry;
    var before, after := Entries(echoes[..j]), Entries(echoes[j + 1..]);
    assert EchoAgrees(c, main, echoes, w, want, b);
    assert Entries(echoes) == (before + [x]) + after && Entries(echoes[..j] + echoes[j + 1..]) == before + after;
    hide EchoesAgree;
    Q.ForwardAppend(ba, before + [x], after, w, want);
    Q.ForwardAppend(ba, before, after, w, want);
    assert (before + [x])[..|before|] == before;
    Q.OneOnTop(ba, before + [x], w, want);
    if WordIndex(ba, x.addr) == w {
      ForwardElsewhere(ba, before, w, want);
      TopOnly(Forward(ba, after, w, want), Forward(ba, before + [x], w, want), b);
      hide Forward, Q.Overlaid, Q.OnTop;
    }
  }

  lemma {:induction false} TopOnly(top: Cover, below: Cover, b: nat)
    requires b < 4
    ensures var r, none := Q.Overlaid(top, below), Q.Overlaid(top, Cover(ZERO_LANES, NO_LANES));
            none.mask[b] ==> r.mask[b] && r.word[b] == none.word[b]
  {
  }

  // ---------------------------------------------------------------- and are answered in order, line by line

  function IdsOn(lines: map<nat, nat>, ln: nat): set<int> { set id | id in lines && lines[id] == ln }

  function EchoesOn(echoes: seq<Echo>, ln: nat): seq<int> {
    if echoes == [] then []
    else EchoesOn(echoes[..|echoes| - 1],
        ln) + (if echoes[|echoes| - 1].line == ln then [echoes[|echoes| - 1].id] else [])
  }

  /** What the cache owes for a line is exactly the unanswered stores to it, in the order they were taken. */
  ghost predicate OwedOn(d: M.DState, echoes: seq<Echo>, lines: map<nat, nat>, ln: nat) {
    O.Owed(d, ln, IdsOn(lines, ln)) == EchoesOn(echoes, ln)
  }

  ghost predicate AllOwed(d: M.DState, echoes: seq<Echo>, lines: map<nat, nat>) {
    forall ln: nat :: OwedOn(d, echoes, lines, ln)
  }

  ghost predicate EchoesOk(echoes: seq<Echo>, lines: map<nat, nat>, took: nat) {
    && (forall i :: 0 <= i < |echoes| ==> echoes[i].id in lines && lines[echoes[i].id] == echoes[i].line)
    && (forall i, j :: 0 <= i < j < |echoes| ==> echoes[i].id < echoes[j].id)
    && (forall id :: id in lines ==> id < took)
  }

  lemma {:induction false} OnLine(echoes: seq<Echo>, ln: nat, x: int)
    ensures x in EchoesOn(echoes, ln) <==> exists i :: 0 <= i < |echoes| && echoes[i].line == ln && echoes[i].id == x
  {
    if echoes != [] {
      var front, last := echoes[..|echoes| - 1], echoes[|echoes| - 1];
      OnLine(front, ln, x);
      if x in EchoesOn(front, ln) {
        var i :| 0 <= i < |front| && front[i].line == ln && front[i].id == x;
        assert echoes[i] == front[i];
      }
      if i :| 0 <= i < |echoes| && echoes[i].line == ln && echoes[i].id == x && i < |front| {
        assert front[i] == echoes[i];
      }
    }
  }

  /** A store owed for a line went to that line. */
  lemma {:induction false} OwedLine(d: M.DState, echoes: seq<Echo>, lines: map<nat, nat>, took: nat, ln: nat, x: int)
    requires OwedOn(d, echoes, lines, ln) && EchoesOk(echoes, lines, took) && x in O.Owed(d, ln, IdsOn(lines, ln))
    ensures x >= 0 && x in lines && lines[x] == ln
  {
    hide O.Owed, IdsOn;
    OnLine(echoes, ln, x);
  }

  lemma {:induction false} WaiterIn(reqs: seq<Req>, from: nat, k: nat)
    requires from <= k < |reqs| && reqs[k].write
    ensures reqs[k].id in O.StoresWaiting(reqs, from)
    decreases k - from
  {
    if from < k { WaiterIn(reqs, from + 1, k); }
  }

  lemma {:induction false} WaitersKnown(cc: M.DConf, m: R.MemSys, echoes: seq<Echo>, lines: map<nat, nat>, took: nat,
                                        ln: nat)
    requires R.SysInv(cc, m) && AllOwed(m.d, echoes, lines) && EchoesOk(echoes, lines, took)
    ensures O.IdsOf(m.d, ln, IdsOn(lines, ln))
  {
    O.RegistersDiffer(cc, m);
    hide R.SysInv;
    var d := m.d;
    forall i, k | O.WaitingStore(d, i, k) && d.mshrs[i].drainIdx <= k
      ensures d.mshrs[i].waiters[k].id in IdsOn(lines, ln) <==> d.mshrs[i].line == ln
    {
      var r, x := d.mshrs[i], d.mshrs[i].waiters[k].id;
      WaiterIn(r.waiters, r.drainIdx, k);
      O.TheRegister(d.mshrs, r.line, i);
      assert OwedOn(d, echoes, lines, r.line);
      OwedLine(d, echoes, lines, took, r.line, x);
    }
  }

  /** The cache's own steps keep the accounts. */
  lemma {:induction false} InsideOwes(cc: M.DConf, m: R.MemSys, e: R.MemStep, echoes: seq<Echo>, lines: map<nat, nat>,
                                      took: nat)
    requires R.SysInv(cc, m) && R.MemEnabled(cc, m, e) && R.SysInv(cc, R.MemApply(cc, m, e)) && O.HitsAreLoads(m.d)
    requires !e.Port? && !e.Take? && AllOwed(m.d, echoes, lines) && EchoesOk(echoes, lines, took)
    ensures AllOwed(R.MemApply(cc, m, e).d, echoes, lines)
  {
    hide R.SysInv, R.MemApply, R.MemEnabled, O.Owed, EchoesOk, IdsOn;
    forall ln: nat ensures OwedOn(R.MemApply(cc, m, e).d, echoes, lines, ln) {
      var ids := IdsOn(lines, ln);
      assert OwedOn(m.d, echoes, lines, ln);
      match e
      case Drain =>
        WaitersKnown(cc, m, echoes, lines, took, ln);
        O.DrainOwes(cc, m, ln, ids);
      case Emit(p) => O.EmitOwes(cc, m, p, ln, ids);
      case _ => O.QuietOwes(cc, m, e, ln, ids);
    }
  }

  /** A store taken joins the accounts at the end. */
  lemma {:induction false} TakenOwes(cc: M.DConf, m: R.MemSys, echoes: seq<Echo>, lines: map<nat, nat>, took: nat,
                                     e: SbEntry)
    requires R.SysInv(cc, m) && cc.ports == 1 && R.SysInv(cc, R.MemApply(cc, m, R.Port(0)))
    requires AllOwed(m.d, echoes, lines)
    requires R.Takes(cc, m, 0) && m.d.pipe[0].req.write && m.d.pipe[0].req.id == took
    requires EchoesOk(echoes, lines, took) && O.StoresBelow(m.d, took)
    ensures var line := m.d.pipe[0].req.line;
            && AllOwed(R.MemApply(cc, m, R.Port(0)).d, echoes + [Echo(took, line, e)], lines[took := line])
            && EchoesOk(echoes + [Echo(took, line, e)], lines[took := line], took + 1)
  {
    var line := m.d.pipe[0].req.line;
    var echoes', lines' := echoes + [Echo(took, line, e)], lines[took := line];
    forall ln: nat ensures OwedOn(R.MemApply(cc, m, R.Port(0)).d, echoes', lines', ln) {
      OneTaken(cc, m, echoes, lines, took, e, ln);
    }
    hide R.SysInv, AllOwed;
  }

  lemma {:induction false} OneTaken(cc: M.DConf, m: R.MemSys, echoes: seq<Echo>, lines: map<nat, nat>, took: nat,
                                    e: SbEntry, ln: nat)
    requires R.SysInv(cc, m) && cc.ports == 1 && R.SysInv(cc, R.MemApply(cc, m, R.Port(0)))
    requires AllOwed(m.d, echoes, lines)
    requires R.Takes(cc, m, 0) && m.d.pipe[0].req.write && m.d.pipe[0].req.id == took
    requires EchoesOk(echoes, lines, took) && O.StoresBelow(m.d, took)
    ensures var line := m.d.pipe[0].req.line;
            OwedOn(R.MemApply(cc, m, R.Port(0)).d, echoes + [Echo(took, line, e)], lines[took := line], ln)
  {
    var line := m.d.pipe[0].req.line;
    var lines' := lines[took := line];
    assert OwedOn(m.d, echoes, lines, ln);
    NewId(lines, took, line, ln);
    O.PortOwes(cc, m, 0, ln, IdsOn(lines', ln));
    O.OwedUnmatched(m.d, ln, IdsOn(lines, ln), took);
    hide R.SysInv, O.Owed, R.MemApply, O.StoresBelow;
    EchoesAppend(echoes, [Echo(took, line, e)], ln);
    assert [Echo(took, line, e)][..0] == [];
  }

  lemma {:induction false} NewId(lines: map<nat, nat>, took: nat, line: nat, ln: nat)
    requires forall id :: id in lines ==> id < took
    ensures IdsOn(lines[took := line], ln) == if line == ln then IdsOn(lines, ln) + {took} else IdsOn(lines, ln)
    ensures took in IdsOn(lines[took := line], ln) <==> line == ln
  {
  }

  lemma {:induction false} LoadTakenOwes(cc: M.DConf, m: R.MemSys, echoes: seq<Echo>, lines: map<nat, nat>)
    requires R.SysInv(cc, m) && cc.ports == 1 && R.SysInv(cc, R.MemApply(cc, m, R.Port(0)))
    requires AllOwed(m.d, echoes, lines)
    requires !(R.Takes(cc, m, 0) && m.d.pipe[0].req.write)
    ensures AllOwed(R.MemApply(cc, m, R.Port(0)).d, echoes, lines)
  {
    forall ln: nat ensures OwedOn(R.MemApply(cc, m, R.Port(0)).d, echoes, lines, ln) {
      assert OwedOn(m.d, echoes, lines, ln);
      O.PortOwes(cc, m, 0, ln, IdsOn(lines, ln));
      hide R.SysInv, R.MemApply, O.Owed;
    }
  }

  // ---------------------------------------------------------------- answers

  lemma {:induction false} EchoesAppend(a: seq<Echo>, b: seq<Echo>, ln: nat)
    ensures EchoesOn(a + b, ln) == EchoesOn(a, ln) + EchoesOn(b, ln)
    decreases |b|
  {
    if b == [] {
      assert a + b == a && EchoesOn(b, ln) == [];
    } else {
      assert (a + b)[..|a + b| - 1] == a + b[..|b| - 1];
      EchoesAppend(a, b[..|b| - 1], ln);
    }
  }

  lemma {:induction false} RemovedAt(echoes: seq<Echo>, id: int, j: nat)
    requires j < |echoes| && echoes[j].id == id && forall i :: 0 <= i < j ==> echoes[i].id != id
    ensures WithoutEcho(echoes, id) == echoes[..j] + echoes[j + 1..]
  {
    if j > 0 {
      RemovedAt(echoes[1..], id, j - 1);
      assert [echoes[0]] + echoes[1..][..j - 1] == echoes[..j] && echoes[1..][j..] == echoes[j + 1..];
    }
  }

  lemma {:induction false} RemovedNone(echoes: seq<Echo>, id: int)
    requires forall i :: 0 <= i < |echoes| ==> echoes[i].id != id
    ensures WithoutEcho(echoes, id) == echoes
  {
    if echoes != [] { RemovedNone(echoes[1..], id); }
  }

  /** The store answered is the oldest unanswered one to its line. */
  lemma {:induction false} AnsweredIsOldest(cc: M.DConf, m: R.MemSys, echoes: seq<Echo>, lines: map<nat, nat>,
                                            took: nat, j: nat)
    requires R.SysInv(cc, m) && R.MemEnabled(cc, m, R.Take) && AllOwed(m.d, echoes, lines)
    requires EchoesOk(echoes, lines, took)
    requires m.d.respQ[0].isWrite && j < |echoes| && echoes[j].id == m.d.respQ[0].id
    ensures EchoesOn(echoes[..j], echoes[j].line) == []
    ensures forall i :: 0 <= i < j ==> echoes[i].line != echoes[j].line
  {
    var ln, x, before := echoes[j].line, echoes[j].id, echoes[..j];
    assert OwedOn(m.d, echoes, lines, ln) && x in IdsOn(lines, ln);
    O.TakeOwes(cc, m, ln, IdsOn(lines, ln));
    hide R.SysInv, O.Owed, R.MemApply;
    SplitAt(echoes, j, ln);
    if EchoesOn(before, ln) != [] {
      var y := EchoesOn(before, ln)[0];
      assert EchoesOn(echoes, ln)[0] == y;
      OnLine(before, ln, y);
    }
    forall i | 0 <= i < j ensures echoes[i].line != ln {
      OnLine(before, ln, echoes[i].id);
      assert before[i] == echoes[i];
    }
  }

  lemma {:induction false} SplitAt(echoes: seq<Echo>, j: nat, ln: nat)
    requires j < |echoes|
    ensures EchoesOn(echoes, ln)
         == EchoesOn(echoes[..j],
             ln) + (if echoes[j].line == ln then [echoes[j].id] else []) + EchoesOn(echoes[j + 1..], ln)
  {
    assert echoes == (echoes[..j] + [echoes[j]]) + echoes[j + 1..];
    EchoesAppend(echoes[..j] + [echoes[j]], echoes[j + 1..], ln);
    EchoesAppend(echoes[..j], [echoes[j]], ln);
    assert EchoesOn([], ln) == [] && [echoes[j]][..0] == [];
  }

  /** An answered store leaves the accounts. */
  lemma {:induction false} AnswerOwes(cc: M.DConf, m: R.MemSys, echoes: seq<Echo>, lines: map<nat, nat>, took: nat,
                                      j: nat)
    requires R.SysInv(cc, m) && R.MemEnabled(cc, m, R.Take) && AllOwed(m.d, echoes, lines)
    requires EchoesOk(echoes, lines, took)
    requires m.d.respQ[0].isWrite && j < |echoes| && echoes[j].id == m.d.respQ[0].id
    ensures AllOwed(R.MemApply(cc, m, R.Take).d, echoes[..j] + echoes[j + 1..], lines)
  {
    AnsweredIsOldest(cc, m, echoes, lines, took, j);
    hide R.SysInv, R.MemApply, R.MemEnabled, O.Owed, EchoesOk, EchoesOn;
    var echoes' := echoes[..j] + echoes[j + 1..];
    var d' := R.MemApply(cc, m, R.Take).d;
    forall ln: nat ensures OwedOn(d', echoes', lines, ln) {
      assert OwedOn(m.d, echoes, lines, ln);
      O.TakeOwes(cc, m, ln, IdsOn(lines, ln));
      Queued(cc, m);
      OneAnswered(m.d, d', echoes, lines, took, j, ln);
    }
  }

  lemma {:induction false} Queued(cc: M.DConf, m: R.MemSys)
    requires R.SysInv(cc, m) && R.MemEnabled(cc, m, R.Take)
    ensures m.d.respQ != []
  {
  }

  lemma {:induction false} EchoesOkWithout(echoes: seq<Echo>, lines: map<nat, nat>, took: nat, j: nat)
    requires EchoesOk(echoes, lines, took) && j < |echoes|
    ensures EchoesOk(echoes[..j] + echoes[j + 1..], lines, took)
  {
  }

  lemma {:induction false} OneAnswered(d: M.DState, d': M.DState, echoes: seq<Echo>, lines: map<nat, nat>, took: nat,
                                       j: nat, ln: nat)
    requires OwedOn(d, echoes, lines, ln) && EchoesOk(echoes, lines, took) && d.respQ != []
    requires d.respQ[0].isWrite && j < |echoes| && echoes[j].id == d.respQ[0].id
    requires EchoesOn(echoes[..j], echoes[j].line) == []
    requires O.Owed(d, ln, IdsOn(lines, ln))
               == O.ReplyOf(d.respQ[0], IdsOn(lines, ln)) + O.Owed(d', ln, IdsOn(lines, ln))
    ensures OwedOn(d', echoes[..j] + echoes[j + 1..], lines, ln)
  {
    var before, after := EchoesOn(echoes[..j], ln), EchoesOn(echoes[j + 1..], ln);
    var left := O.Owed(d', ln, IdsOn(lines, ln));
    SplitAt(echoes, j, ln);
    EchoesAppend(echoes[..j], echoes[j + 1..], ln);
    hide O.Owed, EchoesOn;
    if echoes[j].line == ln {
      assert O.ReplyOf(d.respQ[0], IdsOn(lines, ln)) == [echoes[j].id];
      assert [echoes[j].id] + left == [] + [echoes[j].id] + after;
      assert left == ([echoes[j].id] + left)[1..] && after == ([] + [echoes[j].id] + after)[1..];
    } else {
      assert O.ReplyOf(d.respQ[0], IdsOn(lines, ln)) == [];
      assert [] + left == left && before + [] + after == before + after;
    }
  }

  /** Any other reply leaves them alone. */
  lemma {:induction false} OtherAnswerOwes(cc: M.DConf, m: R.MemSys, echoes: seq<Echo>, lines: map<nat, nat>, took: nat)
    requires R.SysInv(cc, m) && R.MemEnabled(cc, m, R.Take) && AllOwed(m.d, echoes, lines)
    requires EchoesOk(echoes, lines, took)
    requires m.d.respQ[0].isWrite ==> forall i :: 0 <= i < |echoes| ==> echoes[i].id != m.d.respQ[0].id
    ensures AllOwed(R.MemApply(cc, m, R.Take).d, echoes, lines)
  {
    forall ln: nat ensures OwedOn(R.MemApply(cc, m, R.Take).d, echoes, lines, ln) {
      var p, ids := m.d.respQ[0], IdsOn(lines, ln);
      assert OwedOn(m.d, echoes, lines, ln);
      O.TakeOwes(cc, m, ln, ids);
      hide R.SysInv, O.Owed, R.MemApply, AllOwed;
      if p.isWrite && p.id in ids {
        assert p.id in EchoesOn(echoes, ln);
        OnLine(echoes, ln, p.id);
      }
    }
  }
}
