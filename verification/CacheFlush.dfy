/** Once the memory system is quiet, writing every dirty line back makes main memory the flat memory. */
module CacheFlush {
  import opened Words
  import opened MemTypes
  import opened CacheModel
  import opened CacheInv
  import opened CacheRun
  import opened CacheCycle

  predicate Dirty(way: Way) { way.valid && way.dirty }

  function FlushWay(c: DConf, s: nat, way: Way, main: seq<Lanes>): (m: seq<Lanes>)
    requires way.valid ==> |way.data| == c.w
    ensures |m| == |main|
  {
    if Dirty(way) then WriteLine(main, c.w, LineOf(c.sets, s, way.tag), way.data) else main
  }

  ghost predicate Wide(c: DConf, ways: seq<Way>) {
    forall i :: 0 <= i < |ways| && ways[i].valid ==> |ways[i].data| == c.w
  }

  function FlushSet(c: DConf, s: nat, ways: seq<Way>, i: nat, main: seq<Lanes>): (m: seq<Lanes>)
    requires i <= |ways| && Wide(c, ways)
    ensures |m| == |main|
    decreases |ways| - i
  {
    if i == |ways| then main else FlushSet(c, s, ways, i + 1, FlushWay(c, s, ways[i], main))
  }

  function FlushAll(c: DConf, cache: seq<seq<Way>>, s: nat, main: seq<Lanes>): (m: seq<Lanes>)
    requires s <= |cache| && forall t :: 0 <= t < |cache| ==> Wide(c, cache[t])
    ensures |m| == |main|
    decreases |cache| - s
  {
    if s == |cache| then main else FlushAll(c, cache, s + 1, FlushSet(c, s, cache[s], 0, main))
  }

  /** The only way that holds the line dirty, if any, is at `(s, i)`. */
  ghost predicate OnlyDirty(c: DConf, cache: seq<seq<Way>>, ln: nat, s: nat, i: nat)
    requires c.sets > 0
  {
    forall t, j :: 0 <= t < |cache| && 0 <= j < |cache[t]| && Dirty(cache[t][j]) && LineOf(c.sets, t,
        cache[t][j].tag) == ln ==>
      t == s && j == i
  }

  lemma {:induction false} SetLeaves(c: DConf, s: nat, ways: seq<Way>, i: nat, main: seq<Lanes>, ln: nat)
    requires i <= |ways| && Wide(c, ways)
    requires forall j :: i <= j < |ways| && Dirty(ways[j]) ==> LineOf(c.sets, s, ways[j].tag) != ln
    ensures MainLine(FlushSet(c, s, ways, i, main), c.w, ln) == MainLine(main, c.w, ln)
    decreases |ways| - i
  {
    if i < |ways| {
      if Dirty(ways[i]) {
        WriteElsewhere(main, c.w, LineOf(c.sets, s, ways[i].tag), ways[i].data, ln);
      }
      SetLeaves(c, s, ways, i + 1, FlushWay(c, s, ways[i], main), ln);
    }
  }

  lemma {:induction false} SetWrites(c: DConf, s: nat, ways: seq<Way>, i: nat, main: seq<Lanes>, j: nat)
    requires i <= j < |ways| && Wide(c, ways) && Dirty(ways[j])
    requires Fits(|main|, c.w, LineOf(c.sets, s, ways[j].tag), ways[j].data)
    requires forall k :: i <= k < |ways| && k != j && Dirty(ways[k]) ==>
               LineOf(c.sets, s, ways[k].tag) != LineOf(c.sets, s, ways[j].tag)
    ensures MainLine(FlushSet(c, s, ways, i, main), c.w, LineOf(c.sets, s, ways[j].tag)) == ways[j].data
    decreases |ways| - i
  {
    var main' := FlushWay(c, s, ways[i], main);
    if i == j {
      WriteThenRead(main, c.w, LineOf(c.sets, s, ways[j].tag), ways[j].data);
      SetLeaves(c, s, ways, i + 1, main', LineOf(c.sets, s, ways[j].tag));
    } else {
      SetWrites(c, s, ways, i + 1, main', j);
    }
  }

  lemma {:induction false} AllLeave(c: DConf, cache: seq<seq<Way>>, s: nat, main: seq<Lanes>, ln: nat)
    requires s <= |cache| && forall t :: 0 <= t < |cache| ==> Wide(c, cache[t])
    requires forall t, j :: s <= t < |cache| && 0 <= j < |cache[t]| && Dirty(cache[t][j]) ==>
               LineOf(c.sets, t, cache[t][j].tag) != ln
    ensures MainLine(FlushAll(c, cache, s, main), c.w, ln) == MainLine(main, c.w, ln)
    decreases |cache| - s
  {
    if s < |cache| {
      SetLeaves(c, s, cache[s], 0, main, ln);
      AllLeave(c, cache, s + 1, FlushSet(c, s, cache[s], 0, main), ln);
    }
  }

  lemma {:induction false} AllWrite(c: DConf, cache: seq<seq<Way>>, s: nat, main: seq<Lanes>, t: nat, j: nat)
    requires s <= t < |cache| && j < |cache[t]| && Dirty(cache[t][j]) && c.sets > 0
    requires forall u :: 0 <= u < |cache| ==> Wide(c, cache[u])
    requires Fits(|main|, c.w, LineOf(c.sets, t, cache[t][j].tag), cache[t][j].data)
    requires OnlyDirty(c, cache, LineOf(c.sets, t, cache[t][j].tag), t, j)
    ensures MainLine(FlushAll(c, cache, s, main), c.w, LineOf(c.sets, t, cache[t][j].tag)) == cache[t][j].data
    decreases |cache| - s
  {
    var ln := LineOf(c.sets, t, cache[t][j].tag);
    var main' := FlushSet(c, s, cache[s], 0, main);
    if s == t {
      SetWrites(c, s, cache[s], 0, main, j);
      AllLeave(c, cache, s + 1, main', ln);
    } else {
      AllWrite(c, cache, s + 1, main', t, j);
    }
  }

  lemma {:induction false} CacheIsWide(c: DConf, cache: seq<seq<Way>>)
    requires WaysOk(c, cache)
    ensures forall t :: 0 <= t < |cache| ==> Wide(c, cache[t])
  {
    forall t | 0 <= t < |cache| ensures Wide(c, cache[t]) {
      forall i | 0 <= i < |cache[t]| && cache[t][i].valid ensures |cache[t][i].data| == c.w {
        assert WayOk(c, t, cache[t][i]);
      }
    }
  }

  /** When quiet no way is reserved, so every valid way is resident. */
  lemma {:induction false} QuietWay(c: DConf, m: MemSys, t: nat, j: nat)
    requires LiveInv(c, m) && !Busy(m) && t < c.sets && j < c.ways
    ensures !m.d.cache[t][j].reserved
  {
    NotReserved(c, m.d, t, j);
  }

  /** A valid way is the one that holds its line. */
  lemma {:induction false} HoldsItsLine(c: DConf, m: MemSys, t: nat, j: nat, ln: nat)
    requires LiveInv(c, m) && !Busy(m) && t < c.sets && j < c.ways && m.d.cache[t][j].valid
    requires ln == LineOf(c.sets, t, m.d.cache[t][j].tag)
    ensures SetOf(c.sets, ln) == t && IsResident(m.d.cache[t][j], TagOf(c.sets, ln))
    ensures Flat(c, m, ln) == m.d.cache[t][j].data
  {
    QuietWay(c, m, t, j);
    PartsOfLine(c.sets, t, m.d.cache[t][j].tag);
    AbsResident(c, m.d.cache, m.d.mshrs, m.main, ln, j);
  }

  lemma {:induction false} DirtyIsOnly(c: DConf, m: MemSys, t: nat, j: nat)
    requires LiveInv(c, m) && !Busy(m) && t < c.sets && j < c.ways && Dirty(m.d.cache[t][j])
    ensures OnlyDirty(c, m.d.cache, LineOf(c.sets, t, m.d.cache[t][j].tag), t, j)
  {
    var ln := LineOf(c.sets, t, m.d.cache[t][j].tag);
    HoldsItsLine(c, m, t, j, ln);
    TheHit(c, m.d.cache, ln, j);
    forall u, k | 0 <= u < |m.d.cache| && 0 <= k < |m.d.cache[u]| && Dirty(m.d.cache[u][k]) && LineOf(c.sets, u,
        m.d.cache[u][k].tag) == ln
      ensures u == t && k == j
    {
      HoldsItsLine(c, m, u, k, ln);
      TheHit(c, m.d.cache, ln, k);
    }
  }

  /** After the drain, writing the dirty lines back makes every line of main memory the flat memory's. */
  lemma {:induction false} FlushIsFlat(c: DConf, m: MemSys, ln: nat)
    requires LiveInv(c, m) && !Busy(m)
    ensures forall t :: 0 <= t < |m.d.cache| ==> Wide(c, m.d.cache[t])
    ensures MainLine(FlushAll(c, m.d.cache, 0, m.main), c.w, ln) == Flat(c, m, ln)
  {
    var cache := m.d.cache;
    CacheIsWide(c, cache);
    var s := SetOf(c.sets, ln);
    var hit := FindHit(cache[s], TagOf(c.sets, ln), 0);
    LineOfParts(c.sets, ln);
    if hit >= 0 && cache[s][hit].dirty {
      DirtyIsOnly(c, m, s, hit);
      assert WayOk(c, s, cache[s][hit]);
      AllWrite(c, cache, 0, m.main, s, hit);
    } else {
      forall t, j | 0 <= t < |cache| && 0 <= j < |cache[t]| && Dirty(cache[t][j])
        ensures LineOf(c.sets, t, cache[t][j].tag) != ln
      {
        NotDirtyHere(c, m, ln, t, j);
      }
      AllLeave(c, cache, 0, m.main, ln);
      CleanIsMain(c, m, ln);
    }
  }

  lemma {:induction false} NotDirtyHere(c: DConf, m: MemSys, ln: nat, t: nat, j: nat)
    requires LiveInv(c, m) && !Busy(m) && t < c.sets && j < c.ways && Dirty(m.d.cache[t][j])
    requires var s := SetOf(c.sets, ln);
             var hit := FindHit(m.d.cache[s], TagOf(c.sets, ln), 0); hit >= 0 ==> !m.d.cache[s][hit].dirty
    ensures LineOf(c.sets, t, m.d.cache[t][j].tag) != ln
  {
    if LineOf(c.sets, t, m.d.cache[t][j].tag) == ln {
      HoldsItsLine(c, m, t, j, ln);
      TheHit(c, m.d.cache, ln, j);
    }
  }

  lemma {:induction false} CleanIsMain(c: DConf, m: MemSys, ln: nat)
    requires LiveInv(c, m) && !Busy(m)
    requires var s := SetOf(c.sets, ln);
             var hit := FindHit(m.d.cache[s], TagOf(c.sets, ln), 0); hit >= 0 ==> !m.d.cache[s][hit].dirty
    ensures Flat(c, m, ln) == MainLine(m.main, c.w, ln)
  {
    var s := SetOf(c.sets, ln);
    var hit := FindHit(m.d.cache[s], TagOf(c.sets, ln), 0);
    LineOfParts(c.sets, ln);
    if hit >= 0 {
      assert CleanWay(c, s, m.d.cache[s][hit], m.main);
    }
  }
}
