/** Requests, replies and cache lines of the memory system, and lines of main memory. */
module MemTypes {
  import opened Words
  import opened Core

  /** A data request, its address split into line number and word within the line. */
  datatype Req = Req(write: bool, line: nat, off: nat, data: Lanes, mask: Mask, id: int, cookie: nat)

  datatype Resp = Resp(id: int, data: Lanes, cookie: nat, isWrite: bool)

  type Line = seq<Lanes>

  /** Reply to a request. */
  function ReplyTo(r: Req, data: Lanes): Resp { Resp(r.id, if r.write then ZERO_LANES else data, r.cookie, r.write) }

  // ---------------------------------------------------------------- byte addresses

  /** Line number of a byte address. */
  function LineNumber(lineBytes: nat, addr: nat): nat
    requires lineBytes > 0
  {
    addr / lineBytes
  }

  /** The word within its line that a byte address falls in. */
  function WordInLine(lineBytes: nat, addr: nat): nat
    requires lineBytes > 0
  {
    (addr % lineBytes) / 4
  }

  /** The word index of an address is its line's first word plus its place in the line. */
  lemma {:induction false} AddressSplits(w: nat, lineBytes: nat, addr: nat)
    requires w > 0 && lineBytes == 4 * w
    ensures addr / 4 == LineNumber(lineBytes, addr) * w + WordInLine(lineBytes, addr)
    ensures WordInLine(lineBytes, addr) < w
  {
    var q, r := addr / lineBytes, addr % lineBytes;
    assert addr == lineBytes * q + r;
    assert lineBytes * q == 4 * (q * w);
  }

  // ---------------------------------------------------------------- sets and tags

  function SetOf(sets: nat, ln: nat): (s: nat)
    requires sets > 0
    ensures s < sets
  {
    ln % sets
  }

  function TagOf(sets: nat, ln: nat): nat
    requires sets > 0
  {
    ln / sets
  }

  /** The line a way of set `s` with tag `t` holds. */
  function LineOf(sets: nat, s: nat, t: nat): nat { t * sets + s }

  lemma {:induction false} LineOfParts(sets: nat, ln: nat)
    requires sets > 0
    ensures LineOf(sets, SetOf(sets, ln), TagOf(sets, ln)) == ln
  {
  }

  lemma {:induction false} PartsOfLine(sets: nat, s: nat, t: nat)
    requires s < sets
    ensures SetOf(sets, LineOf(sets, s, t)) == s && TagOf(sets, LineOf(sets, s, t)) == t
  {
    var ln := LineOf(sets, s, t);
    var d: int := ln / sets - t;
    assert ln == sets * (ln / sets) + ln % sets;
    assert sets * d == s - ln % sets;
    assert sets * d == -(sets * -d);
    if d >= 1 {
      Far(sets, d);
    } else if d <= -1 {
      Far(sets, -d);
    }
  }

  lemma {:induction false} Far(m: nat, d: nat)
    requires d >= 1
    ensures m * d >= m
  {
  }

  // ---------------------------------------------------------------- lines of main memory

  function LineWord(main: seq<Lanes>, w: nat, ln: nat, i: nat): Lanes { MainRead(main, ln * w + i) }

  function MainLine(main: seq<Lanes>, w: nat, ln: nat): (l: Line)
    ensures |l| == w && forall i :: 0 <= i < w ==> l[i] == LineWord(main, w, ln, i)
  {
    seq(w, i requires 0 <= i < w => LineWord(main, w, ln, i))
  }

  /** Words of the line that lie outside memory are dropped. */
  function WriteLine(main: seq<Lanes>, w: nat, ln: nat, data: Line): (m: seq<Lanes>)
    requires |data| == w
    ensures |m| == |main|
  {
    seq(|main|, k requires 0 <= k < |main| => if ln * w <= k < ln * w + w then data[k - ln * w] else main[k])
  }

  /** Words of the line outside memory are zero, as they always read. */
  ghost predicate Fits(words: nat, w: nat, ln: nat, data: Line) {
    |data| == w && forall i :: 0 <= i < w && ln * w + i >= words ==> data[i] == ZERO_LANES
  }

  lemma {:induction false} MainFits(main: seq<Lanes>, w: nat, ln: nat)
    ensures Fits(|main|, w, ln, MainLine(main, w, ln))
  {
  }

  lemma {:induction false} WriteThenRead(main: seq<Lanes>, w: nat, ln: nat, data: Line)
    requires Fits(|main|, w, ln, data)
    ensures MainLine(WriteLine(main, w, ln, data), w, ln) == data
  {
    var m := WriteLine(main, w, ln, data);
    forall i | 0 <= i < w ensures LineWord(m, w, ln, i) == data[i] {
      if ln * w + i < |main| {
        assert m[ln * w + i] == data[i];
      }
    }
  }

  lemma {:induction false} Apart(w: nat, a: nat, b: nat)
    requires a < b
    ensures a * w + w <= b * w
  {
    assert b * w == a * w + (b - a) * w;
    Far(w, b - a);
  }

  lemma {:induction false} WriteElsewhere(main: seq<Lanes>, w: nat, ln: nat, data: Line, other: nat)
    requires |data| == w && ln != other
    ensures MainLine(WriteLine(main, w, ln, data), w, other) == MainLine(main, w, other)
  {
    if ln < other { Apart(w, ln, other); } else { Apart(w, other, ln); }
    var m := WriteLine(main, w, ln, data);
    forall i | 0 <= i < w ensures LineWord(m, w, other, i) == LineWord(main, w, other, i) {
    }
  }

  // ---------------------------------------------------------------- stores to a line

  function ApplyStore(l: Line, r: Req): (m: Line)
    requires r.off < |l|
    ensures |m| == |l|
  {
    l[r.off := Merge(l[r.off], r.data, r.mask)]
  }

  /** A store changes the bytes of its mask in its own word, and no others. */
  lemma {:induction false} StoreBytes(l: Line, r: Req, i: nat, b: nat)
    requires r.off < |l| && i < |l| && b < 4
    ensures ApplyStore(l, r)[i][b] == if i == r.off && r.mask[b] then r.data[b] else l[i][b]
  {
  }

  ghost predicate AllIn(reqs: seq<Req>, w: nat) {
    forall i :: 0 <= i < |reqs| ==> reqs[i].off < w
  }

  /** The stores among `reqs`, applied in order; later ones win on overlapping bytes. */
  function ApplyStores(l: Line, reqs: seq<Req>): (m: Line)
    requires AllIn(reqs, |l|)
    ensures |m| == |l|
  {
    if reqs == [] then l
    else
      var n := |reqs| - 1;
      var before := ApplyStores(l, reqs[..n]);
      if reqs[n].write then ApplyStore(before, reqs[n]) else before
  }

  lemma {:induction false} ApplyOneMore(l: Line, reqs: seq<Req>, r: Req)
    requires AllIn(reqs, |l|) && r.off < |l|
    ensures AllIn(reqs + [r], |l|)
    ensures ApplyStores(l, reqs + [r]) == if r.write then ApplyStore(ApplyStores(l, reqs), r) else ApplyStores(l, reqs)
  {
    assert (reqs + [r])[..|reqs|] == reqs;
  }

  /** A store stays inside memory. */
  ghost predicate InMemory(words: nat, w: nat, r: Req) {
    r.off < w && (r.write ==> r.line * w + r.off < words)
  }

  lemma {:induction false} StoreFits(words: nat, w: nat, ln: nat, data: Line, r: Req)
    requires Fits(words, w, ln, data) && r.line == ln && r.write && InMemory(words, w, r)
    ensures Fits(words, w, ln, ApplyStore(data, r))
  {
  }

  lemma {:induction false} StoresFit(words: nat, w: nat, ln: nat, data: Line, reqs: seq<Req>)
    requires Fits(words, w, ln, data) && AllIn(reqs, w)
    requires forall i :: 0 <= i < |reqs| ==> reqs[i].line == ln && InMemory(words, w, reqs[i])
    ensures Fits(words, w, ln, ApplyStores(data, reqs))
  {
    if reqs != [] {
      var n := |reqs| - 1;
      StoresFit(words, w, ln, data, reqs[..n]);
      if reqs[n].write {
        StoreFits(words, w, ln, ApplyStores(data, reqs[..n]), reqs[n]);
      }
    }
  }
}
