/** The register alias table and its per-branch checkpoints. */
module RenameTables {
  import opened Core

  /** Logical register to the tag of its youngest in-flight writer, or -1. */
  class RegisterAliasTable {
    const numRegs: nat
    const rat: array<int>

    ghost predicate Valid() {
      rat.Length == numRegs
    }

    constructor (n: nat)
      ensures Valid() && fresh(rat) && numRegs == n && rat[..] == seq(n, _ => -1)
    {
      numRegs := n;
      rat := new int[n](_ => -1);
    }

    function Lookup(r: int): int
      reads rat
      requires Valid()
    {
      if r < 0 || r >= numRegs then -1 else rat[r]
    }

    method Rename(r: int, tag: int)
      requires Valid()
      modifies rat
      ensures rat[..] == RatRename(old(rat[..]), r, tag)
    {
      if r >= 0 && r < numRegs { rat[r] := tag; }
    }

    /** Commit frees the register only if the committing instruction is still its youngest writer. */
    method Commit(r: int, tag: int)
      requires Valid()
      modifies rat
      ensures rat[..] == RatCommit(old(rat[..]), r, tag)
    {
      if r >= 0 && r < numRegs {
        if rat[r] == tag { rat[r] := -1; }
      }
    }

    /** Restores a saved map without the freed tags; a map of the wrong size is ignored. */
    method RestoreStateScrub(state: seq<int>, freed: set<int>)
      requires Valid()
      modifies rat
      ensures rat[..] == if |state| == numRegs then Scrub(state, freed) else old(rat[..])
    {
      if |state| != numRegs { return; }
      forall r | 0 <= r < numRegs { rat[r] := state[r]; }
      if numRegs > 0 { rat[0] := -1; }
      var i := 1;
      while i < numRegs
        invariant 1 <= i && (numRegs > 0 ==> i <= numRegs)
        invariant forall r :: i <= r < numRegs ==> rat[r] == state[r]
        invariant forall r :: 0 <= r < i && r < numRegs ==> rat[r] == Scrub(state, freed)[r]
      {
        if rat[i] >= 0 && rat[i] in freed { rat[i] := -1; }
        i := i + 1;
      }
    }
  }

  /** One rename map for each control instruction in flight, indexed by its ROB tag. */
  class RatCheckpoints {
    const robDepth: nat
    const numRegs: nat
    const valid: array<bool>
    const maps: array<seq<int>>

    ghost predicate Valid()
      reads maps
    {
      && valid.Length == robDepth == maps.Length
      && forall t :: 0 <= t < robDepth ==> |maps[t]| == numRegs
    }

    /** The checkpoints that can be restored. */
    ghost function Live(): map<int, seq<int>>
      reads valid, maps
      requires Valid()
    {
      map t | 0 <= t < robDepth && valid[t] :: maps[t]
    }

    constructor (depth: nat, n: nat)
      ensures Valid() && fresh(valid) && fresh(maps) && robDepth == depth && numRegs == n && Live() == map[]
    {
      robDepth, numRegs := depth, n;
      valid := new bool[depth](_ => false);
      maps := new seq<int>[depth](_ => seq(n, _ => -1));
    }

    method Save(tag: nat, ratMap: seq<int>)
      requires Valid() && tag < robDepth && |ratMap| == numRegs
      modifies valid, maps
      ensures Valid() && Live() == old(Live())[(tag as int) := ratMap]
    {
      valid[tag] := true;
      maps[tag] := ratMap;
    }

    method Restore(tag: int) returns (ok: bool, ratMap: seq<int>)
      requires Valid()
      ensures ok <==> tag in Live()
      ensures ok ==> ratMap == Live()[tag]
    {
      ok, ratMap := false, [];
      if tag < 0 || tag >= robDepth || !valid[tag] { return; }
      return true, maps[tag];
    }

    /** Forgets a committed writer in every checkpoint. */
    method OnCommitClear(r: int, tag: int)
      requires Valid()
      modifies maps
      ensures Valid() && Live() == if r < numRegs then CkClear(old(Live()), r, tag) else old(Live())
    {
      if r <= 0 || r >= numRegs { return; }
      var t := 0;
      while t < robDepth
        invariant 0 <= t <= robDepth && Valid()
        invariant forall u :: t <= u < robDepth ==> maps[u] == old(maps[u])
        invariant forall u :: 0 <= u < t ==>
                    maps[u] == if valid[u] then RatCommit(old(maps[u]), r, tag) else old(maps[u])
      {
        if valid[t] && maps[t][r] == tag {
          maps[t] := maps[t][r := -1];
        }
        t := t + 1;
      }
    }

    method Invalidate(tag: int)
      requires Valid()
      modifies valid
      ensures Valid() && Live() == old(Live()) - {tag}
    {
      if tag >= 0 && tag < robDepth { valid[tag] := false; }
    }
  }
}
