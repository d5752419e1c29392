/**
 * `ConAnalysis::computeDominators`: the textbook iterative dominator
 * computation over one function's CFG, driven by a FIFO worklist.
 *
 * Every block other than the entry starts at "all blocks" when it has a
 * predecessor and at itself otherwise; the entry starts at itself.  A block
 * taken from the worklist gets the intersection of its predecessors' sets
 * plus itself; when that differs from its current set, the set is replaced
 * and the block's successors (never the entry, never twice) are queued.
 */
module Dominators {
  import opened IR

  type DomMap = map<BlockId, set<BlockId>>

  function Entry(m: Module, f: FuncId): BlockId
    requires f < |m.funcs| && |m.funcs[f].blocks| > 0
  {
    m.funcs[f].blocks[0]
  }

  function BlockSet(m: Module, f: FuncId): set<BlockId>
    requires f < |m.funcs|
  {
    set b | b in m.funcs[f].blocks
  }

  predicate Covers(d: DomMap, ps: seq<BlockId>)
  {
    forall k :: 0 <= k < |ps| ==> ps[k] in d
  }

  /** The intersection of `d[p]` over the first `n` predecessors `p` in `ps`. */
  function Meet(d: DomMap, ps: seq<BlockId>, n: nat): (r: set<BlockId>)
    requires 1 <= n <= |ps| && Covers(d, ps)
    ensures forall x :: x in r <==> (forall k :: 0 <= k < n ==> x in d[ps[k]])
  {
    if n == 1 then d[ps[0]] else Meet(d, ps, n - 1) * d[ps[n - 1]]
  }

  /** Shrinking every set shrinks the intersection. */
  lemma MeetMonotone(d1: DomMap, d2: DomMap, ps: seq<BlockId>, n: nat)
    requires 1 <= n <= |ps| && Covers(d1, ps) && Covers(d2, ps)
    requires forall k :: 0 <= k < |ps| ==> d1[ps[k]] <= d2[ps[k]]
    ensures Meet(d1, ps, n) <= Meet(d2, ps, n)
  {
  }

  /** The value a block receives when it is taken from the worklist. */
  function Transfer(m: Module, d: DomMap, z: BlockId): set<BlockId>
    requires z < |m.blocks| && |m.blocks[z].preds| > 0 && Covers(d, m.blocks[z].preds)
  {
    Meet(d, m.blocks[z].preds, |m.blocks[z].preds|) + {z}
  }

  /** A block that is not the entry and has a predecessor takes part in the fixpoint. */
  ghost predicate Constrained(m: Module, f: FuncId, z: BlockId)
    requires WF(m) && f < |m.funcs| && |m.funcs[f].blocks| > 0
  {
    z in m.funcs[f].blocks && z != Entry(m, f) && |m.blocks[z].preds| > 0
  }

  ghost predicate Shape(m: Module, f: FuncId, d: DomMap)
    requires WF(m) && f < |m.funcs| && |m.funcs[f].blocks| > 0
  {
    d.Keys == BlockSet(m, f) &&
    d[Entry(m, f)] == {Entry(m, f)} &&
    (forall b :: b in d ==> b in d[b] && d[b] <= BlockSet(m, f))
  }

  /**
   * Whatever dominates every predecessor of a block dominates the block:
   * `Transfer(d, z) <= d[z]` for every constrained block.
   */
  ghost predicate PostFixpoint(m: Module, f: FuncId, d: DomMap)
    requires WF(m) && f < |m.funcs| && |m.funcs[f].blocks| > 0
    requires Shape(m, f, d)
  {
    forall z: BlockId :: Constrained(m, f, z) ==> Covers(d, m.blocks[z].preds) && Transfer(m, d, z) <= d[z]
  }

  /**
   * Every predecessor of `z` is the entry or has a predecessor itself, so
   * that its set can only start at "all blocks" or change by a visit.
   */
  ghost predicate ProperPreds(m: Module, f: FuncId, z: BlockId)
    requires WF(m) && f < |m.funcs| && |m.funcs[f].blocks| > 0 && z < |m.blocks|
  {
    forall p :: p in m.blocks[z].preds ==> p == Entry(m, f) || (p < |m.blocks| && |m.blocks[p].preds| > 0)
  }

  /**
   * The worklist invariant: a constrained block with proper predecessors
   * that is not queued already holds the value of the dataflow equation.
   */
  ghost predicate Settled(m: Module, f: FuncId, d: DomMap, worklist: seq<BlockId>)
    requires WF(m) && f < |m.funcs| && |m.funcs[f].blocks| > 0
  {
    forall z: BlockId :: Constrained(m, f, z) && ProperPreds(m, f, z) && z !in worklist ==>
      Covers(d, m.blocks[z].preds) && z in d && d[z] == Transfer(m, d, z)
  }

  /** The dataflow equation `d[z] == {z} + the meet of z's predecessors' sets`, wherever it is reached. */
  ghost predicate Fixpoint(m: Module, f: FuncId, d: DomMap)
    requires WF(m) && f < |m.funcs| && |m.funcs[f].blocks| > 0
  {
    Settled(m, f, d, [])
  }

  /** Predecessors and successors of a block of `f` are blocks of `f`. */
  lemma NeighboursInFunc(m: Module, f: FuncId, z: BlockId)
    requires WF(m) && f < |m.funcs| && z in m.funcs[f].blocks
    ensures forall p :: p in m.blocks[z].preds ==> p in BlockSet(m, f)
    ensures forall s :: s in m.blocks[z].succs ==> s in BlockSet(m, f) && z in m.blocks[s].preds
  {
    assert z < |m.blocks| && m.blocks[z].parent == f;
    forall p | p in m.blocks[z].preds ensures p in BlockSet(m, f) {
      assert m.blocks[p].parent == f;
    }
    forall s | s in m.blocks[z].succs ensures s in BlockSet(m, f) && z in m.blocks[s].preds {
      assert m.blocks[s].parent == f;
    }
  }

  function Weight(d: DomMap, bs: seq<BlockId>): nat
    requires forall k :: 0 <= k < |bs| ==> bs[k] in d
  {
    if bs == [] then 0 else |d[bs[0]]| + Weight(d, bs[1..])
  }

  /** Replacing one block's set by a strict subset lowers the total weight. */
  lemma {:induction false} WeightDecreases(d: DomMap, bs: seq<BlockId>, z: BlockId, s: set<BlockId>)
    requires NoDup(bs) && z in d && s < d[z]
    requires forall k :: 0 <= k < |bs| ==> bs[k] in d
    ensures Weight(d[z := s], bs) <= Weight(d, bs)
    ensures z in bs ==> Weight(d[z := s], bs) < Weight(d, bs)
  {
    if bs != [] {
      assert NoDup(bs[1..]);
      WeightDecreases(d, bs[1..], z, s);
      if bs[0] == z {
        assert z !in bs[1..];
        WeightSame(d, bs[1..], z, s);
        StrictSubsetCard(s, d[z]);
      }
    }
  }

  lemma SubsetCard<T>(s: set<T>, t: set<T>)
    requires s <= t
    ensures |s| <= |t|
    decreases |s|
  {
    if s != {} {
      var x :| x in s;
      SubsetCard(s - {x}, t - {x});
    }
  }

  lemma StrictSubsetCard<T>(s: set<T>, t: set<T>)
    requires s < t
    ensures |s| < |t|
  {
    var extra :| extra in t && extra !in s;
    SubsetCard(s, t - {extra});
  }

  lemma {:induction false} WeightSame(d: DomMap, bs: seq<BlockId>, z: BlockId, s: set<BlockId>)
    requires z !in bs && forall k :: 0 <= k < |bs| ==> bs[k] in d
    ensures Weight(d[z := s], bs) == Weight(d, bs)
  {
    if bs != [] {
      WeightSame(d, bs[1..], z, s);
    }
  }

  /** The inner loop of computeDominators: intersect the predecessors' sets one by one. */
  method IntersectPreds(d: DomMap, ps: seq<BlockId>) returns (r: set<BlockId>)
    requires |ps| > 0 && Covers(d, ps)
    ensures forall x :: x in r <==> (forall k :: 0 <= k < |ps| ==> x in d[ps[k]])
    ensures r == Meet(d, ps, |ps|)
  {
    r := d[ps[0]];
    var j := 0;
    while j < |ps|
      invariant 0 <= j <= |ps|
      invariant r == if j == 0 then d[ps[0]] else Meet(d, ps, j)
    {
      var newDoms: set<BlockId> := set x | x in d[ps[j]] && x in r;
      r := newDoms;
      j := j + 1;
    }
  }

  /** The initial assignment: all blocks, or the block itself when it has no predecessor; the entry alone. */
  method InitialDominators(m: Module, f: FuncId) returns (d: DomMap)
    requires WF(m) && f < |m.funcs| && |m.funcs[f].blocks| > 0
    ensures Shape(m, f, d) && PostFixpoint(m, f, d)
    ensures forall b :: b in m.funcs[f].blocks && b != Entry(m, f) ==>
              d[b] == if |m.blocks[b].preds| > 0 then BlockSet(m, f) else {b}
  {
    var blocks := m.funcs[f].blocks;
    var all := BlockSet(m, f);
    var entry := blocks[0];
    d := map[];
    var i := 1;
    while i < |blocks|
      invariant 1 <= i <= |blocks|
      invariant d.Keys == set k | 1 <= k < i :: blocks[k]
      invariant forall k :: 1 <= k < i ==>
                  d[blocks[k]] == if |m.blocks[blocks[k]].preds| > 0 then all else {blocks[k]}
    {
      var blk := blocks[i];
      d := d[blk := if |m.blocks[blk].preds| > 0 then all else {blk}];
      i := i + 1;
    }
    d := d[entry := {entry}];
    InitialShape(m, f, d);
  }

  /** With every non-entry block that has a predecessor at "all blocks", only the entry's successors can be unsettled. */
  lemma InitialSettled(m: Module, f: FuncId, d: DomMap)
    requires WF(m) && f < |m.funcs| && |m.funcs[f].blocks| > 0 && Shape(m, f, d)
    requires forall b :: b in m.funcs[f].blocks && b != Entry(m, f) && |m.blocks[b].preds| > 0 ==> d[b] == BlockSet(m, f)
    ensures Entry(m, f) < |m.blocks| && Settled(m, f, d, m.blocks[Entry(m, f)].succs)
  {
    var entry := Entry(m, f);
    var all := BlockSet(m, f);
    forall z: BlockId | Constrained(m, f, z) && ProperPreds(m, f, z) && z !in m.blocks[entry].succs
      ensures Covers(d, m.blocks[z].preds) && z in d && d[z] == Transfer(m, d, z)
    {
      NeighboursInFunc(m, f, z);
      var ps := m.blocks[z].preds;
      forall k | 0 <= k < |ps| ensures d[ps[k]] == all {
        assert ps[k] != entry;
        assert ps[k] in m.funcs[f].blocks;
      }
      assert Meet(d, ps, |ps|) == all;
    }
  }

  lemma InitialShape(m: Module, f: FuncId, d: DomMap)
    requires WF(m) && f < |m.funcs| && |m.funcs[f].blocks| > 0
    requires var bs := m.funcs[f].blocks;
      d.Keys == (set k | 1 <= k < |bs| :: bs[k]) + {bs[0]} &&
      d[bs[0]] == {bs[0]} &&
      forall k :: 1 <= k < |bs| ==>
        d[bs[k]] == if |m.blocks[bs[k]].preds| > 0 then BlockSet(m, f) else {bs[k]}
    ensures Shape(m, f, d) && PostFixpoint(m, f, d)
    ensures forall b :: b in m.funcs[f].blocks && b != Entry(m, f) ==>
              d[b] == if |m.blocks[b].preds| > 0 then BlockSet(m, f) else {b}
  {
    var blocks := m.funcs[f].blocks;
    var all := BlockSet(m, f);
    var entry := blocks[0];
    assert d.Keys == all by {
      forall b | b in all ensures b in d {
        var k :| 0 <= k < |blocks| && blocks[k] == b;
      }
    }
    forall b | b in d ensures b in d[b] && d[b] <= all {
      var k :| 0 <= k < |blocks| && blocks[k] == b;
      if k > 0 {
        assert b != entry;
      }
    }
    InitialPostFixpoint(m, f, d);
    forall b | b in blocks && b != entry
      ensures d[b] == if |m.blocks[b].preds| > 0 then all else {b}
    {
      var k :| 0 <= k < |blocks| && blocks[k] == b;
    }
  }

  lemma InitialPostFixpoint(m: Module, f: FuncId, d: DomMap)
    requires WF(m) && f < |m.funcs| && |m.funcs[f].blocks| > 0
    requires Shape(m, f, d)
    requires var bs := m.funcs[f].blocks;
      forall k :: 1 <= k < |bs| && |m.blocks[bs[k]].preds| > 0 ==> d[bs[k]] == BlockSet(m, f)
    ensures PostFixpoint(m, f, d)
  {
    var blocks := m.funcs[f].blocks;
    forall z: BlockId | Constrained(m, f, z) ensures Covers(d, m.blocks[z].preds) && Transfer(m, d, z) <= d[z] {
      NeighboursInFunc(m, f, z);
      var k :| 0 <= k < |blocks| && blocks[k] == z;
      assert k > 0;
    }
  }

  /** Replacing a changed block's set by its transfer value keeps the invariants and lowers the weight. */
  lemma UpdateKeeps(m: Module, f: FuncId, d: DomMap, z: BlockId)
    requires WF(m) && f < |m.funcs| && |m.funcs[f].blocks| > 0
    requires Shape(m, f, d) && PostFixpoint(m, f, d) && Constrained(m, f, z)
    requires Transfer(m, d, z) != d[z]
    ensures Shape(m, f, d[z := Transfer(m, d, z)]) && PostFixpoint(m, f, d[z := Transfer(m, d, z)])
    ensures Weight(d[z := Transfer(m, d, z)], m.funcs[f].blocks) < Weight(d, m.funcs[f].blocks)
  {
    var t := Transfer(m, d, z);
    NeighboursInFunc(m, f, z);
    assert t < d[z];
    WeightDecreases(d, m.funcs[f].blocks, z, t);
    UpdateKeepsShape(m, f, d, z, t);
    UpdateKeepsPostFixpoint(m, f, d, z, t);
  }

  lemma UpdateKeepsShape(m: Module, f: FuncId, d: DomMap, z: BlockId, t: set<BlockId>)
    requires WF(m) && f < |m.funcs| && |m.funcs[f].blocks| > 0
    requires Shape(m, f, d) && Constrained(m, f, z) && z in t && t <= d[z]
    ensures Shape(m, f, d[z := t])
  {
  }

  lemma UpdateKeepsPostFixpoint(m: Module, f: FuncId, d: DomMap, z: BlockId, t: set<BlockId>)
    requires WF(m) && f < |m.funcs| && |m.funcs[f].blocks| > 0
    requires Shape(m, f, d) && PostFixpoint(m, f, d) && Constrained(m, f, z)
    requires Transfer(m, d, z) == t && t <= d[z]
    requires Shape(m, f, d[z := t])
    ensures PostFixpoint(m, f, d[z := t])
  {
    var d1 := d[z := t];
    forall w: BlockId | Constrained(m, f, w) ensures Covers(d1, m.blocks[w].preds) && Transfer(m, d1, w) <= d1[w] {
      NeighboursInFunc(m, f, w);
      var qs := m.blocks[w].preds;
      MeetMonotone(d1, d, qs, |qs|);
    }
  }

  /** Changing the set of a block that is not among `z`'s predecessors leaves `z`'s transfer value alone. */
  lemma TransferFrame(m: Module, d: DomMap, z: BlockId, y: BlockId, s: set<BlockId>)
    requires z < |m.blocks| && |m.blocks[z].preds| > 0 && Covers(d, m.blocks[z].preds)
    requires y !in m.blocks[z].preds
    ensures Covers(d[y := s], m.blocks[z].preds)
    ensures Transfer(m, d[y := s], z) == Transfer(m, d, z)
  {
    var ps := m.blocks[z].preds;
    assert forall k :: 0 <= k < |ps| ==> d[y := s][ps[k]] == d[ps[k]];
    assert Meet(d[y := s], ps, |ps|) == Meet(d, ps, |ps|);
  }

  /** A visit that finds the front block at its transfer value settles it. */
  lemma SettledAfterSkip(m: Module, f: FuncId, d: DomMap, worklist: seq<BlockId>)
    requires WF(m) && f < |m.funcs| && |m.funcs[f].blocks| > 0
    requires worklist != [] && Settled(m, f, d, worklist)
    requires worklist[0] < |m.blocks| && |m.blocks[worklist[0]].preds| > 0
    requires Covers(d, m.blocks[worklist[0]].preds) && worklist[0] in d && d[worklist[0]] == Transfer(m, d, worklist[0])
    ensures Settled(m, f, d, worklist[1..])
  {
    forall z: BlockId | Constrained(m, f, z) && ProperPreds(m, f, z) && z !in worklist[1..]
      ensures Covers(d, m.blocks[z].preds) && z in d && d[z] == Transfer(m, d, z)
    {
      if z != worklist[0] {
        assert z !in worklist;
      }
    }
  }

  /**
   * A visit that stores the front block's transfer value and queues its
   * successors (the entry excepted) leaves every block that is not queued
   * settled: the stored block unless it is its own predecessor, and every
   * other block whose predecessors kept their sets.
   */
  lemma SettledAfterUpdate(m: Module, f: FuncId, d: DomMap, worklist: seq<BlockId>, wl: seq<BlockId>)
    requires WF(m) && f < |m.funcs| && |m.funcs[f].blocks| > 0 && Shape(m, f, d)
    requires worklist != [] && Settled(m, f, d, worklist) && Constrained(m, f, worklist[0])
    requires Covers(d, m.blocks[worklist[0]].preds)
    requires |worklist| - 1 <= |wl| && wl[..|worklist| - 1] == worklist[1..]
    requires forall s :: s in m.blocks[worklist[0]].succs && s != Entry(m, f) ==> s in wl
    ensures Settled(m, f, d[worklist[0] := Transfer(m, d, worklist[0])], wl)
  {
    var y := worklist[0];
    var t := Transfer(m, d, y);
    var d1 := d[y := t];
    SuccsMirrorPreds(m, y);
    forall z: BlockId | Constrained(m, f, z) && ProperPreds(m, f, z) && z !in wl
      ensures Covers(d1, m.blocks[z].preds) && z in d1 && d1[z] == Transfer(m, d1, z)
    {
      SettledAfterUpdateAt(m, f, d, worklist, wl, z);
    }
  }

  /** `SettledAfterUpdate` for one unqueued block `z`: it is not a successor of the stored block. */
  lemma SettledAfterUpdateAt(m: Module, f: FuncId, d: DomMap, worklist: seq<BlockId>, wl: seq<BlockId>, z: BlockId)
    requires WF(m) && f < |m.funcs| && |m.funcs[f].blocks| > 0 && Shape(m, f, d)
    requires worklist != [] && Settled(m, f, d, worklist) && Constrained(m, f, worklist[0])
    requires Covers(d, m.blocks[worklist[0]].preds)
    requires |worklist| - 1 <= |wl| && wl[..|worklist| - 1] == worklist[1..]
    requires forall s :: s in m.blocks[worklist[0]].succs && s != Entry(m, f) ==> s in wl
    requires forall x :: 0 <= x < |m.blocks| && worklist[0] in m.blocks[x].preds ==> x in m.blocks[worklist[0]].succs
    requires Constrained(m, f, z) && ProperPreds(m, f, z) && z !in wl
    ensures var d1 := d[worklist[0] := Transfer(m, d, worklist[0])];
            Covers(d1, m.blocks[z].preds) && z in d1 && d1[z] == Transfer(m, d1, z)
  {
    var y := worklist[0];
    NeighboursInFunc(m, f, z);
    assert z !in m.blocks[y].succs;
    assert y !in m.blocks[z].preds;
    TransferFrame(m, d, z, y, Transfer(m, d, y));
    assert z !in wl[..|worklist| - 1];
    if z != y {
      assert z !in worklist;
    }
  }

  /** A block lists as successors every block that lists it as a predecessor. */
  lemma SuccsMirrorPreds(m: Module, y: BlockId)
    requires WF(m) && y < |m.blocks|
    ensures forall z :: 0 <= z < |m.blocks| && y in m.blocks[z].preds ==> z in m.blocks[y].succs
  {
  }

  /** A queued entry block has itself as a predecessor, so its set never changes. */
  lemma EntryStable(m: Module, f: FuncId, d: DomMap)
    requires WF(m) && f < |m.funcs| && |m.funcs[f].blocks| > 0
    requires Shape(m, f, d)
    requires Entry(m, f) in m.blocks[Entry(m, f)].preds
    ensures Covers(d, m.blocks[Entry(m, f)].preds)
    ensures Transfer(m, d, Entry(m, f)) == d[Entry(m, f)]
  {
    NeighboursInFunc(m, f, Entry(m, f));
  }

  /** Every queued block is a block of `f` with a predecessor; the entry is queued only when it is its own predecessor. */
  ghost predicate Queued(m: Module, f: FuncId, worklist: seq<BlockId>)
    requires WF(m) && f < |m.funcs| && |m.funcs[f].blocks| > 0
  {
    forall k :: 0 <= k < |worklist| ==>
      worklist[k] in m.funcs[f].blocks && |m.blocks[worklist[k]].preds| > 0 &&
      (worklist[k] == Entry(m, f) ==> Entry(m, f) in m.blocks[Entry(m, f)].preds)
  }

  /** The successor loop of computeDominators: queue each successor other than the entry, once. */
  method EnqueueSuccessors(m: Module, f: FuncId, worklist: seq<BlockId>, z: BlockId) returns (wl: seq<BlockId>)
    requires WF(m) && f < |m.funcs| && |m.funcs[f].blocks| > 0 && z in m.funcs[f].blocks
    requires Queued(m, f, worklist)
    ensures Queued(m, f, wl)
    ensures |worklist| <= |wl| && wl[..|worklist|] == worklist
    ensures forall s :: s in m.blocks[z].succs && s != Entry(m, f) ==> s in wl
  {
    NeighboursInFunc(m, f, z);
    var entry := m.funcs[f].blocks[0];
    var succs := m.blocks[z].succs;
    wl := worklist;
    var j := 0;
    while j < |succs|
      invariant 0 <= j <= |succs|
      invariant Queued(m, f, wl)
      invariant |worklist| <= |wl| && wl[..|worklist|] == worklist
      invariant forall k :: 0 <= k < j && succs[k] != entry ==> succs[k] in wl
    {
      var s := succs[j];
      if s == entry {
      } else if s !in wl {
        wl := wl + [s];
      }
      j := j + 1;
    }
  }

  /**
   * The dominator sets of function `f` (which has at least one block):
   * the entry is dominated by itself alone, every block by itself, every set
   * holds blocks of `f` only, anything dominating all predecessors of a block
   * dominates it, and every block whose predecessors are the entry or have
   * predecessors themselves satisfies the dataflow equation exactly.
   */
  method ComputeDominators(m: Module, f: FuncId) returns (d: DomMap)
    requires WF(m) && f < |m.funcs| && |m.funcs[f].blocks| > 0
    ensures Shape(m, f, d) && PostFixpoint(m, f, d) && Fixpoint(m, f, d)
    ensures d.Keys == BlockSet(m, f)
    ensures d[Entry(m, f)] == {Entry(m, f)}
    ensures forall b :: b in d ==> b in d[b] && d[b] <= BlockSet(m, f)
    ensures forall z: BlockId :: Constrained(m, f, z) && ProperPreds(m, f, z) ==>
              Covers(d, m.blocks[z].preds) && z in d && d[z] == Transfer(m, d, z)
  {
    var blocks := m.funcs[f].blocks;
    var entry := blocks[0];
    d := InitialDominators(m, f);
    InitialSettled(m, f, d);
    NeighboursInFunc(m, f, entry);
    var worklist := m.blocks[entry].succs;
    while worklist != []
      invariant Shape(m, f, d) && PostFixpoint(m, f, d)
      invariant Queued(m, f, worklist)
      invariant Settled(m, f, d, worklist)
      decreases Weight(d, blocks), |worklist|
    {
      d, worklist := VisitBlock(m, f, d, worklist);
    }
  }

  /**
   * One turn of the worklist loop of computeDominators: take the front
   * block, recompute its set, and on a change store it and queue the
   * successors.  The invariants are kept and the (weight, queue length)
   * pair strictly decreases.
   */
  method VisitBlock(m: Module, f: FuncId, d: DomMap, worklist: seq<BlockId>) returns (d': DomMap, wl: seq<BlockId>)
    requires WF(m) && f < |m.funcs| && |m.funcs[f].blocks| > 0 && worklist != []
    requires Shape(m, f, d) && PostFixpoint(m, f, d) && Queued(m, f, worklist) && Settled(m, f, d, worklist)
    ensures Shape(m, f, d') && PostFixpoint(m, f, d') && Queued(m, f, wl) && Settled(m, f, d', wl)
    ensures Weight(d', m.funcs[f].blocks) < Weight(d, m.funcs[f].blocks) ||
            (d' == d && |wl| < |worklist|)
  {
    var entry := m.funcs[f].blocks[0];
    var z := worklist[0];
    wl := worklist[1..];
    NeighboursInFunc(m, f, z);
    var intersects := IntersectPreds(d, m.blocks[z].preds);
    intersects := intersects + {z};
    if z == entry {
      EntryStable(m, f, d);
    }
    d' := d;
    if d[z] != intersects {
      d', wl := StoreAndEnqueue(m, f, d, worklist, intersects);
    } else {
      SettledAfterSkip(m, f, d, worklist);
    }
  }

  /** The changed branch of `VisitBlock`: store the new set and queue the successors. */
  method StoreAndEnqueue(m: Module, f: FuncId, d: DomMap, worklist: seq<BlockId>, t: set<BlockId>)
    returns (d': DomMap, wl: seq<BlockId>)
    requires WF(m) && f < |m.funcs| && |m.funcs[f].blocks| > 0 && worklist != []
    requires Shape(m, f, d) && PostFixpoint(m, f, d) && Queued(m, f, worklist) && Settled(m, f, d, worklist)
    requires Constrained(m, f, worklist[0]) && t == Transfer(m, d, worklist[0]) && t != d[worklist[0]]
    ensures d' == d[worklist[0] := t]
    ensures Shape(m, f, d') && PostFixpoint(m, f, d') && Queued(m, f, wl) && Settled(m, f, d', wl)
    ensures Weight(d', m.funcs[f].blocks) < Weight(d, m.funcs[f].blocks)
  {
    var z := worklist[0];
    UpdateKeeps(m, f, d, z);
    d' := d[z := t];
    assert Queued(m, f, worklist[1..]);
    wl := EnqueueSuccessors(m, f, worklist[1..], z);
    SettledAfterUpdate(m, f, d, worklist, wl);
  }

  /** A diamond CFG in one function: block 0 branches to 1 and 2, which both jump to 3. */
  const Diamond: Module := Module(
    [Function("diamond", [0, 1, 2, 3], FnType(0, []))],
    [Block(0, [0], [], [1, 2]), Block(0, [1], [0], [3]), Block(0, [2], [0], [3]), Block(0, [3], [1, 2], [])],
    [Instruction(Br, [], 0, None), Instruction(Br, [], 1, None), Instruction(Br, [], 2, None), Instruction(Other, [], 3, None)])

  lemma DiamondWF()
    ensures WF(Diamond)
  {
    DiamondHandles();
    DiamondFuncs();
    DiamondBlocks();
    DiamondInsts();
  }

  lemma DiamondHandles()
    ensures HandlesOk(Diamond)
  {
    var m := Diamond;
    forall i | 0 <= i < |m.insts| ensures OperandsOk(m, m.insts[i]) {
      assert m.insts[i].operands == [];
    }
  }

  lemma DiamondFuncs()
    ensures FuncsOk(Diamond)
  {
    assert Diamond.funcs[0].blocks == [0, 1, 2, 3];
  }

  lemma DiamondInsts()
    ensures InstsOk(Diamond) && ParentsOk(Diamond)
  {
    var m := Diamond;
    forall i | 0 <= i < |m.insts| ensures m.insts[i].parent < |m.blocks| && i in m.blocks[m.insts[i].parent].insts {
      assert m.insts[i].parent == i && m.blocks[i].insts == [i];
    }
  }

  lemma DiamondBlocks()
    ensures BlocksOk(Diamond)
  {
    var m := Diamond;
    assert m.funcs[0].blocks == [0, 1, 2, 3];
    forall b | 0 <= b < |m.blocks|
      ensures var blk := m.blocks[b];
        blk.parent < |m.funcs| && b in m.funcs[blk.parent].blocks &&
        |blk.insts| > 0 && NoDup(blk.insts) &&
        (forall i :: i in blk.insts ==> i < |m.insts| && m.insts[i].parent == b) &&
        (forall p :: p in blk.preds ==> p < |m.blocks| && m.blocks[p].parent == blk.parent && b in m.blocks[p].succs) &&
        (forall s :: s in blk.succs ==> s < |m.blocks| && m.blocks[s].parent == blk.parent && b in m.blocks[s].preds)
    {
      assert m.blocks[b].insts == [b] && m.blocks[b].parent == 0;
      if b == 0 {
        assert m.blocks[1].preds == [0] && m.blocks[2].preds == [0];
      } else if b == 1 {
        assert m.blocks[0].succs == [1, 2] && m.blocks[3].preds == [1, 2];
      } else if b == 2 {
        assert m.blocks[0].succs == [1, 2] && m.blocks[3].preds == [1, 2];
      } else {
        assert m.blocks[1].succs == [3] && m.blocks[2].succs == [3];
      }
    }
  }

  /** Function 0 of `m` has the diamond CFG of `Diamond`: 0 branches to 1 and 2, which both jump to 3. */
  ghost predicate DiamondShaped(m: Module)
  {
    |m.funcs| > 0 && m.funcs[0].blocks == [0, 1, 2, 3] && |m.blocks| >= 4 &&
    m.blocks[1].preds == [0] && m.blocks[2].preds == [0] && m.blocks[3].preds == [1, 2]
  }

  /**
   * On a diamond, any map with the shape and the fixpoint property that
   * `ComputeDominators` ensures is the dominator relation: the join block 3
   * is dominated by the entry and itself, not by either arm.
   */
  lemma DiamondDominators(m: Module, d: DomMap)
    requires WF(m) && DiamondShaped(m) && Shape(m, 0, d) && Fixpoint(m, 0, d)
    ensures d == map[0 := {0}, 1 := {0, 1}, 2 := {0, 2}, 3 := {0, 3}]
  {
    DiamondBlockSet(m);
    DiamondArm(m, d, 1);
    DiamondArm(m, d, 2);
    DiamondJoin(m, d);
    DiamondMap(d);
  }

  lemma DiamondBlockSet(m: Module)
    requires DiamondShaped(m)
    ensures BlockSet(m, 0) == {0, 1, 2, 3}
  {
  }

  lemma DiamondMap(d: DomMap)
    requires d.Keys == {0, 1, 2, 3} && d[0] == {0} && d[1] == {0, 1} && d[2] == {0, 2} && d[3] == {0, 3}
    ensures d == map[0 := {0}, 1 := {0, 1}, 2 := {0, 2}, 3 := {0, 3}]
  {
  }

  /** Each arm has the entry as its only predecessor. */
  lemma DiamondArm(m: Module, d: DomMap, z: BlockId)
    requires WF(m) && DiamondShaped(m) && Shape(m, 0, d) && Fixpoint(m, 0, d)
    requires z == 1 || z == 2
    ensures z in d && d[z] == {0, z}
  {
    assert Constrained(m, 0, z) && ProperPreds(m, 0, z);
  }

  /** The join block meets the two arms, which share only the entry. */
  lemma DiamondJoin(m: Module, d: DomMap)
    requires WF(m) && DiamondShaped(m) && Shape(m, 0, d) && Fixpoint(m, 0, d)
    requires 1 in d && d[1] == {0, 1} && 2 in d && d[2] == {0, 2}
    ensures 3 in d && d[3] == {0, 3}
  {
    assert Constrained(m, 0, 3) && ProperPreds(m, 0, 3);
    assert Meet(d, [1, 2], 2) == {0};
  }

  /** `ComputeDominators` on the diamond. */
  method DiamondExample() returns (d: DomMap)
    ensures d == map[0 := {0}, 1 := {0, 1}, 2 := {0, 2}, 3 := {0, 3}]
  {
    DiamondWF();
    d := ComputeDominators(Diamond, 0);
    DiamondDominators(Diamond, d);
  }
}
