/**
 * The `Inst2Int` pass: every instruction of the module gets an integer id
 * from a running counter (function after function, `inst_begin(F)` order),
 * and every instruction with a debug location is appended to the list kept
 * for its (base name of the file, line) pair.
 *
 * The counter starts at 1 and is never reset, and the id map is not cleared
 * before numbering, so a second `createMaps` renumbers the module's
 * instructions with fresh, larger ids.
 */
module Inst2Int {
  import opened IR

  /** `sourcetoIRmap_[key]`, where a missing key reads as the empty list. */
  function Lookup(idx: map<FileLine, seq<InstId>>, key: FileLine): seq<InstId>
  {
    if key in idx then idx[key] else []
  }

  /** The id map after numbering `xs` from counter value `start`; a later number for the same instruction wins. */
  function Numbered(ids: map<InstId, nat>, xs: seq<InstId>, start: nat): map<InstId, nat>
  {
    if xs == [] then ids else Numbered(ids, xs[..|xs| - 1], start)[xs[|xs| - 1] := start + |xs| - 1]
  }

  /** The line index after appending every instruction of `xs` that has a location to its key's list. */
  function Indexed(idx: map<FileLine, seq<InstId>>, m: Module, xs: seq<InstId>): map<FileLine, seq<InstId>>
    requires InstIdsOk(m, xs)
  {
    if xs == [] then idx
    else
      var prev := Indexed(idx, m, xs[..|xs| - 1]);
      var i := xs[|xs| - 1];
      match LineKey(m, i)
      case None => prev
      case Some(key) => prev[key := Lookup(prev, key) + [i]]
  }

  /** The instructions of `xs` located at `key`, in the order of `xs` (reference definition). */
  function OnLine(m: Module, xs: seq<InstId>, key: FileLine): seq<InstId>
    requires InstIdsOk(m, xs)
  {
    if xs == [] then []
    else OnLine(m, xs[..|xs| - 1], key) + (if LineKey(m, xs[|xs| - 1]) == Some(key) then [xs[|xs| - 1]] else [])
  }

  predicate AllDebug(m: Module, xs: seq<InstId>)
    requires InstIdsOk(m, xs)
  {
    forall k :: 0 <= k < |xs| ==> m.insts[xs[k]].dbg.Some?
  }

  /**
   * Numbering gives an id to exactly the old keys and the numbered
   * instructions; a numbered instruction's id minus the start is a position
   * where it occurs in `xs`, so ids of numbered instructions lie in
   * `[start, start + |xs|)`; other ids are unchanged.
   */
  lemma {:induction false} NumberedIds(ids: map<InstId, nat>, xs: seq<InstId>, start: nat, i: InstId)
    ensures i in Numbered(ids, xs, start) <==> i in ids || i in xs
    ensures i in xs ==> start <= Numbered(ids, xs, start)[i] < start + |xs| &&
                        xs[Numbered(ids, xs, start)[i] - start] == i
    ensures i in ids && i !in xs ==> Numbered(ids, xs, start)[i] == ids[i]
  {
    if xs != [] {
      var front := xs[..|xs| - 1];
      NumberedIds(ids, front, start, i);
      assert xs == front + [xs[|xs| - 1]];
      if i != xs[|xs| - 1] && i in xs {
        assert i in front;
        var v := Numbered(ids, xs, start)[i];
        assert xs[v - start] == front[v - start];
      }
    }
  }

  /** Without repetitions in `xs`, the instruction at position `k` gets exactly id `start + k`. */
  lemma NumberedAt(ids: map<InstId, nat>, xs: seq<InstId>, start: nat, k: nat)
    requires NoDup(xs) && k < |xs|
    ensures xs[k] in Numbered(ids, xs, start)
    ensures Numbered(ids, xs, start)[xs[k]] == start + k
  {
    NumberedIds(ids, xs, start, xs[k]);
    var v := Numbered(ids, xs, start)[xs[k]];
    assert xs[v - start] == xs[k];
  }

  /**
   * Ids stay distinct: if the old ids are distinct and below `start`, the
   * new ones are distinct and below `start + |xs|`.
   */
  lemma NumberedDistinct(ids: map<InstId, nat>, xs: seq<InstId>, start: nat, lo: nat)
    requires forall i :: i in ids ==> lo <= ids[i] < start
    requires forall a, b :: a in ids && b in ids && ids[a] == ids[b] ==> a == b
    requires lo <= start
    ensures var r := Numbered(ids, xs, start);
            (forall i :: i in r ==> lo <= r[i] < start + |xs|) &&
            (forall a, b :: a in r && b in r && r[a] == r[b] ==> a == b)
  {
    var r := Numbered(ids, xs, start);
    forall i | i in r ensures lo <= r[i] < start + |xs| {
      NumberedIds(ids, xs, start, i);
    }
    forall a, b | a in r && b in r && r[a] == r[b] ensures a == b {
      NumberedIds(ids, xs, start, a);
      NumberedIds(ids, xs, start, b);
    }
  }

  /** An instruction is listed at `key` exactly when it is in `xs` and located at `key`. */
  lemma {:induction false} OnLineMembers(m: Module, xs: seq<InstId>, key: FileLine, i: InstId)
    requires InstIdsOk(m, xs)
    ensures i in OnLine(m, xs, key) <==> i in xs && i < |m.insts| && LineKey(m, i) == Some(key)
  {
    if xs != [] {
      var front := xs[..|xs| - 1];
      OnLineMembers(m, front, key, i);
      assert xs == front + [xs[|xs| - 1]];
    }
  }

  /**
   * The index extends each old list by the instructions located at its key,
   * in walk order, and creates a key only when such an instruction exists.
   */
  lemma {:induction false} IndexedLookup(idx: map<FileLine, seq<InstId>>, m: Module, xs: seq<InstId>, key: FileLine)
    requires InstIdsOk(m, xs)
    ensures Lookup(Indexed(idx, m, xs), key) == Lookup(idx, key) + OnLine(m, xs, key)
    ensures key in Indexed(idx, m, xs) <==> key in idx || OnLine(m, xs, key) != []
  {
    if xs != [] {
      IndexedLookup(idx, m, xs[..|xs| - 1], key);
    }
  }

  /** Numbering `xs` then one more instruction is numbering `xs + [i]`; likewise for the index and the flag. */
  lemma Snoc(ids: map<InstId, nat>, idx: map<FileLine, seq<InstId>>, m: Module, xs: seq<InstId>, i: InstId, start: nat)
    requires InstIdsOk(m, xs) && i < |m.insts|
    ensures InstIdsOk(m, xs + [i])
    ensures Numbered(ids, xs + [i], start) == Numbered(ids, xs, start)[i := start + |xs|]
    ensures Indexed(idx, m, xs + [i]) ==
            match LineKey(m, i)
            case None => Indexed(idx, m, xs)
            case Some(key) => Indexed(idx, m, xs)[key := Lookup(Indexed(idx, m, xs), key) + [i]]
    ensures AllDebug(m, xs + [i]) <==> AllDebug(m, xs) && m.insts[i].dbg.Some?
  {
    assert (xs + [i])[..|xs|] == xs;
  }

  lemma SliceStep(pre: seq<InstId>, body: seq<InstId>, k: nat)
    requires k < |body|
    ensures (pre + body[..k]) + [body[k]] == pre + body[..k + 1]
  {
    assert body[..k + 1] == body[..k] + [body[k]];
  }

  class Inst2IntPass {
    var ins2int: map<InstId, nat>
    var insCount: nat
    var sourceToIR: map<FileLine, seq<InstId>>

    /** Ids are at least 1, below the counter and distinct; every listed instruction has an id. */
    ghost predicate Valid()
      reads this
    {
      1 <= insCount &&
      (forall i :: i in ins2int ==> 1 <= ins2int[i] < insCount) &&
      (forall a, b :: a in ins2int && b in ins2int && ins2int[a] == ins2int[b] ==> a == b) &&
      (forall key, k :: key in sourceToIR && 0 <= k < |sourceToIR[key]| ==> sourceToIR[key][k] in ins2int)
    }

    constructor()
      ensures Valid()
      ensures ins2int == map[] && insCount == 1 && sourceToIR == map[]
    {
      ins2int, insCount, sourceToIR := map[], 1, map[];
    }

    /** `clearClassDataMember`: both maps are emptied; the counter is kept. */
    method ClearClassDataMember()
      requires Valid()
      modifies this
      ensures Valid()
      ensures ins2int == map[] && sourceToIR == map[] && insCount == old(insCount)
    {
      ins2int, sourceToIR := map[], map[];
    }

    /** One step of the walk: number `i` and list it under its location, if any. */
    method Visit(m: Module, i: InstId) returns (hasDbg: bool)
      requires i < |m.insts|
      modifies this
      ensures ins2int == old(ins2int)[i := old(insCount)] && insCount == old(insCount) + 1
      ensures sourceToIR == match LineKey(m, i)
                            case None => old(sourceToIR)
                            case Some(key) => old(sourceToIR)[key := Lookup(old(sourceToIR), key) + [i]]
      ensures hasDbg <==> m.insts[i].dbg.Some?
    {
      ins2int := ins2int[i := insCount];
      insCount := insCount + 1;
      match m.insts[i].dbg {
        case None =>
          hasDbg := false;
        case Some(loc) =>
          var file := Basename(loc.file);
          sourceToIR := sourceToIR[(file, loc.line) := Lookup(sourceToIR, (file, loc.line)) + [i]];
          hasDbg := true;
      }
    }

    /**
     * The inner loop of `createMaps` over one function's instructions `xs`,
     * continuing a walk that has already visited `pre`.
     */
    method VisitAll(m: Module, xs: seq<InstId>, rv0: bool, ghost pre: seq<InstId>,
                    ghost ids0: map<InstId, nat>, ghost idx0: map<FileLine, seq<InstId>>, ghost c0: nat)
      returns (rv: bool)
      requires InstIdsOk(m, pre) && InstIdsOk(m, xs)
      requires insCount == c0 + |pre| && ins2int == Numbered(ids0, pre, c0) && sourceToIR == Indexed(idx0, m, pre)
      requires rv0 <==> AllDebug(m, pre)
      modifies this
      ensures InstIdsOk(m, pre + xs)
      ensures insCount == c0 + |pre + xs| && ins2int == Numbered(ids0, pre + xs, c0)
      ensures sourceToIR == Indexed(idx0, m, pre + xs)
      ensures rv <==> AllDebug(m, pre + xs)
    {
      rv := rv0;
      var k := 0;
      assert pre + xs[..0] == pre;
      while k < |xs|
        invariant 0 <= k <= |xs|
        invariant InstIdsOk(m, pre + xs[..k])
        invariant insCount == c0 + |pre + xs[..k]|
        invariant ins2int == Numbered(ids0, pre + xs[..k], c0)
        invariant sourceToIR == Indexed(idx0, m, pre + xs[..k])
        invariant rv <==> AllDebug(m, pre + xs[..k])
      {
        Snoc(ids0, idx0, m, pre + xs[..k], xs[k], c0);
        SliceStep(pre, xs, k);
        var hasDbg := Visit(m, xs[k]);
        if !hasDbg {
          rv := false;
        }
        k := k + 1;
      }
      assert xs[..k] == xs;
    }

    /** One turn of the outer loop of `createMaps`: walk function `f`. */
    method VisitFunction(m: Module, f: FuncId, rv0: bool,
                         ghost ids0: map<InstId, nat>, ghost idx0: map<FileLine, seq<InstId>>, ghost c0: nat)
      returns (rv: bool)
      requires HandlesOk(m) && f < |m.funcs|
      requires insCount == c0 + |InstsUpTo(m, f)| && ins2int == Numbered(ids0, InstsUpTo(m, f), c0)
      requires InstIdsOk(m, InstsUpTo(m, f)) && sourceToIR == Indexed(idx0, m, InstsUpTo(m, f))
      requires rv0 <==> AllDebug(m, InstsUpTo(m, f))
      modifies this
      ensures InstIdsOk(m, InstsUpTo(m, f + 1))
      ensures insCount == c0 + |InstsUpTo(m, f + 1)| && ins2int == Numbered(ids0, InstsUpTo(m, f + 1), c0)
      ensures sourceToIR == Indexed(idx0, m, InstsUpTo(m, f + 1))
      ensures rv <==> AllDebug(m, InstsUpTo(m, f + 1))
    {
      BodyOk(m, f);
      rv := VisitAll(m, Body(m, f), rv0, InstsUpTo(m, f), ids0, idx0, c0);
    }

    /** The outer loop of `createMaps`, over the module's functions. */
    method NumberModule(m: Module) returns (rv: bool)
      requires HandlesOk(m)
      modifies this
      ensures InstIdsOk(m, AllInsts(m))
      ensures insCount == old(insCount) + |AllInsts(m)|
      ensures ins2int == Numbered(old(ins2int), AllInsts(m), old(insCount))
      ensures sourceToIR == Indexed(old(sourceToIR), m, AllInsts(m))
      ensures rv <==> AllDebug(m, AllInsts(m))
    {
      rv := true;
      var f := 0;
      while f < |m.funcs|
        invariant 0 <= f <= |m.funcs|
        invariant InstIdsOk(m, InstsUpTo(m, f))
        invariant insCount == old(insCount) + |InstsUpTo(m, f)|
        invariant ins2int == Numbered(old(ins2int), InstsUpTo(m, f), old(insCount))
        invariant sourceToIR == Indexed(old(sourceToIR), m, InstsUpTo(m, f))
        invariant rv <==> AllDebug(m, InstsUpTo(m, f))
      {
        rv := VisitFunction(m, f, rv, old(ins2int), old(sourceToIR), old(insCount));
        f := f + 1;
      }
    }

    /**
     * `createMaps`: the module's instructions, in walk order, are numbered
     * from the counter and indexed by location; the result is false exactly
     * when some instruction has no debug location.
     */
    method CreateMaps(m: Module) returns (rv: bool)
      requires HandlesOk(m) && Valid()
      modifies this
      ensures Valid()
      ensures InstIdsOk(m, AllInsts(m))
      ensures insCount == old(insCount) + |AllInsts(m)|
      ensures ins2int == Numbered(old(ins2int), AllInsts(m), old(insCount))
      ensures sourceToIR == Indexed(old(sourceToIR), m, AllInsts(m))
      ensures rv <==> AllDebug(m, AllInsts(m))
    {
      rv := NumberModule(m);
      CreateMapsValid(m, old(ins2int), old(insCount), old(sourceToIR), AllInsts(m));
    }

    /** `getInst2IntMap`: ids are at least 1, below the counter, and distinct. */
    function Inst2IntMap(): (r: map<InstId, nat>)
      requires Valid()
      reads this
      ensures forall i :: i in r ==> 1 <= r[i] < insCount
      ensures forall a, b :: a in r && b in r && r[a] == r[b] ==> a == b
    {
      ins2int
    }

    /** `getFileLine2InstListMap`: every listed instruction has an id. */
    function FileLine2InstListMap(): (r: map<FileLine, seq<InstId>>)
      requires Valid()
      reads this
      ensures forall key, k :: key in r && 0 <= k < |r[key]| ==> r[key][k] in ins2int
    {
      sourceToIR
    }
  }

  /** The maps `createMaps` builds from a valid state form a valid state. */
  lemma CreateMapsValid(m: Module, ids: map<InstId, nat>, count: nat, idx: map<FileLine, seq<InstId>>, xs: seq<InstId>)
    requires InstIdsOk(m, xs)
    requires forall i :: i in ids ==> 1 <= ids[i] < count
    requires forall a, b :: a in ids && b in ids && ids[a] == ids[b] ==> a == b
    requires forall key, k :: key in idx && 0 <= k < |idx[key]| ==> idx[key][k] in ids
    requires 1 <= count
    ensures var r, ix := Numbered(ids, xs, count), Indexed(idx, m, xs);
            (forall i :: i in r ==> 1 <= r[i] < count + |xs|) &&
            (forall a, b :: a in r && b in r && r[a] == r[b] ==> a == b) &&
            (forall key, k :: key in ix && 0 <= k < |ix[key]| ==> ix[key][k] in r)
  {
    NumberedDistinct(ids, xs, count, 1);
    var r, ix := Numbered(ids, xs, count), Indexed(idx, m, xs);
    forall key, k | key in ix && 0 <= k < |ix[key]| ensures ix[key][k] in r {
      IndexedLookup(idx, m, xs, key);
      var i := ix[key][k];
      var prior := Lookup(idx, key);
      if k < |prior| {
        assert i == prior[k] && i in ids;
      } else {
        assert i == OnLine(m, xs, key)[k - |prior|];
        OnLineMembers(m, xs, key, i);
      }
      NumberedIds(ids, xs, count, i);
    }
  }
}
