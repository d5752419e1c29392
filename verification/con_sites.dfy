/**
 * Confirmation of dangerous sites in the ConAnalysis pass
 * (`getDominators` and `getFeasiblePath`): a site counts when its function
 * was reached by the taint and a block dominating the site holds a
 * tainted branch before the site.
 */
module ConSites {
  import opened IR
  import opened ConSpec
  import opened ConSeeds
  import Dominators

  /** What one head candidate reports: its taint trace and the two vulnerability counts, when enabled. */
  datatype Report = Report(trace: seq<Value>, ptrVul: Option<nat>, funcVul: Option<nat>)

  /** `dominators[b]` through `operator[]`: a block without an entry has no dominators. */
  function DomsAt(d: Dominators.DomMap, b: BlockId): set<BlockId>
  {
    if b in d then d[b] else {}
  }

  /** The cached dominator map of a function; an uncached function has none. */
  function DomMapAt(dm: map<FuncId, Dominators.DomMap>, f: FuncId): Dominators.DomMap
  {
    if f in dm then dm[f] else map[]
  }

  /** The part of a block's instructions the walk visits: up to and including `x` when present, else all. */
  function UpTo(insts: seq<InstId>, x: InstId): (r: seq<InstId>)
    ensures |r| <= |insts|
  {
    if insts == [] then []
    else if insts[0] == x then [x]
    else [insts[0]] + UpTo(insts[1..], x)
  }

  /** The walk's values for a run of instructions. */
  function Values(xs: seq<InstId>): (r: seq<Value>)
    ensures |r| == |xs| && forall k :: 0 <= k < |xs| ==> r[k] == Inst(xs[k])
  {
    if xs == [] then [] else [Inst(xs[0])] + Values(xs[1..])
  }

  /** A branch instruction that is tainted. */
  predicate TaintedBr(m: Module, taint: set<Value>, j: InstId)
  {
    j < |m.insts| && m.insts[j].op == Br && Inst(j) in taint
  }

  /** Some instruction of the run is a tainted branch. */
  predicate AnyTaintedBr(m: Module, taint: set<Value>, xs: seq<InstId>)
  {
    exists k :: 0 <= k < |xs| && TaintedBr(m, taint, xs[k])
  }

  /** Some block dominating the site's block holds a tainted branch in its walked part. */
  predicate Guarded(m: Module, d: Dominators.DomMap, site: InstId, taint: set<Value>)
    requires site < |m.insts|
  {
    exists b :: b in DomsAt(d, m.insts[site].parent) && b < |m.blocks| &&
                AnyTaintedBr(m, taint, UpTo(m.blocks[b].insts, site))
  }

  /** The functions holding a tainted instruction (`corruptedIRFuncSet`). */
  function TaintedFuncs(m: Module, taint: set<Value>): set<FuncId>
    requires ParentsOk(m)
  {
    set v | v in taint && v.Inst? && v.inst < |m.insts| :: FuncOf(m, v.inst)
  }

  /** A site that gets as far as the dominator walk: known location, reached function, matching name. */
  predicate Reached(m: Module, srcMap: map<FileLine, seq<InstId>>, op: FuncFileLine, funcSet: set<FuncId>)
    requires ParentsOk(m) && SourceMapOk(m, srcMap)
  {
    Key(op) in srcMap && srcMap[Key(op)] != [] &&
    var f := FuncOf(m, srcMap[Key(op)][0]);
    f in funcSet && m.funcs[f].name == op.func
  }

  /**
   * The outcome for one listed dangerous site: none when its location has
   * no instruction (the source reads the front of an empty list), else
   * whether it is confirmed: reached, and guarded by a tainted branch under
   * the cached dominators of its function.
   */
  function SiteOutcome(m: Module, srcMap: map<FileLine, seq<InstId>>, op: FuncFileLine, funcSet: set<FuncId>,
                       taint: set<Value>, dm: map<FuncId, Dominators.DomMap>): Option<bool>
    requires ParentsOk(m) && SourceMapOk(m, srcMap)
  {
    if Key(op) !in srcMap || srcMap[Key(op)] == [] then None
    else
      var site := srcMap[Key(op)][0];
      Some(Reached(m, srcMap, op, funcSet) && Guarded(m, DomMapAt(dm, FuncOf(m, site)), site, taint))
  }

  /** The number of confirmed sites among `ops`, none when some site has no instruction. */
  function CountSites(m: Module, srcMap: map<FileLine, seq<InstId>>, ops: seq<FuncFileLine>, funcSet: set<FuncId>,
                      taint: set<Value>, dm: map<FuncId, Dominators.DomMap>): Option<nat>
    requires ParentsOk(m) && SourceMapOk(m, srcMap)
  {
    if ops == [] then Some(0)
    else
      match CountSites(m, srcMap, ops[..|ops| - 1], funcSet, taint, dm)
      case None => None
      case Some(n) =>
        match SiteOutcome(m, srcMap, ops[|ops| - 1], funcSet, taint, dm)
        case None => None
        case Some(hit) => Some(if hit then n + 1 else n)
  }

  /** The function of a reached site, whose dominators the count depends on. */
  function SiteFunc(m: Module, srcMap: map<FileLine, seq<InstId>>, op: FuncFileLine): FuncId
    requires ParentsOk(m) && SourceMapOk(m, srcMap) && Key(op) in srcMap && srcMap[Key(op)] != []
  {
    FuncOf(m, srcMap[Key(op)][0])
  }

  /** Every reached site among `ops` has its function's dominators in `dm`. */
  predicate Cached(m: Module, srcMap: map<FileLine, seq<InstId>>, ops: seq<FuncFileLine>, funcSet: set<FuncId>,
                   dm: map<FuncId, Dominators.DomMap>)
    requires ParentsOk(m) && SourceMapOk(m, srcMap)
  {
    forall k :: 0 <= k < |ops| && Reached(m, srcMap, ops[k], funcSet) ==> SiteFunc(m, srcMap, ops[k]) in dm
  }

  /** `dm2` keeps every entry of `dm1`. */
  predicate Keeps(dm1: map<FuncId, Dominators.DomMap>, dm2: map<FuncId, Dominators.DomMap>)
  {
    forall f :: f in dm1 ==> f in dm2 && dm2[f] == dm1[f]
  }

  /** Every cached dominator map belongs to a function with blocks and solves its dataflow equations. */
  ghost predicate CacheOk(m: Module, dm: map<FuncId, Dominators.DomMap>)
  {
    WF(m) && forall f :: f in dm ==> Solved(m, f, dm[f])
  }

  /** `d` is a dominator map of function `f` that solves the dataflow equations. */
  ghost predicate Solved(m: Module, f: FuncId, d: Dominators.DomMap)
  {
    WF(m) && f < |m.funcs| && |m.funcs[f].blocks| > 0 &&
    Dominators.Shape(m, f, d) && Dominators.PostFixpoint(m, f, d) && Dominators.Fixpoint(m, f, d)
  }

  // ---------------------------------------------------------------------
  // Properties
  // ---------------------------------------------------------------------

  /** The walk of a block is a prefix of it that stops at the site, and holds the site exactly when the block does. */
  lemma {:induction false} UpToShape(insts: seq<InstId>, x: InstId)
    ensures UpTo(insts, x) <= insts
    ensures x in UpTo(insts, x) <==> x in insts
    ensures x in insts ==> UpTo(insts, x)[|UpTo(insts, x)| - 1] == x
    ensures x !in insts ==> UpTo(insts, x) == insts
  {
    if insts != [] && insts[0] != x {
      var tail := insts[1..];
      UpToShape(tail, x);
      assert insts == [insts[0]] + tail;
      assert UpTo(insts, x) == [insts[0]] + UpTo(tail, x);
    }
  }

  /** The walk of a block whose first `k` instructions are not the site. */
  lemma {:induction false} UpToFirst(insts: seq<InstId>, k: nat, x: InstId)
    requires k <= |insts| && forall q :: 0 <= q < k ==> insts[q] != x
    ensures k < |insts| && insts[k] == x ==> UpTo(insts, x) == insts[..k + 1]
    ensures k == |insts| ==> UpTo(insts, x) == insts
  {
    if k > 0 {
      UpToFirst(insts[1..], k - 1, x);
      if k < |insts| {
        assert insts[..k + 1] == [insts[0]] + insts[1..][..k];
      } else {
        assert insts == [insts[0]] + insts[1..];
      }
    }
  }

  lemma ValuesSnoc(xs: seq<InstId>, x: InstId)
    ensures Values(xs + [x]) == Values(xs) + [Inst(x)]
  {
  }

  lemma AnyTaintedBrSnoc(m: Module, taint: set<Value>, xs: seq<InstId>, x: InstId)
    ensures AnyTaintedBr(m, taint, xs + [x]) <==> AnyTaintedBr(m, taint, xs) || TaintedBr(m, taint, x)
  {
    if AnyTaintedBr(m, taint, xs) {
      var k :| 0 <= k < |xs| && TaintedBr(m, taint, xs[k]);
      assert (xs + [x])[k] == xs[k];
    }
    if TaintedBr(m, taint, x) {
      assert (xs + [x])[|xs|] == x;
    }
  }

  /** A site counts only when it is reached and some dominating block holds a tainted branch; the count never exceeds the list. */
  lemma {:induction false} CountSitesBound(m: Module, srcMap: map<FileLine, seq<InstId>>, ops: seq<FuncFileLine>, funcSet: set<FuncId>,
                                           taint: set<Value>, dm: map<FuncId, Dominators.DomMap>)
    requires ParentsOk(m) && SourceMapOk(m, srcMap)
    ensures CountSites(m, srcMap, ops, funcSet, taint, dm).Some? ==> CountSites(m, srcMap, ops, funcSet, taint, dm).value <= |ops|
    ensures CountSites(m, srcMap, ops, funcSet, taint, dm).None? <==>
            exists k :: 0 <= k < |ops| && (Key(ops[k]) !in srcMap || srcMap[Key(ops[k])] == [])
  {
    if ops != [] {
      var front := ops[..|ops| - 1];
      CountSitesBound(m, srcMap, front, funcSet, taint, dm);
      if exists k :: 0 <= k < |front| && (Key(front[k]) !in srcMap || srcMap[Key(front[k])] == []) {
        var k :| 0 <= k < |front| && (Key(front[k]) !in srcMap || srcMap[Key(front[k])] == []);
        assert ops[k] == front[k];
      }
      if exists k :: 0 <= k < |ops| && (Key(ops[k]) !in srcMap || srcMap[Key(ops[k])] == []) {
        var k :| 0 <= k < |ops| && (Key(ops[k]) !in srcMap || srcMap[Key(ops[k])] == []);
        if k < |front| {
          assert front[k] == ops[k];
        }
      }
    }
  }

  /**
   * The count only depends on the cached dominators of reached sites:
   * adding cache entries for other functions leaves it unchanged.
   */
  lemma {:induction false} CountSitesFrame(m: Module, srcMap: map<FileLine, seq<InstId>>, ops: seq<FuncFileLine>, funcSet: set<FuncId>,
                                           taint: set<Value>, dm1: map<FuncId, Dominators.DomMap>, dm2: map<FuncId, Dominators.DomMap>)
    requires ParentsOk(m) && SourceMapOk(m, srcMap)
    requires Cached(m, srcMap, ops, funcSet, dm1) && Keeps(dm1, dm2)
    ensures CountSites(m, srcMap, ops, funcSet, taint, dm1) == CountSites(m, srcMap, ops, funcSet, taint, dm2)
  {
    if ops != [] {
      var front := ops[..|ops| - 1];
      assert forall k :: 0 <= k < |front| ==> front[k] == ops[k];
      CountSitesFrame(m, srcMap, front, funcSet, taint, dm1, dm2);
      var op := ops[|ops| - 1];
      if Reached(m, srcMap, op, funcSet) {
        assert SiteFunc(m, srcMap, op) in dm1;
      }
    }
  }

  /** Caching a solved dominator map keeps the cache valid. */
  lemma CacheAdd(m: Module, dm: map<FuncId, Dominators.DomMap>, f: FuncId, d: Dominators.DomMap)
    requires CacheOk(m, dm) && Solved(m, f, d)
    ensures CacheOk(m, dm[f := d])
  {
    var dm2 := dm[f := d];
    forall g | g in dm2
      ensures Solved(m, g, dm2[g])
    {
      if g != f {
        assert dm2[g] == dm[g];
      }
    }
  }

  /** Adding an entry for a new key keeps every other entry. */
  lemma KeepsAdd(dm: map<FuncId, Dominators.DomMap>, f: FuncId, d: Dominators.DomMap)
    requires f !in dm
    ensures Keeps(dm, dm[f := d])
  {
    forall g | g in dm
      ensures g in dm[f := d] && dm[f := d][g] == dm[g]
    {
      assert g != f;
    }
  }

  lemma KeepsTrans(dm1: map<FuncId, Dominators.DomMap>, dm2: map<FuncId, Dominators.DomMap>, dm3: map<FuncId, Dominators.DomMap>)
    requires Keeps(dm1, dm2) && Keeps(dm2, dm3)
    ensures Keeps(dm1, dm3)
  {
    forall g | g in dm1
      ensures g in dm3 && dm3[g] == dm1[g]
    {
      assert g in dm2;
    }
  }

  /** Confirming one more site keeps every reached site's dominators cached. */
  lemma CachedStep(m: Module, srcMap: map<FileLine, seq<InstId>>, ops: seq<FuncFileLine>, k: nat, funcSet: set<FuncId>,
                   dm1: map<FuncId, Dominators.DomMap>, dm2: map<FuncId, Dominators.DomMap>)
    requires ParentsOk(m) && SourceMapOk(m, srcMap) && k < |ops|
    requires Cached(m, srcMap, ops[..k], funcSet, dm1) && Keeps(dm1, dm2)
    requires Reached(m, srcMap, ops[k], funcSet) ==> SiteFunc(m, srcMap, ops[k]) in dm2
    ensures Cached(m, srcMap, ops[..k + 1], funcSet, dm2)
  {
    var pre := ops[..k + 1];
    forall j | 0 <= j < |pre| && Reached(m, srcMap, pre[j], funcSet)
      ensures SiteFunc(m, srcMap, pre[j]) in dm2
    {
      if j < k {
        assert pre[j] == ops[..k][j];
      }
    }
  }

  /** The count over one more site adds that site's outcome. */
  lemma CountSitesStep(m: Module, srcMap: map<FileLine, seq<InstId>>, ops: seq<FuncFileLine>, k: nat, funcSet: set<FuncId>,
                       taint: set<Value>, dm: map<FuncId, Dominators.DomMap>, n: nat, hit: bool)
    requires ParentsOk(m) && SourceMapOk(m, srcMap) && k < |ops|
    requires CountSites(m, srcMap, ops[..k], funcSet, taint, dm) == Some(n)
    requires SiteOutcome(m, srcMap, ops[k], funcSet, taint, dm) == Some(hit)
    ensures CountSites(m, srcMap, ops[..k + 1], funcSet, taint, dm) == Some(if hit then n + 1 else n)
  {
    assert ops[..k + 1][..k] == ops[..k];
    assert ops[..k + 1][k] == ops[k];
  }

  /**
   * The feasible-path filter never removes a site the branch test let
   * through: the guarding branch is both in the walk and in the trace.
   */
  lemma GuardMakesPathFeasible(trace: seq<Value>, walk: seq<Value>, taint: set<Value>, v: Value)
    requires taint == set x | x in trace
    requires v in walk && v in taint
    ensures FeasiblePath(trace, walk) != []
  {
    FeasiblePathMembers(trace, walk, v);
  }

  /** `printInterCtrlDepResult` counts one vulnerability per labelled site with recorded branches, so at most one per labelled site. */
  lemma InterCtrlDepCount(r: map<FileLine, seq<InstId>>, keys: set<FileLine>)
    requires r.Keys <= keys
    ensures |r| <= |keys|
  {
    assert |r| == |r.Keys|;
    Dominators.SubsetCard(r.Keys, keys);
  }
}
