/**
 * The DOL pass (DangerOpLabel.cpp): label the source lines of a module that
 * hold a dangerous operation, i.e. a `getelementptr` (a pointer
 * dereference) or a call that may reach a function named in the
 * dangerous-function list.  Indirect calls are resolved to every function
 * whose signature matches the call site and that the alias analysis says
 * the called value may point to.
 *
 * The alias analysis and LLVM's type ids are given as oracles.
 */
module DangerOpLabel {
  import opened IR

  /** `AA.alias(calleeVal, F) != NoAlias` and `Type::getTypeID()`. */
  datatype Oracles = Oracles(mayAlias: (Value, FuncId) -> bool, typeOf: Value -> TypeId)

  /** What `compareIndirectCall` reads from a call site: its own type and its actual arguments' types. */
  datatype CallSig = CallSig(ret: TypeId, args: seq<TypeId>)

  /** Same arity, same return type id, same type id at every parameter position. */
  predicate SignatureMatches(cs: CallSig, ty: FnType)
  {
    |cs.args| == |ty.params| && cs.ret == ty.ret &&
    forall k :: 0 <= k < |ty.params| ==> cs.args[k] == ty.params[k]
  }

  /**
   * `compareIndirectCall`: a missing call site or function type aborts;
   * otherwise the answer is whether the signatures match.
   */
  method CompareIndirectCall(cs: Option<CallSig>, fnType: Option<FnType>) returns (r: Result<bool>)
    ensures r.Failure? <==> cs.None? || fnType.None?
    ensures r.Success? ==> (r.value <==> SignatureMatches(cs.value, fnType.value))
    ensures r.Success? && |cs.value.args| != |fnType.value.params| ==> !r.value
  {
    if cs.None? || fnType.None? {
      return Failure("Couldn't obtain FunctionType for indirect calls");
    }
    var call, ty := cs.value, fnType.value;
    if |call.args| != |ty.params| {
      return Success(false);
    }
    if call.ret != ty.ret {
      return Success(false);
    }
    var i := 0;
    while i < |ty.params|
      invariant 0 <= i <= |ty.params|
      invariant forall k :: 0 <= k < i ==> call.args[k] == ty.params[k]
    {
      if call.args[i] != ty.params[i] {
        return Success(false);
      }
      i := i + 1;
    }
    return Success(true);
  }

  /** A call instruction's signature as the oracle types it. */
  function CallSigOf(m: Module, o: Oracles, i: InstId): CallSig
    requires i < |m.insts| && |m.insts[i].operands| >= 1
  {
    var ops := m.insts[i].operands;
    CallSig(o.typeOf(Inst(i)), seq(|ops| - 1, k requires 0 <= k < |ops| - 1 => o.typeOf(ops[k])))
  }

  predicate FnSetOk(m: Module, fnSet: set<FuncId>)
  {
    forall f :: f in fnSet ==> f < |m.funcs|
  }

  /** The names an indirect call is resolved to. */
  function IndirectNames(m: Module, o: Oracles, fnSet: set<FuncId>, i: InstId): set<string>
    requires FnSetOk(m, fnSet) && i < |m.insts| && |m.insts[i].operands| >= 1
  {
    var ops := m.insts[i].operands;
    set f | f in fnSet && SignatureMatches(CallSigOf(m, o, i), m.funcs[f].ty) && o.mayAlias(ops[|ops| - 1], f)
      :: m.funcs[f].name
  }

  /** The loop over `fnSet` that resolves an indirect call. */
  method IndirectCandidates(m: Module, o: Oracles, fnSet: set<FuncId>, i: InstId) returns (names: set<string>)
    requires FnSetOk(m, fnSet) && i < |m.insts| && |m.insts[i].operands| >= 1
    ensures names == IndirectNames(m, o, fnSet, i)
  {
    var ops := m.insts[i].operands;
    var callee := ops[|ops| - 1];
    var sig := CallSigOf(m, o, i);
    names := {};
    var rest := fnSet;
    while rest != {}
      invariant rest <= fnSet
      invariant names == set f | f in fnSet - rest && SignatureMatches(sig, m.funcs[f].ty) && o.mayAlias(callee, f)
                           :: m.funcs[f].name
      decreases rest
    {
      var f :| f in rest;
      var same := CompareIndirectCall(Some(sig), Some(m.funcs[f].ty));
      ghost var done := fnSet - rest;
      if same == Success(true) && o.mayAlias(callee, f) {
        names := names + {m.funcs[f].name};
      }
      rest := rest - {f};
      assert fnSet - rest == done + {f};
    }
    assert fnSet - rest == fnSet;
  }

  /** The statement a site in function `f` is labelled with: `f`'s name, the base name of the file, the line. */
  function SiteEntry(m: Module, f: FuncId, i: InstId): Option<FuncFileLine>
    requires f < |m.funcs| && i < |m.insts|
  {
    match m.insts[i].dbg
    case None => None
    case Some(loc) => Some(FuncFileLine(m.funcs[f].name, Basename(loc.file), loc.line))
  }

  /** A `getelementptr` with a debug location is a pointer-dereference site. */
  function PtrSite(m: Module, f: FuncId, i: InstId): Option<FuncFileLine>
    requires f < |m.funcs| && i < |m.insts|
  {
    if m.insts[i].op == Gep then SiteEntry(m, f, i) else None
  }

  /** The names a call may reach: its callee's, or every resolved candidate of an indirect call. */
  function CandidateNames(m: Module, o: Oracles, fnSet: set<FuncId>, i: InstId): set<string>
    requires HandlesOk(m) && FnSetOk(m, fnSet) && i < |m.insts| && IsCallSite(m, i)
  {
    assert OperandsOk(m, m.insts[i]);
    match CalledFunction(m, i)
    case None => IndirectNames(m, o, fnSet, i)
    case Some(g) => {m.funcs[g].name}
  }

  /**
   * A call is labelled when its callee is not an `llvm.` intrinsic and its
   * candidate names are non-empty and meet the dangerous-function set.
   */
  predicate LabelledCall(m: Module, o: Oracles, fnSet: set<FuncId>, danFuncs: set<string>, i: InstId)
    requires HandlesOk(m) && FnSetOk(m, fnSet) && i < |m.insts|
  {
    IsCallSite(m, i) &&
    (assert OperandsOk(m, m.insts[i]);
     !(CalledFunction(m, i).Some? && IsIntrinsicName(m.funcs[CalledFunction(m, i).value].name)) &&
     var names := CandidateNames(m, o, fnSet, i);
     names != {} && names * danFuncs != {})
  }

  /** A labelled call with a debug location is a dangerous-call site. */
  function FuncSite(m: Module, o: Oracles, fnSet: set<FuncId>, danFuncs: set<string>, f: FuncId, i: InstId): Option<FuncFileLine>
    requires HandlesOk(m) && FnSetOk(m, fnSet) && f < |m.funcs| && i < |m.insts|
  {
    if LabelledCall(m, o, fnSet, danFuncs, i) then SiteEntry(m, f, i) else None
  }

  /** The dereference sites met while walking `xs` inside function `f`, in order. */
  function PtrSites(m: Module, f: FuncId, xs: seq<InstId>): (r: seq<Option<FuncFileLine>>)
    requires f < |m.funcs| && InstIdsOk(m, xs)
    ensures |r| == |xs|
  {
    if xs == [] then [] else PtrSites(m, f, xs[..|xs| - 1]) + [PtrSite(m, f, xs[|xs| - 1])]
  }

  /** The dangerous-call sites met while walking `xs` inside function `f`, in order. */
  function FuncSites(m: Module, o: Oracles, fnSet: set<FuncId>, danFuncs: set<string>, f: FuncId, xs: seq<InstId>): (r: seq<Option<FuncFileLine>>)
    requires HandlesOk(m) && FnSetOk(m, fnSet) && f < |m.funcs| && InstIdsOk(m, xs)
    ensures |r| == |xs|
  {
    if xs == [] then [] else FuncSites(m, o, fnSet, danFuncs, f, xs[..|xs| - 1]) + [FuncSite(m, o, fnSet, danFuncs, f, xs[|xs| - 1])]
  }

  /** The dereference sites of the first `n` functions, function after function. */
  function ModulePtrSites(m: Module, n: nat): seq<Option<FuncFileLine>>
    requires HandlesOk(m) && n <= |m.funcs|
  {
    if n == 0 then []
    else
      BodyOk(m, n - 1);
      ModulePtrSites(m, n - 1) + PtrSites(m, n - 1, Body(m, n - 1))
  }

  /** The dangerous-call sites of the first `n` functions, function after function. */
  function ModuleFuncSites(m: Module, o: Oracles, fnSet: set<FuncId>, danFuncs: set<string>, n: nat): seq<Option<FuncFileLine>>
    requires HandlesOk(m) && FnSetOk(m, fnSet) && n <= |m.funcs|
  {
    if n == 0 then []
    else
      BodyOk(m, n - 1);
      ModuleFuncSites(m, o, fnSet, danFuncs, n - 1) + FuncSites(m, o, fnSet, danFuncs, n - 1, Body(m, n - 1))
  }

  /** `push_front` of a site's entry unless the list already holds it. */
  function PushNew(ops: seq<FuncFileLine>, site: Option<FuncFileLine>): seq<FuncFileLine>
  {
    if site.Some? && site.value !in ops then [site.value] + ops else ops
  }

  /** The label list after visiting the given sites in order. */
  function Gathered(ops: seq<FuncFileLine>, sites: seq<Option<FuncFileLine>>): seq<FuncFileLine>
  {
    if sites == [] then ops else PushNew(Gathered(ops, sites[..|sites| - 1]), sites[|sites| - 1])
  }

  /** An entry is labelled exactly when it was labelled before or some visited site carries it. */
  lemma {:induction false} GatheredMembers(ops: seq<FuncFileLine>, sites: seq<Option<FuncFileLine>>, e: FuncFileLine)
    ensures e in Gathered(ops, sites) <==> e in ops || Some(e) in sites
  {
    if sites != [] {
      var front := sites[..|sites| - 1];
      GatheredMembers(ops, front, e);
      assert sites == front + [sites[|sites| - 1]];
    }
  }

  /** No site is recorded twice. */
  lemma {:induction false} GatheredNoDup(ops: seq<FuncFileLine>, sites: seq<Option<FuncFileLine>>)
    requires NoDup(ops)
    ensures NoDup(Gathered(ops, sites))
  {
    if sites != [] {
      GatheredNoDup(ops, sites[..|sites| - 1]);
    }
  }

  /** New entries go to the front: the earlier list is what follows them. */
  lemma {:induction false} GatheredPrepends(ops: seq<FuncFileLine>, sites: seq<Option<FuncFileLine>>)
    ensures |ops| <= |Gathered(ops, sites)|
    ensures Gathered(ops, sites)[|Gathered(ops, sites)| - |ops|..] == ops
  {
    if sites != [] {
      var g := Gathered(ops, sites[..|sites| - 1]);
      GatheredPrepends(ops, sites[..|sites| - 1]);
      var s := sites[|sites| - 1];
      if s.Some? && s.value !in g {
        assert ([s.value] + g)[|g| + 1 - |ops|..] == g[|g| - |ops|..];
      }
    }
  }

  /** Visiting one more site of a run. */
  lemma GatheredStep(ops: seq<FuncFileLine>, sites: seq<Option<FuncFileLine>>, k: nat)
    requires k < |sites|
    ensures Gathered(ops, sites[..k + 1]) == PushNew(Gathered(ops, sites[..k]), sites[k])
  {
    assert sites[..k + 1][..k] == sites[..k];
  }

  /** Visiting two runs of sites is visiting the first, then the second from where the first left off. */
  lemma {:induction false} GatheredAppend(ops: seq<FuncFileLine>, a: seq<Option<FuncFileLine>>, b: seq<Option<FuncFileLine>>)
    ensures Gathered(ops, a + b) == Gathered(Gathered(ops, a), b)
  {
    if b == [] {
      assert a + b == a;
    } else {
      var front := b[..|b| - 1];
      GatheredAppend(ops, a, front);
      assert (a + b)[..|a + b| - 1] == a + front;
    }
  }

  /** The map key `PushNew` adds along with a new entry. */
  function NewKey(ops: seq<FuncFileLine>, site: Option<FuncFileLine>): set<FileLine>
  {
    if site.Some? && site.value !in ops then {(site.value.file, site.value.line)} else {}
  }

  /** The (file, line) keys of a list of labelled statements. */
  function Keys(ops: seq<FuncFileLine>): set<FileLine>
  {
    if ops == [] then {} else {(ops[0].file, ops[0].line)} + Keys(ops[1..])
  }

  /** A key is present exactly when some listed statement has that file and line. */
  lemma {:induction false} KeysMembers(ops: seq<FuncFileLine>, key: FileLine)
    ensures key in Keys(ops) <==> exists e :: e in ops && (e.file, e.line) == key
  {
    if ops != [] {
      KeysMembers(ops[1..], key);
      if exists e :: e in ops && (e.file, e.line) == key {
        var e :| e in ops && (e.file, e.line) == key;
        if e != ops[0] {
          assert e in ops[1..];
        }
      }
    }
  }

  /** Labelling one site adds to the keys exactly the key it adds to the map. */
  lemma KeysPushNew(ops: seq<FuncFileLine>, site: Option<FuncFileLine>)
    ensures Keys(PushNew(ops, site)) == Keys(ops) + NewKey(ops, site)
  {
    if site.Some? && site.value !in ops {
      assert ([site.value] + ops)[1..] == ops;
    }
  }

  lemma {:induction false} KeysSuffix(ops: seq<FuncFileLine>, n: nat)
    requires n <= |ops|
    ensures Keys(ops[n..]) <= Keys(ops)
  {
    if n > 0 {
      KeysSuffix(ops[1..], n - 1);
      assert ops[1..][n - 1..] == ops[n..];
    }
  }

  /** Labelling never loses a key: the earlier list is a suffix of the new one. */
  lemma KeysGrow(ops: seq<FuncFileLine>, sites: seq<Option<FuncFileLine>>)
    ensures Keys(ops) <= Keys(Gathered(ops, sites))
  {
    GatheredPrepends(ops, sites);
    var g := Gathered(ops, sites);
    KeysSuffix(g, |g| - |ops|);
  }

  lemma {:induction false} PtrSitesAt(m: Module, f: FuncId, xs: seq<InstId>, k: nat)
    requires f < |m.funcs| && InstIdsOk(m, xs) && k < |xs|
    ensures PtrSites(m, f, xs)[k] == PtrSite(m, f, xs[k])
  {
    if k < |xs| - 1 {
      PtrSitesAt(m, f, xs[..|xs| - 1], k);
    }
  }

  lemma {:induction false} FuncSitesAt(m: Module, o: Oracles, fnSet: set<FuncId>, danFuncs: set<string>, f: FuncId, xs: seq<InstId>, k: nat)
    requires HandlesOk(m) && FnSetOk(m, fnSet) && f < |m.funcs| && InstIdsOk(m, xs) && k < |xs|
    ensures FuncSites(m, o, fnSet, danFuncs, f, xs)[k] == FuncSite(m, o, fnSet, danFuncs, f, xs[k])
  {
    if k < |xs| - 1 {
      FuncSitesAt(m, o, fnSet, danFuncs, f, xs[..|xs| - 1], k);
    }
  }

  /** A site value occurs among a function's sites exactly when one of its instructions produces it. */
  lemma PtrSitesMembers(m: Module, f: FuncId, xs: seq<InstId>, s: Option<FuncFileLine>)
    requires f < |m.funcs| && InstIdsOk(m, xs)
    ensures s in PtrSites(m, f, xs) <==> exists k :: 0 <= k < |xs| && PtrSite(m, f, xs[k]) == s
  {
    var ps := PtrSites(m, f, xs);
    if s in ps {
      var k :| 0 <= k < |ps| && ps[k] == s;
      PtrSitesAt(m, f, xs, k);
    }
    if exists k :: 0 <= k < |xs| && PtrSite(m, f, xs[k]) == s {
      var k :| 0 <= k < |xs| && PtrSite(m, f, xs[k]) == s;
      PtrSitesAt(m, f, xs, k);
    }
  }

  lemma FuncSitesMembers(m: Module, o: Oracles, fnSet: set<FuncId>, danFuncs: set<string>, f: FuncId, xs: seq<InstId>, s: Option<FuncFileLine>)
    requires HandlesOk(m) && FnSetOk(m, fnSet) && f < |m.funcs| && InstIdsOk(m, xs)
    ensures s in FuncSites(m, o, fnSet, danFuncs, f, xs) <==> exists k :: 0 <= k < |xs| && FuncSite(m, o, fnSet, danFuncs, f, xs[k]) == s
  {
    var fs := FuncSites(m, o, fnSet, danFuncs, f, xs);
    if s in fs {
      var k :| 0 <= k < |fs| && fs[k] == s;
      FuncSitesAt(m, o, fnSet, danFuncs, f, xs, k);
    }
    if exists k :: 0 <= k < |xs| && FuncSite(m, o, fnSet, danFuncs, f, xs[k]) == s {
      var k :| 0 <= k < |xs| && FuncSite(m, o, fnSet, danFuncs, f, xs[k]) == s;
      FuncSitesAt(m, o, fnSet, danFuncs, f, xs, k);
    }
  }

  /** Some instruction of the first `n` functions produces dereference site `s`. */
  ghost predicate PtrSiteAmong(m: Module, n: nat, s: Option<FuncFileLine>)
    requires HandlesOk(m) && n <= |m.funcs|
  {
    exists f, i :: 0 <= f < n && i in Body(m, f) && i < |m.insts| && PtrSite(m, f, i) == s
  }

  /** Some instruction of the first `n` functions produces dangerous-call site `s`. */
  ghost predicate FuncSiteAmong(m: Module, o: Oracles, fnSet: set<FuncId>, danFuncs: set<string>, n: nat, s: Option<FuncFileLine>)
    requires HandlesOk(m) && FnSetOk(m, fnSet) && n <= |m.funcs|
  {
    exists f, i :: 0 <= f < n && i in Body(m, f) && i < |m.insts| && FuncSite(m, o, fnSet, danFuncs, f, i) == s
  }

  /** A dereference site of the first `n` functions is one of the first `n - 1`, or one of function `n - 1`'s walk. */
  lemma PtrSiteAmongStep(m: Module, n: nat, s: Option<FuncFileLine>)
    requires HandlesOk(m) && 0 < n <= |m.funcs| && InstIdsOk(m, Body(m, n - 1))
    ensures PtrSiteAmong(m, n, s) <==> PtrSiteAmong(m, n - 1, s) || s in PtrSites(m, n - 1, Body(m, n - 1))
  {
    if PtrSiteAmong(m, n, s) {
      PtrSiteAmongSplit(m, n, s);
    }
    if PtrSiteAmong(m, n - 1, s) {
      PtrSiteAmongPrev(m, n, s);
    }
    if s in PtrSites(m, n - 1, Body(m, n - 1)) {
      PtrSiteAmongLast(m, n, s);
    }
  }

  lemma PtrSiteAmongSplit(m: Module, n: nat, s: Option<FuncFileLine>)
    requires HandlesOk(m) && 0 < n <= |m.funcs| && InstIdsOk(m, Body(m, n - 1))
    requires PtrSiteAmong(m, n, s)
    ensures PtrSiteAmong(m, n - 1, s) || s in PtrSites(m, n - 1, Body(m, n - 1))
  {
    var f, i :| 0 <= f < n && i in Body(m, f) && i < |m.insts| && PtrSite(m, f, i) == s;
    if f == n - 1 {
      var body := Body(m, f);
      var k :| 0 <= k < |body| && body[k] == i;
      PtrSitesAt(m, f, body, k);
      assert PtrSites(m, f, body)[k] == s;
    } else {
      assert PtrSiteAmong(m, n - 1, s);
    }
  }

  lemma PtrSiteAmongPrev(m: Module, n: nat, s: Option<FuncFileLine>)
    requires HandlesOk(m) && 0 < n <= |m.funcs|
    requires PtrSiteAmong(m, n - 1, s)
    ensures PtrSiteAmong(m, n, s)
  {
    var f, i :| 0 <= f < n - 1 && i in Body(m, f) && i < |m.insts| && PtrSite(m, f, i) == s;
    assert 0 <= f < n;
  }

  lemma PtrSiteAmongLast(m: Module, n: nat, s: Option<FuncFileLine>)
    requires HandlesOk(m) && 0 < n <= |m.funcs| && InstIdsOk(m, Body(m, n - 1))
    requires s in PtrSites(m, n - 1, Body(m, n - 1))
    ensures PtrSiteAmong(m, n, s)
  {
    var body := Body(m, n - 1);
    var sites := PtrSites(m, n - 1, body);
    var k :| 0 <= k < |sites| && sites[k] == s;
    PtrSitesAt(m, n - 1, body, k);
    var i := body[k];
    assert i in Body(m, n - 1) && i < |m.insts| && PtrSite(m, n - 1, i) == s;
  }

  /** A dangerous-call site of the first `n` functions is one of the first `n - 1`, or one of function `n - 1`'s walk. */
  lemma FuncSiteAmongStep(m: Module, o: Oracles, fnSet: set<FuncId>, danFuncs: set<string>, n: nat, s: Option<FuncFileLine>)
    requires HandlesOk(m) && FnSetOk(m, fnSet) && 0 < n <= |m.funcs| && InstIdsOk(m, Body(m, n - 1))
    ensures FuncSiteAmong(m, o, fnSet, danFuncs, n, s) <==> FuncSiteAmong(m, o, fnSet, danFuncs, n - 1, s) || s in FuncSites(m, o, fnSet, danFuncs, n - 1, Body(m, n - 1))
  {
    if FuncSiteAmong(m, o, fnSet, danFuncs, n, s) {
      FuncSiteAmongSplit(m, o, fnSet, danFuncs, n, s);
    }
    if FuncSiteAmong(m, o, fnSet, danFuncs, n - 1, s) {
      FuncSiteAmongPrev(m, o, fnSet, danFuncs, n, s);
    }
    if s in FuncSites(m, o, fnSet, danFuncs, n - 1, Body(m, n - 1)) {
      FuncSiteAmongLast(m, o, fnSet, danFuncs, n, s);
    }
  }

  /** The site of an instruction of `xs` is among the sites of `xs`. */
  lemma FuncSiteIn(m: Module, o: Oracles, fnSet: set<FuncId>, danFuncs: set<string>, f: FuncId, xs: seq<InstId>, i: InstId)
    requires HandlesOk(m) && FnSetOk(m, fnSet) && f < |m.funcs| && InstIdsOk(m, xs) && i in xs
    ensures FuncSite(m, o, fnSet, danFuncs, f, i) in FuncSites(m, o, fnSet, danFuncs, f, xs)
  {
    var k :| 0 <= k < |xs| && xs[k] == i;
    FuncSitesAt(m, o, fnSet, danFuncs, f, xs, k);
  }

  lemma FuncSiteAmongSplit(m: Module, o: Oracles, fnSet: set<FuncId>, danFuncs: set<string>, n: nat, s: Option<FuncFileLine>)
    requires HandlesOk(m) && FnSetOk(m, fnSet) && 0 < n <= |m.funcs| && InstIdsOk(m, Body(m, n - 1))
    requires FuncSiteAmong(m, o, fnSet, danFuncs, n, s)
    ensures FuncSiteAmong(m, o, fnSet, danFuncs, n - 1, s) || s in FuncSites(m, o, fnSet, danFuncs, n - 1, Body(m, n - 1))
  {
    var f, i :| 0 <= f < n && i in Body(m, f) && i < |m.insts| && FuncSite(m, o, fnSet, danFuncs, f, i) == s;
    FuncSiteSplitAt(m, o, fnSet, danFuncs, n, f, i);
  }

  /** `FuncSiteAmongSplit` for the site of instruction `i` of function `f`. */
  lemma FuncSiteSplitAt(m: Module, o: Oracles, fnSet: set<FuncId>, danFuncs: set<string>, n: nat, f: FuncId, i: InstId)
    requires HandlesOk(m) && FnSetOk(m, fnSet) && 0 < n <= |m.funcs| && InstIdsOk(m, Body(m, n - 1))
    requires f < n && i in Body(m, f) && i < |m.insts|
    ensures FuncSiteAmong(m, o, fnSet, danFuncs, n - 1, FuncSite(m, o, fnSet, danFuncs, f, i)) ||
            FuncSite(m, o, fnSet, danFuncs, f, i) in FuncSites(m, o, fnSet, danFuncs, n - 1, Body(m, n - 1))
  {
    if f == n - 1 {
      FuncSiteIn(m, o, fnSet, danFuncs, n - 1, Body(m, n - 1), i);
    }
  }

  lemma FuncSiteAmongPrev(m: Module, o: Oracles, fnSet: set<FuncId>, danFuncs: set<string>, n: nat, s: Option<FuncFileLine>)
    requires HandlesOk(m) && FnSetOk(m, fnSet) && 0 < n <= |m.funcs|
    requires FuncSiteAmong(m, o, fnSet, danFuncs, n - 1, s)
    ensures FuncSiteAmong(m, o, fnSet, danFuncs, n, s)
  {
    var f, i :| 0 <= f < n - 1 && i in Body(m, f) && i < |m.insts| && FuncSite(m, o, fnSet, danFuncs, f, i) == s;
    assert 0 <= f < n;
  }

  lemma FuncSiteAmongLast(m: Module, o: Oracles, fnSet: set<FuncId>, danFuncs: set<string>, n: nat, s: Option<FuncFileLine>)
    requires HandlesOk(m) && FnSetOk(m, fnSet) && 0 < n <= |m.funcs| && InstIdsOk(m, Body(m, n - 1))
    requires s in FuncSites(m, o, fnSet, danFuncs, n - 1, Body(m, n - 1))
    ensures FuncSiteAmong(m, o, fnSet, danFuncs, n, s)
  {
    var body := Body(m, n - 1);
    var sites := FuncSites(m, o, fnSet, danFuncs, n - 1, body);
    var k :| 0 <= k < |sites| && sites[k] == s;
    FuncSitesAt(m, o, fnSet, danFuncs, n - 1, body, k);
    var i := body[k];
    assert i in Body(m, n - 1) && i < |m.insts| && FuncSite(m, o, fnSet, danFuncs, n - 1, i) == s;
  }

  /** A dereference site occurs in the walk of the first `n` functions exactly when some instruction of one of them produces it. */
  lemma {:induction false} ModulePtrSitesMembers(m: Module, n: nat, s: Option<FuncFileLine>)
    requires HandlesOk(m) && n <= |m.funcs|
    ensures s in ModulePtrSites(m, n) <==> PtrSiteAmong(m, n, s)
  {
    if n > 0 {
      ModulePtrSitesMembers(m, n - 1, s);
      BodyOk(m, n - 1);
      PtrSiteAmongStep(m, n, s);
      assert ModulePtrSites(m, n) == ModulePtrSites(m, n - 1) + PtrSites(m, n - 1, Body(m, n - 1));
    }
  }

  /** A dangerous-call site occurs in the walk of the first `n` functions exactly when some instruction of one of them produces it. */
  lemma {:induction false} ModuleFuncSitesMembers(m: Module, o: Oracles, fnSet: set<FuncId>, danFuncs: set<string>, n: nat, s: Option<FuncFileLine>)
    requires HandlesOk(m) && FnSetOk(m, fnSet) && n <= |m.funcs|
    ensures s in ModuleFuncSites(m, o, fnSet, danFuncs, n) <==> FuncSiteAmong(m, o, fnSet, danFuncs, n, s)
  {
    if n > 0 {
      ModuleFuncSitesMembers(m, o, fnSet, danFuncs, n - 1, s);
      BodyOk(m, n - 1);
      FuncSiteAmongStep(m, o, fnSet, danFuncs, n, s);
      assert ModuleFuncSites(m, o, fnSet, danFuncs, n) ==
             ModuleFuncSites(m, o, fnSet, danFuncs, n - 1) + FuncSites(m, o, fnSet, danFuncs, n - 1, Body(m, n - 1));
    }
  }

  /**
   * `danPtrOps_` after the walk: a statement is listed exactly when some
   * `getelementptr` with a debug location in function `f` has `f`'s name,
   * the base name of its file and its line; no statement is listed twice.
   */
  lemma DanPtrOpsExact(m: Module, e: FuncFileLine)
    requires HandlesOk(m)
    ensures NoDup(Gathered([], ModulePtrSites(m, |m.funcs|)))
    ensures e in Gathered([], ModulePtrSites(m, |m.funcs|)) <==>
            exists f, i :: 0 <= f < |m.funcs| && i in Body(m, f) && i < |m.insts| &&
              m.insts[i].op == Gep && m.insts[i].dbg.Some? &&
              e == FuncFileLine(m.funcs[f].name, Basename(m.insts[i].dbg.value.file), m.insts[i].dbg.value.line)
  {
    GatheredNoDup([], ModulePtrSites(m, |m.funcs|));
    GatheredMembers([], ModulePtrSites(m, |m.funcs|), e);
    ModulePtrSitesMembers(m, |m.funcs|, Some(e));
  }

  /**
   * `danFuncOps_` after the walk: a statement is listed exactly when some
   * labelled call with a debug location in function `f` has `f`'s name, the
   * base name of its file and its line; no statement is listed twice.
   */
  lemma DanFuncOpsExact(m: Module, o: Oracles, fnSet: set<FuncId>, danFuncs: set<string>, e: FuncFileLine)
    requires HandlesOk(m) && FnSetOk(m, fnSet)
    ensures NoDup(Gathered([], ModuleFuncSites(m, o, fnSet, danFuncs, |m.funcs|)))
    ensures e in Gathered([], ModuleFuncSites(m, o, fnSet, danFuncs, |m.funcs|)) <==>
            exists f, i :: 0 <= f < |m.funcs| && i in Body(m, f) && i < |m.insts| &&
              LabelledCall(m, o, fnSet, danFuncs, i) && m.insts[i].dbg.Some? &&
              e == FuncFileLine(m.funcs[f].name, Basename(m.insts[i].dbg.value.file), m.insts[i].dbg.value.line)
  {
    GatheredNoDup([], ModuleFuncSites(m, o, fnSet, danFuncs, |m.funcs|));
    GatheredMembers([], ModuleFuncSites(m, o, fnSet, danFuncs, |m.funcs|), e);
    ModuleFuncSitesMembers(m, o, fnSet, danFuncs, |m.funcs|, Some(e));
  }

  /**
   * Which calls are labelled: a call or invoke whose callee is not an
   * `llvm.` intrinsic, and either its direct callee is a dangerous function
   * or (for an indirect call) some candidate of matching signature that the
   * called value may alias is.
   */
  lemma LabelledCallIff(m: Module, o: Oracles, fnSet: set<FuncId>, danFuncs: set<string>, i: InstId)
    requires HandlesOk(m) && FnSetOk(m, fnSet) && i < |m.insts|
    ensures LabelledCall(m, o, fnSet, danFuncs, i) <==>
            IsCallSite(m, i) &&
            var ops := m.insts[i].operands;
            match ops[|ops| - 1]
            case Fn(g) => !IsIntrinsicName(m.funcs[g].name) && m.funcs[g].name in danFuncs
            case _ => exists g :: g in fnSet && SignatureMatches(CallSigOf(m, o, i), m.funcs[g].ty) &&
                        o.mayAlias(ops[|ops| - 1], g) && m.funcs[g].name in danFuncs
  {
    if IsCallSite(m, i) {
      assert OperandsOk(m, m.insts[i]);
      var ops := m.insts[i].operands;
      var names := CandidateNames(m, o, fnSet, i);
      if !ops[|ops| - 1].Fn? {
        assert CalledFunction(m, i).None?;
        assert names == IndirectNames(m, o, fnSet, i);
        if names * danFuncs != {} {
          var name :| name in names * danFuncs;
          var g :| g in fnSet && SignatureMatches(CallSigOf(m, o, i), m.funcs[g].ty) &&
                   o.mayAlias(ops[|ops| - 1], g) && m.funcs[g].name == name;
          assert m.funcs[g].name in danFuncs;
        }
        if exists g :: g in fnSet && SignatureMatches(CallSigOf(m, o, i), m.funcs[g].ty) &&
                       o.mayAlias(ops[|ops| - 1], g) && m.funcs[g].name in danFuncs {
          var g :| g in fnSet && SignatureMatches(CallSigOf(m, o, i), m.funcs[g].ty) &&
                   o.mayAlias(ops[|ops| - 1], g) && m.funcs[g].name in danFuncs;
          assert m.funcs[g].name in IndirectNames(m, o, fnSet, i);
          assert m.funcs[g].name in names * danFuncs;
        }
      }
    }
  }

  lemma UnionAssoc<T>(a: set<T>, b: set<T>, c: set<T>)
    ensures (a + b) + c == a + (b + c)
  {
  }

  lemma UnionAbsorb<T>(a: set<T>, b: set<T>, c: set<T>)
    requires b <= c
    ensures (a + b) + c == a + c
  {
  }

  lemma SliceAll<T>(s: seq<T>)
    ensures s[..|s|] == s
  {
  }

  /** Every function whose name does not start with "llvm.". */
  function NonIntrinsicFuncs(m: Module): set<FuncId>
  {
    set f | 0 <= f < |m.funcs| && !IsIntrinsicName(m.funcs[f].name)
  }

  /** The loop of `runOnModule` that builds the candidate set for indirect calls. */
  method AllFuncs(m: Module) returns (r: set<FuncId>)
    ensures forall f: FuncId :: f in r <==> f < |m.funcs| && !IsIntrinsicName(m.funcs[f].name)
  {
    r := {};
    var f := 0;
    while f < |m.funcs|
      invariant 0 <= f <= |m.funcs|
      invariant forall g: FuncId :: g in r <==> g < f && !IsIntrinsicName(m.funcs[g].name)
    {
      if !IsIntrinsicName(m.funcs[f].name) {
        r := r + {f};
      }
      f := f + 1;
    }
  }

  predicate IsSpace(c: char)
  {
    c == ' ' || c == '\t' || c == '\n' || c == '\r' || c == '\U{000B}' || c == '\U{000C}'
  }

  /** The text after the leading white space. */
  function SkipSpace(s: string): (r: string)
    ensures |r| <= |s|
  {
    if s != [] && IsSpace(s[0]) then SkipSpace(s[1..]) else s
  }

  /** The longest prefix free of white space. */
  function Word(s: string): (r: string)
    ensures |r| <= |s|
  {
    if s == [] || IsSpace(s[0]) then [] else [s[0]] + Word(s[1..])
  }

  lemma {:induction false} WordShape(s: string)
    ensures Word(s) == s[..|Word(s)|]
    ensures forall k :: 0 <= k < |Word(s)| ==> !IsSpace(Word(s)[k])
    ensures |Word(s)| < |s| ==> IsSpace(s[|Word(s)|])
  {
    if s != [] && !IsSpace(s[0]) {
      WordShape(s[1..]);
    }
  }

  lemma {:induction false} SkipSpaceShape(s: string)
    ensures SkipSpace(s) == s[|s| - |SkipSpace(s)|..]
    ensures SkipSpace(s) == [] || !IsSpace(SkipSpace(s)[0])
    ensures forall k :: 0 <= k < |s| - |SkipSpace(s)| ==> IsSpace(s[k])
  {
    if s != [] && IsSpace(s[0]) {
      SkipSpaceShape(s[1..]);
    }
  }

  /**
   * `sscanf("%s")` stores the first white-space-delimited word: the line
   * is blank up to it, the word has no white space, and white space or
   * the end of the line follows it.
   */
  lemma FirstTokenShape(line: string)
    ensures var w := FirstToken(line); var rest := SkipSpace(line);
      (forall k :: 0 <= k < |line| - |rest| ==> IsSpace(line[k])) &&
      rest == line[|line| - |rest|..] &&
      w == rest[..|w|] &&
      (forall k :: 0 <= k < |w| ==> !IsSpace(w[k])) &&
      (|w| < |rest| ==> IsSpace(rest[|w|])) &&
      (w == [] <==> forall k :: 0 <= k < |line| ==> IsSpace(line[k]))
  {
    SkipSpaceShape(line);
    WordShape(SkipSpace(line));
  }

  /** What `sscanf(line, "%s")` stores: the first white-space-delimited word of the line. */
  function FirstToken(line: string): string
  {
    Word(SkipSpace(line))
  }

  /** The names a dangerous-function list declares: the first word of each line that has one. */
  function ListedNames(lines: seq<string>): set<string>
  {
    if lines == [] then {}
    else
      var last := FirstToken(lines[|lines| - 1]);
      ListedNames(lines[..|lines| - 1]) + (if last != "" then {last} else {})
  }

  /** A name is listed exactly when it is the first word of some line. */
  lemma {:induction false} ListedNamesMembers(lines: seq<string>, x: string)
    ensures x in ListedNames(lines) <==> x != "" && exists k :: 0 <= k < |lines| && FirstToken(lines[k]) == x
  {
    if lines != [] {
      var front := lines[..|lines| - 1];
      ListedNamesMembers(front, x);
      if exists k :: 0 <= k < |front| && FirstToken(front[k]) == x {
        var k :| 0 <= k < |front| && FirstToken(front[k]) == x;
        assert lines[k] == front[k];
      }
      if exists k :: 0 <= k < |lines| && FirstToken(lines[k]) == x {
        var k :| 0 <= k < |lines| && FirstToken(lines[k]) == x;
        if k < |front| {
          assert lines[k] == front[k];
        }
      }
    }
  }

  /** The DOL pass object and the labels it publishes to ConAnalysis. */
  class DOL {
    const m: Module
    const oracles: Oracles
    /** Dereference sites, newest first, and their (file, line) keys. */
    var danPtrOps: seq<FuncFileLine>
    var danPtrOpsMap: set<FileLine>
    /** Dangerous-call sites, newest first, and their (file, line) keys. */
    var danFuncOps: seq<FuncFileLine>
    var danFuncOpsMap: set<FileLine>
    /** The dangerous function names read from the list file. */
    var danFuncs: set<string>

    /** Every listed site has its key in the matching map. */
    ghost predicate Valid()
      reads this`danPtrOps, this`danPtrOpsMap, this`danFuncOps, this`danFuncOpsMap
    {
      Keys(danPtrOps) <= danPtrOpsMap && Keys(danFuncOps) <= danFuncOpsMap
    }

    constructor (m: Module, oracles: Oracles)
      requires HandlesOk(m)
      ensures Valid() && HandlesOk(this.m) && this.m == m && this.oracles == oracles
      ensures danPtrOps == [] && danFuncOps == [] && danPtrOpsMap == {} && danFuncOpsMap == {} && danFuncs == {}
    {
      this.m := m;
      this.oracles := oracles;
      danPtrOps, danPtrOpsMap, danFuncOps, danFuncOpsMap, danFuncs := [], {}, [], {}, {};
    }

    /** `clearClassDataMember`: the lists and the name set are emptied; the two maps are kept. */
    method ClearClassDataMember()
      requires Valid()
      modifies this`danPtrOps, this`danFuncOps, this`danFuncs
      ensures Valid() && danPtrOps == [] && danFuncOps == [] && danFuncs == {}
    {
      danPtrOps, danFuncOps, danFuncs := [], [], {};
    }

    /**
     * `parseInput`: an unopenable list aborts; otherwise every line's first
     * word joins `danFuncs_` and the size of the set is returned.
     */
    method ParseInput(fileOpen: bool, lines: seq<string>) returns (st: Status, n: nat)
      modifies this`danFuncs
      ensures st.Abort? <==> !fileOpen
      ensures st.Ok? ==> danFuncs == old(danFuncs) + ListedNames(lines) && n == |danFuncs|
      ensures st.Abort? ==> danFuncs == old(danFuncs)
    {
      if !fileOpen {
        return Abort("Couldn't find dangerous_func_list.txt"), 0;
      }
      var i := 0;
      while i < |lines|
        invariant 0 <= i <= |lines|
        invariant danFuncs == old(danFuncs) + ListedNames(lines[..i])
      {
        var name := FirstToken(lines[i]);
        if name != "" {
          danFuncs := danFuncs + {name};
        }
        assert lines[..i + 1][..i] == lines[..i];
        i := i + 1;
      }
      assert lines[..i] == lines;
      return Ok, |danFuncs|;
    }

    /**
     * `findDangerousOp`: walk every instruction of every function; record
     * each new dereference site and each new dangerous-call site at the
     * front of its list and its key in the matching map.
     */
    method FindDangerousOp(fnSet: set<FuncId>)
      requires Valid() && HandlesOk(m) && FnSetOk(m, fnSet)
      modifies this`danPtrOps, this`danPtrOpsMap, this`danFuncOps, this`danFuncOpsMap
      ensures Valid()
      ensures danPtrOps == Gathered(old(danPtrOps), ModulePtrSites(m, |m.funcs|))
      ensures danFuncOps == Gathered(old(danFuncOps), ModuleFuncSites(m, oracles, fnSet, danFuncs, |m.funcs|))
      ensures danPtrOpsMap == old(danPtrOpsMap) + Keys(danPtrOps)
      ensures danFuncOpsMap == old(danFuncOpsMap) + Keys(danFuncOps)
    {
      var f := 0;
      while f < |m.funcs|
        invariant 0 <= f <= |m.funcs|
        invariant danPtrOps == Gathered(old(danPtrOps), ModulePtrSites(m, f))
        invariant danFuncOps == Gathered(old(danFuncOps), ModuleFuncSites(m, oracles, fnSet, danFuncs, f))
        invariant danPtrOpsMap == old(danPtrOpsMap) + Keys(danPtrOps)
        invariant danFuncOpsMap == old(danFuncOpsMap) + Keys(danFuncOps)
      {
        LabelNextFunction(fnSet, f, old(danPtrOps), old(danPtrOpsMap), old(danFuncOps), old(danFuncOpsMap));
        f := f + 1;
      }
    }

    /**
     * One turn of `findDangerousOp`'s loop over functions: the state after
     * the first `f` functions becomes the state after the first `f + 1`.
     */
    method LabelNextFunction(fnSet: set<FuncId>, f: FuncId, ghost ptr0: seq<FuncFileLine>, ghost ptrMap0: set<FileLine>,
                             ghost fn0: seq<FuncFileLine>, ghost fnMap0: set<FileLine>)
      requires HandlesOk(m) && FnSetOk(m, fnSet) && f < |m.funcs|
      requires danPtrOps == Gathered(ptr0, ModulePtrSites(m, f)) && danPtrOpsMap == ptrMap0 + Keys(danPtrOps)
      requires danFuncOps == Gathered(fn0, ModuleFuncSites(m, oracles, fnSet, danFuncs, f)) && danFuncOpsMap == fnMap0 + Keys(danFuncOps)
      modifies this`danPtrOps, this`danPtrOpsMap, this`danFuncOps, this`danFuncOpsMap
      ensures danPtrOps == Gathered(ptr0, ModulePtrSites(m, f + 1)) && danPtrOpsMap == ptrMap0 + Keys(danPtrOps)
      ensures danFuncOps == Gathered(fn0, ModuleFuncSites(m, oracles, fnSet, danFuncs, f + 1)) && danFuncOpsMap == fnMap0 + Keys(danFuncOps)
    {
      BodyOk(m, f);
      LabelFunction(fnSet, f);
      GatheredAppend(ptr0, ModulePtrSites(m, f), PtrSites(m, f, Body(m, f)));
      GatheredAppend(fn0, ModuleFuncSites(m, oracles, fnSet, danFuncs, f), FuncSites(m, oracles, fnSet, danFuncs, f, Body(m, f)));
      UnionAbsorb(ptrMap0, Keys(old(danPtrOps)), Keys(danPtrOps));
      UnionAbsorb(fnMap0, Keys(old(danFuncOps)), Keys(danFuncOps));
    }

    /**
     * `findDangerousOp`'s walk over the instructions of function `f`; each
     * map gains the keys of what its list gains.
     */
    method LabelFunction(fnSet: set<FuncId>, f: FuncId)
      requires HandlesOk(m) && FnSetOk(m, fnSet) && f < |m.funcs|
      requires Keys(danPtrOps) <= danPtrOpsMap && Keys(danFuncOps) <= danFuncOpsMap
      modifies this`danPtrOps, this`danPtrOpsMap, this`danFuncOps, this`danFuncOpsMap
      ensures InstIdsOk(m, Body(m, f))
      ensures danPtrOps == Gathered(old(danPtrOps), PtrSites(m, f, Body(m, f)))
      ensures danFuncOps == Gathered(old(danFuncOps), FuncSites(m, oracles, fnSet, danFuncs, f, Body(m, f)))
      ensures danPtrOpsMap == old(danPtrOpsMap) + Keys(danPtrOps)
      ensures danFuncOpsMap == old(danFuncOpsMap) + Keys(danFuncOps)
      ensures Keys(old(danPtrOps)) <= Keys(danPtrOps) && Keys(old(danFuncOps)) <= Keys(danFuncOps)
    {
      var body := Body(m, f);
      BodyOk(m, f);
      ghost var ps := PtrSites(m, f, body);
      ghost var fs := FuncSites(m, oracles, fnSet, danFuncs, f, body);
      var k := 0;
      while k < |body|
        invariant 0 <= k <= |body|
        invariant danPtrOps == Gathered(old(danPtrOps), ps[..k])
        invariant danFuncOps == Gathered(old(danFuncOps), fs[..k])
        invariant danPtrOpsMap == old(danPtrOpsMap) + Keys(danPtrOps)
        invariant danFuncOpsMap == old(danFuncOpsMap) + Keys(danFuncOps)
      {
        LabelInst(fnSet, f, body, k, ps, fs, old(danPtrOps), old(danPtrOpsMap), old(danFuncOps), old(danFuncOpsMap));
        k := k + 1;
      }
      SliceAll(ps);
      SliceAll(fs);
      KeysGrow(old(danPtrOps), ps);
      KeysGrow(old(danFuncOps), fs);
    }

    /**
     * One turn of `findDangerousOp`'s loop over the instructions of function
     * `f`: the state after `body[..k]` becomes the state after `body[..k + 1]`.
     */
    method LabelInst(fnSet: set<FuncId>, f: FuncId, body: seq<InstId>, k: nat, ghost ps: seq<Option<FuncFileLine>>, ghost fs: seq<Option<FuncFileLine>>,
                     ghost ptr0: seq<FuncFileLine>, ghost ptrMap0: set<FileLine>, ghost fn0: seq<FuncFileLine>, ghost fnMap0: set<FileLine>)
      requires HandlesOk(m) && FnSetOk(m, fnSet) && f < |m.funcs| && InstIdsOk(m, body) && k < |body|
      requires ps == PtrSites(m, f, body) && fs == FuncSites(m, oracles, fnSet, danFuncs, f, body)
      requires danPtrOps == Gathered(ptr0, ps[..k]) && danPtrOpsMap == ptrMap0 + Keys(danPtrOps)
      requires danFuncOps == Gathered(fn0, fs[..k]) && danFuncOpsMap == fnMap0 + Keys(danFuncOps)
      modifies this`danPtrOps, this`danPtrOpsMap, this`danFuncOps, this`danFuncOpsMap
      ensures danPtrOps == Gathered(ptr0, ps[..k + 1]) && danPtrOpsMap == ptrMap0 + Keys(danPtrOps)
      ensures danFuncOps == Gathered(fn0, fs[..k + 1]) && danFuncOpsMap == fnMap0 + Keys(danFuncOps)
    {
      GatheredStep(ptr0, ps, k);
      GatheredStep(fn0, fs, k);
      KeysPushNew(danPtrOps, ps[k]);
      KeysPushNew(danFuncOps, fs[k]);
      UnionAssoc(ptrMap0, Keys(danPtrOps), NewKey(danPtrOps, ps[k]));
      UnionAssoc(fnMap0, Keys(danFuncOps), NewKey(danFuncOps, fs[k]));
      LabelPtrOp(f, body, k, ps);
      LabelCallOp(fnSet, f, body, k, fs);
    }

    /**
     * The `getelementptr` case of `findDangerousOp`'s loop body, for
     * instruction `body[k]` of function `f`, whose walk has the dereference
     * sites `ps`: a new entry goes to the front of the list and its key into
     * the map.
     */
    method LabelPtrOp(f: FuncId, body: seq<InstId>, k: nat, ghost ps: seq<Option<FuncFileLine>>)
      requires f < |m.funcs| && InstIdsOk(m, body) && k < |body| && ps == PtrSites(m, f, body)
      modifies this`danPtrOps, this`danPtrOpsMap
      ensures danPtrOps == PushNew(old(danPtrOps), ps[k])
      ensures danPtrOpsMap == old(danPtrOpsMap) + NewKey(old(danPtrOps), ps[k])
    {
      PtrSitesAt(m, f, body, k);
      var ins := m.insts[body[k]];
      var site := None;
      if ins.op == Gep && ins.dbg.Some? {
        site := Some(FuncFileLine(m.funcs[f].name, Basename(ins.dbg.value.file), ins.dbg.value.line));
      }
      if site.Some? && site.value !in danPtrOps {
        danPtrOps := [site.value] + danPtrOps;
        danPtrOpsMap := danPtrOpsMap + {(site.value.file, site.value.line)};
      }
    }

    /**
     * The call and invoke case of `findDangerousOp`'s loop body, for
     * instruction `body[k]` of function `f`, whose walk has the
     * dangerous-call sites `fs`: a new entry goes to the front of the list
     * and its key into the map.
     */
    method LabelCallOp(fnSet: set<FuncId>, f: FuncId, body: seq<InstId>, k: nat, ghost fs: seq<Option<FuncFileLine>>)
      requires HandlesOk(m) && FnSetOk(m, fnSet) && f < |m.funcs| && InstIdsOk(m, body) && k < |body|
      requires fs == FuncSites(m, oracles, fnSet, danFuncs, f, body)
      modifies this`danFuncOps, this`danFuncOpsMap
      ensures danFuncOps == PushNew(old(danFuncOps), fs[k])
      ensures danFuncOpsMap == old(danFuncOpsMap) + NewKey(old(danFuncOps), fs[k])
    {
      FuncSitesAt(m, oracles, fnSet, danFuncs, f, body, k);
      var site := CallSite(fnSet, f, body[k]);
      if site.Some? && site.value !in danFuncOps {
        danFuncOps := [site.value] + danFuncOps;
        danFuncOpsMap := danFuncOpsMap + {(site.value.file, site.value.line)};
      }
    }

    /** The entry the call and invoke case labels instruction `i` of function `f` with, if any. */
    method CallSite(fnSet: set<FuncId>, f: FuncId, i: InstId) returns (site: Option<FuncFileLine>)
      requires HandlesOk(m) && FnSetOk(m, fnSet) && f < |m.funcs| && i < |m.insts|
      ensures site == FuncSite(m, oracles, fnSet, danFuncs, f, i)
    {
      site := None;
      var ins := m.insts[i];
      if ins.op == Call || ins.op == Invoke {
        assert OperandsOk(m, ins);
        var calleeFn := CalledFunction(m, i);
        var names: set<string>;
        if calleeFn.None? {
          names := IndirectCandidates(m, oracles, fnSet, i);
        } else {
          names := {m.funcs[calleeFn.value].name};
        }
        assert names == CandidateNames(m, oracles, fnSet, i);
        if calleeFn.Some? && IsIntrinsicName(m.funcs[calleeFn.value].name) {
          // an `llvm.` callee is never labelled
        } else if names != {} && names * danFuncs != {} && ins.dbg.Some? {
          site := Some(FuncFileLine(m.funcs[f].name, Basename(ins.dbg.value.file), ins.dbg.value.line));
        }
      }
    }

    /**
     * `runOnModule`: clear, build the candidate set, read the list (an
     * unopenable list aborts), then label the module.
     */
    method RunOnModule(fileOpen: bool, lines: seq<string>) returns (st: Status)
      requires Valid() && HandlesOk(m)
      modifies this`danPtrOps, this`danPtrOpsMap, this`danFuncOps, this`danFuncOpsMap, this`danFuncs
      ensures Valid()
      ensures st.Abort? <==> !fileOpen
      ensures st.Ok? ==> danFuncs == ListedNames(lines) && FnSetOk(m, NonIntrinsicFuncs(m))
      ensures st.Ok? ==> danPtrOps == Gathered([], ModulePtrSites(m, |m.funcs|))
      ensures st.Ok? ==> danFuncOps == Gathered([], ModuleFuncSites(m, oracles, NonIntrinsicFuncs(m), danFuncs, |m.funcs|))
      ensures danPtrOpsMap == old(danPtrOpsMap) + Keys(danPtrOps)
      ensures danFuncOpsMap == old(danFuncOpsMap) + Keys(danFuncOps)
    {
      ClearClassDataMember();
      var allFuncs := AllFuncs(m);
      assert allFuncs == NonIntrinsicFuncs(m);
      var n;
      st, n := ParseInput(fileOpen, lines);
      if st.Abort? {
        return;
      }
      FindDangerousOp(allFuncs);
    }
  }
}
