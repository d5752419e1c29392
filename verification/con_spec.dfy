/**
 * Value-level definitions behind the ConAnalysis pass: the call-stack
 * frames and the measure the cycle guard shrinks, the per-callee
 * enter/exit memo, the correlation of tainted calls with tainted branches,
 * and the intersection of a dominator walk with the taint trace.
 */
module ConSpec {
  import opened IR
  import opened Taint

  /** `EnterExitVal`: the taint-set size when a callee was last entered, and when it was last left. */
  datatype EnterExit = EnterExit(enterVal: nat, exitVal: nat)

  /** `funcEnterExitValMap_[f]`: a missing entry reads as a zero-initialised record. */
  function MemoAt(memo: map<FuncId, EnterExit>, f: FuncId): EnterExit
  {
    if f in memo then memo[f] else EnterExit(0, 0)
  }

  /**
   * The control-dependence service: whether a function has a graph, and
   * `influences(a, b)` between two blocks of a function.
   */
  datatype ControlDeps = ControlDeps(hasGraph: FuncId -> bool, influences: (FuncId, BlockId, BlockId) -> bool)

  /** What the labelling pass hands over: both site lists and the keys of their lookup maps. */
  datatype Labels = Labels(ptrOps: seq<FuncFileLine>, ptrKeys: set<FileLine>,
                           funcOps: seq<FuncFileLine>, funcKeys: set<FileLine>)

  /** `b` starts with `a`: nothing listed in `a` was removed or reordered. */
  predicate Extends<T(==)>(a: seq<T>, b: seq<T>)
  {
    a <= b
  }

  lemma ExtendsTrans<T>(a: seq<T>, b: seq<T>, c: seq<T>)
    requires Extends(a, b) && Extends(b, c)
    ensures Extends(a, c)
  {
  }

  /** Every frame names a function of the module and, when it has one, an instruction of the module. */
  predicate FramesOk(m: Module, s: seq<Frame>)
  {
    forall k :: 0 <= k < |s| ==> s[k].func < |m.funcs| && (s[k].inst.Some? ==> s[k].inst.value < |m.insts|)
  }

  /** The names of all functions of the module. */
  function FuncNames(m: Module): set<string>
  {
    set f | 0 <= f < |m.funcs| :: m.funcs[f].name
  }

  /** The names of the functions on a call stack (what the cycle guard compares against). */
  function StackNames(m: Module, s: seq<Frame>): set<string>
    requires FramesOk(m, s)
  {
    set k | 0 <= k < |s| :: m.funcs[s[k].func].name
  }

  /** How many function names are not yet on the stack. */
  function Room(m: Module, s: seq<Frame>): nat
    requires FramesOk(m, s)
  {
    |FuncNames(m) - StackNames(m, s)|
  }

  /**
   * The cycle guard makes recursion terminate: pushing a callee whose name
   * is not on the stack leaves one name fewer off the stack, so the depth of
   * nested calls is at most the number of distinct function names.
   */
  lemma PushShrinks(m: Module, s: seq<Frame>, g: FuncId)
    requires FramesOk(m, s) && g < |m.funcs| && m.funcs[g].name !in StackNames(m, s)
    ensures FramesOk(m, [Frame(g, None)] + s)
    ensures Room(m, [Frame(g, None)] + s) < Room(m, s)
  {
    var s' := [Frame(g, None)] + s;
    var n := m.funcs[g].name;
    PushNames(m, s, g);
    var free := FuncNames(m) - StackNames(m, s);
    assert n in free;
    assert FuncNames(m) - StackNames(m, s') == free - {n};
  }

  lemma PushNames(m: Module, s: seq<Frame>, g: FuncId)
    requires FramesOk(m, s) && g < |m.funcs|
    ensures FramesOk(m, [Frame(g, None)] + s)
    ensures StackNames(m, [Frame(g, None)] + s) == StackNames(m, s) + {m.funcs[g].name}
  {
    var s' := [Frame(g, None)] + s;
    forall x | x in StackNames(m, s') ensures x in StackNames(m, s) + {m.funcs[g].name} {
      var k :| 0 <= k < |s'| && m.funcs[s'[k].func].name == x;
      if k > 0 {
        assert s'[k] == s[k - 1];
      }
    }
    forall x | x in StackNames(m, s) ensures x in StackNames(m, s') {
      var k :| 0 <= k < |s| && m.funcs[s[k].func].name == x;
      assert s'[k + 1] == s[k];
    }
    assert s'[0].func == g;
  }

  /**
   * A tainted call and a tainted branch are correlated when they sit in the
   * same function, that function has a control-dependence graph, and the
   * branch's block influences the call's block.
   */
  predicate Correlated(m: Module, cd: ControlDeps, call: InstId, br: InstId)
    requires ParentsOk(m) && call < |m.insts| && br < |m.insts|
  {
    var f := FuncOf(m, call);
    f == FuncOf(m, br) && cd.hasGraph(f) && cd.influences(f, m.insts[br].parent, m.insts[call].parent)
  }

  /** The inner loop over `corruptedBr_`: append each correlated branch not yet listed. */
  function ScanBranches(m: Module, cd: ControlDeps, acc: seq<InstId>, call: InstId, brs: seq<InstId>): seq<InstId>
    requires ParentsOk(m) && call < |m.insts| && InstIdsOk(m, brs)
  {
    if brs == [] then acc
    else
      var prev := ScanBranches(m, cd, acc, call, brs[..|brs| - 1]);
      var br := brs[|brs| - 1];
      if Correlated(m, cd, call, br) && br !in prev then prev + [br] else prev
  }

  /** `ctrlDepBrs`: the outer loop over `corruptedCallIns_`. */
  function CtrlDepBranches(m: Module, cd: ControlDeps, calls: seq<InstId>, brs: seq<InstId>): seq<InstId>
    requires ParentsOk(m) && InstIdsOk(m, calls) && InstIdsOk(m, brs)
  {
    if calls == [] then []
    else ScanBranches(m, cd, CtrlDepBranches(m, cd, calls[..|calls| - 1], brs), calls[|calls| - 1], brs)
  }

  lemma {:induction false} ScanBranchesMembers(m: Module, cd: ControlDeps, acc: seq<InstId>, call: InstId, brs: seq<InstId>, b: InstId)
    requires ParentsOk(m) && call < |m.insts| && InstIdsOk(m, brs)
    ensures b in ScanBranches(m, cd, acc, call, brs) <==> b in acc || (b in brs && Correlated(m, cd, call, b))
    ensures NoDup(acc) ==> NoDup(ScanBranches(m, cd, acc, call, brs))
  {
    if brs != [] {
      var front := brs[..|brs| - 1];
      ScanBranchesMembers(m, cd, acc, call, front, b);
      assert brs == front + [brs[|brs| - 1]];
    }
  }

  /**
   * The branches recorded for a dangerous site are exactly the tainted
   * branches correlated with some tainted call, each listed once.
   */
  lemma {:induction false} CtrlDepBranchesMembers(m: Module, cd: ControlDeps, calls: seq<InstId>, brs: seq<InstId>, b: InstId)
    requires ParentsOk(m) && InstIdsOk(m, calls) && InstIdsOk(m, brs)
    ensures b in CtrlDepBranches(m, cd, calls, brs) <==>
            b in brs && exists k :: 0 <= k < |calls| && Correlated(m, cd, calls[k], b)
    ensures NoDup(CtrlDepBranches(m, cd, calls, brs))
  {
    if calls != [] {
      var front := calls[..|calls| - 1];
      var call := calls[|calls| - 1];
      CtrlDepBranchesMembers(m, cd, front, brs, b);
      ScanBranchesMembers(m, cd, CtrlDepBranches(m, cd, front, brs), call, brs, b);
      if b in brs && exists k :: 0 <= k < |calls| && Correlated(m, cd, calls[k], b) {
        var k :| 0 <= k < |calls| && Correlated(m, cd, calls[k], b);
        if k < |front| {
          assert calls[k] == front[k];
        }
      }
      if b in brs && exists k :: 0 <= k < |front| && Correlated(m, cd, front[k], b) {
        var k :| 0 <= k < |front| && Correlated(m, cd, front[k], b);
        assert calls[k] == front[k];
      }
    }
  }

  /** One copy of `x` for each time it occurs in `ys`. */
  function Occurrences<T(==)>(x: T, ys: seq<T>): seq<T>
  {
    if ys == [] then []
    else Occurrences(x, ys[..|ys| - 1]) + (if ys[|ys| - 1] == x then [x] else [])
  }

  /** `getFeasiblePath`'s list: for each trace entry in order, one copy per occurrence in the walk. */
  function FeasiblePath<T(==)>(trace: seq<T>, walk: seq<T>): seq<T>
  {
    if trace == [] then []
    else FeasiblePath(trace[..|trace| - 1], walk) + Occurrences(trace[|trace| - 1], walk)
  }

  /** The trace entries that occur in `walk`, in trace order (reference definition). */
  function KeptInTraceOrder<T(==)>(trace: seq<T>, walk: seq<T>): seq<T>
  {
    if trace == [] then []
    else KeptInTraceOrder(trace[..|trace| - 1], walk) + (if trace[|trace| - 1] in walk then [trace[|trace| - 1]] else [])
  }

  lemma {:induction false} OccurrencesShape<T>(x: T, ys: seq<T>)
    ensures Occurrences(x, ys) == [] <==> x !in ys
    ensures forall k :: 0 <= k < |Occurrences(x, ys)| ==> Occurrences(x, ys)[k] == x
    ensures NoDup(ys) && x in ys ==> Occurrences(x, ys) == [x]
  {
    if ys != [] {
      var front := ys[..|ys| - 1];
      OccurrencesShape(x, front);
      assert ys == front + [ys[|ys| - 1]];
      if NoDup(ys) && x in ys {
        assert NoDup(front);
        if x in front {
          var k :| 0 <= k < |front| && front[k] == x;
          assert ys[k] == x && k < |ys| - 1;
        }
      }
    }
  }

  /** An entry is on the feasible path exactly when it is in both the trace and the walk. */
  lemma {:induction false} FeasiblePathMembers<T>(trace: seq<T>, walk: seq<T>, v: T)
    ensures v in FeasiblePath(trace, walk) <==> v in trace && v in walk
  {
    if trace != [] {
      var front, last := trace[..|trace| - 1], trace[|trace| - 1];
      FeasiblePathMembers(front, walk, v);
      OccurrencesShape(last, walk);
      assert trace == front + [last];
      if v in Occurrences(last, walk) {
        var k :| 0 <= k < |Occurrences(last, walk)| && Occurrences(last, walk)[k] == v;
      }
      if v == last && v in walk {
        assert Occurrences(last, walk)[0] == v;
      }
    }
  }

  /** Over a walk without repetitions, the feasible path is the trace filtered by the walk, in trace order. */
  lemma {:induction false} FeasiblePathInTraceOrder<T>(trace: seq<T>, walk: seq<T>)
    requires NoDup(walk)
    ensures FeasiblePath(trace, walk) == KeptInTraceOrder(trace, walk)
  {
    if trace != [] {
      FeasiblePathInTraceOrder(trace[..|trace| - 1], walk);
      OccurrencesShape(trace[|trace| - 1], walk);
    }
  }

  /** `corruptedPtr_[v]` read through `operator[]`: a missing key holds the empty list. */
  function PtrList(ptr: map<Value, seq<GepIdx>>, v: Value): seq<GepIdx>
  {
    if v in ptr then ptr[v] else []
  }

  /** Some operand is already tainted. */
  predicate AnyIn(ops: seq<Value>, s: set<Value>)
  {
    exists k :: 0 <= k < |ops| && ops[k] in s
  }

  /** A descriptor recorded under the GEP's base selects the same element as the GEP. */
  predicate ElementMatch(ptr: map<Value, seq<GepIdx>>, ops: seq<Value>)
    requires |ops| >= 1
  {
    ops[0] in ptr && exists j :: 0 <= j < |ptr[ops[0]]| && Selects(ptr[ops[0]][j], ops)
  }

  /**
   * Element precision: a GEP is matched exactly when the very descriptor it
   * would record itself (same arity, same index operands) is listed under
   * its base; a GEP of any other arity is never matched.
   */
  lemma ElementMatchIff(ptr: map<Value, seq<GepIdx>>, ops: seq<Value>)
    requires |ops| >= 1
    ensures ElementMatch(ptr, ops) <==> Descriptor(ops).Some? && Descriptor(ops).value in PtrList(ptr, ops[0])
  {
    if ElementMatch(ptr, ops) {
      var j :| 0 <= j < |ptr[ops[0]]| && Selects(ptr[ops[0]][j], ops);
      assert ptr[ops[0]][j] == Descriptor(ops).value;
    }
  }

  /**
   * The trace after the formal-parameter loop has looked at formals
   * `0 .. n-1` of `f`: a formal whose actual is tainted is appended unless
   * it is already there.
   */
  function ArgsTrace(trace: seq<Value>, f: FuncId, cp: map<nat, Value>, n: nat): seq<Value>
  {
    if n == 0 then trace
    else
      var t := ArgsTrace(trace, f, cp, n - 1);
      if n - 1 in cp && cp[n - 1] in t && Arg(f, n - 1) !in t then t + [Arg(f, n - 1)] else t
  }

  /** The pointer map after the same loop: a formal inherits its actual's descriptor list. */
  function ArgsPtr(ptr: map<Value, seq<GepIdx>>, f: FuncId, cp: map<nat, Value>, n: nat): map<Value, seq<GepIdx>>
  {
    if n == 0 then ptr
    else
      var q := ArgsPtr(ptr, f, cp, n - 1);
      if n - 1 in cp && cp[n - 1] in q then q[Arg(f, n - 1) := q[cp[n - 1]]] else q
  }

  /**
   * With instruction-valued actuals (the only ones a call site hands over),
   * the mapping adds exactly the formals whose actual is tainted, and hands
   * each formal its actual's descriptors.
   */
  lemma {:induction false} ArgsTraceMembers(trace: seq<Value>, f: FuncId, cp: map<nat, Value>, n: nat, v: Value)
    requires forall p :: p in cp ==> cp[p].Inst?
    ensures Extends(trace, ArgsTrace(trace, f, cp, n))
    ensures v in ArgsTrace(trace, f, cp, n) <==>
            v in trace || (v.Arg? && v.func == f && v.pos < n && v.pos in cp && cp[v.pos] in trace)
  {
    if n > 0 {
      ArgsTraceMembers(trace, f, cp, n - 1, v);
      var t := ArgsTrace(trace, f, cp, n - 1);
      if n - 1 in cp {
        ArgsTraceMembers(trace, f, cp, n - 1, cp[n - 1]);
        assert cp[n - 1] in t <==> cp[n - 1] in trace;
      }
      ExtendsTrans(trace, t, ArgsTrace(trace, f, cp, n));
    }
  }

  lemma {:induction false} ArgsPtrEntries(ptr: map<Value, seq<GepIdx>>, f: FuncId, cp: map<nat, Value>, n: nat, v: Value)
    requires forall p :: p in cp ==> cp[p].Inst?
    ensures v in ArgsPtr(ptr, f, cp, n) <==>
            v in ptr || (v.Arg? && v.func == f && v.pos < n && v.pos in cp && cp[v.pos] in ptr)
    ensures v.Inst? ==> PtrList(ArgsPtr(ptr, f, cp, n), v) == PtrList(ptr, v)
    ensures v.Arg? && v.func == f && v.pos < n && v.pos in cp && cp[v.pos] in ptr ==>
            ArgsPtr(ptr, f, cp, n)[v] == ptr[cp[v.pos]]
    ensures v in ptr && !(v.Arg? && v.func == f && v.pos < n && v.pos in cp && cp[v.pos] in ptr) ==>
            ArgsPtr(ptr, f, cp, n)[v] == ptr[v]
  {
    if n > 0 {
      ArgsPtrEntries(ptr, f, cp, n - 1, v);
      if n - 1 in cp {
        ArgsPtrEntries(ptr, f, cp, n - 1, cp[n - 1]);
      }
    }
  }

  lemma {:induction false} ArgsTraceExtends(trace: seq<Value>, f: FuncId, cp: map<nat, Value>, n: nat)
    ensures Extends(trace, ArgsTrace(trace, f, cp, n))
  {
    if n > 0 {
      ArgsTraceExtends(trace, f, cp, n - 1);
      ExtendsTrans(trace, ArgsTrace(trace, f, cp, n - 1), ArgsTrace(trace, f, cp, n));
    }
  }
}
