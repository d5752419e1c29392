/**
 * The ConAnalysis pass: replay a race report as a call stack, run a forward
 * taint walk from the racy instruction through callees and back out to the
 * callers, then report dangerous sites that are control dependent on a
 * tainted branch.
 *
 * The module, the control-dependence service, the instruction numbering and
 * the labels of the DOL pass are fixed inputs (`const` fields); the taint
 * state and the call stacks are fields the methods update in place.
 */
module ConAnalysis {
  import opened IR
  import opened Taint
  import opened ConSpec
  import opened ConSeeds
  import opened ConSites
  import opened RaceInput
  import Dominators

  /** The state a head candidate leaves once its stack is replayed and its sites are counted. */
  datatype CandidateEnd = CandidateEnd(
    taint: set<Value>, trace: seq<Value>,
    depPtr: map<FileLine, seq<InstId>>, depFunc: map<FileLine, seq<InstId>>,
    doms: map<FuncId, Dominators.DomMap>)

  class ConAnalysisPass {
    const m: Module
    const cd: ControlDeps
    const labels: Labels
    /** `getInst2IntMap()` of the numbering pass. */
    const ins2int: map<InstId, nat>
    /** `getFileLine2InstListMap()` of the numbering pass. */
    const srcMap: map<FileLine, seq<InstId>>

    var corruptedIR: set<Value>
    var ordered: seq<Value>
    var corruptedPtr: map<Value, seq<GepIdx>>
    var callStack: seq<Frame>
    var memo: map<FuncId, EnterExit>
    var corruptedBr: seq<InstId>
    var corruptedCallIns: seq<InstId>
    var interCtrlDepPtr: map<FileLine, seq<InstId>>
    var interCtrlDepFunc: map<FileLine, seq<InstId>>
    var finishedVars: set<Value>
    var callStackHead: seq<Frame>
    var callStackBody: seq<Frame>
    var dominatorMap: map<FuncId, Dominators.DomMap>

    /** The pass over a module and the results of the passes it depends on, with every table empty. */
    constructor(m: Module, cd: ControlDeps, labels: Labels, ins2int: map<InstId, nat>, srcMap: map<FileLine, seq<InstId>>)
      ensures this.m == m && this.cd == cd && this.labels == labels && this.ins2int == ins2int && this.srcMap == srcMap
      ensures corruptedIR == {} && ordered == [] && corruptedPtr == map[] && callStack == [] && memo == map[]
      ensures corruptedBr == [] && corruptedCallIns == [] && interCtrlDepPtr == map[] && interCtrlDepFunc == map[]
      ensures finishedVars == {} && callStackHead == [] && callStackBody == [] && dominatorMap == map[]
      ensures Live()
    {
      this.m, this.cd, this.labels, this.ins2int, this.srcMap := m, cd, labels, ins2int, srcMap;
      corruptedIR, ordered, corruptedPtr, callStack, memo := {}, [], map[], [], map[];
      corruptedBr, corruptedCallIns, interCtrlDepPtr, interCtrlDepFunc := [], [], map[], map[];
      finishedVars, callStackHead, callStackBody, dominatorMap := {}, [], [], map[];
      new;
      assert (set v | v in ordered) == {};
    }

    /** The taint set and the ordered trace agree, and every tainted value exists in the module. */
    ghost predicate TaintOk()
      reads this`corruptedIR, this`ordered
    {
      Synced(corruptedIR, ordered) && forall v :: v in corruptedIR ==> ValueOk(m, v)
    }

    ghost predicate StackOk()
      reads this`callStack
    {
      FramesOk(m, callStack)
    }

    /** The global branch and call lists hold instructions of the module, each once. */
    ghost predicate BranchesOk()
      reads this`corruptedBr, this`corruptedCallIns
    {
      InstIdsOk(m, corruptedBr) && NoDup(corruptedBr) &&
      InstIdsOk(m, corruptedCallIns) && NoDup(corruptedCallIns)
    }

    /** Cross-function results are only recorded at labelled sites of the matching kind. */
    ghost predicate DepsOk()
      reads this`interCtrlDepPtr, this`interCtrlDepFunc
    {
      interCtrlDepPtr.Keys <= labels.ptrKeys && interCtrlDepFunc.Keys <= labels.funcKeys
    }

    /** What the taint walk keeps true. */
    ghost predicate Live()
      reads this`corruptedIR, this`ordered, this`callStack, this`corruptedBr, this`corruptedCallIns,
            this`interCtrlDepPtr, this`interCtrlDepFunc
    {
      TaintOk() && StackOk() && BranchesOk() && DepsOk()
    }

    /**
     * `parseInput`: an unopenable report aborts, and so does the first line
     * on which `sscanf` matched nothing; otherwise the entries in file order.
     */
    method ParseInput(fileOpen: bool, lines: seq<Scanned>) returns (st: Status, cs: seq<FuncFileLine>)
      ensures st.Ok? <==> fileOpen && AllAccepted(lines)
      ensures st.Ok? ==> cs == Entries(lines)
    {
      cs := [];
      if !fileOpen {
        return Abort("Couldn't find the race report"), cs;
      }
      var k := 0;
      while k < |lines|
        invariant 0 <= k <= |lines|
        invariant AllAccepted(lines[..k])
        invariant cs == Entries(lines[..k])
      {
        if lines[k].matched <= 0 {
          return Abort("Invalid input line!"), cs;
        }
        EntriesSnoc(lines[..k], lines[k]);
        assert lines[..k + 1] == lines[..k] + [lines[k]];
        cs := cs + [lines[k].entry];
        k := k + 1;
      }
      assert lines[..k] == lines;
      st := Ok;
    }

    /**
     * `add2CrptList`: insert into both the set and the ordered list exactly
     * when the value is absent, and say whether it was.
     */
    method Add2CrptList(v: Value) returns (added: bool)
      requires TaintOk() && ValueOk(m, v)
      modifies this`corruptedIR, this`ordered
      ensures TaintOk()
      ensures added <==> v !in old(corruptedIR)
      ensures ordered == old(ordered) + (if added then [v] else [])
      ensures corruptedIR == old(corruptedIR) + {v}
    {
      added := v !in corruptedIR;
      if added {
        SyncedAdd(corruptedIR, ordered, v);
        ordered := ordered + [v];
        corruptedIR := corruptedIR + {v};
      }
    }

    /**
     * Append a GEP's descriptor to the list under its operand `keyPos`; the
     * source aborts on an arity other than 2 or 3 before reading that operand.
     */
    method AddDescriptor(ops: seq<Value>, keyPos: nat) returns (st: Status)
      requires keyPos <= 1
      modifies this`corruptedPtr
      ensures st.Ok? <==> Descriptor(ops).Some?
      ensures st.Ok? ==> corruptedPtr == old(corruptedPtr)[ops[keyPos] := PtrList(old(corruptedPtr), ops[keyPos]) + [Descriptor(ops).value]]
      ensures st.Abort? ==> corruptedPtr == old(corruptedPtr)
    {
      var d := Descriptor(ops);
      if d.None? {
        return Abort("Cannot parse GetElementPtrInst");
      }
      var key := ops[keyPos];
      corruptedPtr := corruptedPtr[key := PtrList(corruptedPtr, key) + [d.value]];
      st := Ok;
    }

    /**
     * The seeding step of the walk over `f`: find the call-stack instruction
     * in `f`'s instruction order.  A call is skipped (the walk resumes after
     * it, the callee having been analysed already); anything else is tainted,
     * a GEP also records its descriptor under its base (operand 0), and the
     * walk resumes at it.  A missing instruction, or a call that is the last
     * instruction, fails the source's assertion.
     */
    method SeedInstruction(f: FuncId, body: seq<InstId>, ins: InstId) returns (st: Status, pos: nat, start: nat, rv: bool)
      requires HandlesOk(m) && f < |m.funcs| && body == Body(m, f) && ins < |m.insts|
      requires TaintOk()
      modifies this`corruptedIR, this`ordered, this`corruptedPtr
      ensures TaintOk()
      ensures ins !in body ==> st.Abort? && ordered == old(ordered) && corruptedPtr == old(corruptedPtr)
      ensures ins in body ==> pos < |body| && body[pos] == ins && forall j :: 0 <= j < pos ==> body[j] != ins
      ensures ins in body && m.insts[ins].op == Call ==>
                start == pos + 1 && !rv && ordered == old(ordered) && corruptedPtr == old(corruptedPtr) &&
                (st.Ok? <==> start < |body|)
      ensures ins in body && m.insts[ins].op != Call ==>
                start == pos && (rv <==> Inst(ins) !in old(corruptedIR)) &&
                ordered == old(ordered) + (if rv then [Inst(ins)] else [])
      ensures ins in body && m.insts[ins].op != Call && !(rv && m.insts[ins].op == Gep) ==>
                st.Ok? && corruptedPtr == old(corruptedPtr)
      ensures ins in body && m.insts[ins].op == Gep && rv ==>
                var ops := m.insts[ins].operands;
                (st.Ok? <==> Descriptor(ops).Some?) &&
                (st.Ok? ==> corruptedPtr == old(corruptedPtr)[ops[0] := PtrList(old(corruptedPtr), ops[0]) + [Descriptor(ops).value]])
      ensures st.Ok? ==> start < |body|
    {
      pos := 0;
      while pos < |body| && body[pos] != ins
        invariant pos <= |body|
        invariant forall j :: 0 <= j < pos ==> body[j] != ins
      {
        pos := pos + 1;
      }
      start, rv := pos, false;
      if pos == |body| {
        return Abort("Couldn't find callstack instruction."), pos, start, rv;
      }
      var ins' := m.insts[ins];
      st := Ok;
      if ins'.op == Call {
        start := pos + 1;
      } else if Inst(ins) !in corruptedIR {
        rv := Add2CrptList(Inst(ins));
        if ins'.op == Gep {
          assert OperandsOk(m, ins');
          st := AddDescriptor(ins'.operands, 0);
        }
      }
      if start == |body| {
        st := Abort("Couldn't find callstack instruction.");
      }
    }

    /**
     * The formal-parameter loop: for every formal whose position holds a
     * corrupted actual, taint the formal when the actual is tainted, and
     * let it inherit the actual's descriptors.  When the walk has nothing
     * left to visit (`atEnd`), the first such formal returns `true` at once.
     */
    method MapArguments(f: FuncId, cp: map<nat, Value>, atEnd: bool) returns (early: bool)
      requires f < |m.funcs| && TaintOk()
      modifies this`corruptedIR, this`ordered, this`corruptedPtr
      ensures TaintOk()
      ensures early <==> atEnd && exists p :: p in cp && p < |m.funcs[f].ty.params|
      ensures early ==> ordered == old(ordered) && corruptedPtr == old(corruptedPtr)
      ensures !early ==> ordered == ArgsTrace(old(ordered), f, cp, |m.funcs[f].ty.params|) &&
                         corruptedPtr == ArgsPtr(old(corruptedPtr), f, cp, |m.funcs[f].ty.params|)
    {
      var n := |m.funcs[f].ty.params|;
      var p := 0;
      while p < n
        invariant p <= n && TaintOk()
        invariant ordered == ArgsTrace(old(ordered), f, cp, p)
        invariant corruptedPtr == ArgsPtr(old(corruptedPtr), f, cp, p)
        invariant atEnd ==> forall q :: q in cp ==> q >= p
        invariant atEnd ==> ordered == old(ordered) && corruptedPtr == old(corruptedPtr)
      {
        if p in cp {
          if atEnd {
            return true;
          }
          var formal := Arg(f, p);
          if cp[p] in corruptedIR && formal !in corruptedIR {
            var _ := Add2CrptList(formal);
          }
          if cp[p] in corruptedPtr {
            corruptedPtr := corruptedPtr[formal := corruptedPtr[cp[p]]];
          }
        }
        p := p + 1;
      }
      early := false;
    }
 
    /**
     * Whether a branch tainted earlier in this function's walk influences
     * the block of instruction `i`; never when the function has no
     * control-dependence graph.
     */
    method Influenced(f: FuncId, localBr: seq<InstId>, i: InstId) returns (r: bool)
      requires InstIdsOk(m, localBr) && i < |m.insts|
      ensures r <==> cd.hasGraph(f) &&
                     exists j :: 0 <= j < |localBr| && cd.influences(f, m.insts[localBr[j]].parent, m.insts[i].parent)
    {
      r := false;
      if !cd.hasGraph(f) {
        return;
      }
      var j := 0;
      while j < |localBr|
        invariant j <= |localBr|
        invariant forall k :: 0 <= k < j ==> !cd.influences(f, m.insts[localBr[k]].parent, m.insts[i].parent)
      {
        if cd.influences(f, m.insts[localBr[j]].parent, m.insts[i].parent) {
          return true;
        }
        j := j + 1;
      }
    }

    /** The cycle guard: some frame on the live stack belongs to a function of this name. */
    method NameOnStack(name: string) returns (found: bool)
      requires StackOk()
      ensures found <==> name in StackNames(m, callStack)
    {
      var k := 0;
      while k < |callStack|
        invariant k <= |callStack|
        invariant forall j :: 0 <= j < k ==> m.funcs[callStack[j].func].name != name
      {
        if m.funcs[callStack[k].func].name == name {
          return true;
        }
        k := k + 1;
      }
      found := false;
    }

    /**
     * The callee a call instruction is followed into: it has a static
     * callee, the callee is not an intrinsic, and no frame on the live stack
     * carries the callee's name.
     */
    method ResolveCallee(i: InstId) returns (target: Option<FuncId>)
      requires HandlesOk(m) && StackOk() && i < |m.insts| && |m.insts[i].operands| >= 1
      ensures target.Some? <==>
                CalledFunction(m, i).Some? && !IsIntrinsicName(m.funcs[CalledFunction(m, i).value].name) &&
                m.funcs[CalledFunction(m, i).value].name !in StackNames(m, callStack)
      ensures target.Some? ==> target == CalledFunction(m, i)
    {
      var callee := CalledFunction(m, i);
      if callee.None? || IsIntrinsicName(m.funcs[callee.value].name) {
        return None;
      }
      var cycle := NameOnStack(m.funcs[callee.value].name);
      target := if cycle then None else callee;
    }

    /** The call `i` names a static, non-intrinsic callee whose name no live frame carries. */
    ghost predicate Followable(i: InstId)
      requires HandlesOk(m) && StackOk() && i < |m.insts| && |m.insts[i].operands| >= 1
      reads this`callStack
    {
      CalledFunction(m, i).Some? && !IsIntrinsicName(m.funcs[CalledFunction(m, i).value].name) &&
      m.funcs[CalledFunction(m, i).value].name !in StackNames(m, callStack)
    }

    /** Some operand of `i` is an instruction that is tainted or has descriptors recorded. */
    ghost predicate TaintedActual(i: InstId)
      requires i < |m.insts|
      reads this`corruptedIR, this`corruptedPtr
    {
      exists k :: 0 <= k < |m.insts[i].operands| && m.insts[i].operands[k].Inst? &&
        (m.insts[i].operands[k] in corruptedIR || m.insts[i].operands[k] in corruptedPtr)
    }

    /** The memo says `g` was last entered and left at the current taint size. */
    ghost predicate MemoSkips(g: FuncId)
      reads this`memo, this`corruptedIR
    {
      g in memo && memo[g].enterVal == memo[g].exitVal == |corruptedIR|
    }

    /**
     * `coparams`: the operand positions of a call that hold an instruction
     * that is tainted or has descriptors recorded, with those operands.
     */
    method CorruptedParams(i: InstId) returns (cp: map<nat, Value>, any: bool)
      requires HandlesOk(m) && i < |m.insts|
      ensures forall k: nat :: k in cp <==>
                k < |m.insts[i].operands| && m.insts[i].operands[k].Inst? &&
                (m.insts[i].operands[k] in corruptedIR || m.insts[i].operands[k] in corruptedPtr)
      ensures forall k :: k in cp ==> cp[k] == m.insts[i].operands[k] && ValueOk(m, cp[k])
      ensures any <==> cp != map[]
      ensures any <==> TaintedActual(i)
    {
      var ops := m.insts[i].operands;
      assert OperandsOk(m, m.insts[i]);
      cp, any := map[], false;
      var k := 0;
      while k < |ops|
        invariant k <= |ops|
        invariant forall j: nat :: j in cp <==> j < k && ops[j].Inst? && (ops[j] in corruptedIR || ops[j] in corruptedPtr)
        invariant forall j :: j in cp ==> j < |ops| && cp[j] == ops[j] && ValueOk(m, cp[j])
        invariant any <==> cp != map[]
      {
        var v := ops[k];
        if v.Inst? && (v in corruptedIR || v in corruptedPtr) {
          cp := cp[k := v];
          any := true;
        }
        k := k + 1;
      }
      if any {
        var j :| j in cp;
      }
    }

    /** The inner loop of the correlation: scan the tainted branches for one tainted call. */
    method ScanForCall(acc: seq<InstId>, call: InstId) returns (r: seq<InstId>)
      requires ParentsOk(m) && BranchesOk() && call < |m.insts|
      ensures r == ScanBranches(m, cd, acc, call, corruptedBr)
    {
      r := acc;
      var b := 0;
      while b < |corruptedBr|
        invariant b <= |corruptedBr|
        invariant r == ScanBranches(m, cd, acc, call, corruptedBr[..b])
      {
        var br := corruptedBr[b];
        assert corruptedBr[..b + 1][..b] == corruptedBr[..b];
        if FuncOf(m, call) == FuncOf(m, br) && cd.hasGraph(FuncOf(m, call)) &&
           cd.influences(FuncOf(m, call), m.insts[br].parent, m.insts[call].parent) {
          if br !in r {
            r := r + [br];
          }
        }
        b := b + 1;
      }
      assert corruptedBr[..b] == corruptedBr;
    }

    /**
     * `ctrlDepBrs`: every tainted branch that influences the block of some
     * tainted call in its own function, in first-found order, each once.
     */
    method CollectCtrlDepBrs() returns (brs: seq<InstId>)
      requires ParentsOk(m) && BranchesOk()
      ensures brs == CtrlDepBranches(m, cd, corruptedCallIns, corruptedBr)
    {
      brs := [];
      var c := 0;
      while c < |corruptedCallIns|
        invariant c <= |corruptedCallIns|
        invariant brs == CtrlDepBranches(m, cd, corruptedCallIns[..c], corruptedBr)
      {
        assert corruptedCallIns[..c + 1][..c] == corruptedCallIns[..c];
        brs := ScanForCall(brs, corruptedCallIns[c]);
        c := c + 1;
      }
      assert corruptedCallIns[..c] == corruptedCallIns;
    }
 
    /**
     * The memo check before following a call into `g`, with `size` the
     * current taint-set size.  A callee whose last visit entered and left at
     * this very size is skipped.  Otherwise a first visit records `size` as
     * the entry value (the exit value reading as 0), and a callee whose last
     * visit added nothing has its entry value raised to `size`.
     */
    method EnterCallee(g: FuncId, size: nat) returns (skip: bool)
      modifies this`memo
      ensures skip <==> g in old(memo) && old(memo)[g].enterVal == old(memo)[g].exitVal == size
      ensures skip ==> memo == old(memo)
      ensures g !in old(memo) ==> memo == old(memo)[g := EnterExit(size, 0)]
      ensures g in old(memo) && old(memo)[g].enterVal == old(memo)[g].exitVal < size ==>
                memo == old(memo)[g := old(memo)[g].(enterVal := size)]
      ensures g in old(memo) && !(old(memo)[g].enterVal == old(memo)[g].exitVal <= size) ==> memo == old(memo)
    {
      skip := false;
      if g in memo {
        var val := memo[g];
        if val.enterVal == val.exitVal {
          if val.enterVal < size {
            memo := memo[g := val.(enterVal := size)];
          } else if val.enterVal == size {
            skip := true;
          }
        }
      } else {
        memo := memo[g := EnterExit(size, 0)];
      }
    }

    /**
     * A GEP in the walk.  When descriptors are recorded under its base, it is
     * tainted only if one of them selects the same element.  Otherwise, once
     * some operand is tainted and the GEP is not, the GEP is tainted and its
     * descriptor is recorded under operand 1 (as the source does; the seeding
     * step uses operand 0).
     */
    method VisitGep(i: InstId) returns (st: Status)
      requires HandlesOk(m) && TaintOk() && i < |m.insts| && m.insts[i].op == Gep
      modifies this`corruptedIR, this`ordered, this`corruptedPtr
      ensures TaintOk()
      ensures var ops := m.insts[i].operands;
              if ElementMatch(old(corruptedPtr), ops) then
                st.Ok? && corruptedPtr == old(corruptedPtr) &&
                ordered == old(ordered) + (if Inst(i) in old(corruptedIR) then [] else [Inst(i)])
              else if AnyIn(ops, old(corruptedIR)) && Inst(i) !in old(corruptedIR) then
                ordered == old(ordered) + [Inst(i)] &&
                (st.Ok? <==> Descriptor(ops).Some?) &&
                (st.Ok? ==> corruptedPtr == old(corruptedPtr)[ops[1] := PtrList(old(corruptedPtr), ops[1]) + [Descriptor(ops).value]]) &&
                (st.Abort? ==> corruptedPtr == old(corruptedPtr))
              else
                st.Ok? && ordered == old(ordered) && corruptedPtr == old(corruptedPtr)
    {
      assert OperandsOk(m, m.insts[i]);
      MatchDescriptors(i);
      st := TaintWholeGep(i);
    }

    /** The element-precise half of a GEP visit: taint it once for each recorded descriptor that selects its element. */
    method MatchDescriptors(i: InstId)
      requires TaintOk() && i < |m.insts| && |m.insts[i].operands| >= 1
      modifies this`corruptedIR, this`ordered
      ensures TaintOk()
      ensures ElementMatch(corruptedPtr, m.insts[i].operands) ==>
                ordered == old(ordered) + (if Inst(i) in old(corruptedIR) then [] else [Inst(i)])
      ensures !ElementMatch(corruptedPtr, m.insts[i].operands) ==> ordered == old(ordered)
    {
      var ops := m.insts[i].operands;
      assert ValueOk(m, Inst(i));
      if ops[0] in corruptedPtr {
        var list := corruptedPtr[ops[0]];
        var j := 0;
        ghost var hit := false;
        while j < |list|
          invariant j <= |list| && TaintOk()
          invariant hit <==> exists k :: 0 <= k < j && Selects(list[k], ops)
          invariant ordered == old(ordered) + (if hit && Inst(i) !in old(corruptedIR) then [Inst(i)] else [])
          invariant corruptedIR == old(corruptedIR) + (if hit then {Inst(i)} else {})
        {
          if Selects(list[j], ops) {
            var _ := Add2CrptList(Inst(i));
            hit := true;
          }
          j := j + 1;
        }
      }
    }

    /** The whole-value half of a GEP visit: the first tainted operand taints an untainted GEP and records its descriptor under operand 1. */
    method TaintWholeGep(i: InstId) returns (st: Status)
      requires TaintOk() && i < |m.insts| && |m.insts[i].operands| >= 1
      modifies this`corruptedIR, this`ordered, this`corruptedPtr
      ensures TaintOk()
      ensures var ops := m.insts[i].operands;
              if AnyIn(ops, old(corruptedIR)) && Inst(i) !in old(corruptedIR) then
                ordered == old(ordered) + [Inst(i)] &&
                (st.Ok? <==> Descriptor(ops).Some?) &&
                (st.Ok? ==> corruptedPtr == old(corruptedPtr)[ops[1] := PtrList(old(corruptedPtr), ops[1]) + [Descriptor(ops).value]]) &&
                (st.Abort? ==> corruptedPtr == old(corruptedPtr))
              else
                st.Ok? && ordered == old(ordered) && corruptedPtr == old(corruptedPtr)
    {
      var ops := m.insts[i].operands;
      assert ValueOk(m, Inst(i));
      st := Ok;
      var k := 0;
      while k < |ops|
        invariant k <= |ops| && TaintOk()
        invariant st.Ok?
        invariant if AnyIn(ops[..k], old(corruptedIR)) && Inst(i) !in old(corruptedIR) then
                    ordered == old(ordered) + [Inst(i)] && Descriptor(ops).Some? &&
                    corruptedPtr == old(corruptedPtr)[ops[1] := PtrList(old(corruptedPtr), ops[1]) + [Descriptor(ops).value]]
                  else ordered == old(ordered) && corruptedPtr == old(corruptedPtr)
      {
        assert ops[..k + 1] == ops[..k] + [ops[k]];
        if ops[k] in corruptedIR && Inst(i) !in corruptedIR {
          var _ := Add2CrptList(Inst(i));
          st := AddDescriptor(ops, 1);
          if st.Abort? {
            return;
          }
        }
        k := k + 1;
      }
      assert ops[..k] == ops;
    }
 
    /**
     * Any other instruction (including `invoke`, which is not a
     * `CallInst`): the first tainted operand taints the instruction if it is
     * not tainted yet.  A newly tainted store also taints its address
     * (operand 1); a newly tainted branch is appended once to the global
     * branch list and to this function's local branch list.
     */
    method VisitOther(i: InstId, localBr: seq<InstId>) returns (localBr': seq<InstId>, added: bool)
      requires HandlesOk(m) && TaintOk() && BranchesOk() && i < |m.insts|
      modifies this`corruptedIR, this`ordered, this`corruptedBr
      ensures TaintOk() && BranchesOk()
      ensures added <==> AnyIn(m.insts[i].operands, old(corruptedIR)) && Inst(i) !in old(corruptedIR)
      ensures !added ==> ordered == old(ordered) && corruptedBr == old(corruptedBr) && localBr' == localBr
      ensures added && m.insts[i].op == Store ==>
                var a := m.insts[i].operands[1];
                ordered == old(ordered) + [Inst(i)] + (if a in old(corruptedIR) || a == Inst(i) then [] else [a])
      ensures added && m.insts[i].op != Store ==> ordered == old(ordered) + [Inst(i)]
      ensures added && m.insts[i].op == Br ==>
                corruptedBr == old(corruptedBr) + (if i in old(corruptedBr) then [] else [i]) &&
                localBr' == localBr + [i]
      ensures added && m.insts[i].op != Br ==> corruptedBr == old(corruptedBr) && localBr' == localBr
    {
      var ins := m.insts[i];
      var ops := ins.operands;
      assert OperandsOk(m, ins);
      assert ValueOk(m, Inst(i));
      localBr', added := localBr, false;
      var k := 0;
      while k < |ops| && ops[k] !in corruptedIR
        invariant k <= |ops|
        invariant !AnyIn(ops[..k], corruptedIR)
      {
        assert ops[..k + 1] == ops[..k] + [ops[k]];
        k := k + 1;
      }
      if k == |ops| {
        assert ops[..k] == ops;
        return;
      }
      assert ops[k] in corruptedIR;
      if Inst(i) !in corruptedIR {
        added := Add2CrptList(Inst(i));
        if ins.op == Store {
          assert ValueOk(m, ops[1]);
          var _ := Add2CrptList(ops[1]);
        } else if ins.op == Br {
          if i !in corruptedBr {
            corruptedBr := corruptedBr + [i];
          }
          localBr' := localBr + [i];
        }
      }
    }
 
    /**
     * At an instruction with a debug location, when the walk runs under a
     * caller's control dependence and no local tainted branch influences the
     * instruction (`on`), a labelled dangerous site records the correlated
     * branches: under the pointer results if it is a pointer site, otherwise
     * under the function results if it is a function site.
     */
    method RecordCtrlDep(i: InstId, on: bool)
      requires ParentsOk(m) && BranchesOk() && DepsOk() && i < |m.insts|
      modifies this`interCtrlDepPtr, this`interCtrlDepFunc
      ensures DepsOk()
      ensures on && LineKey(m, i).Some? && LineKey(m, i).value in labels.ptrKeys ==>
                interCtrlDepPtr == old(interCtrlDepPtr)[LineKey(m, i).value := CtrlDepBranches(m, cd, corruptedCallIns, corruptedBr)] &&
                interCtrlDepFunc == old(interCtrlDepFunc)
      ensures on && LineKey(m, i).Some? && LineKey(m, i).value !in labels.ptrKeys && LineKey(m, i).value in labels.funcKeys ==>
                interCtrlDepFunc == old(interCtrlDepFunc)[LineKey(m, i).value := CtrlDepBranches(m, cd, corruptedCallIns, corruptedBr)] &&
                interCtrlDepPtr == old(interCtrlDepPtr)
      ensures !(on && LineKey(m, i).Some? && LineKey(m, i).value in labels.ptrKeys + labels.funcKeys) ==>
                interCtrlDepPtr == old(interCtrlDepPtr) && interCtrlDepFunc == old(interCtrlDepFunc)
    {
      var key := LineKey(m, i);
      if key.Some? && on {
        if key.value in labels.ptrKeys {
          var brs := CollectCtrlDepBrs();
          interCtrlDepPtr := interCtrlDepPtr[key.value := brs];
        } else if key.value in labels.funcKeys {
          var brs := CollectCtrlDepBrs();
          interCtrlDepFunc := interCtrlDepFunc[key.value := brs];
        }
      }
    }

    /** A tainted branch already met in `f` influences the block of `i`: the local control dependence `Step` checks first. */
    ghost predicate InfluencedBy(f: FuncId, localBr: seq<InstId>, i: InstId)
      requires InstIdsOk(m, localBr) && i < |m.insts|
    {
      cd.hasGraph(f) && exists j :: 0 <= j < |localBr| && cd.influences(f, m.insts[localBr[j]].parent, m.insts[i].parent)
    }

    /**
     * The cross-function maps after `RecordCtrlDep(i, on)`, from `p0`/`f0`
     * to `p1`/`f1`, with `calls` and `brs` the tainted calls and branches at
     * that moment: a labelled pointer site, else a labelled function site,
     * records the correlated branches; anything else changes neither map.
     */
    ghost predicate DepsRecorded(i: InstId, on: bool, calls: seq<InstId>, brs: seq<InstId>,
                                 p0: map<FileLine, seq<InstId>>, f0: map<FileLine, seq<InstId>>,
                                 p1: map<FileLine, seq<InstId>>, f1: map<FileLine, seq<InstId>>)
      requires ParentsOk(m) && InstIdsOk(m, calls) && InstIdsOk(m, brs) && i < |m.insts|
    {
      if on && LineKey(m, i).Some? && LineKey(m, i).value in labels.ptrKeys then
        p1 == p0[LineKey(m, i).value := CtrlDepBranches(m, cd, calls, brs)] && f1 == f0
      else if on && LineKey(m, i).Some? && LineKey(m, i).value in labels.funcKeys then
        f1 == f0[LineKey(m, i).value := CtrlDepBranches(m, cd, calls, brs)] && p1 == p0
      else
        p1 == p0 && f1 == f0
    }

    /**
     * What `VisitGep(i)` does, from taint `ir0`, trace `ord0` and pointer
     * table `ptr0` to trace `ord1` and table `ptr1` with status `st`.
     */
    ghost predicate GepEffect(i: InstId, ir0: set<Value>, ord0: seq<Value>, ptr0: map<Value, seq<GepIdx>>,
                              ord1: seq<Value>, ptr1: map<Value, seq<GepIdx>>, st: Status)
      requires HandlesOk(m) && i < |m.insts| && m.insts[i].op == Gep
    {
      var ops := m.insts[i].operands;
      assert OperandsOk(m, m.insts[i]);
      if ElementMatch(ptr0, ops) then
        st.Ok? && ptr1 == ptr0 && ord1 == ord0 + (if Inst(i) in ir0 then [] else [Inst(i)])
      else if AnyIn(ops, ir0) && Inst(i) !in ir0 then
        ord1 == ord0 + [Inst(i)] &&
        (st.Ok? <==> Descriptor(ops).Some?) &&
        (st.Ok? ==> ptr1 == ptr0[ops[1] := PtrList(ptr0, ops[1]) + [Descriptor(ops).value]]) &&
        (st.Abort? ==> ptr1 == ptr0)
      else
        st.Ok? && ord1 == ord0 && ptr1 == ptr0
    }

    /**
     * What `VisitOther(i, localBr)` does, from taint `ir0`, trace `ord0`
     * and branch list `br0` to trace `ord1`, branch list `br1`, local
     * branches `localBr'` and return flag `added`.
     */
    ghost predicate OtherEffect(i: InstId, ir0: set<Value>, ord0: seq<Value>, br0: seq<InstId>, localBr: seq<InstId>,
                                ord1: seq<Value>, br1: seq<InstId>, localBr': seq<InstId>, added: bool)
      requires HandlesOk(m) && i < |m.insts|
    {
      assert OperandsOk(m, m.insts[i]);
      (added <==> AnyIn(m.insts[i].operands, ir0) && Inst(i) !in ir0) &&
      (!added ==> ord1 == ord0 && br1 == br0 && localBr' == localBr) &&
      (added && m.insts[i].op == Store ==>
         var a := m.insts[i].operands[1];
         ord1 == ord0 + [Inst(i)] + (if a in ir0 || a == Inst(i) then [] else [a])) &&
      (added && m.insts[i].op != Store ==> ord1 == ord0 + [Inst(i)]) &&
      (added && m.insts[i].op == Br ==> br1 == br0 + (if i in br0 then [] else [i]) && localBr' == localBr + [i]) &&
      (added && m.insts[i].op != Br ==> br1 == br0 && localBr' == localBr)
    }

    /**
     * One instruction of the forward walk over `f`: check local control
     * dependence, record cross-function results at labelled sites, then
     * dispatch on the instruction kind.  `added` is the walk's return flag
     * contribution, which only the generic kind sets.  Outside a call, the
     * new state is exactly the recorded cross-function result plus the
     * effect of the GEP visit or of the generic visit; a call that cannot
     * be followed changes nothing but that record.
     */
    method Step(f: FuncId, i: InstId, ctrlDep: bool, localBr: seq<InstId>) returns (st: Status, localBr': seq<InstId>, added: bool)
      requires HandlesOk(m) && ParentsOk(m) && Live() && f < |m.funcs| && i < |m.insts| && InstIdsOk(m, localBr)
      modifies this`corruptedIR, this`ordered, this`corruptedPtr, this`callStack, this`memo,
               this`corruptedBr, this`corruptedCallIns, this`interCtrlDepPtr, this`interCtrlDepFunc
      ensures Live() && InstIdsOk(m, localBr')
      ensures st.Ok? ==> callStack == old(callStack)
      ensures Extends(old(ordered), ordered) && Extends(old(corruptedBr), corruptedBr) &&
              Extends(old(corruptedCallIns), corruptedCallIns)
      ensures added ==> |ordered| > |old(ordered)| && m.insts[i].op != Call && m.insts[i].op != Gep
      ensures m.insts[i].op != Call ==>
                DepsRecorded(i, ctrlDep && !InfluencedBy(f, localBr, i), old(corruptedCallIns), old(corruptedBr),
                             old(interCtrlDepPtr), old(interCtrlDepFunc), interCtrlDepPtr, interCtrlDepFunc) &&
                callStack == old(callStack) && memo == old(memo) && corruptedCallIns == old(corruptedCallIns)
      ensures m.insts[i].op == Gep ==>
                GepEffect(i, old(corruptedIR), old(ordered), old(corruptedPtr), ordered, corruptedPtr, st) &&
                corruptedBr == old(corruptedBr) && localBr' == localBr && !added
      ensures m.insts[i].op != Call && m.insts[i].op != Gep ==>
                st.Ok? && corruptedPtr == old(corruptedPtr) &&
                OtherEffect(i, old(corruptedIR), old(ordered), old(corruptedBr), localBr, ordered, corruptedBr, localBr', added)
      ensures m.insts[i].op == Call ==> localBr' == localBr && !added
      ensures m.insts[i].op == Call && !old(Followable(i)) ==>
                st.Ok? &&
                DepsRecorded(i, ctrlDep && !InfluencedBy(f, localBr, i), old(corruptedCallIns), old(corruptedBr),
                             old(interCtrlDepPtr), old(interCtrlDepFunc), interCtrlDepPtr, interCtrlDepFunc) &&
                corruptedIR == old(corruptedIR) && ordered == old(ordered) && corruptedPtr == old(corruptedPtr) &&
                memo == old(memo) && corruptedBr == old(corruptedBr) && corruptedCallIns == old(corruptedCallIns)
      ensures m.insts[i].op == Call && old(Followable(i)) &&
              !(|m.funcs[CalledFunction(m, i).value].blocks| == 0 && old(TaintedActual(i))) &&
              !old(MemoSkips(CalledFunction(m, i).value)) && (ctrlDep || InfluencedBy(f, localBr, i)) ==>
                i in corruptedCallIns
      decreases Room(m, callStack), 5
    {
      localBr', added := localBr, false;
      if m.insts[i].op == Call {
        st := CallStep(f, i, ctrlDep, localBr);
      } else {
        st, localBr', added := PlainStep(f, i, ctrlDep, localBr);
      }
    }

    /** `Step` at a call: the cross-function record, then `VisitCall` under local or inherited control dependence. */
    method CallStep(f: FuncId, i: InstId, ctrlDep: bool, localBr: seq<InstId>) returns (st: Status)
      requires HandlesOk(m) && ParentsOk(m) && Live() && f < |m.funcs| && i < |m.insts| && InstIdsOk(m, localBr)
      requires m.insts[i].op == Call
      modifies this`corruptedIR, this`ordered, this`corruptedPtr, this`callStack, this`memo,
               this`corruptedBr, this`corruptedCallIns, this`interCtrlDepPtr, this`interCtrlDepFunc
      ensures Live()
      ensures st.Ok? ==> callStack == old(callStack)
      ensures Extends(old(ordered), ordered) && Extends(old(corruptedBr), corruptedBr) &&
              Extends(old(corruptedCallIns), corruptedCallIns)
      ensures !old(Followable(i)) ==>
                st.Ok? &&
                DepsRecorded(i, ctrlDep && !InfluencedBy(f, localBr, i), old(corruptedCallIns), old(corruptedBr),
                             old(interCtrlDepPtr), old(interCtrlDepFunc), interCtrlDepPtr, interCtrlDepFunc) &&
                corruptedIR == old(corruptedIR) && ordered == old(ordered) && corruptedPtr == old(corruptedPtr) &&
                memo == old(memo) && corruptedBr == old(corruptedBr) && corruptedCallIns == old(corruptedCallIns)
      ensures old(Followable(i)) && !(|m.funcs[CalledFunction(m, i).value].blocks| == 0 && old(TaintedActual(i))) &&
              !old(MemoSkips(CalledFunction(m, i).value)) && (ctrlDep || InfluencedBy(f, localBr, i)) ==>
                i in corruptedCallIns
      decreases Room(m, callStack), 4
    {
      var influence := LocalDeps(f, i, ctrlDep, localBr);
      st := VisitCall(i, ctrlDep || influence);
    }

    /** `Step` at any other instruction: the cross-function record, then the GEP visit or the generic visit. */
    method PlainStep(f: FuncId, i: InstId, ctrlDep: bool, localBr: seq<InstId>) returns (st: Status, localBr': seq<InstId>, added: bool)
      requires HandlesOk(m) && ParentsOk(m) && Live() && i < |m.insts| && InstIdsOk(m, localBr)
      requires m.insts[i].op != Call
      modifies this`corruptedIR, this`ordered, this`corruptedPtr,
               this`corruptedBr, this`interCtrlDepPtr, this`interCtrlDepFunc
      ensures Live() && InstIdsOk(m, localBr')
      ensures Extends(old(ordered), ordered) && Extends(old(corruptedBr), corruptedBr)
      ensures added ==> |ordered| > |old(ordered)| && m.insts[i].op != Gep
      ensures DepsRecorded(i, ctrlDep && !InfluencedBy(f, localBr, i), corruptedCallIns, old(corruptedBr),
                           old(interCtrlDepPtr), old(interCtrlDepFunc), interCtrlDepPtr, interCtrlDepFunc)
      ensures m.insts[i].op == Gep ==>
                GepEffect(i, old(corruptedIR), old(ordered), old(corruptedPtr), ordered, corruptedPtr, st) &&
                corruptedBr == old(corruptedBr) && localBr' == localBr && !added
      ensures m.insts[i].op != Gep ==>
                st.Ok? && corruptedPtr == old(corruptedPtr) &&
                OtherEffect(i, old(corruptedIR), old(ordered), old(corruptedBr), localBr, ordered, corruptedBr, localBr', added)
    {
      var influence := LocalDeps(f, i, ctrlDep, localBr);
      localBr', added := localBr, false;
      if m.insts[i].op == Gep {
        st := GepStep(i);
      } else {
        st := Ok;
        localBr', added := OtherStep(i, localBr);
      }
    }

    /**
     * The first half of `Step`: whether a local tainted branch influences
     * `i`, and the cross-function record made when none does under a
     * caller's control dependence.
     */
    method LocalDeps(f: FuncId, i: InstId, ctrlDep: bool, localBr: seq<InstId>) returns (influence: bool)
      requires ParentsOk(m) && BranchesOk() && DepsOk() && i < |m.insts| && InstIdsOk(m, localBr)
      modifies this`interCtrlDepPtr, this`interCtrlDepFunc
      ensures DepsOk()
      ensures influence <==> InfluencedBy(f, localBr, i)
      ensures DepsRecorded(i, ctrlDep && !influence, corruptedCallIns, corruptedBr,
                           old(interCtrlDepPtr), old(interCtrlDepFunc), interCtrlDepPtr, interCtrlDepFunc)
    {
      influence := Influenced(f, localBr, i);
      RecordCtrlDep(i, ctrlDep && !influence);
    }

    /** `VisitGep` seen from the walk: its effect, with the taint state kept consistent. */
    method GepStep(i: InstId) returns (st: Status)
      requires HandlesOk(m) && TaintOk() && i < |m.insts| && m.insts[i].op == Gep
      modifies this`corruptedIR, this`ordered, this`corruptedPtr
      ensures TaintOk() && Extends(old(ordered), ordered)
      ensures GepEffect(i, old(corruptedIR), old(ordered), old(corruptedPtr), ordered, corruptedPtr, st)
    {
      st := VisitGep(i);
    }

    /** `VisitOther` seen from the walk: its effect, with consistent state and growing lists. */
    method OtherStep(i: InstId, localBr: seq<InstId>) returns (localBr': seq<InstId>, added: bool)
      requires HandlesOk(m) && TaintOk() && BranchesOk() && i < |m.insts| && InstIdsOk(m, localBr)
      modifies this`corruptedIR, this`ordered, this`corruptedBr
      ensures TaintOk() && BranchesOk() && InstIdsOk(m, localBr')
      ensures Extends(old(ordered), ordered) && Extends(old(corruptedBr), corruptedBr)
      ensures added ==> |ordered| > |old(ordered)|
      ensures OtherEffect(i, old(corruptedIR), old(ordered), old(corruptedBr), localBr, ordered, corruptedBr, localBr', added)
    {
      localBr', added := VisitOther(i, localBr);
    }

    /**
     * The forward walk over `f`'s instructions from position `start`;
     * `rv` says whether some generic instruction got newly tainted.
     */
    method Walk(f: FuncId, body: seq<InstId>, start: nat, ctrlDep: bool) returns (st: Status, rv: bool)
      requires HandlesOk(m) && ParentsOk(m) && Live() && f < |m.funcs| && body == Body(m, f) && start <= |body|
      modifies this`corruptedIR, this`ordered, this`corruptedPtr, this`callStack, this`memo,
               this`corruptedBr, this`corruptedCallIns, this`interCtrlDepPtr, this`interCtrlDepFunc
      ensures Live()
      ensures st.Ok? ==> callStack == old(callStack)
      ensures Extends(old(ordered), ordered) && Extends(old(corruptedBr), corruptedBr) &&
              Extends(old(corruptedCallIns), corruptedCallIns)
      ensures rv ==> |ordered| > |old(ordered)|
      decreases Room(m, callStack), 6
    {
      BodyOk(m, f);
      var k := start;
      var localBr: seq<InstId> := [];
      st, rv := Ok, false;
      while k < |body|
        invariant start <= k <= |body|
        invariant Live() && InstIdsOk(m, localBr) && callStack == old(callStack)
        invariant Extends(old(ordered), ordered) && Extends(old(corruptedBr), corruptedBr) &&
                  Extends(old(corruptedCallIns), corruptedCallIns)
        invariant rv ==> |ordered| > |old(ordered)|
      {
        ghost var o, b, c := ordered, corruptedBr, corruptedCallIns;
        var added;
        st, localBr, added := Step(f, body[k], ctrlDep, localBr);
        ExtendsTrans(old(ordered), o, ordered);
        ExtendsTrans(old(corruptedBr), b, corruptedBr);
        ExtendsTrans(old(corruptedCallIns), c, corruptedCallIns);
        if st.Abort? {
          return;
        }
        rv := rv || added;
        k := k + 1;
      }
    }

    /**
     * `intraDataflowAnalysis(F, ins, corruptedparams, ctrlDep)`: seed from the
     * call-stack instruction `ins` when there is one, map corrupted actuals
     * to formals, then walk the rest of `f`.
     */
    method Intra(f: FuncId, ins: Option<InstId>, cp: map<nat, Value>, ctrlDep: bool) returns (st: Status, rv: bool)
      requires HandlesOk(m) && ParentsOk(m) && Live() && f < |m.funcs| && (ins.Some? ==> ins.value < |m.insts|)
      modifies this`corruptedIR, this`ordered, this`corruptedPtr, this`callStack, this`memo,
               this`corruptedBr, this`corruptedCallIns, this`interCtrlDepPtr, this`interCtrlDepFunc
      ensures Live()
      ensures st.Ok? ==> callStack == old(callStack)
      ensures Extends(old(ordered), ordered) && Extends(old(corruptedBr), corruptedBr) &&
              Extends(old(corruptedCallIns), corruptedCallIns)
      ensures ins.Some? && ins.value !in Body(m, f) ==> st.Abort?
      ensures st.Ok? && rv ==> |ordered| > |old(ordered)| || exists p :: p in cp && p < |m.funcs[f].ty.params|
      decreases Room(m, callStack), 7
    {
      var body := Body(m, f);
      var start := 0;
      rv := false;
      if ins.Some? {
        var pos;
        st, pos, start, rv := SeedInstruction(f, body, ins.value);
        if st.Abort? {
          return;
        }
        if rv {
          SyncedSize(old(corruptedIR), old(ordered));
        }
      }
      ghost var o := ordered;
      var early := MapArguments(f, cp, start == |body|);
      if early {
        return Ok, true;
      }
      ArgsTraceExtends(o, f, cp, |m.funcs[f].ty.params|);
      ExtendsTrans(old(ordered), o, ordered);
      var walked;
      st, walked := Walk(f, body, start, ctrlDep);
      ExtendsTrans(old(ordered), ArgsTrace(o, f, cp, |m.funcs[f].ty.params|), ordered);
      rv := rv || walked;
    }

    /**
     * A call in the walk.  It is followed only into a static, non-intrinsic
     * callee whose name is not on the live stack.  A body-less callee with a
     * corrupted actual taints the call instead; the memo may skip the
     * callee.  Otherwise the callee is pushed, walked (under control
     * dependence when the caller is, or a local tainted branch influences
     * the call, in which case the call is listed once among the tainted
     * calls), the call is tainted if the walk reported new taint, the exit
     * size is recorded and the callee popped.
     */
    method VisitCall(i: InstId, flag: bool) returns (st: Status)
      requires HandlesOk(m) && ParentsOk(m) && Live() && i < |m.insts| && m.insts[i].op == Call
      modifies this`corruptedIR, this`ordered, this`corruptedPtr, this`callStack, this`memo,
               this`corruptedBr, this`corruptedCallIns, this`interCtrlDepPtr, this`interCtrlDepFunc
      ensures Live()
      ensures st.Ok? ==> callStack == old(callStack)
      ensures Extends(old(ordered), ordered) && Extends(old(corruptedBr), corruptedBr) &&
              Extends(old(corruptedCallIns), corruptedCallIns)
      ensures !old(Followable(i)) ==> st.Ok? && unchanged(this)
      ensures old(Followable(i)) && |m.funcs[CalledFunction(m, i).value].blocks| == 0 && old(TaintedActual(i)) ==>
                st.Ok? && corruptedIR == old(corruptedIR) + {Inst(i)} && memo == old(memo) &&
                corruptedCallIns == old(corruptedCallIns) && callStack == old(callStack) &&
                corruptedPtr == old(corruptedPtr) && corruptedBr == old(corruptedBr)
      ensures old(Followable(i)) && !(|m.funcs[CalledFunction(m, i).value].blocks| == 0 && old(TaintedActual(i))) ==>
                (old(MemoSkips(CalledFunction(m, i).value)) ==> st.Ok? && unchanged(this)) &&
                (!old(MemoSkips(CalledFunction(m, i).value)) ==>
                   (flag ==> i in corruptedCallIns) &&
                   (st.Ok? ==> CalledFunction(m, i).value in memo &&
                               memo[CalledFunction(m, i).value].exitVal == |corruptedIR|))
      decreases Room(m, callStack), 3
    {
      st := Ok;
      assert OperandsOk(m, m.insts[i]);
      var target := ResolveCallee(i);
      if target.None? {
        return;
      }
      st := CallTarget(i, target.value, flag);
    }

    /** `VisitCall` once the callee `g` is resolved: the body-less pass-through, the memo skip, or the walk. */
    method CallTarget(i: InstId, g: FuncId, flag: bool) returns (st: Status)
      requires HandlesOk(m) && ParentsOk(m) && Live() && i < |m.insts| && g < |m.funcs|
      requires m.funcs[g].name !in StackNames(m, callStack)
      modifies this`corruptedIR, this`ordered, this`corruptedPtr, this`callStack, this`memo,
               this`corruptedBr, this`corruptedCallIns, this`interCtrlDepPtr, this`interCtrlDepFunc
      ensures Live()
      ensures st.Ok? ==> callStack == old(callStack)
      ensures Extends(old(ordered), ordered) && Extends(old(corruptedBr), corruptedBr) &&
              Extends(old(corruptedCallIns), corruptedCallIns)
      ensures |m.funcs[g].blocks| == 0 && old(TaintedActual(i)) ==>
                st.Ok? && corruptedIR == old(corruptedIR) + {Inst(i)} && memo == old(memo) &&
                corruptedCallIns == old(corruptedCallIns) && callStack == old(callStack) &&
                corruptedPtr == old(corruptedPtr) && corruptedBr == old(corruptedBr)
      ensures !(|m.funcs[g].blocks| == 0 && old(TaintedActual(i))) ==>
                (old(MemoSkips(g)) ==> st.Ok? && unchanged(this)) &&
                (!old(MemoSkips(g)) ==> (flag ==> i in corruptedCallIns) && (st.Ok? ==> g in memo && memo[g].exitVal == |corruptedIR|))
      decreases Room(m, callStack), 2
    {
      st := Ok;
      var cp, paramsCorrupted := CorruptedParams(i);
      assert ValueOk(m, Inst(i));
      if |m.funcs[g].blocks| == 0 && paramsCorrupted {
        var _ := Add2CrptList(Inst(i));
        return;
      }
      st := EnterOrSkip(i, g, cp, flag);
    }

    /** The memo check of `VisitCall`: skip the callee, or follow the call. */
    method EnterOrSkip(i: InstId, g: FuncId, cp: map<nat, Value>, flag: bool) returns (st: Status)
      requires HandlesOk(m) && ParentsOk(m) && Live() && i < |m.insts| && g < |m.funcs|
      requires m.funcs[g].name !in StackNames(m, callStack)
      modifies this`corruptedIR, this`ordered, this`corruptedPtr, this`callStack, this`memo,
               this`corruptedBr, this`corruptedCallIns, this`interCtrlDepPtr, this`interCtrlDepFunc
      ensures Live()
      ensures st.Ok? ==> callStack == old(callStack)
      ensures Extends(old(ordered), ordered) && Extends(old(corruptedBr), corruptedBr) &&
              Extends(old(corruptedCallIns), corruptedCallIns)
      ensures old(MemoSkips(g)) ==> st.Ok? && unchanged(this)
      ensures !old(MemoSkips(g)) ==> (flag ==> i in corruptedCallIns) && (st.Ok? ==> g in memo && memo[g].exitVal == |corruptedIR|)
      decreases Room(m, callStack), 1
    {
      st := Ok;
      var skip := EnterCallee(g, |corruptedIR|);
      if !skip {
        st := FollowCall(i, g, cp, flag);
      }
    }

    /**
     * Push callee `g`, walk it with the call's corrupted actuals, taint the
     * call if the walk reports new taint, record the exit size and pop.
     */
    method FollowCall(i: InstId, g: FuncId, cp: map<nat, Value>, flag: bool) returns (st: Status)
      requires HandlesOk(m) && ParentsOk(m) && Live() && i < |m.insts| && g < |m.funcs|
      requires m.funcs[g].name !in StackNames(m, callStack)
      modifies this`corruptedIR, this`ordered, this`corruptedPtr, this`callStack, this`memo,
               this`corruptedBr, this`corruptedCallIns, this`interCtrlDepPtr, this`interCtrlDepFunc
      ensures Live()
      ensures st.Ok? ==> callStack == old(callStack)
      ensures Extends(old(ordered), ordered) && Extends(old(corruptedBr), corruptedBr) &&
              Extends(old(corruptedCallIns), corruptedCallIns)
      ensures flag ==> i in corruptedCallIns
      ensures st.Ok? ==> g in memo && memo[g].exitVal == |corruptedIR|
      decreases Room(m, callStack), 0
    {
      PushCallee(i, g, flag);
      ghost var o, b, c := ordered, corruptedBr, corruptedCallIns;
      var ret;
      st, ret := Intra(g, None, cp, flag);
      ExtendsTrans(old(ordered), o, ordered);
      ExtendsTrans(old(corruptedBr), b, corruptedBr);
      ExtendsTrans(old(corruptedCallIns), c, corruptedCallIns);
      if st.Abort? {
        return;
      }
      ghost var o2 := ordered;
      ReturnFromCallee(i, g, ret);
      ExtendsTrans(old(ordered), o2, ordered);
    }

    /** Push the callee's frame and, under control dependence, list the call once among the tainted calls. */
    method PushCallee(i: InstId, g: FuncId, flag: bool)
      requires HandlesOk(m) && i < |m.insts| && g < |m.funcs| && Live()
      requires m.funcs[g].name !in StackNames(m, callStack)
      modifies this`callStack, this`corruptedCallIns
      ensures Live()
      ensures callStack == [Frame(g, None)] + old(callStack)
      ensures Room(m, callStack) < Room(m, old(callStack))
      ensures Extends(old(corruptedCallIns), corruptedCallIns)
      ensures flag ==> i in corruptedCallIns
    {
      PushShrinks(m, callStack, g);
      callStack := [Frame(g, None)] + callStack;
      assert StackOk();
      if flag && i !in corruptedCallIns {
        AppendNewInst(m, corruptedCallIns, i);
        corruptedCallIns := corruptedCallIns + [i];
      }
    }

    /** After the callee's walk: taint the call if the walk reported new taint, record the exit size, pop. */
    method ReturnFromCallee(i: InstId, g: FuncId, ret: bool)
      requires HandlesOk(m) && i < |m.insts| && Live() && |callStack| > 0
      modifies this`corruptedIR, this`ordered, this`memo, this`callStack
      ensures Live()
      ensures callStack == old(callStack)[1..]
      ensures Extends(old(ordered), ordered)
      ensures corruptedIR == old(corruptedIR) + (if ret then {Inst(i)} else {})
      ensures memo == old(memo)[g := MemoAt(old(memo), g).(exitVal := |corruptedIR|)]
    {
      if ret {
        assert ValueOk(m, Inst(i));
        TaintLive(Inst(i));
      }
      memo := memo[g := MemoAt(memo, g).(exitVal := |corruptedIR|)];
      callStack := callStack[1..];
    }

    // -------------------------------------------------------------------
    // initializeCallStack
    // -------------------------------------------------------------------

    /**
     * What the pass is handed: a well-formed module, a line map listing
     * instructions of the module, and an id map over instructions of the
     * module whose ids are distinct.
     */
    ghost predicate InputsOk()
    {
      WF(m) && SourceMapOk(m, srcMap) &&
      (forall i :: i in ins2int ==> i < |m.insts|) &&
      (forall a, b :: a in ins2int && b in ins2int && ins2int[a] == ins2int[b] ==> a == b)
    }

    /** The seed lists as a value. */
    ghost function SeedState(): Seeds
      reads this`callStackHead, this`callStackBody, this`finishedVars
    {
      Seeds(callStackHead, callStackBody, finishedVars)
    }

    /** The operand loop of the GEP case: is some operand already seeded? */
    method AnySeeded(ops: seq<Value>) returns (found: bool)
      ensures found <==> AnyIn(ops, finishedVars)
    {
      found := false;
      var k := 0;
      while k < |ops|
        invariant 0 <= k <= |ops|
        invariant !AnyIn(ops[..k], finishedVars)
      {
        if ops[k] in finishedVars {
          return true;
        }
        assert ops[..k + 1] == ops[..k] + [ops[k]];
        k := k + 1;
      }
      assert ops[..k] == ops;
    }

    /**
     * The operand loop of the plain case: whether an operand is already
     * seeded (and then the instruction is marked seeded too), is a global,
     * a GEP or a bitcast.
     */
    method OperandFlags(i: InstId) returns (already: bool, hasGlobal: bool, isPointer: bool, isBitCast: bool)
      requires i < |m.insts|
      modifies this`finishedVars
      ensures already <==> AnyIn(m.insts[i].operands, old(finishedVars))
      ensures finishedVars == if already then old(finishedVars) + {Inst(i)} else old(finishedVars)
      ensures hasGlobal <==> HasGlobal(m.insts[i].operands)
      ensures isPointer <==> HasInstOf(m, m.insts[i].operands, Gep)
      ensures isBitCast <==> HasInstOf(m, m.insts[i].operands, BitCast)
    {
      var ops := m.insts[i].operands;
      already, hasGlobal, isPointer, isBitCast := false, false, false, false;
      var k := 0;
      while k < |ops|
        invariant 0 <= k <= |ops|
        invariant already <==> AnyIn(ops[..k], old(finishedVars))
        invariant finishedVars == if already then old(finishedVars) + {Inst(i)} else old(finishedVars)
        invariant hasGlobal <==> HasGlobal(ops[..k])
        invariant isPointer <==> HasInstOf(m, ops[..k], Gep)
        invariant isBitCast <==> HasInstOf(m, ops[..k], BitCast)
      {
        var v := ops[k];
        assert ops[..k + 1] == ops[..k] + [v];
        if v in finishedVars {
          already := true;
          finishedVars := finishedVars + {Inst(i)};
        }
        if v.Global? {
          hasGlobal := true;
        }
        if v.Inst? && v.inst < |m.insts| && m.insts[v.inst].op == Gep {
          isPointer := true;
        }
        if v.Inst? && v.inst < |m.insts| && m.insts[v.inst].op == BitCast {
          isBitCast := true;
        }
        k := k + 1;
      }
      assert ops[..k] == ops;
    }

    /** One turn of the instruction loop of a report line. */
    method ScanStep(first: bool, callFirst: bool, list: seq<InstId>, p: nat) returns (callFirst': bool, stop: bool)
      requires HandlesOk(m) && ParentsOk(m) && InstIdsOk(m, list) && p < |list|
      modifies this`callStackHead, this`callStackBody, this`finishedVars
      ensures Scan(SeedState(), callFirst', stop) == ScanInst(m, old(SeedState()), first, callFirst, list, p)
    {
      var i := list[p];
      var ins := m.insts[i];
      callFirst', stop := callFirst, false;
      if ins.op == Gep {
        if !first || callFirst {
          return;
        }
        var seeded := AnySeeded(ins.operands);
        if seeded {
          return callFirst, true;
        }
        callStackHead := callStackHead + [SiteFrame(m, i)];
        finishedVars := finishedVars + {Inst(i)};
      } else if ins.op == Call || ins.op == Invoke {
        assert OperandsOk(m, ins);
        var callee := CalledFunction(m, i);
        if callee.Some? && IsIntrinsicName(m.funcs[callee.value].name) {
          return;
        }
        if first && p == 0 {
          return true, false;
        }
        callStackBody := callStackBody + [SiteFrame(m, i)];
        stop := true;
      } else {
        if !first || callFirst {
          return;
        }
        var already, hasGlobal, isPointer, isBitCast := OperandFlags(i);
        if i != list[|list| - 1] || callStackHead != [] {
          if already || (!hasGlobal && ins.op == Load) || (!isBitCast && !isPointer && ins.op != Load) {
            return;
          }
        }
        callStackHead := callStackHead + [SiteFrame(m, i)];
        finishedVars := finishedVars + {Inst(i)};
      }
    }

    /** The instruction loop of a report line, up to its end or its first stop. */
    method ScanList(first: bool, list: seq<InstId>)
      requires HandlesOk(m) && ParentsOk(m) && InstIdsOk(m, list)
      modifies this`callStackHead, this`callStackBody, this`finishedVars
      ensures SeedState() == ScanFrom(m, old(SeedState()), first, false, list, 0)
    {
      var callFirst := false;
      var p := 0;
      while p < |list|
        invariant 0 <= p <= |list|
        invariant ScanFrom(m, SeedState(), first, callFirst, list, p) == ScanFrom(m, old(SeedState()), first, false, list, 0)
      {
        var stop;
        callFirst, stop := ScanStep(first, callFirst, list, p);
        if stop {
          return;
        }
        p := p + 1;
      }
    }

    /** One turn of the report-line loop. */
    method SeedLineStep(first: bool, cs: FuncFileLine) returns (st: Status)
      requires InputsOk()
      modifies this`callStackHead, this`callStackBody, this`finishedVars
      ensures var r := SeedLine(m, srcMap, old(SeedState()), first, cs);
              (st.Ok? <==> r.Success?) && (st.Ok? ==> SeedState() == r.value)
    {
      var key := (cs.file, cs.line);
      if key !in srcMap {
        if first {
          return Abort("Fisrt instruction failed, aborting...");
        }
        return Ok;
      }
      var list := srcMap[key];
      if list == [] {
        return Abort("No matching instructions.");
      }
      ScanList(first, list);
      st := Ok;
    }

    /**
     * `initializeCallStack`: replay the report lines into head candidates,
     * body frames and seeded values, then let a nonzero manual id
     * (`corruptVar`) replace the head.  `order` is the iteration order of
     * the id map.
     */
    method InitializeCallStack(lines: seq<FuncFileLine>, corruptVar: nat, order: seq<InstId>) returns (st: Status)
      requires InputsOk()
      requires forall x :: x in order <==> x in ins2int
      modifies this`callStackHead, this`callStackBody, this`finishedVars
      ensures var r := SeedFrom(m, srcMap, old(SeedState()), lines, 0);
              (st.Ok? <==> r.Success?) &&
              (st.Ok? ==> callStackBody == r.value.body && finishedVars == r.value.finished &&
                          callStackHead == OverrideHead(m, ins2int, order, corruptVar, r.value.head))
    {
      var c := 0;
      while c < |lines|
        invariant 0 <= c <= |lines|
        invariant SeedFrom(m, srcMap, SeedState(), lines, c) == SeedFrom(m, srcMap, old(SeedState()), lines, 0)
      {
        st := SeedLineStep(c == 0, lines[c]);
        if st.Abort? {
          return;
        }
        c := c + 1;
      }
      st := Ok;
      if corruptVar != 0 {
        var k := 0;
        while k < |order|
          invariant 0 <= k <= |order|
          invariant FirstWithId(ins2int, order[k..], corruptVar) == FirstWithId(ins2int, order, corruptVar)
        {
          var i := order[k];
          assert order[k..][1..] == order[k + 1..];
          if i in ins2int && ins2int[i] == corruptVar {
            callStackHead := [SiteFrame(m, i)];
            return;
          }
          k := k + 1;
        }
      }
    }

    /** `add2CrptList` where the rest of the walk's state must stay as it is. */
    method TaintLive(v: Value)
      requires Live() && ValueOk(m, v)
      modifies this`corruptedIR, this`ordered
      ensures Live()
      ensures corruptedIR == old(corruptedIR) + {v} && Extends(old(ordered), ordered)
    {
      var _ := Add2CrptList(v);
    }

    // -------------------------------------------------------------------
    // getDominators and getFeasiblePath
    // -------------------------------------------------------------------

    /** Every cached entry holds the dominator sets of a function with blocks. */
    ghost predicate DomsOk()
      reads this`dominatorMap
    {
      CacheOk(m, dominatorMap)
    }

    /** The inner loop over one dominating block: walk it up to the site, noting a tainted branch. */
    method WalkBlock(b: BlockId, site: InstId) returns (part: seq<Value>, hit: bool)
      requires HandlesOk(m) && b < |m.blocks|
      ensures part == Values(UpTo(m.blocks[b].insts, site))
      ensures hit <==> AnyTaintedBr(m, corruptedIR, UpTo(m.blocks[b].insts, site))
    {
      var insts := m.blocks[b].insts;
      part, hit := [], false;
      var k := 0;
      while k < |insts|
        invariant 0 <= k <= |insts|
        invariant forall q :: 0 <= q < k ==> insts[q] != site
        invariant part == Values(insts[..k])
        invariant hit <==> AnyTaintedBr(m, corruptedIR, insts[..k])
      {
        var i := insts[k];
        ValuesSnoc(insts[..k], i);
        AnyTaintedBrSnoc(m, corruptedIR, insts[..k], i);
        assert insts[..k + 1] == insts[..k] + [i];
        if m.insts[i].op == Br && Inst(i) in corruptedIR {
          hit := true;
        }
        part := part + [Inst(i)];
        if i == site {
          UpToFirst(insts, k, site);
          return;
        }
        k := k + 1;
      }
      UpToFirst(insts, k, site);
      assert insts[..k] == insts;
    }

    /**
     * The walk over the blocks dominating the site's block, in the cached
     * set's (pointer) order: the flag says some walked branch is tainted.
     */
    method WalkDominators(doms: Dominators.DomMap, site: InstId) returns (walk: seq<Value>, flag: bool)
      requires HandlesOk(m) && site < |m.insts|
      requires forall b :: b in DomsAt(doms, m.insts[site].parent) ==> b < |m.blocks|
      ensures flag <==> Guarded(m, doms, site, corruptedIR)
      ensures flag ==> exists v :: v in walk && v in corruptedIR
    {
      var all := DomsAt(doms, m.insts[site].parent);
      var rest := all;
      walk, flag := [], false;
      while rest != {}
        invariant rest <= all
        invariant flag <==> exists b :: b in all - rest && b < |m.blocks| &&
                                        AnyTaintedBr(m, corruptedIR, UpTo(m.blocks[b].insts, site))
        invariant flag ==> exists v :: v in walk && v in corruptedIR
        decreases |rest|
      {
        var b :| b in rest;
        var part, hit := WalkBlock(b, site);
        if hit {
          var xs := UpTo(m.blocks[b].insts, site);
          var k :| 0 <= k < |xs| && TaintedBr(m, corruptedIR, xs[k]);
          assert part[k] == Inst(xs[k]);
          assert (walk + part)[|walk| + k] == Inst(xs[k]);
        }
        walk, flag := walk + part, flag || hit;
        rest := rest - {b};
      }
    }

    /** The inner loop of `getFeasiblePath`: every occurrence of `x` in the walk. */
    method Occur(x: Value, walk: seq<Value>) returns (occ: seq<Value>)
      ensures occ == Occurrences(x, walk)
    {
      occ := [];
      var k := 0;
      while k < |walk|
        invariant 0 <= k <= |walk|
        invariant occ == Occurrences(x, walk[..k])
      {
        assert walk[..k + 1][..k] == walk[..k];
        if walk[k] == x {
          occ := occ + [x];
        }
        k := k + 1;
      }
      assert walk[..k] == walk;
    }

    /** `getFeasiblePath`: the trace entries met by the walk, in trace order, and whether there are any. */
    method GetFeasiblePath(walk: seq<Value>) returns (path: seq<Value>, nonEmpty: bool)
      ensures path == FeasiblePath(ordered, walk)
      ensures nonEmpty <==> path != []
    {
      path := [];
      var k := 0;
      while k < |ordered|
        invariant 0 <= k <= |ordered|
        invariant path == FeasiblePath(ordered[..k], walk)
      {
        assert ordered[..k + 1][..k] == ordered[..k];
        var occ := Occur(ordered[k], walk);
        path := path + occ;
        k := k + 1;
      }
      assert ordered[..k] == ordered;
      nonEmpty := path != [];
    }

    /** The dominators of `f`, from the cache or computed and cached on first use. */
    method DominatorsOf(f: FuncId) returns (doms: Dominators.DomMap)
      requires DomsOk() && f < |m.funcs| && |m.funcs[f].blocks| > 0
      modifies this`dominatorMap
      ensures DomsOk() && Keeps(old(dominatorMap), dominatorMap)
      ensures f in dominatorMap && doms == dominatorMap[f]
      ensures Dominators.Shape(m, f, doms)
    {
      if f !in dominatorMap {
        doms := Dominators.ComputeDominators(m, f);
        CacheAdd(m, dominatorMap, f, doms);
        KeepsAdd(dominatorMap, f, doms);
        dominatorMap := dominatorMap[f := doms];
      } else {
        doms := dominatorMap[f];
      }
    }

    /**
     * One listed dangerous site of `getDominators`: locate its first
     * instruction, keep it only when its function is reached and has the
     * listed name, take (or compute and cache) that function's dominators,
     * and confirm it when a dominating block holds a tainted branch and the
     * walk meets the taint trace.
     */
    method ConfirmSite(op: FuncFileLine, funcSet: set<FuncId>) returns (st: Status, hit: bool)
      requires InputsOk() && DomsOk() && TaintOk()
      modifies this`dominatorMap
      ensures DomsOk() && Keeps(old(dominatorMap), dominatorMap)
      ensures st.Abort? <==> SiteOutcome(m, srcMap, op, funcSet, corruptedIR, dominatorMap).None?
      ensures st.Ok? ==> SiteOutcome(m, srcMap, op, funcSet, corruptedIR, dominatorMap) == Some(hit)
      ensures Reached(m, srcMap, op, funcSet) ==> SiteFunc(m, srcMap, op) in dominatorMap
    {
      var key := (op.file, op.line);
      if key !in srcMap || srcMap[key] == [] {
        return Abort("no instruction for dangerous op"), false;
      }
      var site := srcMap[key][0];
      var f := FuncOf(m, site);
      st, hit := Ok, false;
      if f !in funcSet || m.funcs[f].name != op.func {
        assert !Reached(m, srcMap, op, funcSet);
        return;
      }
      var p := m.insts[site].parent;
      assert p in m.funcs[f].blocks;
      var doms := DominatorsOf(f);
      assert DomMapAt(dominatorMap, f) == doms;
      assert Reached(m, srcMap, op, funcSet);
      forall b | b in DomsAt(doms, p) ensures b < |m.blocks| {
        assert b in Dominators.BlockSet(m, f);
      }
      var walk, flag := WalkDominators(doms, site);
      if !flag {
        return;
      }
      var path, nonEmpty := GetFeasiblePath(walk);
      if !nonEmpty {
        var v :| v in walk && v in corruptedIR;
        GuardMakesPathFeasible(ordered, walk, corruptedIR, v);
        assert false;
      }
      hit := true;
    }

    /** One turn of the `getDominators` loop: confirm `ops[k]` and add it to the count. */
    method CountStep(ops: seq<FuncFileLine>, k: nat, funcSet: set<FuncId>, count: nat) returns (st: Status, count': nat)
      requires InputsOk() && DomsOk() && TaintOk() && k < |ops|
      requires CountSites(m, srcMap, ops[..k], funcSet, corruptedIR, dominatorMap) == Some(count)
      requires Cached(m, srcMap, ops[..k], funcSet, dominatorMap)
      modifies this`dominatorMap
      ensures DomsOk() && Keeps(old(dominatorMap), dominatorMap)
      ensures st.Abort? ==> CountSites(m, srcMap, ops, funcSet, corruptedIR, dominatorMap).None?
      ensures st.Ok? ==> CountSites(m, srcMap, ops[..k + 1], funcSet, corruptedIR, dominatorMap) == Some(count')
      ensures st.Ok? ==> Cached(m, srcMap, ops[..k + 1], funcSet, dominatorMap)
    {
      var hit;
      st, hit := ConfirmSite(ops[k], funcSet);
      count' := count;
      if st.Abort? {
        CountSitesBound(m, srcMap, ops, funcSet, corruptedIR, dominatorMap);
        return;
      }
      CountSitesFrame(m, srcMap, ops[..k], funcSet, corruptedIR, old(dominatorMap), dominatorMap);
      CountSitesStep(m, srcMap, ops, k, funcSet, corruptedIR, dominatorMap, count, hit);
      CachedStep(m, srcMap, ops, k, funcSet, old(dominatorMap), dominatorMap);
      if hit {
        count' := count + 1;
      }
    }

    /**
     * `getDominators`: the number of confirmed sites among `ops`; the source
     * aborts on a site whose location lists no instruction.
     */
    method GetDominators(ops: seq<FuncFileLine>, funcSet: set<FuncId>) returns (st: Status, count: nat)
      requires InputsOk() && DomsOk() && TaintOk()
      modifies this`dominatorMap
      ensures DomsOk() && Keeps(old(dominatorMap), dominatorMap)
      ensures st.Abort? <==> CountSites(m, srcMap, ops, funcSet, corruptedIR, dominatorMap).None?
      ensures st.Ok? ==> CountSites(m, srcMap, ops, funcSet, corruptedIR, dominatorMap) == Some(count)
      ensures st.Ok? ==> Cached(m, srcMap, ops, funcSet, dominatorMap)
    {
      count := 0;
      var k := 0;
      while k < |ops|
        invariant 0 <= k <= |ops|
        invariant DomsOk() && Keeps(old(dominatorMap), dominatorMap)
        invariant CountSites(m, srcMap, ops[..k], funcSet, corruptedIR, dominatorMap) == Some(count)
        invariant Cached(m, srcMap, ops[..k], funcSet, dominatorMap)
      {
        ghost var dm0 := dominatorMap;
        st, count := CountStep(ops, k, funcSet, count);
        KeepsTrans(old(dominatorMap), dm0, dominatorMap);
        if st.Abort? {
          return;
        }
        k := k + 1;
      }
      assert ops[..k] == ops;
      st := Ok;
    }

    // -------------------------------------------------------------------
    // getCorruptedIRs
    // -------------------------------------------------------------------

    /** The loop over the taint set collecting the functions of tainted instructions. */
    method CorruptedFuncs() returns (fs: set<FuncId>)
      requires ParentsOk(m) && TaintOk()
      ensures fs == TaintedFuncs(m, corruptedIR)
    {
      var rest := corruptedIR;
      fs := {};
      while rest != {}
        invariant rest <= corruptedIR
        invariant fs == TaintedFuncs(m, corruptedIR - rest)
        decreases |rest|
      {
        var v :| v in rest;
        assert ValueOk(m, v);
        ghost var done := corruptedIR - rest;
        assert corruptedIR - (rest - {v}) == done + {v};
        if v.Inst? {
          fs := fs + {FuncOf(m, v.inst)};
        }
        rest := rest - {v};
      }
    }

    /**
     * Start a head candidate: the stack is that candidate in front of the
     * whole body, and the taint set, the trace, the pointer map and the memo
     * are cleared.
     */
    method StartCandidate(h: nat)
      requires Live() && SiteFrames(m, callStackHead) && SiteFrames(m, callStackBody) && h < |callStackHead|
      modifies this`corruptedIR, this`ordered, this`corruptedPtr, this`callStack, this`memo
      ensures Live() && SiteFrames(m, callStack)
      ensures callStack == [callStackHead[h]] + callStackBody
      ensures corruptedIR == {} && ordered == [] && corruptedPtr == map[] && memo == map[]
    {
      callStack := [callStackHead[h]] + callStackBody;
      ordered, corruptedIR, corruptedPtr, memo := [], {}, map[], map[];
      assert (set v | v in ordered) == {};
    }

    /**
     * One turn of the replay loop: analyse the front frame from its
     * instruction, pop it, and taint the next frame's call when the front
     * function reported new taint.
     */
    method ReplayFrame() returns (st: Status, ret: bool)
      requires InputsOk() && Live() && callStack != [] && SiteFrames(m, callStack)
      modifies this`corruptedIR, this`ordered, this`corruptedPtr, this`callStack, this`memo,
               this`corruptedBr, this`corruptedCallIns, this`interCtrlDepPtr, this`interCtrlDepFunc
      ensures Live() && Extends(old(ordered), ordered)
      ensures st.Ok? ==> callStack == old(callStack)[1..]
      ensures st.Ok? && ret && |old(callStack)| > 1 ==> Inst(old(callStack)[1].inst.value) in corruptedIR
    {
      var loc := callStack[0];
      st, ret := Intra(loc.func, loc.inst, map[], false);
      if st.Abort? {
        return;
      }
      callStack := callStack[1..];
      if ret && callStack != [] {
        ghost var o := ordered;
        TaintLive(Inst(callStack[0].inst.value));
        ExtendsTrans(old(ordered), o, ordered);
      }
    }

    /**
     * The replay loop: pop frames until the stack is empty.  `rets[k]` is
     * what the walk of frame `k` returned; when it is true, the call of
     * frame `k + 1` ends up tainted.
     */
    method ReplayStack() returns (st: Status, ghost rets: seq<bool>)
      requires InputsOk() && Live() && SiteFrames(m, callStack)
      modifies this`corruptedIR, this`ordered, this`corruptedPtr, this`callStack, this`memo,
               this`corruptedBr, this`corruptedCallIns, this`interCtrlDepPtr, this`interCtrlDepFunc
      ensures Live() && Extends(old(ordered), ordered)
      ensures st.Ok? ==> callStack == [] && |rets| == |old(callStack)|
      ensures st.Ok? ==> forall k :: 0 <= k < |rets| && k + 1 < |old(callStack)| && rets[k] ==>
                Inst(old(callStack)[k + 1].inst.value) in corruptedIR
    {
      st, rets := Ok, [];
      ghost var s0 := callStack;
      while callStack != []
        invariant Live() && SiteFrames(m, callStack) && Extends(old(ordered), ordered)
        invariant |rets| + |callStack| == |s0| && callStack == s0[|rets|..]
        invariant forall k :: 0 <= k < |rets| && k + 1 < |s0| && rets[k] ==> Inst(s0[k + 1].inst.value) in corruptedIR
        decreases |callStack|
      {
        ghost var o, t := ordered, corruptedIR;
        var ret;
        st, ret := ReplayFrame();
        ExtendsTrans(old(ordered), o, ordered);
        SyncedGrows(t, o, corruptedIR, ordered);
        if st.Abort? {
          return;
        }
        rets := rets + [ret];
      }
    }

    /** The report a candidate gives from the state `e` it leaves. */
    ghost predicate ReportFrom(rep: Report, e: CandidateEnd, ptrCheck: bool, funcCheck: bool)
      requires ParentsOk(m) && SourceMapOk(m, srcMap)
    {
      rep.trace == e.trace &&
      (rep.ptrVul.Some? <==> ptrCheck) && (rep.funcVul.Some? <==> funcCheck) &&
      (ptrCheck ==>
         var n := CountSites(m, srcMap, labels.ptrOps, TaintedFuncs(m, e.taint), e.taint, e.doms);
         n.Some? && rep.ptrVul.value == |e.depPtr| + n.value) &&
      (funcCheck ==>
         var n := CountSites(m, srcMap, labels.funcOps, TaintedFuncs(m, e.taint), e.taint, e.doms);
         n.Some? && rep.funcVul.value == |e.depFunc| + n.value)
    }

    /** The state the pass is in now, as a candidate's end state. */
    ghost function CurrentEnd(): CandidateEnd
      reads this`corruptedIR, this`ordered, this`interCtrlDepPtr, this`interCtrlDepFunc, this`dominatorMap
    {
      CandidateEnd(corruptedIR, ordered, interCtrlDepPtr, interCtrlDepFunc, dominatorMap)
    }

    /**
     * One head candidate of `getCorruptedIRs`: start it, replay the stack,
     * then count the confirmed pointer and function sites (each enabled by
     * its command-line switch) on top of the cross-function results.
     */
    method RunCandidate(h: nat, ptrCheck: bool, funcCheck: bool) returns (st: Status, rep: Report, ghost rets: seq<bool>)
      requires InputsOk() && Live() && DomsOk() && SiteFrames(m, callStackHead) && SiteFrames(m, callStackBody)
      requires h < |callStackHead|
      modifies this`corruptedIR, this`ordered, this`corruptedPtr, this`callStack, this`memo,
               this`corruptedBr, this`corruptedCallIns, this`interCtrlDepPtr, this`interCtrlDepFunc, this`dominatorMap
      ensures Live() && DomsOk()
      ensures st.Ok? ==> callStack == [] && rep.trace == ordered
      ensures st.Ok? ==> (rep.ptrVul.Some? <==> ptrCheck) && (rep.funcVul.Some? <==> funcCheck)
      ensures st.Ok? && ptrCheck ==>
                var n := CountSites(m, srcMap, labels.ptrOps, TaintedFuncs(m, corruptedIR), corruptedIR, dominatorMap);
                n.Some? && rep.ptrVul.value == |interCtrlDepPtr| + n.value
      ensures st.Ok? && funcCheck ==>
                var n := CountSites(m, srcMap, labels.funcOps, TaintedFuncs(m, corruptedIR), corruptedIR, dominatorMap);
                n.Some? && rep.funcVul.value == |interCtrlDepFunc| + n.value
      ensures st.Ok? ==> ReportFrom(rep, CurrentEnd(), ptrCheck, funcCheck)
      ensures st.Ok? ==> |interCtrlDepPtr| <= |labels.ptrKeys| && |interCtrlDepFunc| <= |labels.funcKeys|
      ensures st.Ok? ==> |rets| == 1 + |callStackBody|
      ensures st.Ok? ==> forall k :: 0 <= k < |callStackBody| && rets[k] ==> Inst(callStackBody[k].inst.value) in corruptedIR
    {
      rep := Report([], None, None);
      StartCandidate(h);
      ghost var s0 := callStack;
      st, rets := ReplayStack();
      if st.Abort? {
        return;
      }
      forall k | 0 <= k < |callStackBody| && rets[k] ensures Inst(callStackBody[k].inst.value) in corruptedIR {
        assert s0[k + 1] == callStackBody[k];
      }
      st, rep := CountCandidate(ptrCheck, funcCheck);
    }

    /**
     * The counting half of a head candidate: the confirmed pointer and
     * function sites (each enabled by its command-line switch) on top of
     * the cross-function results.
     */
    method CountCandidate(ptrCheck: bool, funcCheck: bool) returns (st: Status, rep: Report)
      requires InputsOk() && Live() && DomsOk()
      modifies this`dominatorMap
      ensures DomsOk()
      ensures st.Ok? ==> rep.trace == ordered
      ensures st.Ok? ==> (rep.ptrVul.Some? <==> ptrCheck) && (rep.funcVul.Some? <==> funcCheck)
      ensures st.Ok? && ptrCheck ==>
                var n := CountSites(m, srcMap, labels.ptrOps, TaintedFuncs(m, corruptedIR), corruptedIR, dominatorMap);
                n.Some? && rep.ptrVul.value == |interCtrlDepPtr| + n.value
      ensures st.Ok? && funcCheck ==>
                var n := CountSites(m, srcMap, labels.funcOps, TaintedFuncs(m, corruptedIR), corruptedIR, dominatorMap);
                n.Some? && rep.funcVul.value == |interCtrlDepFunc| + n.value
      ensures st.Ok? ==> ReportFrom(rep, CurrentEnd(), ptrCheck, funcCheck)
      ensures |interCtrlDepPtr| <= |labels.ptrKeys| && |interCtrlDepFunc| <= |labels.funcKeys|
    {
      rep := Report([], None, None);
      InterCtrlDepCount(interCtrlDepPtr, labels.ptrKeys);
      InterCtrlDepCount(interCtrlDepFunc, labels.funcKeys);
      var funcSet := CorruptedFuncs();
      var ptrVul, funcVul := None, None;
      if ptrCheck {
        var n;
        st, n := GetDominators(labels.ptrOps, funcSet);
        if st.Abort? {
          return;
        }
        ptrVul := Some(|interCtrlDepPtr| + n);
      }
      ghost var dm1 := dominatorMap;
      if funcCheck {
        var n;
        st, n := GetDominators(labels.funcOps, funcSet);
        if st.Abort? {
          return;
        }
        funcVul := Some(|interCtrlDepFunc| + n);
      }
      if ptrCheck {
        CountSitesFrame(m, srcMap, labels.ptrOps, funcSet, corruptedIR, dm1, dominatorMap);
      }
      st := Ok;
      rep := Report(ordered, ptrVul, funcVul);
    }

    /**
     * `getCorruptedIRs`: run every head candidate in turn, one report each;
     * an empty head fails the source's assertion.
     */
    method GetCorruptedIRs(ptrCheck: bool, funcCheck: bool) returns (st: Status, reports: seq<Report>, ghost ends: seq<CandidateEnd>)
      requires InputsOk() && Live() && DomsOk() && SiteFrames(m, callStackHead) && SiteFrames(m, callStackBody)
      modifies this`corruptedIR, this`ordered, this`corruptedPtr, this`callStack, this`memo,
               this`corruptedBr, this`corruptedCallIns, this`interCtrlDepPtr, this`interCtrlDepFunc, this`dominatorMap
      ensures Live() && DomsOk()
      ensures callStackHead == [] ==> st.Abort?
      ensures st.Ok? ==> |reports| == |callStackHead|
      ensures st.Ok? ==> forall k :: 0 <= k < |reports| ==>
                (reports[k].ptrVul.Some? <==> ptrCheck) && (reports[k].funcVul.Some? <==> funcCheck)
      ensures st.Ok? ==> |ends| == |reports| && ends[|ends| - 1] == CurrentEnd()
      ensures st.Ok? ==> forall k :: 0 <= k < |reports| ==>
                ReportFrom(reports[k], ends[k], ptrCheck, funcCheck) &&
                |ends[k].depPtr| <= |labels.ptrKeys| && |ends[k].depFunc| <= |labels.funcKeys|
    {
      reports, ends := [], [];
      if callStackHead == [] {
        return Abort("Error: callStackHead_ is empty!"), reports, ends;
      }
      st := Ok;
      var h := 0;
      while h < |callStackHead|
        invariant 0 <= h <= |callStackHead| && |reports| == h && |ends| == h
        invariant Live() && DomsOk()
        invariant h > 0 ==> ends[h - 1] == CurrentEnd()
        invariant forall k :: 0 <= k < h ==>
                    (reports[k].ptrVul.Some? <==> ptrCheck) && (reports[k].funcVul.Some? <==> funcCheck)
        invariant forall k :: 0 <= k < h ==>
                    ReportFrom(reports[k], ends[k], ptrCheck, funcCheck) &&
                    |ends[k].depPtr| <= |labels.ptrKeys| && |ends[k].depFunc| <= |labels.funcKeys|
      {
        var rep;
        ghost var rets;
        st, rep, rets := RunCandidate(h, ptrCheck, funcCheck);
        if st.Abort? {
          return;
        }
        reports := reports + [rep];
        ends := ends + [CurrentEnd()];
        h := h + 1;
      }
    }

    /**
     * `clearClassDataMember`: empty the taint state, the stacks and the
     * memo; the branch lists, the cross-function results and the dominator
     * cache are left as they are.
     */
    method ClearClassDataMember()
      requires BranchesOk() && DepsOk()
      modifies this`corruptedIR, this`finishedVars, this`corruptedPtr, this`ordered, this`callStack,
               this`callStackHead, this`callStackBody, this`memo
      ensures corruptedIR == {} && finishedVars == {} && corruptedPtr == map[] && ordered == [] && callStack == []
      ensures callStackHead == [] && callStackBody == [] && memo == map[]
      ensures Live()
    {
      corruptedIR, finishedVars, corruptedPtr, ordered, callStack := {}, {}, map[], [], [];
      callStackHead, callStackBody, memo := [], [], map[];
      assert (set v | v in ordered) == {};
    }

    /**
     * The first half of `runOnModule`: clear the tables, read the race
     * report and seed the call stacks from it.
     */
    method ReadReport(fileOpen: bool, lines: seq<Scanned>, corruptVar: nat, order: seq<InstId>) returns (st: Status)
      requires InputsOk() && BranchesOk() && DepsOk()
      requires forall x :: x in order <==> x in ins2int
      modifies this`corruptedIR, this`ordered, this`corruptedPtr, this`callStack, this`memo,
               this`finishedVars, this`callStackHead, this`callStackBody
      ensures Live()
      ensures !fileOpen || !AllAccepted(lines) ==> st.Abort?
      ensures st.Ok? <==> fileOpen && AllAccepted(lines) && SeedFrom(m, srcMap, Seeds([], [], {}), Entries(lines), 0).Success?
      ensures st.Ok? ==>
                var r := SeedFrom(m, srcMap, Seeds([], [], {}), Entries(lines), 0);
                r.Success? && callStackBody == r.value.body &&
                callStackHead == OverrideHead(m, ins2int, order, corruptVar, r.value.head)
      ensures st.Ok? ==> SiteFrames(m, callStackHead) && SiteFrames(m, callStackBody)
    {
      ClearClassDataMember();
      var cs;
      st, cs := ParseInput(fileOpen, lines);
      if st.Abort? {
        return;
      }
      assert SeedState() == Seeds([], [], {});
      st := InitializeCallStack(cs, corruptVar, order);
      if st.Abort? {
        return;
      }
      SeedFromFrames(m, srcMap, Seeds([], [], {}), cs, 0);
      ghost var r := SeedFrom(m, srcMap, Seeds([], [], {}), cs, 0);
      OverrideHeadFrames(m, ins2int, order, corruptVar, r.value.head);
    }

    /**
     * `runOnModule`: clear the tables, read the race report, seed the call
     * stacks from it and run the taint analysis for every head candidate.
     */
    method RunOnModule(fileOpen: bool, lines: seq<Scanned>, corruptVar: nat, order: seq<InstId>,
                       ptrCheck: bool, funcCheck: bool) returns (st: Status, reports: seq<Report>, ghost ends: seq<CandidateEnd>)
      requires InputsOk() && BranchesOk() && DepsOk() && DomsOk()
      requires forall x :: x in order <==> x in ins2int
      modifies this`corruptedIR, this`ordered, this`corruptedPtr, this`callStack, this`memo,
               this`corruptedBr, this`corruptedCallIns, this`interCtrlDepPtr, this`interCtrlDepFunc, this`dominatorMap,
               this`finishedVars, this`callStackHead, this`callStackBody
      ensures !fileOpen || !AllAccepted(lines) ==> st.Abort?
      ensures st.Ok? ==>
                var r := SeedFrom(m, srcMap, Seeds([], [], {}), Entries(lines), 0);
                r.Success? && callStackBody == r.value.body &&
                callStackHead == OverrideHead(m, ins2int, order, corruptVar, r.value.head) &&
                callStackHead != [] && |reports| == |callStackHead|
      ensures st.Ok? ==> |ends| == |reports| && forall k :: 0 <= k < |reports| ==>
                ReportFrom(reports[k], ends[k], ptrCheck, funcCheck)
    {
      reports, ends := [], [];
      st := ReadReport(fileOpen, lines, corruptVar, order);
      if st.Abort? {
        return;
      }
      st, reports, ends := GetCorruptedIRs(ptrCheck, funcCheck);
    }
  }
}
