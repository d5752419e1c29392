/**
 * Value-level definitions behind the SyncLoop pass: the taint state of one
 * intra-procedural walk, the walk itself, the loop-nest search that finds
 * the loop holding the racing read, and the busy-wait detection on the
 * taint trace.
 */
module SyncSpec {
  import opened IR
  import opened Taint
  import opened ConSpec
  import opened ConSeeds

  /** `corruptedIR_`, `orderedcorruptedIR_`, `corruptedPtr_` and `corruptedBr_`. */
  datatype TaintState = TaintState(ir: set<Value>, trace: seq<Value>, ptr: map<Value, seq<GepIdx>>, br: seq<InstId>)

  /** The state after the four `clear()` calls. */
  const Cleared: TaintState := TaintState({}, [], map[], [])

  /** The taint set and the trace agree, and the branch list holds no branch twice. */
  ghost predicate StateOk(t: TaintState)
  {
    Synced(t.ir, t.trace) && NoDup(t.br)
  }

  /** Nothing tainted, traced or listed is ever dropped. */
  predicate Grows(t: TaintState, t': TaintState)
  {
    t.ir <= t'.ir && Extends(t.trace, t'.trace) && Extends(t.br, t'.br)
  }

  /** `add2CrptList` on the state: append and insert exactly when absent. */
  function Add(t: TaintState, v: Value): TaintState
  {
    if v in t.ir then t else t.(ir := t.ir + {v}, trace := t.trace + [v])
  }

  /**
   * Whether a branch tainted earlier in this walk influences the block of
   * instruction `i`; never when the function has no control-dependence
   * graph.
   */
  predicate InfluencedBy(m: Module, cd: ControlDeps, f: FuncId, localBr: seq<InstId>, i: InstId)
    requires InstIdsOk(m, localBr) && i < |m.insts|
  {
    cd.hasGraph(f) && exists j :: 0 <= j < |localBr| && cd.influences(f, m.insts[localBr[j]].parent, m.insts[i].parent)
  }

  /**
   * A GEP: tainted when a descriptor recorded under its base selects the
   * same element; then, if some operand is tainted and the GEP still is
   * not, tainted with its descriptor recorded under operand 1, which aborts
   * for an arity other than two or three.
   */
  function GepSpec(m: Module, t: TaintState, i: InstId): Result<TaintState>
    requires HandlesOk(m) && i < |m.insts| && m.insts[i].op == Gep
  {
    var ops := m.insts[i].operands;
    assert OperandsOk(m, m.insts[i]);
    var t1 := if ElementMatch(t.ptr, ops) then Add(t, Inst(i)) else t;
    if AnyIn(ops, t1.ir) && Inst(i) !in t1.ir then
      match Descriptor(ops)
      case None => Failure("Cannot parse GetElementPtrInst")
      case Some(d) => Success(Add(t1, Inst(i)).(ptr := t1.ptr[ops[1] := PtrList(t1.ptr, ops[1]) + [d]]))
    else Success(t1)
  }

  /** Where one step of the walk leaves it: the state, the local branch list and the return flag. */
  datatype Walked = Walked(t: TaintState, localBr: seq<InstId>, rv: bool)

  /**
   * Any other instruction (calls included: this pass never follows them):
   * the first tainted operand taints an untainted instruction and sets the
   * return flag; a store then taints its address (operand 1), a branch
   * joins the branch list once and the local branch list.
   */
  function OtherSpec(m: Module, w: Walked, i: InstId): Walked
    requires HandlesOk(m) && i < |m.insts|
  {
    var ins := m.insts[i];
    assert OperandsOk(m, ins);
    if AnyIn(ins.operands, w.t.ir) && Inst(i) !in w.t.ir then
      var t1 := Add(w.t, Inst(i));
      if ins.op == Store then Walked(Add(t1, ins.operands[1]), w.localBr, true)
      else if ins.op == Br then Walked(t1.(br := if i in t1.br then t1.br else t1.br + [i]), w.localBr + [i], true)
      else Walked(t1, w.localBr, true)
    else w
  }

  /** One instruction: control-dependence taint first, then the GEP or the generic case. */
  function StepSpec(m: Module, cd: ControlDeps, f: FuncId, w: Walked, i: InstId): Result<Walked>
    requires HandlesOk(m) && i < |m.insts| && InstIdsOk(m, w.localBr)
  {
    var t0 := if InfluencedBy(m, cd, f, w.localBr, i) then Add(w.t, Inst(i)) else w.t;
    if m.insts[i].op == Gep then
      match GepSpec(m, t0, i)
      case Failure(e) => Failure(e)
      case Success(t1) => Success(w.(t := t1))
    else Success(OtherSpec(m, w.(t := t0), i))
  }

  /** The walk over `body` from position `k` to its end. */
  function WalkSpec(m: Module, cd: ControlDeps, f: FuncId, body: seq<InstId>, k: nat, w: Walked): Result<Walked>
    requires HandlesOk(m) && InstIdsOk(m, body) && k <= |body| && InstIdsOk(m, w.localBr)
    decreases |body| - k
  {
    if k == |body| then Success(w)
    else
      StepOk(m, cd, f, w, body[k]);
      match StepSpec(m, cd, f, w, body[k])
      case Failure(e) => Failure(e)
      case Success(w') => WalkSpec(m, cd, f, body, k + 1, w')
  }

  /** The first position of `x` in `s`. */
  function FirstIndex<T(==)>(s: seq<T>, x: T): (k: nat)
    requires x in s
    ensures k < |s| && s[k] == x && forall j :: 0 <= j < k ==> s[j] != x
  {
    if s[0] == x then 0 else 1 + FirstIndex(s[1..], x)
  }

  /**
   * `intraFlowAnalysis(F, ins)`: taint `ins` (the return flag says whether
   * it was new), then walk `F` from `ins` itself to its end; an `ins` that
   * is not in `F` fails the source's assertion.
   */
  function IntraSpec(m: Module, cd: ControlDeps, f: FuncId, ins: InstId, t: TaintState): Result<Walked>
    requires HandlesOk(m) && f < |m.funcs|
  {
    var body := Body(m, f);
    BodyOk(m, f);
    if ins !in body then Failure("Couldn't find callstack instruction.")
    else WalkSpec(m, cd, f, body, FirstIndex(body, ins), Walked(Add(t, Inst(ins)), [], Inst(ins) !in t.ir))
  }

  // ---------------------------------------------------------------------
  // Loops
  // ---------------------------------------------------------------------

  /** A natural loop of `LoopInfo`: its blocks and its immediate sub-loops. */
  datatype Loop = Loop(blocks: seq<BlockId>, subLoops: seq<Loop>)

  predicate Holds(L: Loop, b: BlockId)
  {
    b in L.blocks
  }

  /** `iterateLoops`: `L` itself if it holds `b`, else the first hit among its sub-loops. */
  function IterateLoops(b: BlockId, L: Loop): Option<Loop>
    decreases L, 1
  {
    if Holds(L, b) then Some(L) else FirstIn(b, L.subLoops)
  }

  /** The loop over a list of sibling loops: the first one whose search finds something. */
  function FirstIn(b: BlockId, ls: seq<Loop>): Option<Loop>
    decreases ls, 0
  {
    if ls == [] then None
    else
      match IterateLoops(b, ls[0])
      case Some(L) => Some(L)
      case None => FirstIn(b, ls[1..])
  }

  /** A loop nest in pre-order: the loop, then each sub-loop's nest in order (reference definition). */
  function PreOrder(L: Loop): seq<Loop>
    decreases L, 1
  {
    [L] + PreOrderAll(L.subLoops)
  }

  function PreOrderAll(ls: seq<Loop>): seq<Loop>
    decreases ls, 0
  {
    if ls == [] then [] else PreOrder(ls[0]) + PreOrderAll(ls[1..])
  }

  /** The first loop of a list that holds `b` (reference definition). */
  function FirstHolding(b: BlockId, ls: seq<Loop>): Option<Loop>
  {
    if ls == [] then None else if Holds(ls[0], b) then Some(ls[0]) else FirstHolding(b, ls[1..])
  }

  /** The functions `checkLoop` searches, from `f` on: their top-level loops, each nest in pre-order. */
  function ModuleLoops(m: Module, loops: FuncId -> seq<Loop>, f: nat): seq<Loop>
    decreases |m.funcs| - f
  {
    if f >= |m.funcs| then []
    else (if m.funcs[f].blocks == [] then [] else PreOrderAll(loops(f))) + ModuleLoops(m, loops, f + 1)
  }

  /** `checkLoop`'s function loop from `f` on: declarations are skipped, the first hit is returned. */
  function CheckLoopFrom(m: Module, loops: FuncId -> seq<Loop>, b: BlockId, f: nat): Option<Loop>
    decreases |m.funcs| - f
  {
    if f >= |m.funcs| then None
    else if m.funcs[f].blocks == [] then CheckLoopFrom(m, loops, b, f + 1)
    else
      match FirstIn(b, loops(f))
      case Some(L) => Some(L)
      case None => CheckLoopFrom(m, loops, b, f + 1)
  }

  /** `isLoopExiting` as LLVM 3.x defines it: some CFG successor of the block lies outside the loop. */
  predicate IsLoopExiting(m: Module, L: Loop, b: BlockId)
  {
    b < |m.blocks| && exists k :: 0 <= k < |m.blocks[b].succs| && m.blocks[b].succs[k] !in L.blocks
  }

  /** A trace entry that reports a detection: a compare or binary operator in an exiting block of `L`. */
  predicate IsExit(m: Module, L: Loop, v: Value)
  {
    v.Inst? && v.inst < |m.insts| && m.insts[v.inst].op in {ICmp, BinOp} && IsLoopExiting(m, L, m.insts[v.inst].parent)
  }

  /** The detection loop over the trace: the first entry that reports, if any. */
  function FirstExit(m: Module, L: Loop, trace: seq<Value>): Option<InstId>
  {
    if trace == [] then None
    else if IsExit(m, L, trace[0]) then Some(trace[0].inst)
    else FirstExit(m, L, trace[1..])
  }

  /** A write frame that stores a constant (operand 0 of a store is the stored value). */
  predicate ConstantStore(m: Module, fr: Frame)
  {
    fr.inst.Some? && fr.inst.value < |m.insts| && m.insts[fr.inst.value].op == Store &&
    |m.insts[fr.inst.value].operands| >= 1 && IsConstant(m.insts[fr.inst.value].operands[0])
  }

  predicate ConstantWrite(m: Module, writes: seq<Frame>)
  {
    exists k :: 0 <= k < |writes| && ConstantStore(m, writes[k])
  }

  /** The results of a loop whose turns may abort: the first failure, or every value in turn order. */
  function Collect<T>(rs: seq<Result<T>>, k: nat, acc: seq<T>): Result<seq<T>>
    requires k <= |rs|
    decreases |rs| - k
  {
    if k == |rs| then Success(acc)
    else
      match rs[k]
      case Failure(e) => Failure(e)
      case Success(d) => Collect(rs, k + 1, acc + [d])
  }

  /**
   * The read loop of `adhocSyncAnalysis`: one slot per read frame, the
   * first frame walked from the state the loop starts in and every later
   * one from the cleared state.
   */
  function Slots(m: Module, cd: ControlDeps, L: Loop, frames: seq<Frame>, t: TaintState): (r: seq<Result<Option<InstId>>>)
    requires HandlesOk(m) && SiteFrames(m, frames)
    ensures |r| == |frames|
    ensures forall j :: 0 <= j < |frames| ==> r[j] == Slot(m, cd, L, frames[j], if j == 0 then t else Cleared)
  {
    seq(|frames|, j requires 0 <= j < |frames| => Slot(m, cd, L, frames[j], if j == 0 then t else Cleared))
  }

  /** One read frame: walk its function from its instruction in state `t`, then look for a detection. */
  function Slot(m: Module, cd: ControlDeps, L: Loop, fr: Frame, t: TaintState): Result<Option<InstId>>
    requires HandlesOk(m) && fr.func < |m.funcs| && fr.inst.Some?
  {
    match IntraSpec(m, cd, fr.func, fr.inst.value, t)
    case Failure(e) => Failure(e)
    case Success(w) => Success(FirstExit(m, L, w.t.trace))
  }

  // ---------------------------------------------------------------------
  // Properties
  // ---------------------------------------------------------------------

  /** A step only ever adds instructions of the module to the local branch list. */
  lemma StepOk(m: Module, cd: ControlDeps, f: FuncId, w: Walked, i: InstId)
    requires HandlesOk(m) && i < |m.insts| && InstIdsOk(m, w.localBr)
    ensures StepSpec(m, cd, f, w, i).Success? ==> InstIdsOk(m, StepSpec(m, cd, f, w, i).value.localBr)
  {
  }

  /** `add2CrptList` keeps the state consistent, adds exactly `v`, and touches nothing else. */
  lemma AddOk(t: TaintState, v: Value)
    requires StateOk(t)
    ensures var t' := Add(t, v);
            StateOk(t') && Grows(t, t') && t'.ir == t.ir + {v} && t'.ptr == t.ptr && t'.br == t.br &&
            t'.trace == t.trace + (if v in t.ir then [] else [v])
  {
    if v !in t.ir {
      SyncedAdd(t.ir, t.trace, v);
    }
  }

  /**
   * Element precision on a GEP: it ends up tainted exactly when it already
   * was, a recorded descriptor under its base selects its element, or an
   * operand is tainted; it fails only when it gets newly tainted with an
   * arity other than two or three.
   */
  lemma GepSpecIff(m: Module, t: TaintState, i: InstId)
    requires HandlesOk(m) && i < |m.insts| && m.insts[i].op == Gep && StateOk(t)
    ensures var ops := m.insts[i].operands;
            var r := GepSpec(m, t, i);
            (r.Failure? <==> Descriptor(ops).None? && AnyIn(ops, t.ir) && Inst(i) !in t.ir) &&
            (r.Success? ==> StateOk(r.value) && Grows(t, r.value) && r.value.br == t.br &&
                            (Inst(i) in r.value.ir <==> Inst(i) in t.ir || ElementMatch(t.ptr, ops) || AnyIn(ops, t.ir)) &&
                            r.value.ir <= t.ir + {Inst(i)})
  {
    var ops := m.insts[i].operands;
    assert OperandsOk(m, m.insts[i]);
    AddOk(t, Inst(i));
    var t1 := if ElementMatch(t.ptr, ops) then Add(t, Inst(i)) else t;
    AddOk(t1, Inst(i));
    if ElementMatch(t.ptr, ops) {
      ElementMatchIff(t.ptr, ops);
    }
    if AnyIn(ops, t.ir) {
      var k :| 0 <= k < |ops| && ops[k] in t.ir;
      assert ops[k] in t1.ir;
    }
  }

  /**
   * The generic case: the instruction ends up tainted exactly when it was
   * or some operand is; a store newly tainted taints its address, a branch
   * newly tainted is listed once globally and appended locally, and the
   * return flag is set exactly on a new taint.
   */
  lemma OtherSpecIff(m: Module, w: Walked, i: InstId)
    requires HandlesOk(m) && i < |m.insts| && StateOk(w.t)
    ensures var ins := m.insts[i];
            var r := OtherSpec(m, w, i);
            var isNew := AnyIn(ins.operands, w.t.ir) && Inst(i) !in w.t.ir;
            StateOk(r.t) && Grows(w.t, r.t) && r.t.ptr == w.t.ptr &&
            (Inst(i) in r.t.ir <==> Inst(i) in w.t.ir || AnyIn(ins.operands, w.t.ir)) &&
            (r.rv <==> w.rv || isNew) && (isNew ==> |r.t.trace| > |w.t.trace|) &&
            (isNew && ins.op == Store ==> ins.operands[1] in r.t.ir) &&
            (isNew && ins.op == Br ==> i in r.t.br && r.localBr == w.localBr + [i]) &&
            (!(isNew && ins.op == Br) ==> r.t.br == w.t.br && r.localBr == w.localBr) &&
            (!isNew ==> r == w)
  {
    var ins := m.insts[i];
    assert OperandsOk(m, ins);
    AddOk(w.t, Inst(i));
    var t1 := Add(w.t, Inst(i));
    if AnyIn(ins.operands, w.t.ir) && Inst(i) !in w.t.ir {
      if ins.op == Store {
        AddOk(t1, ins.operands[1]);
      }
    }
  }

  /**
   * One step keeps the state consistent and only adds to it; an instruction
   * whose block a locally tainted branch influences is tainted itself; the
   * return flag, once set, stays set, and it is only newly set when the
   * trace grows.
   */
  lemma {:induction false} StepGrows(m: Module, cd: ControlDeps, f: FuncId, w: Walked, i: InstId)
    requires HandlesOk(m) && i < |m.insts| && InstIdsOk(m, w.localBr) && StateOk(w.t)
    ensures var r := StepSpec(m, cd, f, w, i);
            r.Success? ==>
              StateOk(r.value.t) && Grows(w.t, r.value.t) && Extends(w.localBr, r.value.localBr) &&
              (w.rv ==> r.value.rv) && (r.value.rv && !w.rv ==> |r.value.t.trace| > |w.t.trace|) &&
              (InfluencedBy(m, cd, f, w.localBr, i) ==> Inst(i) in r.value.t.ir)
  {
    var t0 := if InfluencedBy(m, cd, f, w.localBr, i) then Add(w.t, Inst(i)) else w.t;
    AddOk(w.t, Inst(i));
    if m.insts[i].op == Gep {
      GepSpecIff(m, t0, i);
    } else {
      OtherSpecIff(m, w.(t := t0), i);
    }
  }

  /** The walk keeps the state consistent, only adds to it, and sets the return flag only when the trace grows. */
  lemma {:induction false} WalkGrows(m: Module, cd: ControlDeps, f: FuncId, body: seq<InstId>, k: nat, w: Walked)
    requires HandlesOk(m) && InstIdsOk(m, body) && k <= |body| && InstIdsOk(m, w.localBr) && StateOk(w.t)
    ensures var r := WalkSpec(m, cd, f, body, k, w);
            r.Success? ==>
              StateOk(r.value.t) && Grows(w.t, r.value.t) &&
              (w.rv ==> r.value.rv) && (r.value.rv && !w.rv ==> |r.value.t.trace| > |w.t.trace|)
    decreases |body| - k
  {
    if k < |body| {
      StepOk(m, cd, f, w, body[k]);
      StepGrows(m, cd, f, w, body[k]);
      var s := StepSpec(m, cd, f, w, body[k]);
      if s.Success? && WalkSpec(m, cd, f, body, k + 1, s.value).Success? {
        WalkGrows(m, cd, f, body, k + 1, s.value);
        ExtendsTrans(w.t.trace, s.value.t.trace, WalkSpec(m, cd, f, body, k + 1, s.value).value.t.trace);
        ExtendsTrans(w.t.br, s.value.t.br, WalkSpec(m, cd, f, body, k + 1, s.value).value.t.br);
      }
    }
  }

  /**
   * `intraFlowAnalysis` fails exactly on an instruction outside the
   * function or a GEP it cannot parse; when it succeeds the racing read is
   * tainted, nothing tainted before is lost, and a `true` result means the
   * trace grew.
   */
  lemma IntraSeeded(m: Module, cd: ControlDeps, f: FuncId, ins: InstId, t: TaintState)
    requires HandlesOk(m) && f < |m.funcs| && StateOk(t)
    ensures ins !in Body(m, f) ==> IntraSpec(m, cd, f, ins, t).Failure?
    ensures var r := IntraSpec(m, cd, f, ins, t);
            r.Success? ==> StateOk(r.value.t) && Grows(t, r.value.t) && Inst(ins) in r.value.t.ir &&
                           (r.value.rv ==> |r.value.t.trace| > |t.trace|)
  {
    var body := Body(m, f);
    BodyOk(m, f);
    if ins in body {
      AddOk(t, Inst(ins));
      var w := Walked(Add(t, Inst(ins)), [], Inst(ins) !in t.ir);
      WalkGrows(m, cd, f, body, FirstIndex(body, ins), w);
      if IntraSpec(m, cd, f, ins, t).Success? {
        ExtendsTrans(t.trace, w.t.trace, IntraSpec(m, cd, f, ins, t).value.t.trace);
        ExtendsTrans(t.br, w.t.br, IntraSpec(m, cd, f, ins, t).value.t.br);
      }
    }
  }

  lemma {:induction false} FirstHoldingAppend(b: BlockId, xs: seq<Loop>, ys: seq<Loop>)
    ensures FirstHolding(b, xs + ys) == if FirstHolding(b, xs).Some? then FirstHolding(b, xs) else FirstHolding(b, ys)
  {
    if xs != [] {
      assert (xs + ys)[0] == xs[0];
      assert (xs + ys)[1..] == xs[1..] + ys;
      FirstHoldingAppend(b, xs[1..], ys);
    } else {
      assert xs + ys == ys;
    }
  }

  /** The first loop of a list holding `b` holds it, and is preceded by none that does; none means none holds it. */
  lemma {:induction false} FirstHoldingIff(b: BlockId, ls: seq<Loop>)
    ensures var r := FirstHolding(b, ls);
            (r.Some? ==> Holds(r.value, b) && exists k :: 0 <= k < |ls| && ls[k] == r.value &&
                                                       forall j :: 0 <= j < k ==> !Holds(ls[j], b)) &&
            (r.None? <==> forall k :: 0 <= k < |ls| ==> !Holds(ls[k], b))
  {
    if ls != [] {
      FirstHoldingIff(b, ls[1..]);
      if !Holds(ls[0], b) {
        if FirstHolding(b, ls[1..]).Some? {
          var k :| 0 <= k < |ls[1..]| && ls[1..][k] == FirstHolding(b, ls).value &&
                   forall j :: 0 <= j < k ==> !Holds(ls[1..][j], b);
          assert ls[k + 1] == ls[1..][k];
          forall j | 0 <= j < k + 1 ensures !Holds(ls[j], b) {
            if j > 0 {
              assert ls[j] == ls[1..][j - 1];
            }
          }
        } else {
          forall j | 0 <= j < |ls| ensures !Holds(ls[j], b) {
            if j > 0 {
              assert ls[j] == ls[1..][j - 1];
            }
          }
        }
      }
    }
  }

  /**
   * `iterateLoops` is a pre-order search: it returns the first loop of the
   * nest, a loop before its sub-loops and sub-loops in order, that holds
   * the block.
   */
  lemma {:induction false} IterateLoopsPreOrder(b: BlockId, L: Loop)
    ensures IterateLoops(b, L) == FirstHolding(b, PreOrder(L))
    decreases L, 1
  {
    FirstInPreOrder(b, L.subLoops);
    assert PreOrder(L)[1..] == PreOrderAll(L.subLoops);
  }

  lemma {:induction false} FirstInPreOrder(b: BlockId, ls: seq<Loop>)
    ensures FirstIn(b, ls) == FirstHolding(b, PreOrderAll(ls))
    decreases ls, 0
  {
    if ls != [] {
      IterateLoopsPreOrder(b, ls[0]);
      FirstInPreOrder(b, ls[1..]);
      FirstHoldingAppend(b, PreOrder(ls[0]), PreOrderAll(ls[1..]));
    }
  }

  /**
   * `checkLoop` returns the first loop, over the defined functions in
   * module order and each loop nest in pre-order, that holds the block;
   * none when no loop holds it.
   */
  lemma {:induction false} CheckLoopFirst(m: Module, loops: FuncId -> seq<Loop>, b: BlockId, f: nat)
    ensures CheckLoopFrom(m, loops, b, f) == FirstHolding(b, ModuleLoops(m, loops, f))
    decreases |m.funcs| - f
  {
    if f < |m.funcs| {
      CheckLoopFirst(m, loops, b, f + 1);
      if m.funcs[f].blocks != [] {
        FirstInPreOrder(b, loops(f));
        FirstHoldingAppend(b, PreOrderAll(loops(f)), ModuleLoops(m, loops, f + 1));
      } else {
        assert ModuleLoops(m, loops, f) == ModuleLoops(m, loops, f + 1);
      }
    }
  }

  /**
   * A detection is the first trace entry that is a compare or binary
   * operator in an exiting block of the loop; none when no entry is.
   */
  lemma {:induction false} FirstExitIff(m: Module, L: Loop, trace: seq<Value>)
    ensures var r := FirstExit(m, L, trace);
            (r.Some? ==> exists k :: 0 <= k < |trace| && trace[k] == Inst(r.value) && IsExit(m, L, trace[k]) &&
                                     forall j :: 0 <= j < k ==> !IsExit(m, L, trace[j])) &&
            (r.None? <==> forall k :: 0 <= k < |trace| ==> !IsExit(m, L, trace[k]))
  {
    if trace != [] {
      FirstExitIff(m, L, trace[1..]);
      if !IsExit(m, L, trace[0]) {
        if FirstExit(m, L, trace[1..]).Some? {
          var r := FirstExit(m, L, trace);
          var k :| 0 <= k < |trace[1..]| && trace[1..][k] == Inst(r.value) && IsExit(m, L, trace[1..][k]) &&
                   forall j :: 0 <= j < k ==> !IsExit(m, L, trace[1..][j]);
          assert trace[k + 1] == trace[1..][k];
          forall j | 0 <= j < k + 1 ensures !IsExit(m, L, trace[j]) {
            if j > 0 {
              assert trace[j] == trace[1..][j - 1];
            }
          }
        } else {
          forall j | 0 <= j < |trace| ensures !IsExit(m, L, trace[j]) {
            if j > 0 {
              assert trace[j] == trace[1..][j - 1];
            }
          }
        }
      }
    }
  }

  /**
   * A loop of aborting turns succeeds exactly when every turn does, and
   * then yields each turn's value at its own position after what was
   * already collected.
   */
  lemma {:induction false} CollectIff<T>(rs: seq<Result<T>>, k: nat, acc: seq<T>)
    requires k <= |rs|
    ensures var r := Collect(rs, k, acc);
            (r.Success? <==> forall j :: k <= j < |rs| ==> rs[j].Success?) &&
            (r.Success? ==> |r.value| == |acc| + |rs| - k && r.value[..|acc|] == acc &&
                            forall j :: k <= j < |rs| ==> r.value[|acc| + j - k] == rs[j].value)
    decreases |rs| - k
  {
    if k < |rs| && rs[k].Success? {
      var acc' := acc + [rs[k].value];
      CollectIff(rs, k + 1, acc');
      var r := Collect(rs, k + 1, acc');
      if r.Success? {
        assert r.value[..|acc|] == r.value[..|acc'|][..|acc|];
        assert r.value[|acc|] == r.value[..|acc'|][|acc|];
      }
    }
  }

  /**
   * A detection slot names a compare or binary operator, in an exiting
   * block of the loop, that the frame's walk tainted.
   */
  lemma SlotDetects(m: Module, cd: ControlDeps, L: Loop, fr: Frame, t: TaintState)
    requires HandlesOk(m) && fr.func < |m.funcs| && fr.inst.Some?
    ensures var r := Slot(m, cd, L, fr, t);
            r.Success? && r.value.Some? ==>
              IsExit(m, L, Inst(r.value.value)) && Inst(r.value.value) in IntraSpec(m, cd, fr.func, fr.inst.value, t).value.t.trace
  {
    var w := IntraSpec(m, cd, fr.func, fr.inst.value, t);
    if w.Success? {
      FirstExitIff(m, L, w.value.t.trace);
    }
  }
}
