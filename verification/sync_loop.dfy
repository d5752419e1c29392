/**
 * The SyncLoop pass: replay a two-line race report (the racing write, then
 * the racing read) as write and read instruction lists, find the loop that
 * holds the read, and report an ad-hoc synchronisation loop when the write
 * stores a constant and the read's taint reaches a compare or binary
 * operator in an exiting block of that loop.
 *
 * The module, the control-dependence service, the instruction numbering
 * and the loop forest of each function are fixed inputs (`const` fields);
 * the replay lists and the taint state are fields the methods update in
 * place.
 */
module SyncLoop {
  import opened IR
  import opened Taint
  import opened ConSpec
  import opened ConSeeds
  import opened RaceInput
  import opened SyncInit
  import opened SyncSpec

  class SyncLoopPass {
    const m: Module
    const cd: ControlDeps
    /** `getInst2IntMap()` of the numbering pass. */
    const ins2int: map<InstId, nat>
    /** `getFileLine2InstListMap()` of the numbering pass. */
    const srcMap: map<FileLine, seq<InstId>>
    /** `LoopInfo` of each function: its top-level loops. */
    const loops: FuncId -> seq<Loop>

    var finishedVars: set<Value>
    var readList: seq<Frame>
    var writeList: seq<Frame>
    var corruptedIR: set<Value>
    var ordered: seq<Value>
    var corruptedPtr: map<Value, seq<GepIdx>>
    var corruptedBr: seq<InstId>

    /** The pass over a module and the results of the analyses it depends on, with every list empty. */
    constructor(m: Module, cd: ControlDeps, ins2int: map<InstId, nat>, srcMap: map<FileLine, seq<InstId>>,
                loops: FuncId -> seq<Loop>)
      ensures this.m == m && this.cd == cd && this.ins2int == ins2int && this.srcMap == srcMap && this.loops == loops
      ensures Lists() == Racing([], [], {}) && State() == Cleared
    {
      this.m, this.cd, this.ins2int, this.srcMap, this.loops := m, cd, ins2int, srcMap, loops;
      finishedVars, readList, writeList := {}, [], [];
      corruptedIR, ordered, corruptedPtr, corruptedBr := {}, [], map[], [];
    }

    /** The taint state as a value. */
    ghost function State(): TaintState
      reads this`corruptedIR, this`ordered, this`corruptedPtr, this`corruptedBr
    {
      TaintState(corruptedIR, ordered, corruptedPtr, corruptedBr)
    }

    /** The replay lists as a value. */
    ghost function Lists(): Racing
      reads this`writeList, this`readList, this`finishedVars
    {
      Racing(writeList, readList, finishedVars)
    }

    /**
     * What the pass is handed: a module whose handles and parent links are
     * in range, and a line map listing instructions of the module.
     */
    ghost predicate InputsOk()
    {
      HandlesOk(m) && ParentsOk(m) && SourceMapOk(m, srcMap)
    }

    /** `clearClassDataMember`: every list and set is emptied. */
    method ClearClassDataMember()
      modifies this`finishedVars, this`readList, this`writeList, this`corruptedIR, this`ordered,
               this`corruptedPtr, this`corruptedBr
      ensures Lists() == Racing([], [], {}) && State() == Cleared
    {
      finishedVars, readList, writeList := {}, [], [];
      ClearTaint();
    }

    /** The four `clear()` calls after each read candidate. */
    method ClearTaint()
      modifies this`corruptedIR, this`ordered, this`corruptedPtr, this`corruptedBr
      ensures State() == Cleared && StateOk(State())
    {
      corruptedIR, ordered, corruptedPtr, corruptedBr := {}, [], map[], [];
      assert (set v | v in ordered) == {};
    }

    /**
     * `add2CrptList`: insert into both the set and the ordered list exactly
     * when the value is absent, and say whether it was.
     */
    method Add2CrptList(v: Value) returns (added: bool)
      requires StateOk(State())
      modifies this`corruptedIR, this`ordered
      ensures StateOk(State())
      ensures added <==> v !in old(corruptedIR)
      ensures State() == Add(old(State()), v)
    {
      AddOk(State(), v);
      added := v !in corruptedIR;
      if added {
        ordered := ordered + [v];
        corruptedIR := corruptedIR + {v};
      }
    }

    /**
     * `parseInput`: exactly two lines are read, the write and then the
     * read; an unopenable report, or a line on which `sscanf` matched
     * nothing (a missing line reads as empty), aborts.
     */
    method ParseInput(fileOpen: bool, lines: seq<Scanned>) returns (st: Status, cs: seq<FuncFileLine>)
      ensures st.Ok? <==> fileOpen && Accepted(LineAt(lines, 0)) && Accepted(LineAt(lines, 1))
      ensures st.Ok? ==> cs == [LineAt(lines, 0).entry, LineAt(lines, 1).entry]
    {
      cs := [];
      if !fileOpen {
        return Abort("Couldn't find input file"), cs;
      }
      var i := 0;
      while i < 2
        invariant 0 <= i <= 2 && |cs| == i
        invariant forall q :: 0 <= q < i ==> Accepted(LineAt(lines, q)) && cs[q] == LineAt(lines, q).entry
      {
        var line := LineAt(lines, i);
        if line.matched <= 0 {
          return Abort("Invalid input line!"), cs;
        }
        cs := cs + [line.entry];
        i := i + 1;
      }
      st := Ok;
    }

    // -------------------------------------------------------------------
    // initialize
    // -------------------------------------------------------------------

    /**
     * The operand loop of the GEP case: is some operand already recorded?
     * SyncLoopAnalysis repeats this loop of its own rather than sharing the
     * one of ConAnalysis, which `ConAnalysisPass.AnySeeded` models.
     */
    method AnyFinished(ops: seq<Value>) returns (found: bool)
      ensures found <==> AnyIn(ops, finishedVars)
    {
      found := false;
      var k := 0;
      while k < |ops|
        invariant 0 <= k <= |ops|
        invariant !AnyIn(ops[..k], finishedVars)
      {
        if ops[k] in finishedVars {
          return true;
        }
        assert ops[..k + 1] == ops[..k] + [ops[k]];
        k := k + 1;
      }
      assert ops[..k] == ops;
    }

    /**
     * The operand loop of the plain case: whether an operand is already
     * recorded (and then the instruction is recorded too), is a global, a
     * GEP or a bitcast.
     */
    method OperandFlags(i: InstId) returns (already: bool, hasGlobal: bool, isPointer: bool, isBitCast: bool)
      requires i < |m.insts|
      modifies this`finishedVars
      ensures already <==> AnyIn(m.insts[i].operands, old(finishedVars))
      ensures finishedVars == if already then old(finishedVars) + {Inst(i)} else old(finishedVars)
      ensures hasGlobal <==> HasGlobal(m.insts[i].operands)
      ensures isPointer <==> HasInstOf(m, m.insts[i].operands, Gep)
      ensures isBitCast <==> HasInstOf(m, m.insts[i].operands, BitCast)
    {
      var ops := m.insts[i].operands;
      already, hasGlobal, isPointer, isBitCast := false, false, false, false;
      var k := 0;
      while k < |ops|
        invariant 0 <= k <= |ops|
        invariant already <==> AnyIn(ops[..k], old(finishedVars))
        invariant finishedVars == if already then old(finishedVars) + {Inst(i)} else old(finishedVars)
        invariant hasGlobal <==> HasGlobal(ops[..k])
        invariant isPointer <==> HasInstOf(m, ops[..k], Gep)
        invariant isBitCast <==> HasInstOf(m, ops[..k], BitCast)
      {
        var v := ops[k];
        assert ops[..k + 1] == ops[..k] + [v];
        if v in finishedVars {
          already := true;
          finishedVars := finishedVars + {Inst(i)};
        }
        if v.Global? {
          hasGlobal := true;
        }
        if v.Inst? && v.inst < |m.insts| && m.insts[v.inst].op == Gep {
          isPointer := true;
        }
        if v.Inst? && v.inst < |m.insts| && m.insts[v.inst].op == BitCast {
          isBitCast := true;
        }
        k := k + 1;
      }
      assert ops[..k] == ops;
    }

    /** One turn of the instruction loop of a report line. */
    method RacingStep(first: bool, list: seq<InstId>, p: nat) returns (stop: bool)
      requires HandlesOk(m) && ParentsOk(m) && InstIdsOk(m, list) && p < |list|
      modifies this`writeList, this`readList, this`finishedVars
      ensures RacingScan(Lists(), stop) == RacingInst(m, old(Lists()), first, list, p)
    {
      var i := list[p];
      var ins := m.insts[i];
      stop := false;
      if first {
        writeList := writeList + [SiteFrame(m, i)];
      } else if ins.op == Gep {
        var seen := AnyFinished(ins.operands);
        if seen {
          return true;
        }
        readList := readList + [SiteFrame(m, i)];
        finishedVars := finishedVars + {Inst(i)};
      } else if ins.op == Call || ins.op == Invoke {
        // An intrinsic or a leading call is passed over with a warning;
        // any other call falls through every test: nothing is recorded.
      } else {
        var already, hasGlobal, isPointer, isBitCast := OperandFlags(i);
        if i != list[|list| - 1] || readList != [] || writeList != [] {
          if already || (!hasGlobal && ins.op == Load) || (!isBitCast && !isPointer && ins.op != Load) {
            return;
          }
        }
        readList := readList + [SiteFrame(m, i)];
        finishedVars := finishedVars + {Inst(i)};
      }
    }

    /** The instruction loop of a report line, up to its end or its first stop. */
    method RacingList(first: bool, list: seq<InstId>)
      requires HandlesOk(m) && ParentsOk(m) && InstIdsOk(m, list)
      modifies this`writeList, this`readList, this`finishedVars
      ensures Lists() == RacingFrom(m, old(Lists()), first, list, 0)
    {
      var p := 0;
      while p < |list|
        invariant 0 <= p <= |list|
        invariant RacingFrom(m, Lists(), first, list, p) == RacingFrom(m, old(Lists()), first, list, 0)
      {
        var stop := RacingStep(first, list, p);
        if stop {
          return;
        }
        p := p + 1;
      }
    }

    /** One turn of the report-line loop; `c` is the line's position. */
    method RacingLineStep(c: nat, cs: FuncFileLine) returns (st: Status)
      requires InputsOk()
      modifies this`writeList, this`readList, this`finishedVars
      ensures var r := RacingLine(m, srcMap, old(Lists()), c, cs);
              (st.Ok? <==> r.Success?) && (st.Ok? ==> Lists() == r.value)
    {
      var key := (cs.file, cs.line);
      if key !in srcMap {
        if c == 0 {
          return Ok;
        }
        return Abort("Missing debug info for the read instruction, aborting...");
      }
      var list := srcMap[key];
      if list == [] {
        return Abort("No matching instructions.");
      }
      RacingList(c == 0, list);
      st := Ok;
    }

    /**
     * The manual override: walk the id map in its iteration order `order`;
     * the first instruction carrying the write id replaces the write list,
     * the first carrying the read id replaces the read list, and the walk
     * stops there.
     */
    method Override(writeVar: nat, readVar: nat, order: seq<InstId>)
      requires ParentsOk(m) && forall i :: i in order ==> i < |m.insts|
      modifies this`writeList, this`readList
      ensures Lists() == Overridden(m, ins2int, order, writeVar, readVar, old(Lists()))
    {
      var k := 0;
      while k < |order|
        invariant 0 <= k <= |order|
        invariant FirstOverride(ins2int, order[k..], writeVar, readVar) == FirstOverride(ins2int, order, writeVar, readVar)
        invariant Lists() == old(Lists())
      {
        var i := order[k];
        assert order[k..][1..] == order[k + 1..];
        if i in ins2int && ins2int[i] == writeVar {
          writeList := [SiteFrame(m, i)];
          return;
        } else if i in ins2int && ins2int[i] == readVar {
          readList := [SiteFrame(m, i)];
          return;
        }
        k := k + 1;
      }
    }

    /** The report-line loop of `initialize`, up to its end or its first abort. */
    method ReplayLines(cs: seq<FuncFileLine>) returns (st: Status)
      requires InputsOk()
      modifies this`writeList, this`readList, this`finishedVars
      ensures var r := RacingLines(m, srcMap, old(Lists()), cs, 0);
              (st.Ok? <==> r.Success?) && (st.Ok? ==> Lists() == r.value)
    {
      var c := 0;
      while c < |cs|
        invariant 0 <= c <= |cs|
        invariant RacingLines(m, srcMap, Lists(), cs, c) == RacingLines(m, srcMap, old(Lists()), cs, 0)
      {
        st := RacingLineStep(c, cs[c]);
        if st.Abort? {
          return;
        }
        c := c + 1;
      }
      st := Ok;
    }

    /**
     * `initialize`: replay the report lines into the write list, the read
     * list and the recorded values, then apply the manual `writeVar` /
     * `readVar` override.  `order` is the iteration order of the id map.
     */
    method Initialize(cs: seq<FuncFileLine>, writeVar: nat, readVar: nat, order: seq<InstId>) returns (st: Status)
      requires InputsOk() && forall i :: i in order ==> i < |m.insts|
      modifies this`writeList, this`readList, this`finishedVars
      ensures var r := RacingLines(m, srcMap, old(Lists()), cs, 0);
              (st.Ok? <==> r.Success?) &&
              (st.Ok? ==> Lists() == Overridden(m, ins2int, order, writeVar, readVar, r.value))
    {
      st := ReplayLines(cs);
      if st.Ok? {
        Override(writeVar, readVar, order);
      }
    }

    // -------------------------------------------------------------------
    // checkLoop
    // -------------------------------------------------------------------

    /** The loop over one function's top-level loops: the first whose pre-order search finds the block. */
    method SearchLoops(b: BlockId, ls: seq<Loop>) returns (res: Option<Loop>)
      ensures res == FirstIn(b, ls)
    {
      var q := 0;
      while q < |ls|
        invariant 0 <= q <= |ls|
        invariant FirstIn(b, ls[q..]) == FirstIn(b, ls)
      {
        assert ls[q..][1..] == ls[q + 1..];
        res := IterateLoops(b, ls[q]);
        if res.Some? {
          return;
        }
        q := q + 1;
      }
      res := None;
    }

    /**
     * `checkLoop`: the block of the first read instruction, searched for in
     * the loops of every defined function in module order.  The source reads
     * `front()` of the read list without checking it; an empty list is
     * modelled as an abort.
     */
    method CheckLoop() returns (st: Status, inLoop: Option<Loop>)
      requires ParentsOk(m) && SiteFrames(m, readList)
      ensures readList == [] <==> st.Abort?
      ensures st.Abort? ==> inLoop.None?
      ensures st.Ok? ==> inLoop == CheckLoopFrom(m, loops, m.insts[readList[0].inst.value].parent, 0)
    {
      inLoop := None;
      if readList == [] {
        return Abort("front() of an empty read list"), inLoop;
      }
      st := Ok;
      var b := m.insts[readList[0].inst.value].parent;
      var f := 0;
      while f < |m.funcs|
        invariant 0 <= f <= |m.funcs|
        invariant CheckLoopFrom(m, loops, b, f) == CheckLoopFrom(m, loops, b, 0)
      {
        if m.funcs[f].blocks != [] {
          var res := SearchLoops(b, loops(f));
          if res.Some? {
            return Ok, res;
          }
        }
        f := f + 1;
      }
    }

    // -------------------------------------------------------------------
    // intraFlowAnalysis
    // -------------------------------------------------------------------

    /**
     * Whether a branch tainted earlier in this walk influences the block of
     * instruction `i`; never when the function has no control-dependence
     * graph.
     */
    method Influenced(f: FuncId, localBr: seq<InstId>, i: InstId) returns (r: bool)
      requires InstIdsOk(m, localBr) && i < |m.insts|
      ensures r <==> InfluencedBy(m, cd, f, localBr, i)
    {
      r := false;
      if !cd.hasGraph(f) {
        return;
      }
      var j := 0;
      while j < |localBr|
        invariant j <= |localBr|
        invariant forall k :: 0 <= k < j ==> !cd.influences(f, m.insts[localBr[k]].parent, m.insts[i].parent)
      {
        if cd.influences(f, m.insts[localBr[j]].parent, m.insts[i].parent) {
          return true;
        }
        j := j + 1;
      }
    }

    /** The element-precise half of a GEP visit: taint it once for each recorded descriptor that selects its element. */
    method MatchDescriptors(i: InstId)
      requires StateOk(State()) && i < |m.insts| && |m.insts[i].operands| >= 1
      modifies this`corruptedIR, this`ordered
      ensures StateOk(State())
      ensures State() == if ElementMatch(old(corruptedPtr), m.insts[i].operands) then Add(old(State()), Inst(i)) else old(State())
    {
      var ops := m.insts[i].operands;
      if ops[0] in corruptedPtr {
        var list := corruptedPtr[ops[0]];
        var j := 0;
        ghost var hit := false;
        while j < |list|
          invariant j <= |list| && StateOk(State())
          invariant hit <==> exists k :: 0 <= k < j && Selects(list[k], ops)
          invariant State() == if hit then Add(old(State()), Inst(i)) else old(State())
        {
          if Selects(list[j], ops) {
            var _ := Add2CrptList(Inst(i));
            hit := true;
          }
          j := j + 1;
        }
      }
    }

    /**
     * The whole-value half of a GEP visit: the first tainted operand taints
     * an untainted GEP and records its descriptor under operand 1; an arity
     * other than two or three aborts.
     */
    method TaintWholeGep(i: InstId) returns (st: Status)
      requires StateOk(State()) && i < |m.insts| && |m.insts[i].operands| >= 1
      modifies this`corruptedIR, this`ordered, this`corruptedPtr
      ensures StateOk(State())
      ensures var ops := m.insts[i].operands;
              var t := old(State());
              if AnyIn(ops, t.ir) && Inst(i) !in t.ir then
                (st.Ok? <==> Descriptor(ops).Some?) &&
                (st.Ok? ==> State() == Add(t, Inst(i)).(ptr := t.ptr[ops[1] := PtrList(t.ptr, ops[1]) + [Descriptor(ops).value]]))
              else st.Ok? && State() == t
    {
      var ops := m.insts[i].operands;
      st := Ok;
      var k := 0;
      while k < |ops|
        invariant k <= |ops| && StateOk(State())
        invariant st.Ok?
        invariant var t := old(State());
                  if AnyIn(ops[..k], t.ir) && Inst(i) !in t.ir then
                    Descriptor(ops).Some? &&
                    State() == Add(t, Inst(i)).(ptr := t.ptr[ops[1] := PtrList(t.ptr, ops[1]) + [Descriptor(ops).value]])
                  else State() == t
      {
        assert ops[..k + 1] == ops[..k] + [ops[k]];
        if ops[k] in corruptedIR && Inst(i) !in corruptedIR {
          var _ := Add2CrptList(Inst(i));
          var d := Descriptor(ops);
          if d.None? {
            return Abort("Cannot parse GetElementPtrInst");
          }
          corruptedPtr := corruptedPtr[ops[1] := PtrList(corruptedPtr, ops[1]) + [d.value]];
        }
        k := k + 1;
      }
      assert ops[..k] == ops;
    }

    /** A GEP in the walk: element-precise matching under its base, then whole-value taint. */
    method VisitGep(i: InstId) returns (st: Status)
      requires HandlesOk(m) && StateOk(State()) && i < |m.insts| && m.insts[i].op == Gep
      modifies this`corruptedIR, this`ordered, this`corruptedPtr
      ensures StateOk(State())
      ensures var r := GepSpec(m, old(State()), i);
              (st.Ok? <==> r.Success?) && (st.Ok? ==> State() == r.value)
    {
      assert OperandsOk(m, m.insts[i]);
      MatchDescriptors(i);
      st := TaintWholeGep(i);
    }

    /**
     * Any other instruction: the first tainted operand taints it if it is
     * not tainted yet; a store then taints its address, a branch joins the
     * branch list once and the local branch list.
     */
    method VisitOther(i: InstId, localBr: seq<InstId>) returns (localBr': seq<InstId>, added: bool)
      requires HandlesOk(m) && StateOk(State()) && i < |m.insts|
      modifies this`corruptedIR, this`ordered, this`corruptedBr
      ensures StateOk(State())
      ensures Walked(State(), localBr', added) == OtherSpec(m, Walked(old(State()), localBr, false), i)
    {
      var ins := m.insts[i];
      var ops := ins.operands;
      assert OperandsOk(m, ins);
      localBr', added := localBr, false;
      var k := 0;
      while k < |ops| && ops[k] !in corruptedIR
        invariant k <= |ops|
        invariant !AnyIn(ops[..k], corruptedIR)
      {
        assert ops[..k + 1] == ops[..k] + [ops[k]];
        k := k + 1;
      }
      if k == |ops| {
        assert ops[..k] == ops;
        return;
      }
      if Inst(i) !in corruptedIR {
        added := Add2CrptList(Inst(i));
        if ins.op == Store {
          var _ := Add2CrptList(ops[1]);
        } else if ins.op == Br {
          if i !in corruptedBr {
            corruptedBr := corruptedBr + [i];
          }
          localBr' := localBr + [i];
        }
      }
    }

    /** One instruction of the walk over `f`: control-dependence taint, then the GEP or the generic case. */
    method Step(f: FuncId, i: InstId, localBr: seq<InstId>, rv: bool) returns (st: Status, localBr': seq<InstId>, rv': bool)
      requires HandlesOk(m) && StateOk(State()) && i < |m.insts| && InstIdsOk(m, localBr)
      modifies this`corruptedIR, this`ordered, this`corruptedPtr, this`corruptedBr
      ensures StateOk(State())
      ensures var r := StepSpec(m, cd, f, Walked(old(State()), localBr, rv), i);
              (st.Ok? <==> r.Success?) && (st.Ok? ==> r.value == Walked(State(), localBr', rv'))
    {
      var influence := Influenced(f, localBr, i);
      if influence {
        var _ := Add2CrptList(Inst(i));
      }
      localBr', rv' := localBr, rv;
      if m.insts[i].op == Gep {
        st := VisitGep(i);
      } else {
        var added;
        localBr', added := VisitOther(i, localBr);
        rv' := rv || added;
        st := Ok;
      }
    }

    /** The search for the seed instruction in the function's instruction order. */
    method FindSeed(body: seq<InstId>, ins: InstId) returns (pos: nat)
      ensures pos <= |body|
      ensures pos == |body| <==> ins !in body
      ensures pos < |body| ==> pos == FirstIndex(body, ins)
    {
      pos := 0;
      while pos < |body| && body[pos] != ins
        invariant pos <= |body|
        invariant forall j :: 0 <= j < pos ==> body[j] != ins
      {
        pos := pos + 1;
      }
    }

    /** The walk of `intraFlowAnalysis` from position `k0` of `body` to its end. */
    method Walk(f: FuncId, body: seq<InstId>, k0: nat, rv0: bool) returns (st: Status, rv: bool)
      requires HandlesOk(m) && InstIdsOk(m, body) && k0 <= |body| && StateOk(State())
      modifies this`corruptedIR, this`ordered, this`corruptedPtr, this`corruptedBr
      ensures StateOk(State())
      ensures var r := WalkSpec(m, cd, f, body, k0, Walked(old(State()), [], rv0));
              (st.Ok? <==> r.Success?) && (st.Ok? ==> State() == r.value.t && rv == r.value.rv)
    {
      var localBr: seq<InstId> := [];
      rv := rv0;
      var k := k0;
      while k < |body|
        invariant k0 <= k <= |body| && StateOk(State()) && InstIdsOk(m, localBr)
        invariant WalkSpec(m, cd, f, body, k, Walked(State(), localBr, rv)) == WalkSpec(m, cd, f, body, k0, Walked(old(State()), [], rv0))
      {
        StepOk(m, cd, f, Walked(State(), localBr, rv), body[k]);
        st, localBr, rv := Step(f, body[k], localBr, rv);
        if st.Abort? {
          return;
        }
        k := k + 1;
      }
      st := Ok;
    }

    /**
     * `intraFlowAnalysis(F, ins)`: find `ins` in `F`'s instruction order,
     * taint it, then walk from it to the end of `F`; `rv` says whether the
     * seed or some generic instruction was newly tainted.
     */
    method IntraFlowAnalysis(f: FuncId, ins: InstId) returns (st: Status, rv: bool)
      requires HandlesOk(m) && f < |m.funcs| && StateOk(State())
      modifies this`corruptedIR, this`ordered, this`corruptedPtr, this`corruptedBr
      ensures StateOk(State())
      ensures var r := IntraSpec(m, cd, f, ins, old(State()));
              (st.Ok? <==> r.Success?) && (st.Ok? ==> State() == r.value.t && rv == r.value.rv)
    {
      var body := Body(m, f);
      BodyOk(m, f);
      var pos := FindSeed(body, ins);
      if pos == |body| {
        return Abort("Couldn't find callstack instruction."), false;
      }
      var isNew := Add2CrptList(Inst(ins));
      st, rv := Walk(f, body, pos, isNew);
    }

    // -------------------------------------------------------------------
    // adhocSyncAnalysis
    // -------------------------------------------------------------------

    /** The detection loop over the ordered trace: the first compare or binary operator in an exiting block of `L`. */
    method FindExit(L: Loop) returns (x: Option<InstId>)
      ensures x == FirstExit(m, L, ordered)
    {
      var k := 0;
      while k < |ordered|
        invariant 0 <= k <= |ordered|
        invariant FirstExit(m, L, ordered[k..]) == FirstExit(m, L, ordered)
      {
        assert ordered[k..][1..] == ordered[k + 1..];
        var v := ordered[k];
        if v.Inst? && v.inst < |m.insts| && m.insts[v.inst].op in {ICmp, BinOp} {
          var b := m.insts[v.inst].parent;
          var exiting := b < |m.blocks| && exists q :: 0 <= q < |m.blocks[b].succs| && m.blocks[b].succs[q] !in L.blocks;
          if exiting {
            return Some(v.inst);
          }
        }
        k := k + 1;
      }
      x := None;
    }

    /** The write loop: does some write instruction store a constant? */
    method HasConstantWrite() returns (c: bool)
      ensures c <==> ConstantWrite(m, writeList)
    {
      c := false;
      var k := 0;
      while k < |writeList|
        invariant 0 <= k <= |writeList|
        invariant c <==> exists j :: 0 <= j < k && ConstantStore(m, writeList[j])
      {
        var fr := writeList[k];
        if fr.inst.Some? && fr.inst.value < |m.insts| {
          var ins := m.insts[fr.inst.value];
          if ins.op == Store && |ins.operands| >= 1 && IsConstant(ins.operands[0]) {
            c := true;
          }
        }
        k := k + 1;
      }
    }

    /**
     * One turn of the read loop: analyse read frame `k`, look for a
     * detection, clear the taint state; `slots[k]` is the outcome the turn
     * is specified by.
     */
    method AnalyseRead(L: Loop, k: nat, ghost slots: seq<Result<Option<InstId>>>)
      returns (st: Status, x: Option<InstId>)
      requires HandlesOk(m) && SiteFrames(m, readList) && k < |readList| && StateOk(State())
      requires k < |slots| && slots[k] == Slot(m, cd, L, readList[k], State())
      modifies this`corruptedIR, this`ordered, this`corruptedPtr, this`corruptedBr
      ensures StateOk(State())
      ensures (st.Ok? <==> slots[k].Success?) && (st.Ok? ==> x == slots[k].value && State() == Cleared)
    {
      var fr := readList[k];
      var rv;
      st, rv := IntraFlowAnalysis(fr.func, fr.inst.value);
      x := None;
      if st.Abort? {
        return;
      }
      x := FindExit(L);
      ClearTaint();
    }

    /** The read loop: every read frame in turn, stopping at the first abort. */
    method AnalyseReads(L: Loop) returns (st: Status, detections: seq<Option<InstId>>)
      requires HandlesOk(m) && SiteFrames(m, readList) && StateOk(State())
      modifies this`corruptedIR, this`ordered, this`corruptedPtr, this`corruptedBr
      ensures StateOk(State())
      ensures var r := Collect(Slots(m, cd, L, readList, old(State())), 0, []);
              (st.Ok? <==> r.Success?) &&
              (st.Ok? ==> detections == r.value && State() == if readList == [] then old(State()) else Cleared)
    {
      ghost var t0 := State();
      ghost var slots := Slots(m, cd, L, readList, t0);
      detections := [];
      st := Ok;
      var k := 0;
      while k < |readList|
        invariant 0 <= k <= |readList| == |slots| && StateOk(State()) && st.Ok?
        invariant State() == if k == 0 then t0 else Cleared
        invariant |detections| == k && forall j :: 0 <= j < k ==> slots[j] == Success(detections[j])
      {
        var x;
        st, x := AnalyseRead(L, k, slots);
        if st.Abort? {
          CollectIff(slots, 0, []);
          return;
        }
        detections := detections + [x];
        k := k + 1;
      }
      CollectIff(slots, 0, []);
    }

    /**
     * `adhocSyncAnalysis`: nothing happens unless some write instruction
     * stores a constant; then every read frame is analysed in turn, its
     * detection (if any) noted, and the taint state cleared.
     */
    method AdhocSyncAnalysis(L: Loop) returns (st: Status, constant: bool, detections: seq<Option<InstId>>)
      requires HandlesOk(m) && SiteFrames(m, readList) && StateOk(State())
      modifies this`corruptedIR, this`ordered, this`corruptedPtr, this`corruptedBr
      ensures StateOk(State())
      ensures constant <==> ConstantWrite(m, writeList)
      ensures !constant ==> st.Ok? && detections == [] && State() == old(State())
      ensures constant ==>
                var r := Collect(Slots(m, cd, L, readList, old(State())), 0, []);
                (st.Ok? <==> r.Success?) &&
                (st.Ok? ==> detections == r.value && State() == if readList == [] then old(State()) else Cleared)
    {
      detections := [];
      constant := HasConstantWrite();
      st := Ok;
      if constant {
        st, detections := AnalyseReads(L);
      }
    }

    /**
     * `runOnModule`: clear, read the two report lines, replay them, find
     * the loop holding the read, and run the detection when there is one.
     */
    method RunOnModule(fileOpen: bool, lines: seq<Scanned>, writeVar: nat, readVar: nat, order: seq<InstId>)
      returns (st: Status, inLoop: Option<Loop>, constant: bool, detections: seq<Option<InstId>>)
      requires InputsOk() && forall i :: i in order ==> i < |m.insts|
      modifies this`finishedVars, this`readList, this`writeList, this`corruptedIR, this`ordered,
               this`corruptedPtr, this`corruptedBr
      ensures !(fileOpen && Accepted(LineAt(lines, 0)) && Accepted(LineAt(lines, 1))) ==> st.Abort?
      ensures st.Ok? ==>
                var cs := [LineAt(lines, 0).entry, LineAt(lines, 1).entry];
                var r := RacingLines(m, srcMap, Racing([], [], {}), cs, 0);
                r.Success? && Lists() == Overridden(m, ins2int, order, writeVar, readVar, r.value) &&
                readList != [] && SiteFrames(m, readList) &&
                inLoop == CheckLoopFrom(m, loops, m.insts[readList[0].inst.value].parent, 0)
      ensures inLoop.None? ==> !constant && detections == []
      ensures constant ==> ConstantWrite(m, writeList)
      ensures inLoop.Some? ==>
                SiteFrames(m, readList) && (constant <==> ConstantWrite(m, writeList)) &&
                (constant ==>
                   var r := Collect(Slots(m, cd, inLoop.value, readList, Cleared), 0, []);
                   (st.Ok? <==> r.Success?) && (st.Ok? ==> detections == r.value))
      ensures inLoop.Some? && !constant ==> st.Ok? && detections == []
      ensures st.Ok? <==>
                fileOpen && Accepted(LineAt(lines, 0)) && Accepted(LineAt(lines, 1)) &&
                RacingLines(m, srcMap, Racing([], [], {}), [LineAt(lines, 0).entry, LineAt(lines, 1).entry], 0).Success? &&
                readList != [] &&
                (inLoop.Some? && constant ==> Collect(Slots(m, cd, inLoop.value, readList, Cleared), 0, []).Success?)
    {
      inLoop, constant, detections := None, false, [];
      ClearClassDataMember();
      var cs;
      st, cs := ParseInput(fileOpen, lines);
      if st.Abort? {
        return;
      }
      st := Initialize(cs, writeVar, readVar, order);
      if st.Abort? {
        return;
      }
      RacingLinesFrames(m, srcMap, Racing([], [], {}), cs, 0);
      OverriddenFrames(m, ins2int, order, writeVar, readVar, RacingLines(m, srcMap, Racing([], [], {}), cs, 0).value);
      st, inLoop := CheckLoop();
      if st.Abort? || inLoop.None? {
        return;
      }
      st, constant, detections := AdhocSyncAnalysis(inLoop.value);
    }
  }
}
