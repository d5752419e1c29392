/**
 * How the ConAnalysis pass turns a replayed call stack into its starting
 * frames (`initializeCallStack`).  The first report line supplies the head
 * candidates (the racy variable), every later line at most one call frame
 * of the stack body.  A manual instruction id can replace the head.
 */
module ConSeeds {
  import opened IR
  import opened ConSpec

  /** The three things the replay builds: `callStackHead_`, `callStackBody_` and `finishedVars_`. */
  datatype Seeds = Seeds(head: seq<Frame>, body: seq<Frame>, finished: set<Value>)

  /** The state of the scan over one line's instructions: the seeds, `firstInsIsCall`, and whether it stopped. */
  datatype Scan = Scan(seeds: Seeds, callFirst: bool, stop: bool)

  /** The line-to-instructions key of a report line. */
  function Key(cs: FuncFileLine): FileLine
  {
    (cs.file, cs.line)
  }

  /** The frame of an instruction: its function and itself. */
  function SiteFrame(m: Module, i: InstId): (r: Frame)
    requires ParentsOk(m) && i < |m.insts|
    ensures r.func < |m.funcs| && r.inst == Some(i)
  {
    Frame(FuncOf(m, i), Some(i))
  }

  /** A call or invoke whose static callee, if it has one, is not an LLVM intrinsic. */
  predicate NonIntrinsicCall(m: Module, i: InstId)
    requires HandlesOk(m) && i < |m.insts|
  {
    IsCallSite(m, i) &&
    (assert OperandsOk(m, m.insts[i]);
     var callee := CalledFunction(m, i);
     !(callee.Some? && IsIntrinsicName(m.funcs[callee.value].name)))
  }

  /** Some operand is a global variable. */
  predicate HasGlobal(ops: seq<Value>)
  {
    exists k :: 0 <= k < |ops| && ops[k].Global?
  }

  /** Some operand is an instruction of the given kind. */
  predicate HasInstOf(m: Module, ops: seq<Value>, op: Opcode)
  {
    exists k :: 0 <= k < |ops| && ops[k].Inst? && ops[k].inst < |m.insts| && m.insts[ops[k].inst].op == op
  }

  /**
   * One instruction `list[p]` of the scan of a report line's instruction
   * list.  A GEP or a plain instruction only counts on the first line
   * before any leading call; a GEP stops the scan when one of its operands
   * was already seeded.  A leading call on the first line is passed over
   * and remembered; any other non-intrinsic call becomes a body frame and
   * stops the scan.  A plain instruction that is not the last of the list
   * (or comes when a head exists) is kept only if none of its operands was
   * seeded and it is a load of a global, or a non-load over a GEP or a
   * bitcast; an instruction with a seeded operand is marked seeded even
   * when it is not kept.
   */
  function ScanInst(m: Module, s: Seeds, first: bool, callFirst: bool, list: seq<InstId>, p: nat): Scan
    requires HandlesOk(m) && ParentsOk(m) && InstIdsOk(m, list) && p < |list|
  {
    var i := list[p];
    var ins := m.insts[i];
    if ins.op == Gep then
      if !first || callFirst then Scan(s, callFirst, false)
      else if AnyIn(ins.operands, s.finished) then Scan(s, callFirst, true)
      else Scan(s.(head := s.head + [SiteFrame(m, i)], finished := s.finished + {Inst(i)}), callFirst, false)
    else if IsCallSite(m, i) then
      if !NonIntrinsicCall(m, i) then Scan(s, callFirst, false)
      else if first && p == 0 then Scan(s, true, false)
      else Scan(s.(body := s.body + [SiteFrame(m, i)]), callFirst, true)
    else if !first || callFirst then Scan(s, callFirst, false)
    else
      var already := AnyIn(ins.operands, s.finished);
      var fin := if already then s.finished + {Inst(i)} else s.finished;
      var mayDrop := i != list[|list| - 1] || s.head != [];
      if mayDrop && (already || (!HasGlobal(ins.operands) && ins.op == Load) ||
                     (!HasInstOf(m, ins.operands, BitCast) && !HasInstOf(m, ins.operands, Gep) && ins.op != Load))
      then Scan(s.(finished := fin), callFirst, false)
      else Scan(s.(head := s.head + [SiteFrame(m, i)], finished := fin + {Inst(i)}), callFirst, false)
  }

  /** The scan of `list` from position `p` to its end or to the first stop. */
  function ScanFrom(m: Module, s: Seeds, first: bool, callFirst: bool, list: seq<InstId>, p: nat): Seeds
    requires HandlesOk(m) && ParentsOk(m) && InstIdsOk(m, list) && p <= |list|
    decreases |list| - p
  {
    if p == |list| then s
    else
      var r := ScanInst(m, s, first, callFirst, list, p);
      if r.stop then r.seeds else ScanFrom(m, r.seeds, first, r.callFirst, list, p + 1)
  }

  /** Every listed instruction exists. */
  ghost predicate SourceMapOk(m: Module, srcMap: map<FileLine, seq<InstId>>)
  {
    forall key :: key in srcMap ==> InstIdsOk(m, srcMap[key])
  }

  /**
   * One report line.  An unresolved location aborts on the first line and
   * is skipped on later ones; a resolved location with no instructions
   * aborts.
   */
  function SeedLine(m: Module, srcMap: map<FileLine, seq<InstId>>, s: Seeds, first: bool, cs: FuncFileLine): Result<Seeds>
    requires HandlesOk(m) && ParentsOk(m) && SourceMapOk(m, srcMap)
  {
    if Key(cs) !in srcMap then
      if first then Failure("first instruction failed") else Success(s)
    else if srcMap[Key(cs)] == [] then Failure("no matching instructions")
    else Success(ScanFrom(m, s, first, false, srcMap[Key(cs)], 0))
  }

  /** The replay of report lines `c ..`; line 0 is the first line. */
  function SeedFrom(m: Module, srcMap: map<FileLine, seq<InstId>>, s: Seeds, lines: seq<FuncFileLine>, c: nat): Result<Seeds>
    requires HandlesOk(m) && ParentsOk(m) && SourceMapOk(m, srcMap) && c <= |lines|
    decreases |lines| - c
  {
    if c == |lines| then Success(s)
    else
      match SeedLine(m, srcMap, s, c == 0, lines[c])
      case Failure(e) => Failure(e)
      case Success(s') => SeedFrom(m, srcMap, s', lines, c + 1)
  }

  /** The first instruction, in the id map's iteration order, that carries id `v`. */
  function FirstWithId(ins2int: map<InstId, nat>, order: seq<InstId>, v: nat): (r: Option<InstId>)
    ensures r.Some? ==> r.value in order
  {
    if order == [] then None
    else if order[0] in ins2int && ins2int[order[0]] == v then Some(order[0])
    else FirstWithId(ins2int, order[1..], v)
  }

  /** The head after the manual override: a nonzero id carried by some instruction replaces it. */
  function OverrideHead(m: Module, ins2int: map<InstId, nat>, order: seq<InstId>, v: nat, head: seq<Frame>): seq<Frame>
    requires ParentsOk(m) && forall i :: i in order ==> i < |m.insts|
  {
    if v == 0 then head
    else match FirstWithId(ins2int, order, v)
      case None => head
      case Some(i) => [SiteFrame(m, i)]
  }

  /** Each frame of a seed list names an instruction of the module. */
  predicate SiteFrames(m: Module, fs: seq<Frame>)
  {
    FramesOk(m, fs) && forall k :: 0 <= k < |fs| ==> fs[k].inst.Some?
  }

  // ---------------------------------------------------------------------
  // Properties of the replay
  // ---------------------------------------------------------------------

  /**
   * On a later line the scan leaves the head and the seeded set alone and
   * adds to the body exactly the first non-intrinsic call at or after `p`,
   * if there is one.
   */
  lemma {:induction false} LaterLineScan(m: Module, s: Seeds, callFirst: bool, list: seq<InstId>, p: nat)
    requires HandlesOk(m) && ParentsOk(m) && InstIdsOk(m, list) && p <= |list|
    ensures var r := ScanFrom(m, s, false, callFirst, list, p);
            r.head == s.head && r.finished == s.finished &&
            (r.body == s.body <==> forall q :: p <= q < |list| ==> !NonIntrinsicCall(m, list[q])) &&
            (r.body != s.body ==>
               exists q :: p <= q < |list| && NonIntrinsicCall(m, list[q]) &&
                           (forall q' :: p <= q' < q ==> !NonIntrinsicCall(m, list[q'])) &&
                           r.body == s.body + [SiteFrame(m, list[q])])
    decreases |list| - p
  {
    if p < |list| {
      LaterInst(m, s, callFirst, list, p);
      var r := ScanFrom(m, s, false, callFirst, list, p);
      if NonIntrinsicCall(m, list[p]) {
        assert r == s.(body := s.body + [SiteFrame(m, list[p])]);
        assert NonIntrinsicCall(m, list[p]) && r.body == s.body + [SiteFrame(m, list[p])];
      } else {
        assert r == ScanFrom(m, s, false, callFirst, list, p + 1);
        LaterLineScan(m, s, callFirst, list, p + 1);
        if r.body != s.body {
          var q :| p + 1 <= q < |list| && NonIntrinsicCall(m, list[q]) &&
                   (forall q' :: p + 1 <= q' < q ==> !NonIntrinsicCall(m, list[q'])) &&
                   r.body == s.body + [SiteFrame(m, list[q])];
          assert forall q' :: p <= q' < q ==> !NonIntrinsicCall(m, list[q']);
        }
      }
    }
  }

  /** On a later line only a non-intrinsic call does anything: it is appended to the body and stops the scan. */
  lemma LaterInst(m: Module, s: Seeds, callFirst: bool, list: seq<InstId>, p: nat)
    requires HandlesOk(m) && ParentsOk(m) && InstIdsOk(m, list) && p < |list|
    ensures ScanInst(m, s, false, callFirst, list, p) ==
            if NonIntrinsicCall(m, list[p]) then Scan(s.(body := s.body + [SiteFrame(m, list[p])]), callFirst, true)
            else Scan(s, callFirst, false)
  {
  }

  /**
   * Later report lines never touch the head or the seeded set; each one
   * adds at most one frame to the body, and every frame it adds is a
   * non-intrinsic call or invoke.
   */
  lemma {:induction false} LaterLinesOnlyCalls(m: Module, srcMap: map<FileLine, seq<InstId>>, s: Seeds, lines: seq<FuncFileLine>, c: nat)
    requires HandlesOk(m) && ParentsOk(m) && SourceMapOk(m, srcMap) && 1 <= c <= |lines|
    ensures var r := SeedFrom(m, srcMap, s, lines, c);
            r.Success? ==>
              r.value.head == s.head && r.value.finished == s.finished &&
              |s.body| <= |r.value.body| <= |s.body| + (|lines| - c) && r.value.body[..|s.body|] == s.body &&
              forall k :: |s.body| <= k < |r.value.body| ==>
                var i := r.value.body[k].inst;
                i.Some? && i.value < |m.insts| && NonIntrinsicCall(m, i.value)
    decreases |lines| - c
  {
    if c < |lines| {
      var line := SeedLine(m, srcMap, s, false, lines[c]);
      if line.Success? {
        var s' := line.value;
        if Key(lines[c]) in srcMap {
          LaterLineScan(m, s, false, srcMap[Key(lines[c])], 0);
        }
        assert s'.head == s.head && s'.finished == s.finished;
        assert |s.body| <= |s'.body| <= |s.body| + 1 && s'.body[..|s.body|] == s.body;
        assert forall k :: |s.body| <= k < |s'.body| ==>
                 var i := s'.body[k].inst; i.Some? && i.value < |m.insts| && NonIntrinsicCall(m, i.value);
        LaterLinesOnlyCalls(m, srcMap, s', lines, c + 1);
      }
    }
  }

  /**
   * The replay aborts exactly when the first line's location is unknown, or
   * some known location of a line has an empty instruction list.
   */
  lemma {:induction false} SeedFromFails(m: Module, srcMap: map<FileLine, seq<InstId>>, s: Seeds, lines: seq<FuncFileLine>, c: nat)
    requires HandlesOk(m) && ParentsOk(m) && SourceMapOk(m, srcMap) && c <= |lines|
    ensures SeedFrom(m, srcMap, s, lines, c).Failure? <==>
            (c == 0 && |lines| > 0 && Key(lines[0]) !in srcMap) ||
            exists k :: c <= k < |lines| && Key(lines[k]) in srcMap && srcMap[Key(lines[k])] == []
    decreases |lines| - c
  {
    if c < |lines| {
      var line := SeedLine(m, srcMap, s, c == 0, lines[c]);
      if line.Success? {
        SeedFromFails(m, srcMap, line.value, lines, c + 1);
        assert !(Key(lines[c]) in srcMap && srcMap[Key(lines[c])] == []);
        if exists k :: c <= k < |lines| && Key(lines[k]) in srcMap && srcMap[Key(lines[k])] == [] {
          var k :| c <= k < |lines| && Key(lines[k]) in srcMap && srcMap[Key(lines[k])] == [];
          assert k != c;
        }
      }
    }
  }

  /** The scan only ever appends frames naming instructions of the list; a call is never a head candidate. */
  lemma {:induction false} ScanFromFrames(m: Module, s: Seeds, first: bool, callFirst: bool, list: seq<InstId>, p: nat)
    requires HandlesOk(m) && ParentsOk(m) && InstIdsOk(m, list) && p <= |list|
    requires SiteFrames(m, s.head) && SiteFrames(m, s.body)
    ensures var r := ScanFrom(m, s, first, callFirst, list, p);
            SiteFrames(m, r.head) && SiteFrames(m, r.body) &&
            |s.head| <= |r.head| && r.head[..|s.head|] == s.head &&
            forall k :: |s.head| <= k < |r.head| ==> r.head[k].inst.value in list && !IsCallSite(m, r.head[k].inst.value)
    decreases |list| - p
  {
    if p < |list| {
      var r := ScanInst(m, s, first, callFirst, list, p);
      assert SiteFrames(m, r.seeds.head) && SiteFrames(m, r.seeds.body);
      assert |s.head| <= |r.seeds.head| && r.seeds.head[..|s.head|] == s.head;
      if !r.stop {
        ScanFromFrames(m, r.seeds, first, r.callFirst, list, p + 1);
      }
    }
  }

  /** The whole replay keeps every head and body frame naming an instruction of the module. */
  lemma {:induction false} SeedFromFrames(m: Module, srcMap: map<FileLine, seq<InstId>>, s: Seeds, lines: seq<FuncFileLine>, c: nat)
    requires HandlesOk(m) && ParentsOk(m) && SourceMapOk(m, srcMap) && c <= |lines|
    requires SiteFrames(m, s.head) && SiteFrames(m, s.body)
    ensures var r := SeedFrom(m, srcMap, s, lines, c);
            r.Success? ==> SiteFrames(m, r.value.head) && SiteFrames(m, r.value.body)
    decreases |lines| - c
  {
    if c < |lines| {
      var line := SeedLine(m, srcMap, s, c == 0, lines[c]);
      if line.Success? {
        if Key(lines[c]) in srcMap {
          ScanFromFrames(m, s, c == 0, false, srcMap[Key(lines[c])], 0);
        }
        SeedFromFrames(m, srcMap, line.value, lines, c + 1);
      }
    }
  }

  lemma {:induction false} FirstWithIdIff(ins2int: map<InstId, nat>, order: seq<InstId>, v: nat, i: InstId)
    requires forall a, b :: a in ins2int && b in ins2int && ins2int[a] == ins2int[b] ==> a == b
    requires forall x :: x in ins2int ==> x in order
    ensures FirstWithId(ins2int, order, v) == Some(i) <==> i in ins2int && ins2int[i] == v
  {
    if order != [] && !(order[0] in ins2int && ins2int[order[0]] == v) {
      FirstWithIdIff(ins2int - {order[0]}, order[1..], v, i);
      FirstWithIdSkip(ins2int, order[1..], order[0], v);
    }
  }

  lemma {:induction false} FirstWithIdSkip(ins2int: map<InstId, nat>, order: seq<InstId>, x: InstId, v: nat)
    requires !(x in ins2int && ins2int[x] == v)
    ensures FirstWithId(ins2int, order, v) == FirstWithId(ins2int - {x}, order, v)
  {
    if order != [] {
      FirstWithIdSkip(ins2int, order[1..], x, v);
    }
  }

  /** The override keeps the head made of instruction frames of the module. */
  lemma OverrideHeadFrames(m: Module, ins2int: map<InstId, nat>, order: seq<InstId>, v: nat, head: seq<Frame>)
    requires ParentsOk(m) && forall i :: i in order ==> i < |m.insts|
    requires SiteFrames(m, head)
    ensures SiteFrames(m, OverrideHead(m, ins2int, order, v, head))
  {
  }

  /**
   * With distinct ids and an iteration order that covers the id map, a
   * nonzero manual id carried by instruction `i` makes `i` the one and only
   * head candidate; otherwise the head is kept.
   */
  lemma OverrideHeadIff(m: Module, ins2int: map<InstId, nat>, order: seq<InstId>, v: nat, head: seq<Frame>)
    requires ParentsOk(m) && forall i :: i in order ==> i < |m.insts|
    requires forall a, b :: a in ins2int && b in ins2int && ins2int[a] == ins2int[b] ==> a == b
    requires forall x :: x in ins2int ==> x in order
    ensures v != 0 && (exists i :: i in ins2int && ins2int[i] == v) ==>
              exists i :: i in ins2int && ins2int[i] == v && OverrideHead(m, ins2int, order, v, head) == [SiteFrame(m, i)]
    ensures (v == 0 || forall i :: i in ins2int ==> ins2int[i] != v) ==> OverrideHead(m, ins2int, order, v, head) == head
  {
    if v != 0 && exists i :: i in ins2int && ins2int[i] == v {
      var i :| i in ins2int && ins2int[i] == v;
      FirstWithIdIff(ins2int, order, v, i);
    }
    if v != 0 && forall i :: i in ins2int ==> ins2int[i] != v {
      var r := FirstWithId(ins2int, order, v);
      if r.Some? {
        FirstWithIdIff(ins2int, order, v, r.value);
      }
    }
  }
}
