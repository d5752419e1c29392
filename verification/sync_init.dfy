/**
 * `SyncLoop::initialize`: turn the two report lines (the racing write,
 * then the racing read) into the write list and the read list of
 * (function, instruction) pairs, then apply the manual `writeVar` /
 * `readVar` override.
 */
module SyncInit {
  import opened IR
  import opened ConSpec
  import opened ConSeeds

  /** `writeFuncInstList_`, `readFuncInstList_` and `finishedVars_`. */
  datatype Racing = Racing(write: seq<Frame>, read: seq<Frame>, finished: set<Value>)

  /** The scan of one instruction list, after instruction `p`: the new lists, and whether the scan stops. */
  datatype RacingScan = RacingScan(racing: Racing, stop: bool)

  /**
   * One instruction `list[p]` of a report line's instruction list.  On the
   * write line every instruction joins the write list.  On the read line a
   * GEP joins the read list unless one of its operands is already recorded,
   * which stops the scan; a call or invoke is never recorded (an intrinsic
   * or a leading call is passed over with a warning, any other call falls
   * through every test); any other instruction is kept when it is the last
   * of the list and both lists are still empty, or when none of its
   * operands was recorded and it is a load of a global or a non-load over a
   * GEP or a bitcast.  An instruction with a recorded operand is itself
   * recorded even when it is not kept.
   */
  function RacingInst(m: Module, s: Racing, first: bool, list: seq<InstId>, p: nat): RacingScan
    requires HandlesOk(m) && ParentsOk(m) && InstIdsOk(m, list) && p < |list|
  {
    var i := list[p];
    var ins := m.insts[i];
    if first then RacingScan(s.(write := s.write + [SiteFrame(m, i)]), false)
    else if ins.op == Gep then
      if AnyIn(ins.operands, s.finished) then RacingScan(s, true)
      else RacingScan(s.(read := s.read + [SiteFrame(m, i)], finished := s.finished + {Inst(i)}), false)
    else if IsCallSite(m, i) then RacingScan(s, false)
    else
      var already := AnyIn(ins.operands, s.finished);
      var fin := if already then s.finished + {Inst(i)} else s.finished;
      var mayDrop := i != list[|list| - 1] || s.read != [] || s.write != [];
      if mayDrop && (already || (!HasGlobal(ins.operands) && ins.op == Load) ||
                     (!HasInstOf(m, ins.operands, BitCast) && !HasInstOf(m, ins.operands, Gep) && ins.op != Load))
      then RacingScan(s.(finished := fin), false)
      else RacingScan(s.(read := s.read + [SiteFrame(m, i)], finished := fin + {Inst(i)}), false)
  }

  /** The scan of `list` from position `p` to its end or to the first stop. */
  function RacingFrom(m: Module, s: Racing, first: bool, list: seq<InstId>, p: nat): Racing
    requires HandlesOk(m) && ParentsOk(m) && InstIdsOk(m, list) && p <= |list|
    decreases |list| - p
  {
    if p == |list| then s
    else
      var r := RacingInst(m, s, first, list, p);
      if r.stop then r.racing else RacingFrom(m, r.racing, first, list, p + 1)
  }

  /**
   * One report line.  An unresolved location is tolerated on the write line
   * (line 0) and aborts on any later line; a resolved location with no
   * instructions aborts.
   */
  function RacingLine(m: Module, srcMap: map<FileLine, seq<InstId>>, s: Racing, c: nat, cs: FuncFileLine): Result<Racing>
    requires HandlesOk(m) && ParentsOk(m) && SourceMapOk(m, srcMap)
  {
    if Key(cs) !in srcMap then
      if c == 0 then Success(s) else Failure("Missing debug info for the read instruction")
    else if srcMap[Key(cs)] == [] then Failure("No matching instructions")
    else Success(RacingFrom(m, s, c == 0, srcMap[Key(cs)], 0))
  }

  /** The replay of report lines `c ..`. */
  function RacingLines(m: Module, srcMap: map<FileLine, seq<InstId>>, s: Racing, lines: seq<FuncFileLine>, c: nat): Result<Racing>
    requires HandlesOk(m) && ParentsOk(m) && SourceMapOk(m, srcMap) && c <= |lines|
    decreases |lines| - c
  {
    if c == |lines| then Success(s)
    else
      match RacingLine(m, srcMap, s, c, lines[c])
      case Failure(e) => Failure(e)
      case Success(s') => RacingLines(m, srcMap, s', lines, c + 1)
  }

  /** The first instruction, in the id map's iteration order, carrying the write id or the read id. */
  function FirstOverride(ins2int: map<InstId, nat>, order: seq<InstId>, w: nat, r: nat): (x: Option<InstId>)
    ensures x.Some? ==> x.value in order && x.value in ins2int
  {
    if order == [] then None
    else if order[0] in ins2int && (ins2int[order[0]] == w || ins2int[order[0]] == r) then Some(order[0])
    else FirstOverride(ins2int, order[1..], w, r)
  }

  /**
   * The manual override: the first matching instruction replaces the write
   * list when it carries the write id, and otherwise the read list.
   */
  function Overridden(m: Module, ins2int: map<InstId, nat>, order: seq<InstId>, w: nat, r: nat, s: Racing): Racing
    requires ParentsOk(m) && forall i :: i in order ==> i < |m.insts|
  {
    match FirstOverride(ins2int, order, w, r)
    case None => s
    case Some(x) =>
      if ins2int[x] == w then s.(write := [SiteFrame(m, x)]) else s.(read := [SiteFrame(m, x)])
  }

  /** The frames of every instruction of a list, in order. */
  function SiteFramesOf(m: Module, list: seq<InstId>): (r: seq<Frame>)
    requires ParentsOk(m) && InstIdsOk(m, list)
    ensures |r| == |list| && forall k :: 0 <= k < |list| ==> r[k] == SiteFrame(m, list[k])
  {
    if list == [] then [] else [SiteFrame(m, list[0])] + SiteFramesOf(m, list[1..])
  }

  // ---------------------------------------------------------------------
  // Properties
  // ---------------------------------------------------------------------

  /** On the write line every instruction of the list joins the write list, in order, and nothing else changes. */
  lemma {:induction false} WriteLineAll(m: Module, s: Racing, list: seq<InstId>, p: nat)
    requires HandlesOk(m) && ParentsOk(m) && InstIdsOk(m, list) && p <= |list|
    ensures RacingFrom(m, s, true, list, p) == s.(write := s.write + SiteFramesOf(m, list[p..]))
    decreases |list| - p
  {
    if p < |list| {
      var x := SiteFrame(m, list[p]);
      WriteInst(m, s, list, p);
      WriteLineAll(m, s.(write := s.write + [x]), list, p + 1);
      SiteFramesFrom(m, list, p);
      SnocThenAppend(s.write, x, SiteFramesOf(m, list[p + 1..]));
    }
  }

  /** The frames of `list[p..]` are the frame of `list[p]` and then those of the rest. */
  lemma SiteFramesFrom(m: Module, list: seq<InstId>, p: nat)
    requires ParentsOk(m) && InstIdsOk(m, list) && p < |list|
    ensures SiteFramesOf(m, list[p..]) == [SiteFrame(m, list[p])] + SiteFramesOf(m, list[p + 1..])
  {
    assert list[p..][1..] == list[p + 1..];
  }

  lemma SnocThenAppend<T>(a: seq<T>, x: T, b: seq<T>)
    ensures (a + [x]) + b == a + ([x] + b)
  {
  }

  /** One instruction of the write line joins the write list, and the scan goes on with the next. */
  lemma WriteInst(m: Module, s: Racing, list: seq<InstId>, p: nat)
    requires HandlesOk(m) && ParentsOk(m) && InstIdsOk(m, list) && p < |list|
    ensures RacingFrom(m, s, true, list, p) == RacingFrom(m, s.(write := s.write + [SiteFrame(m, list[p])]), true, list, p + 1)
  {
  }

  /** One instruction of the read line adds at most its own frame, and only when it is not a call. */
  lemma ReadInst(m: Module, s: Racing, list: seq<InstId>, p: nat)
    requires HandlesOk(m) && ParentsOk(m) && InstIdsOk(m, list) && p < |list|
    ensures var r := RacingInst(m, s, false, list, p).racing;
            r.write == s.write && s.finished <= r.finished &&
            (r.read == s.read || (r.read == s.read + [SiteFrame(m, list[p])] && !IsCallSite(m, list[p])))
  {
  }

  /**
   * On the read line the write list stays as it is, the read list only
   * grows, and every frame it gains names a non-call instruction of the
   * list.
   */
  lemma {:induction false} ReadLineNoCalls(m: Module, s: Racing, list: seq<InstId>, p: nat)
    requires HandlesOk(m) && ParentsOk(m) && InstIdsOk(m, list) && p <= |list|
    ensures var r := RacingFrom(m, s, false, list, p);
            r.write == s.write && |s.read| <= |r.read| && r.read[..|s.read|] == s.read &&
            s.finished <= r.finished &&
            forall k :: |s.read| <= k < |r.read| ==>
              r.read[k].inst.Some? && r.read[k].inst.value in list && !IsCallSite(m, r.read[k].inst.value)
    decreases |list| - p
  {
    if p < |list| {
      var r := RacingInst(m, s, false, list, p);
      ReadInst(m, s, list, p);
      if !r.stop {
        ReadLineNoCalls(m, r.racing, list, p + 1);
        var t := RacingFrom(m, r.racing, false, list, p + 1);
        assert t.read[..|r.racing.read|][..|s.read|] == t.read[..|s.read|];
      }
    }
  }

  /**
   * The replay aborts exactly when a read line (any line after the first)
   * has an unknown location, or some known location has an empty
   * instruction list.
   */
  lemma {:induction false} RacingLinesFail(m: Module, srcMap: map<FileLine, seq<InstId>>, s: Racing, lines: seq<FuncFileLine>, c: nat)
    requires HandlesOk(m) && ParentsOk(m) && SourceMapOk(m, srcMap) && c <= |lines|
    ensures RacingLines(m, srcMap, s, lines, c).Failure? <==>
            exists k :: c <= k < |lines| && ((k > 0 && Key(lines[k]) !in srcMap) ||
                                             (Key(lines[k]) in srcMap && srcMap[Key(lines[k])] == []))
    decreases |lines| - c
  {
    if c < |lines| {
      var line := RacingLine(m, srcMap, s, c, lines[c]);
      if line.Success? {
        RacingLinesFail(m, srcMap, line.value, lines, c + 1);
        if exists k :: c <= k < |lines| && ((k > 0 && Key(lines[k]) !in srcMap) ||
                                            (Key(lines[k]) in srcMap && srcMap[Key(lines[k])] == [])) {
          var k :| c <= k < |lines| && ((k > 0 && Key(lines[k]) !in srcMap) ||
                                        (Key(lines[k]) in srcMap && srcMap[Key(lines[k])] == []));
          assert k != c;
        }
      }
    }
  }

  /** The override picks the first matching instruction: it carries one of the two ids, and no earlier one does. */
  lemma {:induction false} FirstOverrideFirst(ins2int: map<InstId, nat>, order: seq<InstId>, w: nat, r: nat)
    ensures var x := FirstOverride(ins2int, order, w, r);
            (x.Some? ==> ins2int[x.value] == w || ins2int[x.value] == r) &&
            (x.Some? ==> exists k :: 0 <= k < |order| && order[k] == x.value &&
                           forall j :: 0 <= j < k && order[j] in ins2int ==> ins2int[order[j]] != w && ins2int[order[j]] != r) &&
            (x.None? <==> forall j :: 0 <= j < |order| && order[j] in ins2int ==> ins2int[order[j]] != w && ins2int[order[j]] != r)
  {
    if order != [] {
      FirstOverrideFirst(ins2int, order[1..], w, r);
      var x := FirstOverride(ins2int, order, w, r);
      if !(order[0] in ins2int && (ins2int[order[0]] == w || ins2int[order[0]] == r)) {
        if x.Some? {
          var k :| 0 <= k < |order[1..]| && order[1..][k] == x.value &&
                   forall j :: 0 <= j < k && order[1..][j] in ins2int ==> ins2int[order[1..][j]] != w && ins2int[order[1..][j]] != r;
          assert order[k + 1] == x.value;
          forall j | 0 <= j < k + 1 && order[j] in ins2int
            ensures ins2int[order[j]] != w && ins2int[order[j]] != r
          {
            if j > 0 {
              assert order[j] == order[1..][j - 1];
            }
          }
        } else {
          forall j | 0 <= j < |order| && order[j] in ins2int
            ensures ins2int[order[j]] != w && ins2int[order[j]] != r
          {
            if j > 0 {
              assert order[j] == order[1..][j - 1];
            }
          }
        }
      }
    }
  }

  /**
   * At most one list is overridden: the write list when the first match
   * carries the write id, otherwise the read list, and the override never
   * happens when no instruction carries either id.
   */
  lemma OverrideAtMostOne(m: Module, ins2int: map<InstId, nat>, order: seq<InstId>, w: nat, r: nat, s: Racing)
    requires ParentsOk(m) && forall i :: i in order ==> i < |m.insts|
    requires forall x :: x in ins2int ==> x in order
    ensures var o := Overridden(m, ins2int, order, w, r, s);
            o.finished == s.finished && (o.write == s.write || o.read == s.read) &&
            (o.write != s.write ==> |o.write| == 1 && o.write[0].inst.Some? && ins2int[o.write[0].inst.value] == w) &&
            (o.read != s.read ==> |o.read| == 1 && o.read[0].inst.Some? && ins2int[o.read[0].inst.value] == r)
    ensures (forall x :: x in ins2int ==> ins2int[x] != w && ins2int[x] != r) ==> Overridden(m, ins2int, order, w, r, s) == s
  {
    FirstOverrideFirst(ins2int, order, w, r);
  }

  /** Both lists of a replay state hold frames naming instructions. */
  predicate RacingFrames(m: Module, s: Racing)
  {
    SiteFrames(m, s.write) && SiteFrames(m, s.read)
  }

  /** Replaying lines and applying the override only ever record frames naming instructions of the module. */
  lemma {:induction false} RacingFromFrames(m: Module, s: Racing, first: bool, list: seq<InstId>, p: nat)
    requires HandlesOk(m) && ParentsOk(m) && InstIdsOk(m, list) && p <= |list| && RacingFrames(m, s)
    ensures RacingFrames(m, RacingFrom(m, s, first, list, p))
    decreases |list| - p
  {
    if p < |list| {
      var r := RacingInst(m, s, first, list, p);
      assert RacingFrames(m, r.racing);
      if !r.stop {
        RacingFromFrames(m, r.racing, first, list, p + 1);
      }
    }
  }

  lemma {:induction false} RacingLinesFrames(m: Module, srcMap: map<FileLine, seq<InstId>>, s: Racing, lines: seq<FuncFileLine>, c: nat)
    requires HandlesOk(m) && ParentsOk(m) && SourceMapOk(m, srcMap) && c <= |lines| && RacingFrames(m, s)
    ensures RacingLines(m, srcMap, s, lines, c).Success? ==> RacingFrames(m, RacingLines(m, srcMap, s, lines, c).value)
    decreases |lines| - c
  {
    if c < |lines| {
      var key := Key(lines[c]);
      if key in srcMap && srcMap[key] != [] {
        RacingFromFrames(m, s, c == 0, srcMap[key], 0);
      }
      var line := RacingLine(m, srcMap, s, c, lines[c]);
      if line.Success? {
        RacingLinesFrames(m, srcMap, line.value, lines, c + 1);
      }
    }
  }

  lemma OverriddenFrames(m: Module, ins2int: map<InstId, nat>, order: seq<InstId>, w: nat, r: nat, s: Racing)
    requires ParentsOk(m) && (forall i :: i in order ==> i < |m.insts|) && RacingFrames(m, s)
    ensures RacingFrames(m, Overridden(m, ins2int, order, w, r, s))
  {
  }
}
