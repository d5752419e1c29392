/**
 * The slice of an LLVM module that the OWL analyses look at.
 *
 * LLVM objects are handles: a function, a basic block and an instruction are
 * indices into the module's tables.  An instruction is an opcode, an operand
 * list, its parent block and an optional debug location.  Blocks list their
 * instructions in order and their CFG predecessors and successors.  A
 * function's instruction order (what `inst_begin(F)` walks) is its blocks'
 * instruction lists, block after block.
 */
module IR {

  datatype Option<T> = None | Some(value: T)

  /** How a pass run ends: normally, or in `abort()` / a failed `assert`. */
  datatype Status = Ok | Abort(reason: string)

  /** A value, or the `abort()` that happened instead of producing it. */
  datatype Result<T> = Success(value: T) | Failure(reason: string)

  type FuncId = nat
  type BlockId = nat
  type InstId = nat
  type TypeId = nat

  /** An LLVM `Value*` the analyses can meet as an operand or a taint entry. */
  datatype Value =
    | Inst(inst: InstId)
    | Arg(func: FuncId, pos: nat)
    | Global(gid: nat)
    | ConstData(cid: nat)
    | Fn(fid: FuncId)

  /** `isa<Constant>`: globals and functions are constants in LLVM as well. */
  predicate IsConstant(v: Value)
  {
    v.Global? || v.ConstData? || v.Fn?
  }

  datatype Opcode = Load | Store | Gep | Call | Invoke | Br | ICmp | BinOp | Phi | Alloca | BitCast | Other

  datatype DebugLoc = DebugLoc(file: string, line: nat)

  /**
   * For `Call` and `Invoke` the LAST operand is the called value and the
   * others are the actual arguments (the order `CallSite` uses).  A `Store`
   * has the stored value as operand 0 and the address as operand 1.
   */
  datatype Instruction = Instruction(op: Opcode, operands: seq<Value>, parent: BlockId, dbg: Option<DebugLoc>)

  datatype Block = Block(parent: FuncId, insts: seq<InstId>, preds: seq<BlockId>, succs: seq<BlockId>)

  datatype FnType = FnType(ret: TypeId, params: seq<TypeId>)

  /** A function without blocks is a declaration (`F.begin() == F.end()`). */
  datatype Function = Function(name: string, blocks: seq<BlockId>, ty: FnType)

  datatype Module = Module(funcs: seq<Function>, blocks: seq<Block>, insts: seq<Instruction>)

  /** A source position: the key of the line-to-instructions map. */
  type FileLine = (string, nat)

  /** One line of a call-stack / danger-site file: function, file, line. */
  datatype FuncFileLine = FuncFileLine(func: string, file: string, line: nat)

  /** A (function, instruction) pair; the instruction is absent for a callee frame pushed on entry. */
  datatype Frame = Frame(func: FuncId, inst: Option<InstId>)

  predicate NoDup<T(==)>(s: seq<T>)
  {
    forall i, j :: 0 <= i < j < |s| ==> s[i] != s[j]
  }

  ghost predicate ValueOk(m: Module, v: Value)
  {
    match v
    case Inst(i) => i < |m.insts|
    case Arg(f, _) => f < |m.funcs|
    case Fn(f) => f < |m.funcs|
    case _ => true
  }

  /** The operands of an instruction are in range, and calls, invokes, GEPs and stores have their operands. */
  ghost predicate OperandsOk(m: Module, ins: Instruction)
  {
    (forall k :: 0 <= k < |ins.operands| ==> ValueOk(m, ins.operands[k])) &&
    (ins.op == Store ==> |ins.operands| == 2) &&
    (ins.op in {Call, Invoke, Gep} ==> |ins.operands| >= 1)
  }

  /**
   * The handles a walk over functions, their blocks and their instructions
   * meets are in range.
   */
  ghost predicate HandlesOk(m: Module)
  {
    (forall f, k :: 0 <= f < |m.funcs| && 0 <= k < |m.funcs[f].blocks| ==> m.funcs[f].blocks[k] < |m.blocks|) &&
    (forall b, k :: 0 <= b < |m.blocks| && 0 <= k < |m.blocks[b].insts| ==> m.blocks[b].insts[k] < |m.insts|) &&
    (forall i :: 0 <= i < |m.insts| ==> OperandsOk(m, m.insts[i]))
  }

  ghost predicate FuncsOk(m: Module)
  {
    forall f :: 0 <= f < |m.funcs| ==>
      NoDup(m.funcs[f].blocks) &&
      forall k :: 0 <= k < |m.funcs[f].blocks| ==>
        m.funcs[f].blocks[k] < |m.blocks| && m.blocks[m.funcs[f].blocks[k]].parent == f
  }

  ghost predicate BlocksOk(m: Module)
  {
    forall b :: 0 <= b < |m.blocks| ==>
      var blk := m.blocks[b];
      blk.parent < |m.funcs| && b in m.funcs[blk.parent].blocks &&
      |blk.insts| > 0 && NoDup(blk.insts) &&
      (forall i :: i in blk.insts ==> i < |m.insts| && m.insts[i].parent == b) &&
      (forall p :: p in blk.preds ==> p < |m.blocks| && m.blocks[p].parent == blk.parent && b in m.blocks[p].succs) &&
      (forall s :: s in blk.succs ==> s < |m.blocks| && m.blocks[s].parent == blk.parent && b in m.blocks[s].preds)
  }

  ghost predicate InstsOk(m: Module)
  {
    forall i :: 0 <= i < |m.insts| ==>
      var ins := m.insts[i];
      ins.parent < |m.blocks| && i in m.blocks[ins.parent].insts
  }

  /**
   * Well-formedness of the handles: every id is in range, parents agree with
   * the lists that hold their children, every block is non-empty (it ends in
   * a terminator), and predecessor/successor lists mirror each other inside
   * one function.
   */
  ghost predicate WF(m: Module)
  {
    HandlesOk(m) && FuncsOk(m) && BlocksOk(m) && InstsOk(m) && ParentsOk(m)
  }

  /** Every instruction's block, and that block's function, are in range. */
  ghost predicate ParentsOk(m: Module)
  {
    forall i :: 0 <= i < |m.insts| ==>
      m.insts[i].parent < |m.blocks| && m.blocks[m.insts[i].parent].parent < |m.funcs|
  }

  predicate BlockIdsOk(m: Module, bs: seq<BlockId>)
  {
    forall k :: 0 <= k < |bs| ==> bs[k] < |m.blocks|
  }

  /** Instructions of the listed blocks, block after block. */
  function BlockInsts(m: Module, bs: seq<BlockId>): seq<InstId>
    requires BlockIdsOk(m, bs)
  {
    if bs == [] then [] else m.blocks[bs[0]].insts + BlockInsts(m, bs[1..])
  }

  /** The order `inst_begin(F) .. inst_end(F)` visits a function's instructions. */
  function Body(m: Module, f: FuncId): seq<InstId>
    requires HandlesOk(m) && f < |m.funcs|
  {
    BlockInsts(m, m.funcs[f].blocks)
  }

  /** The instructions of the first `n` functions, function after function. */
  function InstsUpTo(m: Module, n: nat): seq<InstId>
    requires HandlesOk(m) && n <= |m.funcs|
  {
    if n == 0 then [] else InstsUpTo(m, n - 1) + Body(m, n - 1)
  }

  /** Every instruction of the module, in the order a walk over `M` and then `inst_begin(F)` visits them. */
  function AllInsts(m: Module): seq<InstId>
    requires HandlesOk(m)
  {
    InstsUpTo(m, |m.funcs|)
  }

  /** Every instruction a walk over the listed blocks meets is in range. */
  lemma {:induction false} BlockInstsOk(m: Module, bs: seq<BlockId>)
    requires HandlesOk(m) && BlockIdsOk(m, bs)
    ensures forall k :: 0 <= k < |BlockInsts(m, bs)| ==> BlockInsts(m, bs)[k] < |m.insts|
  {
    if bs != [] {
      BlockInstsOk(m, bs[1..]);
      var head, tail := m.blocks[bs[0]].insts, BlockInsts(m, bs[1..]);
      forall k | 0 <= k < |head + tail| ensures (head + tail)[k] < |m.insts| {
        if k >= |head| {
          assert (head + tail)[k] == tail[k - |head|];
        }
      }
    }
  }

  predicate InstIdsOk(m: Module, xs: seq<InstId>)
  {
    forall k :: 0 <= k < |xs| ==> xs[k] < |m.insts|
  }

  lemma BodyOk(m: Module, f: FuncId)
    requires HandlesOk(m) && f < |m.funcs|
    ensures InstIdsOk(m, Body(m, f))
  {
    BlockInstsOk(m, m.funcs[f].blocks);
  }

  lemma {:induction false} InstsUpToOk(m: Module, n: nat)
    requires HandlesOk(m) && n <= |m.funcs|
    ensures InstIdsOk(m, InstsUpTo(m, n))
  {
    if n > 0 {
      InstsUpToOk(m, n - 1);
      BodyOk(m, n - 1);
    }
  }

  /** The key an instruction is listed under: base name of its file and its line, if it has a location. */
  function LineKey(m: Module, i: InstId): Option<FileLine>
    requires i < |m.insts|
  {
    match m.insts[i].dbg
    case None => None
    case Some(loc) => Some((Basename(loc.file), loc.line))
  }

  /** The function an instruction belongs to (`I->getParent()->getParent()`). */
  function FuncOf(m: Module, i: InstId): FuncId
    requires ParentsOk(m) && i < |m.insts|
  {
    m.blocks[m.insts[i].parent].parent
  }

  lemma {:induction false} BlockInstsMembers(m: Module, bs: seq<BlockId>, i: InstId)
    requires WF(m)
    requires BlockIdsOk(m, bs)
    ensures i in BlockInsts(m, bs) <==> i < |m.insts| && m.insts[i].parent in bs
  {
    if bs != [] {
      BlockInstsMembers(m, bs[1..], i);
      if i in m.blocks[bs[0]].insts {
        assert i < |m.insts| && m.insts[i].parent == bs[0];
      }
      if i < |m.insts| && m.insts[i].parent == bs[0] {
        var b := bs[0];
        var blk := m.insts[i];
        assert blk.parent < |m.blocks|;
        assert m.blocks[b].parent < |m.funcs| && b in m.funcs[m.blocks[b].parent].blocks;
      }
    }
  }

  /**
   * An instruction is in a function's walk exactly when its block belongs to
   * that function.
   */
  lemma BodyMembers(m: Module, f: FuncId, i: InstId)
    requires WF(m) && f < |m.funcs|
    ensures i in Body(m, f) <==> i < |m.insts| && FuncOf(m, i) == f
  {
    BlockInstsMembers(m, m.funcs[f].blocks, i);
    if i < |m.insts| {
      var b := m.insts[i].parent;
      assert b < |m.blocks|;
      if b in m.funcs[f].blocks {
        assert m.blocks[b].parent == f;
      }
      if m.blocks[b].parent == f {
        assert b in m.funcs[f].blocks;
      }
    }
  }

  /** A call or an invoke: the instructions that can enter another function. */
  predicate IsCallSite(m: Module, i: InstId)
    requires i < |m.insts|
  {
    m.insts[i].op == Call || m.insts[i].op == Invoke
  }

  /** `F->getName().startswith("llvm.")`. */
  predicate IsIntrinsicName(name: string)
  {
    |name| >= 5 && name[..5] == "llvm."
  }

  /**
   * The statically known callee of a call or invoke (`getCalledFunction()`):
   * the called operand when it is a function, none for an indirect call.
   */
  function CalledFunction(m: Module, i: InstId): (r: Option<FuncId>)
    requires HandlesOk(m) && i < |m.insts| && |m.insts[i].operands| >= 1
    ensures r.Some? ==> r.value < |m.funcs|
    ensures r.Some? <==> m.insts[i].operands[|m.insts[i].operands| - 1].Fn?
  {
    var ops := m.insts[i].operands;
    assert OperandsOk(m, m.insts[i]);
    assert ValueOk(m, ops[|ops| - 1]);
    match ops[|ops| - 1]
    case Fn(f) => Some(f)
    case _ => None
  }

  predicate IsSep(c: char)
  {
    c == '/' || c == '\\'
  }

  /** One past the last separator among the first `n` characters, 0 when there is none. */
  function SepEnd(s: string, n: nat): (p: nat)
    requires n <= |s|
    ensures p <= n
  {
    if n == 0 then 0 else if IsSep(s[n - 1]) then n else SepEnd(s, n - 1)
  }

  lemma {:induction false} SepEndLast(s: string, n: nat)
    requires n <= |s|
    ensures SepEnd(s, n) > 0 ==> IsSep(s[SepEnd(s, n) - 1])
    ensures forall k :: SepEnd(s, n) <= k < n ==> !IsSep(s[k])
  {
    if n > 0 && !IsSep(s[n - 1]) {
      SepEndLast(s, n - 1);
    }
  }

  /**
   * `fileName.substr(fileName.find_last_of("\\/") + 1)`: what follows the last
   * separator; the whole name when there is none (`npos + 1 == 0`).
   */
  function Basename(s: string): (r: string)
    ensures |r| <= |s|
  {
    s[SepEnd(s, |s|)..]
  }

  /** The base name is a separator-free suffix, preceded by a separator when it is not the whole name. */
  lemma BasenameShape(s: string)
    ensures Basename(s) == s[|s| - |Basename(s)|..]
    ensures forall k :: 0 <= k < |Basename(s)| ==> !IsSep(Basename(s)[k])
    ensures |Basename(s)| < |s| ==> IsSep(s[|s| - |Basename(s)| - 1])
  {
    SepEndLast(s, |s|);
  }

  lemma {:induction false} SepEndPrefix(s: string, t: string, n: nat)
    requires n <= |s|
    ensures SepEnd(s + t, n) == SepEnd(s, n)
  {
    if n > 0 {
      assert (s + t)[n - 1] == s[n - 1];
      SepEndPrefix(s, t, n - 1);
    }
  }

  lemma {:induction false} SepEndAppend(s: string, t: string, k: nat)
    requires forall j :: 0 <= j < |t| ==> !IsSep(t[j])
    requires k <= |t|
    ensures SepEnd(s + t, |s| + k) == SepEnd(s, |s|)
  {
    if k == 0 {
      SepEndPrefix(s, t, |s|);
    } else {
      assert (s + t)[|s| + k - 1] == t[k - 1];
      SepEndAppend(s, t, k - 1);
    }
  }

  /** Appending separator-free text extends the base name by that text. */
  lemma BasenameAppend(s: string, t: string)
    requires forall k :: 0 <= k < |t| ==> !IsSep(t[k])
    ensures Basename(s + t) == Basename(s) + t
  {
    SepEndAppend(s, t, |t|);
    var p := SepEnd(s, |s|);
    assert (s + t)[p..] == s[p..] + t;
  }

  /** A path `dir + "/" + name` keeps only `name`, whatever the directory. */
  lemma BasenameOfJoin(dir: string, name: string)
    requires forall k :: 0 <= k < |name| ==> !IsSep(name[k])
    ensures Basename(dir + "/" + name) == name
  {
    BasenameAppend(dir + "/", name);
  }

  /** Appending an instruction not yet listed keeps a list of instructions of the module duplicate-free. */
  lemma AppendNewInst(m: Module, xs: seq<InstId>, i: InstId)
    requires InstIdsOk(m, xs) && NoDup(xs) && i < |m.insts| && i !in xs
    ensures InstIdsOk(m, xs + [i]) && NoDup(xs + [i])
  {
    var ys := xs + [i];
    forall a, b | 0 <= a < b < |ys|
      ensures ys[a] != ys[b]
    {
      if b == |xs| {
        assert ys[a] == xs[a];
      }
    }
  }

  lemma {:induction false} NoDupCard<T>(s: seq<T>)
    requires NoDup(s)
    ensures |set x | x in s| == |s|
  {
    if s != [] {
      var t := s[1..];
      assert NoDup(t);
      NoDupCard(t);
      assert (set x | x in s) == (set x | x in t) + {s[0]};
      assert s[0] !in (set x | x in t);
    }
  }
}
