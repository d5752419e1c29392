/**
 * Taint bookkeeping shared by the ConAnalysis and SyncLoop passes: the
 * element descriptor recorded for a tainted `getelementptr`
 * (`GepIdxStruct` in typedefs.h) and the pairing of the taint set with the
 * ordered taint trace.
 */
module Taint {
  import opened IR

  /**
   * Which element a GEP selects: the single index of a two-operand GEP
   * (`GEP_TWO_OP`), or the (array index, field index) pair of a
   * three-operand GEP (`GEP_THREE_OP`).
   */
  datatype GepIdx = OneIdx(idx: Value) | TwoIdx(arrayIdx: Value, fieldIdx: Value)

  /** A stored descriptor matches a GEP with the same arity and the same index operands. */
  predicate Selects(d: GepIdx, ops: seq<Value>)
  {
    match d
    case OneIdx(i) => |ops| == 2 && i == ops[1]
    case TwoIdx(a, f) => |ops| == 3 && a == ops[1] && f == ops[2]
  }

  /**
   * The descriptor built for a tainted GEP; the source aborts ("Cannot parse
   * GetElementPtrInst") for any arity other than two or three operands.
   */
  function Descriptor(ops: seq<Value>): (r: Option<GepIdx>)
    ensures r.Some? <==> |ops| == 2 || |ops| == 3
    ensures r.Some? ==> Selects(r.value, ops)
    ensures forall d :: Selects(d, ops) ==> r == Some(d)
  {
    if |ops| == 3 then Some(TwoIdx(ops[1], ops[2]))
    else if |ops| == 2 then Some(OneIdx(ops[1]))
    else None
  }

  /**
   * Element precision: a descriptor recorded for one GEP matches another
   * GEP only when the two select the same element (same index operands).
   */
  lemma DescriptorPrecise(ops1: seq<Value>, ops2: seq<Value>)
    requires Descriptor(ops1).Some?
    ensures Selects(Descriptor(ops1).value, ops2) <==> |ops2| == |ops1| && ops2[1..] == ops1[1..]
  {
    if |ops2| == |ops1| && ops2[1..] == ops1[1..] {
      assert ops2[1] == ops2[1..][0] == ops1[1..][0] == ops1[1];
      if |ops1| == 3 {
        assert ops2[2] == ops2[1..][1] == ops1[1..][1] == ops1[2];
      }
    }
  }

  /** `corruptedIR_` is exactly the set of `orderedcorruptedIR_`, which holds no value twice. */
  ghost predicate Synced(s: set<Value>, trace: seq<Value>)
  {
    NoDup(trace) && s == set v | v in trace
  }

  /** In a synced pair the set's size is the trace's length (the memo compares sizes). */
  lemma SyncedSize(s: set<Value>, trace: seq<Value>)
    requires Synced(s, trace)
    ensures |s| == |trace|
  {
    NoDupCard(trace);
  }

  /** A synced pair whose trace only grew has a taint set that only grew. */
  lemma SyncedGrows(s: set<Value>, trace: seq<Value>, s': set<Value>, trace': seq<Value>)
    requires Synced(s, trace) && Synced(s', trace') && trace <= trace'
    ensures s <= s'
  {
    forall v | v in s ensures v in s' {
      var i :| 0 <= i < |trace| && trace[i] == v;
      assert trace'[i] == v;
    }
  }

  /** `add2CrptList`: appending a value that is not yet tainted keeps the pair synced. */
  lemma SyncedAdd(s: set<Value>, trace: seq<Value>, v: Value)
    requires Synced(s, trace) && v !in s
    ensures Synced(s + {v}, trace + [v])
    ensures |s + {v}| == |s| + 1
  {
    assert (set x | x in trace + [v]) == (set x | x in trace) + {v};
  }
}
