/**
 * The race report read by `parseInput` in the ConAnalysis and SyncLoop
 * passes: one `funcName (fileName:lineNum)` entry per line.  Tokenising is
 * not modelled; each line arrives as the number of fields `sscanf` matched
 * and the three fields as they stand afterwards.
 */
module RaceInput {
  import opened IR

  /** One line after `sscanf`: the count it returned (negative at end of input) and the fields. */
  datatype Scanned = Scanned(matched: int, entry: FuncFileLine)

  /** The value `sscanf` returns on an empty line. */
  const EOF: int := -1

  /** A line passes the source's `rv > 0` assertion. */
  predicate Accepted(s: Scanned)
  {
    s.matched > 0
  }

  /** Every line passes the assertion. */
  predicate AllAccepted(lines: seq<Scanned>)
  {
    forall k :: 0 <= k < |lines| ==> Accepted(lines[k])
  }

  /** The entries a report yields, in file order. */
  function Entries(lines: seq<Scanned>): (r: seq<FuncFileLine>)
    ensures |r| == |lines| && forall k :: 0 <= k < |lines| ==> r[k] == lines[k].entry
  {
    if lines == [] then [] else [lines[0].entry] + Entries(lines[1..])
  }

  /** Reading the `i`-th line: past the end, `getline` leaves the line empty. */
  function LineAt(lines: seq<Scanned>, i: nat): (r: Scanned)
    ensures i < |lines| ==> r == lines[i]
    ensures i >= |lines| ==> !Accepted(r)
  {
    if i < |lines| then lines[i] else Scanned(EOF, FuncFileLine("", "", 0))
  }

  lemma EntriesSnoc(lines: seq<Scanned>, s: Scanned)
    ensures Entries(lines + [s]) == Entries(lines) + [s.entry]
  {
  }
}
