/**
 * The Valgrind (Helgrind) report converter in its normal SyncLoop mode.
 * Each report line is given by which of the converter's regular
 * expressions it matches (and, for a stack-frame line, the groups kept
 * from it); the `.race` files it writes are the returned sequence, file
 * `k` being the one numbered `k`.
 */
module ValgrindParser {
  import opened IR
  import opened ReportLines

  /** The groups of a stack-frame line that are kept: the function and the `(file:line)` location. */
  datatype GrindFrame = GrindFrame(func: string, location: string)

  /** Which of the report patterns a line matches; `frame` is present when the stack-frame pattern does. */
  datatype GrindLine = GrindLine(blockStart: bool, readStart: bool, writeStart: bool, readEnd: bool,
                                 frame: Option<GrindFrame>, blank: bool)

  /** The thread entry wrapper, at which a stack stops being captured. */
  const Wrapper: string := "mythread_wrapper"

  /** A kept frame as written out: the function, a space, the location and a newline. */
  function Entry(f: GrindFrame): string
  {
    f.func + " " + f.location + "\n"
  }

  /** Some line of `lines` is a stack-frame line, not of the wrapper, whose frame is written as `e`. */
  ghost predicate FromFrameLine(lines: seq<GrindLine>, e: string)
  {
    exists j :: 0 <= j < |lines| && lines[j].frame.Some? && lines[j].frame.value.func != Wrapper && e == Entry(lines[j].frame.value)
  }

  /** Which lines match the blank-line pattern, which is this converter's block break. */
  function Breaks(lines: seq<GrindLine>): (r: seq<bool>)
    ensures |r| == |lines| && forall j :: 0 <= j < |lines| ==> r[j] == lines[j].blank
  {
    seq(|lines|, j requires 0 <= j < |lines| => lines[j].blank)
  }

  /** `checkBlockIntegrity`: the 1-based index of the last blank line at or after `baseIndex`. */
  method CheckBlockIntegrity(baseIndex: nat, lines: seq<GrindLine>) returns (boundary: nat)
    ensures boundary == Boundary(Breaks(lines), baseIndex)
  {
    ghost var breaks := Breaks(lines);
    boundary := baseIndex;
    var i := 1;
    while i <= |lines|
      invariant 1 <= i <= |lines| + 1
      invariant boundary == Boundary(breaks[..i - 1], baseIndex)
    {
      assert breaks[..i][..i - 1] == breaks[..i - 1];
      if i >= baseIndex && lines[i - 1].blank {
        boundary := i;
      }
      i := i + 1;
    }
    assert breaks[..i - 1] == breaks;
  }

  /** The converter's variables, apart from the files written. */
  datatype SyncPending = SyncPending(block: bool, read: bool, write: bool, writeList: seq<string>, readList: seq<string>)

  const SyncStart: Scan<SyncPending> := Scan(SyncPending(false, false, false, [], []), [])

  /** A file holding the write entry then the read entry, written only when both exist. */
  function SyncEmit(p: SyncPending): (SyncPending, Option<seq<string>>)
  {
    if |p.writeList| > 0 && |p.readList| > 0 then (p.(writeList := [], readList := []), Some(p.writeList + p.readList))
    else (p, None)
  }

  /**
   * A stack-frame line, on the read side and then on the write side: the
   * wrapper ends that side's capture, any other frame is kept if it is the
   * side's first.
   */
  function SyncFrame(p: SyncPending, f: GrindFrame): SyncPending
  {
    var p1 :=
      if p.read && p.block then
        if f.func != Wrapper then (if |p.readList| == 0 then p.(readList := [Entry(f)]) else p)
        else p.(read := false)
      else p;
    if p1.write && p1.block then
      if f.func != Wrapper then (if |p1.writeList| == 0 then p1.(writeList := [Entry(f)]) else p1)
      else p1.(write := false)
    else p1
  }

  /**
   * One line, and the file it writes if any; the first matching pattern,
   * in the converter's order, decides.
   */
  function SyncLineStep(p: SyncPending, l: GrindLine): (SyncPending, Option<seq<string>>)
  {
    if l.blockStart then (SyncPending(true, false, false, [], []), None)
    else if l.readStart then (p.(read := true, block := true), None)
    else if l.writeStart then (p.(write := true, block := true), None)
    else if l.readEnd then (p.(read := false), None)
    else if l.frame.Some? then (SyncFrame(p, l.frame.value), None)
    else if l.blank then var q := SyncEmit(p); (q.0.(read := false, write := false), q.1)
    else (p, None)
  }

  function SyncStep(s: Scan<SyncPending>, l: GrindLine): Scan<SyncPending>
  {
    var q := SyncLineStep(s.pending, l);
    Scan(q.0, s.files + Written(q.1))
  }

  /** The stack-frame branch of the line loop of `runNormalSyncLoop`. */
  method SyncFrameLine(p: SyncPending, f: GrindFrame) returns (p': SyncPending)
    ensures p' == SyncFrame(p, f)
  {
    var block, read, write, writeList, readList := p.block, p.read, p.write, p.writeList, p.readList;
    if read && block {
      if f.func != Wrapper {
        if |readList| == 0 {
          readList := readList + [Entry(f)];
        }
      } else {
        read := false;
      }
    }
    if write && block {
      if f.func != Wrapper {
        if |writeList| == 0 {
          writeList := writeList + [Entry(f)];
        }
      } else {
        write := false;
      }
    }
    p' := SyncPending(block, read, write, writeList, readList);
  }

  /** The body of the line loop of `runNormalSyncLoop`; `out` is the file the line writes, if any. */
  method SyncLine(p: SyncPending, line: GrindLine) returns (p': SyncPending, out: Option<seq<string>>)
    ensures (p', out) == SyncLineStep(p, line)
  {
    var block, read, write, writeList, readList := p.block, p.read, p.write, p.writeList, p.readList;
    out := None;
    if line.blockStart {
      block := true;
      writeList, readList := [], [];
      read, write := false, false;
    } else if line.readStart {
      read, block := true, true;
    } else if line.writeStart {
      write, block := true, true;
    } else if line.readEnd {
      read := false;
    } else if line.frame.Some? {
      p' := SyncFrameLine(p, line.frame.value);
      return;
    } else if line.blank {
      if |writeList| > 0 && |readList| > 0 {
        out, writeList, readList := Some(writeList + readList), [], [];
      }
      read, write := false, false;
    }
    p' := SyncPending(block, read, write, writeList, readList);
  }

  /**
   * `runNormalSyncLoop`: only the lines before the last blank line are
   * read; the files written are those of the scan of those lines,
   * numbered from 0.
   */
  method RunNormalSyncLoop(lines: seq<GrindLine>) returns (files: seq<seq<string>>, outFileNo: nat)
    ensures files == Run(SyncStep, SyncStart, lines[..Processed(Boundary(Breaks(lines), 0))]).files
    ensures outFileNo == |files|
  {
    var boundary := CheckBlockIntegrity(0, lines);
    files, outFileNo := SyncScanTo(lines, Processed(boundary));
  }

  /**
   * The line loop of `runNormalSyncLoop` over the first `n` lines; the
   * converter passes the lines before the boundary line.
   */
  method SyncScanTo(lines: seq<GrindLine>, n: nat) returns (files: seq<seq<string>>, outFileNo: nat)
    requires n <= |lines|
    ensures files == Run(SyncStep, SyncStart, lines[..n]).files
    ensures outFileNo == |files|
  {
    var flags := SyncStart.pending;
    files, outFileNo := [], 0;
    var i := 0;
    while i < n
      invariant 0 <= i <= n
      invariant Scan(flags, files) == Run(SyncStep, SyncStart, lines[..i])
      invariant outFileNo == |files|
    {
      var line := lines[i];
      RunPrefix(SyncStep, SyncStart, lines, i);
      var out;
      flags, out := SyncLine(flags, line);
      if out.Some? {
        files, outFileNo := files + [out.value], outFileNo + 1;
      }
      i := i + 1;
    }
  }

  /** What a pending state promises: at most one entry per side. */
  predicate SyncPendingOk(p: SyncPending)
  {
    |p.writeList| <= 1 && |p.readList| <= 1
  }

  /**
   * One line keeps at most one entry per side, writes only a file made of
   * the pending write entry then the pending read entry, and adds only the
   * entry of its own frame, never the wrapper's.
   */
  lemma SyncLineStepPaired(p: SyncPending, l: GrindLine)
    requires SyncPendingOk(p)
    ensures var q := SyncLineStep(p, l);
            SyncPendingOk(q.0) &&
            (q.0.writeList == [] || p.writeList == [] || q.0.writeList == p.writeList) &&
            (q.0.readList == [] || p.readList == [] || q.0.readList == p.readList) &&
            (q.1.Some? ==> |p.writeList| == 1 && |p.readList| == 1 && q.1.value == p.writeList + p.readList) &&
            (forall e :: e in q.0.writeList + q.0.readList ==>
               e in p.writeList + p.readList || (l.frame.Some? && l.frame.value.func != Wrapper && e == Entry(l.frame.value)))
  {
  }

  /** A line whose first matching pattern is the stack frame. */
  predicate IsFrameLine(l: GrindLine)
  {
    !l.blockStart && !l.readStart && !l.writeStart && !l.readEnd && l.frame.Some?
  }

  /** The wrapper's frame line records nothing and leaves no side capturing. */
  lemma WrapperEndsCapture(p: SyncPending, l: GrindLine)
    requires IsFrameLine(l) && l.frame.value.func == Wrapper
    ensures var q := SyncLineStep(p, l);
            q.1.None? && q.0.writeList == p.writeList && q.0.readList == p.readList &&
            !(q.0.read && q.0.block) && !(q.0.write && q.0.block)
  {
  }

  /** What the frame lines of a report but its last line can produce, the whole report can too. */
  lemma FromFrameLineLast(lines: seq<GrindLine>)
    requires lines != []
    ensures forall e :: FromFrameLine(lines[..|lines| - 1], e) ==> FromFrameLine(lines, e)
    ensures var l := lines[|lines| - 1];
            l.frame.Some? && l.frame.value.func != Wrapper ==> FromFrameLine(lines, Entry(l.frame.value))
  {
    var pre := lines[..|lines| - 1];
    forall e | FromFrameLine(pre, e)
      ensures FromFrameLine(lines, e)
    {
      var j :| 0 <= j < |pre| && pre[j].frame.Some? && pre[j].frame.value.func != Wrapper && e == Entry(pre[j].frame.value);
      assert lines[j] == pre[j];
    }
  }

  /**
   * At most one write entry and one read entry are ever pending, and every
   * file written is exactly a write entry then a read entry, each of a
   * stack-frame line of the report other than the wrapper's.
   */
  lemma {:induction false} SyncFilesPaired(lines: seq<GrindLine>)
    ensures var s := Run(SyncStep, SyncStart, lines);
            SyncPendingOk(s.pending) &&
            (forall e :: e in s.pending.writeList + s.pending.readList ==> FromFrameLine(lines, e)) &&
            forall k :: 0 <= k < |s.files| ==>
              |s.files[k]| == 2 && FromFrameLine(lines, s.files[k][0]) && FromFrameLine(lines, s.files[k][1])
    decreases |lines|
  {
    if lines != [] {
      var pre := lines[..|lines| - 1];
      var l := lines[|lines| - 1];
      var p := Run(SyncStep, SyncStart, pre).pending;
      SyncFilesPaired(pre);
      FromFrameLineLast(lines);
      SyncLineStepPaired(p, l);
      var q := SyncLineStep(p, l);
      if q.1.Some? {
        assert q.1.value[0] in p.writeList + p.readList;
        assert q.1.value[1] in p.writeList + p.readList;
      }
    }
  }

  /** Files already written never influence a step. */
  lemma SyncStepAfter(earlier: seq<seq<string>>)
    ensures forall t: Scan<SyncPending>, l: GrindLine :: SyncStep(After(t, earlier), l) == After(SyncStep(t, l), earlier)
  {
    forall t: Scan<SyncPending>, l: GrindLine
      ensures SyncStep(After(t, earlier), l) == After(SyncStep(t, l), earlier)
    {
      var q := SyncLineStep(t.pending, l);
      assert (earlier + t.files) + Written(q.1) == earlier + (t.files + Written(q.1));
    }
  }

  /**
   * A block-start line discards everything pending: the lines before it
   * count only through the files they already wrote, and it and the lines
   * after it write what they would from a fresh start.
   */
  lemma BlockStartRestarts(pre: seq<GrindLine>, b: GrindLine, post: seq<GrindLine>)
    requires b.blockStart
    ensures Run(SyncStep, SyncStart, pre + [b] + post).files ==
            Run(SyncStep, SyncStart, pre).files + Run(SyncStep, SyncStart, [b] + post).files
  {
    var s := Run(SyncStep, SyncStart, pre);
    RunSnoc(SyncStep, SyncStart, pre, b);
    RunSnoc(SyncStep, SyncStart, [], b);
    assert [] + [b] == [b];
    assert s.files + [] == s.files;
    assert Run(SyncStep, SyncStart, pre + [b]) == After(Run(SyncStep, SyncStart, [b]), s.files);
    RunAppend(SyncStep, SyncStart, pre + [b], post);
    RunAppend(SyncStep, SyncStart, [b], post);
    SyncStepAfter(s.files);
    RunAfter(SyncStep, Run(SyncStep, SyncStart, [b]), s.files, post);
  }

  /** A line whose first matching pattern is the read start. */
  predicate IsReadStart(l: GrindLine)
  {
    !l.blockStart && l.readStart
  }

  /** A line whose first matching pattern is the `Address` line that ends a read. */
  predicate IsReadEnd(l: GrindLine)
  {
    !l.blockStart && !l.readStart && !l.writeStart && l.readEnd
  }

  /** Without read capture on, a line that does not start a read leaves the pending read entry alone or drops it. */
  lemma SyncLineNoRead(p: SyncPending, l: GrindLine)
    requires !p.read && !IsReadStart(l)
    ensures var q := SyncLineStep(p, l).0;
            !q.read && (q.readList == p.readList || q.readList == [])
  {
  }

  /**
   * After an `Address` line, no read entry is captured until the next
   * read-start line: the pending read entry stays what it was, or is
   * written out or dropped.
   */
  lemma {:induction false} AddressEndsRead(s: Scan<SyncPending>, a: GrindLine, post: seq<GrindLine>)
    requires IsReadEnd(a)
    requires forall j :: 0 <= j < |post| ==> !IsReadStart(post[j])
    ensures var t := Run(SyncStep, s, [a] + post).pending;
            !t.read && (t.readList == s.pending.readList || t.readList == [])
    decreases |post|
  {
    if post == [] {
      assert [a] + post == [a];
      RunSnoc(SyncStep, s, [], a);
    } else {
      var pre := post[..|post| - 1];
      var l := post[|post| - 1];
      assert [a] + post == ([a] + pre) + [l];
      AddressEndsRead(s, a, pre);
      RunSnoc(SyncStep, s, [a] + pre, l);
      SyncLineNoRead(Run(SyncStep, s, [a] + pre).pending, l);
    }
  }

  // ---------------------------------------------------------------------
  // The boundary line
  // ---------------------------------------------------------------------

  /** A line that matches the blank-line pattern and nothing before it. */
  predicate IsBlankOnly(l: GrindLine)
  {
    !l.blockStart && !l.readStart && !l.writeStart && !l.readEnd && l.frame.None? && l.blank
  }

  /** A complete race: block start, read start, read frame, write start, write frame, blank line. */
  function CompleteRace(r: GrindFrame, w: GrindFrame): seq<GrindLine>
  {
    [GrindLine(true, false, false, false, None, false),
     GrindLine(false, true, false, false, None, false),
     GrindLine(false, false, false, false, Some(r), false),
     GrindLine(false, false, true, false, None, false),
     GrindLine(false, false, false, false, Some(w), false),
     GrindLine(false, false, false, false, None, true)]
  }

  /** Before its blank line, a complete race has both sides pending and nothing written. */
  lemma CompleteRacePending(r: GrindFrame, w: GrindFrame)
    requires r.func != Wrapper && w.func != Wrapper
    ensures Run(SyncStep, SyncStart, CompleteRace(r, w)[..5]) == Scan(SyncPending(true, true, true, [Entry(w)], [Entry(r)]), [])
  {
    var ls := CompleteRace(r, w);
    assert ls[..0] == [];
    RunPrefix(SyncStep, SyncStart, ls, 0);
    assert Run(SyncStep, SyncStart, ls[..1]) == Scan(SyncPending(true, false, false, [], []), []);
    RunPrefix(SyncStep, SyncStart, ls, 1);
    assert Run(SyncStep, SyncStart, ls[..2]) == Scan(SyncPending(true, true, false, [], []), []);
    RunPrefix(SyncStep, SyncStart, ls, 2);
    assert Run(SyncStep, SyncStart, ls[..3]) == Scan(SyncPending(true, true, false, [], [Entry(r)]), []);
    RunPrefix(SyncStep, SyncStart, ls, 3);
    assert Run(SyncStep, SyncStart, ls[..4]) == Scan(SyncPending(true, true, true, [], [Entry(r)]), []);
    RunPrefix(SyncStep, SyncStart, ls, 4);
  }

  /**
   * As written, the line loop stops before the last blank line, which is
   * the line that writes the pending pair: a report whose last race ends
   * on that line never has the race written, though reading that line
   * would write it.
   */
  lemma LastRaceDropped(r: GrindFrame, w: GrindFrame)
    requires r.func != Wrapper && w.func != Wrapper
    ensures var ls := CompleteRace(r, w);
            Run(SyncStep, SyncStart, ls[..Processed(Boundary(Breaks(ls), 0))]).files == [] &&
            Run(SyncStep, SyncStart, ls).files == [[Entry(w), Entry(r)]]
  {
    var ls := CompleteRace(r, w);
    assert Breaks(ls) == [false, false, false, false, false, true];
    assert Boundary(Breaks(ls), 0) == 6;
    CompleteRacePending(r, w);
    var p := SyncPending(true, true, true, [Entry(w)], [Entry(r)]);
    RunPrefix(SyncStep, SyncStart, ls, 5);
    assert ls[..6] == ls;
    assert [Entry(w)] + [Entry(r)] == [Entry(w), Entry(r)];
    assert SyncStep(Scan(p, []), ls[5]).files == [] + [[Entry(w), Entry(r)]];
  }

  /**
   * `runNormalSyncLoop` reading through the boundary line as well, so that
   * the race that line ends is written.
   */
  method RunNormalSyncLoopThrough(lines: seq<GrindLine>) returns (files: seq<seq<string>>, outFileNo: nat)
    ensures files == Run(SyncStep, SyncStart, lines[..Boundary(Breaks(lines), 0)]).files
    ensures outFileNo == |files|
  {
    var boundary := CheckBlockIntegrity(0, lines);
    files, outFileNo := SyncScanTo(lines, boundary);
  }

  /**
   * Reading through the boundary line writes what the converter writes
   * and, after it, the pair still pending if both sides were captured;
   * when the boundary line is a plain blank line no complete pair is left
   * unwritten.
   */
  lemma ThroughBoundary(lines: seq<GrindLine>)
    requires Boundary(Breaks(lines), 0) > 0
    ensures var b := Boundary(Breaks(lines), 0);
            var before := Run(SyncStep, SyncStart, lines[..b - 1]);
            var through := Run(SyncStep, SyncStart, lines[..b]);
            (IsBlankOnly(lines[b - 1]) ==>
               through.files == before.files + Written(SyncEmit(before.pending).1) &&
               (through.pending.writeList == [] || through.pending.readList == [])) &&
            (|through.files| == |before.files| || |through.files| == |before.files| + 1)
  {
    var b := Boundary(Breaks(lines), 0);
    RunPrefix(SyncStep, SyncStart, lines, b - 1);
  }
}
