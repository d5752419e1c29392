/**
 * The ThreadSanitizer report converter in its normal modes.  Each report
 * line is given by which of the converter's regular expressions it
 * matches (and, for a stack-frame line, the groups kept from it); the
 * `.race` files it writes are the returned sequence, file `k` being the
 * one numbered `k`.
 */
module TsanParser {
  import opened IR
  import opened ReportLines

  /** The groups of a stack-frame line that are kept: the function, the path, and the `:line` suffix. */
  datatype CallFrame = CallFrame(func: string, path: string, line: string)

  /** Which of the report patterns a line matches; `frame` is present when the stack-frame pattern does. */
  datatype TsanLine = TsanLine(blockStart: bool, blockBreak: bool, blockEnd: bool, writeStart: bool,
                               readStart: bool, frame: Option<CallFrame>, blank: bool)

  /** The runtime's own files, whose frames are never reported. */
  predicate IsInterceptor(name: string)
  {
    name == "tsan_interceptors.cc" || name == "sanitizer_common_interceptors.inc" || name == "tsan_new_delete.cc"
  }

  /** A kept frame as written out: `<func> (<file name><:line>)` and a newline. */
  function Entry(f: CallFrame): string
  {
    f.func + " (" + FileName(f.path) + f.line + ")\n"
  }

  /** A frame whose entry may appear in a `.race` file. */
  predicate Reportable(f: CallFrame)
  {
    !IsInterceptor(FileName(f.path))
  }

  /** Some line of `lines` is a stack-frame line whose frame is reportable and written as `e`. */
  ghost predicate FromFrameLine(lines: seq<TsanLine>, e: string)
  {
    exists j :: 0 <= j < |lines| && lines[j].frame.Some? && Reportable(lines[j].frame.value) && e == Entry(lines[j].frame.value)
  }

  /** Every entry of `es` comes from a reportable stack-frame line of `lines`. */
  ghost predicate AllFromFrameLines(lines: seq<TsanLine>, es: seq<string>)
  {
    forall e :: e in es ==> FromFrameLine(lines, e)
  }

  /** Which lines match the block-break pattern. */
  function Breaks(lines: seq<TsanLine>): (r: seq<bool>)
    ensures |r| == |lines| && forall j :: 0 <= j < |lines| ==> r[j] == lines[j].blockBreak
  {
    seq(|lines|, j requires 0 <= j < |lines| => lines[j].blockBreak)
  }

  /** `checkBlockIntegrity`: the 1-based index of the last block-break line at or after `baseIndex`. */
  method CheckBlockIntegrity(baseIndex: nat, lines: seq<TsanLine>) returns (boundary: nat)
    ensures boundary == Boundary(Breaks(lines), baseIndex)
  {
    ghost var breaks := Breaks(lines);
    boundary := baseIndex;
    var i := 1;
    while i <= |lines|
      invariant 1 <= i <= |lines| + 1
      invariant boundary == Boundary(breaks[..i - 1], baseIndex)
    {
      assert breaks[..i][..i - 1] == breaks[..i - 1];
      if i >= baseIndex && lines[i - 1].blockBreak {
        boundary := i;
      }
      i := i + 1;
    }
    assert breaks[..i - 1] == breaks;
  }

  // ---------------------------------------------------------------------
  // ConAnalysis output: one file per read stack
  // ---------------------------------------------------------------------

  /** The converter's variables in ConAnalysis mode, apart from the files written. */
  datatype ConPending = ConPending(block: bool, read: bool, resultList: seq<string>)

  const ConStart: Scan<ConPending> := Scan(ConPending(false, false, []), [])

  /** The pending entries, if any, become the next file. */
  function ConFlush(p: ConPending): (ConPending, Option<seq<string>>)
  {
    if |p.resultList| > 0 then (p.(resultList := []), Some(p.resultList)) else (p, None)
  }

  /** A stack-frame line: kept while both the read and block flags are up, unless it is in the runtime's files. */
  function ConFrame(p: ConPending, f: CallFrame): ConPending
  {
    if p.read && p.block && Reportable(f) then p.(resultList := p.resultList + [Entry(f)]) else p
  }

  /**
   * One line in ConAnalysis mode, and the file it writes if any; the first
   * matching pattern, in the converter's order, decides.
   */
  function ConLineStep(p: ConPending, l: TsanLine): (ConPending, Option<seq<string>>)
  {
    if l.blockStart then (p.(block := true), None)
    else if l.readStart then (p.(read := true, block := true), None)
    else if l.frame.Some? then (ConFrame(p, l.frame.value), None)
    else if l.blank then var q := ConFlush(p); (q.0.(read := false), q.1)
    else if l.blockEnd then ConFlush(p.(block := false, read := false))
    else (p, None)
  }

  function ConStep(s: Scan<ConPending>, l: TsanLine): Scan<ConPending>
  {
    var q := ConLineStep(s.pending, l);
    Scan(q.0, s.files + Written(q.1))
  }

  /** The body of the line loop of `runNormalConAnalysis`; `out` is the file the line writes, if any. */
  method ConLine(block: bool, read: bool, resultList: seq<string>, line: TsanLine)
    returns (block': bool, read': bool, resultList': seq<string>, out: Option<seq<string>>)
    ensures (ConPending(block', read', resultList'), out) == ConLineStep(ConPending(block, read, resultList), line)
  {
    block', read', resultList', out := block, read, resultList, None;
    if line.blockStart {
      block' := true;
    } else if line.readStart {
      read', block' := true, true;
    } else if line.frame.Some? {
      if read && block {
        var fileName := FileName(line.frame.value.path);
        if !IsInterceptor(fileName) {
          resultList' := resultList + [Entry(line.frame.value)];
        }
      }
    } else if line.blank {
      if |resultList| > 0 {
        out, resultList' := Some(resultList), [];
      }
      read' := false;
    } else if line.blockEnd {
      block', read' := false, false;
      if |resultList| > 0 {
        out, resultList' := Some(resultList), [];
      }
    }
  }

  /**
   * `runNormalConAnalysis`: only the lines before the last block-break
   * line are read; the files written are those of the scan of those lines,
   * numbered from 0.
   */
  method RunNormalConAnalysis(lines: seq<TsanLine>) returns (files: seq<seq<string>>, outFileNo: nat)
    ensures files == Run(ConStep, ConStart, lines[..Processed(Boundary(Breaks(lines), 0))]).files
    ensures outFileNo == |files|
  {
    var boundary := CheckBlockIntegrity(0, lines);
    files, outFileNo := ConScanTo(lines, boundary);
  }

  /** The line loop of `runNormalConAnalysis`, which stops at line `boundary`. */
  method ConScanTo(lines: seq<TsanLine>, boundary: nat) returns (files: seq<seq<string>>, outFileNo: nat)
    requires boundary <= |lines|
    ensures files == Run(ConStep, ConStart, lines[..Processed(boundary)]).files
    ensures outFileNo == |files|
  {
    var flagBlockStart, flagReadStart := false, false;
    var resultList: seq<string> := [];
    files, outFileNo := [], 0;
    var i := 1;
    while i < boundary
      invariant 1 <= i <= Processed(boundary) + 1
      invariant Scan(ConPending(flagBlockStart, flagReadStart, resultList), files) == Run(ConStep, ConStart, lines[..i - 1])
      invariant outFileNo == |files|
    {
      var line := lines[i - 1];
      RunPrefix(ConStep, ConStart, lines, i - 1);
      var out;
      flagBlockStart, flagReadStart, resultList, out := ConLine(flagBlockStart, flagReadStart, resultList, line);
      if out.Some? {
        files, outFileNo := files + [out.value], outFileNo + 1;
      }
      i := i + 1;
    }
  }

  /** One line adds to what is pending or written only the entry of its own reportable frame. */
  lemma ConLineStepEntries(p: ConPending, l: TsanLine)
    ensures var q := ConLineStep(p, l);
            (q.1.Some? ==> q.1.value != [] && forall e :: e in q.1.value ==> e in p.resultList) &&
            forall e :: e in q.0.resultList ==>
              e in p.resultList || (l.frame.Some? && Reportable(l.frame.value) && e == Entry(l.frame.value))
  {
  }

  /**
   * Every file written in ConAnalysis mode is non-empty, and each of its
   * entries is the entry of a reportable stack-frame line of the report.
   */
  lemma {:induction false} ConFilesFromFrames(lines: seq<TsanLine>)
    ensures var s := Run(ConStep, ConStart, lines);
            AllFromFrameLines(lines, s.pending.resultList) &&
            forall k :: 0 <= k < |s.files| ==> s.files[k] != [] && AllFromFrameLines(lines, s.files[k])
    decreases |lines|
  {
    if lines != [] {
      var pre := lines[..|lines| - 1];
      var l := lines[|lines| - 1];
      var s0 := Run(ConStep, ConStart, pre);
      ConFilesFromFrames(pre);
      FromFrameLineLast(lines);
      var q := ConLineStep(s0.pending, l);
      ConLineStepEntries(s0.pending, l);
      var s := Run(ConStep, ConStart, lines);
      assert s == Scan(q.0, s0.files + Written(q.1));
      forall k | 0 <= k < |s.files|
        ensures s.files[k] != [] && AllFromFrameLines(lines, s.files[k])
      {
        if k < |s0.files| {
          assert s.files[k] == s0.files[k];
          assert s0.files[k] != [] && AllFromFrameLines(pre, s0.files[k]);
        } else {
          assert s.files[k] == q.1.value;
        }
      }
    }
  }

  /** What the frame lines of a report but its last line can produce, the whole report can too. */
  lemma FromFrameLineLast(lines: seq<TsanLine>)
    requires lines != []
    ensures forall e :: FromFrameLine(lines[..|lines| - 1], e) ==> FromFrameLine(lines, e)
    ensures var l := lines[|lines| - 1];
            l.frame.Some? && Reportable(l.frame.value) ==> FromFrameLine(lines, Entry(l.frame.value))
  {
    var pre := lines[..|lines| - 1];
    forall e | FromFrameLine(pre, e)
      ensures FromFrameLine(lines, e)
    {
      var j :| 0 <= j < |pre| && pre[j].frame.Some? && Reportable(pre[j].frame.value) && e == Entry(pre[j].frame.value);
      assert lines[j] == pre[j];
    }
  }

  // ---------------------------------------------------------------------
  // SyncLoop output: one write frame and one read frame per file
  // ---------------------------------------------------------------------

  /**
   * The converter's variables in SyncLoop mode, apart from the files
   * written; `verifier` is whether the output type is `verifier`, which
   * keeps capture on at a frame in the runtime's files.
   */
  datatype SyncPending = SyncPending(verifier: bool, block: bool, read: bool, write: bool,
                                     writeList: seq<string>, readList: seq<string>)

  function SyncStart(verifier: bool): Scan<SyncPending>
  {
    Scan(SyncPending(verifier, false, false, false, [], []), [])
  }

  /** A file holding the write entry then the read entry, written only when both exist. */
  function SyncEmit(p: SyncPending): (SyncPending, Option<seq<string>>)
  {
    if |p.writeList| > 0 && |p.readList| > 0 then (p.(writeList := [], readList := []), Some(p.writeList + p.readList))
    else (p, None)
  }

  /**
   * A stack-frame line: first the read side, where a frame in the runtime's
   * files ends the line (and, unless in verifier mode, read capture); then
   * the write side, likewise.  Each side keeps only its first entry.
   */
  function SyncFrame(p: SyncPending, f: CallFrame): SyncPending
  {
    if p.read && p.block && !Reportable(f) then
      if p.verifier then p else p.(read := false, block := false)
    else
      var p1 := if p.read && p.block && |p.readList| == 0 then p.(readList := [Entry(f)]) else p;
      if p1.write && p1.block then
        if !Reportable(f) then (if p1.verifier then p1 else p1.(write := false, block := false))
        else if |p1.writeList| == 0 then p1.(writeList := [Entry(f)])
        else p1
      else p1
  }

  /**
   * One line in SyncLoop mode, and the file it writes if any; the first
   * matching pattern, in the converter's order, decides.
   */
  function SyncLineStep(p: SyncPending, l: TsanLine): (SyncPending, Option<seq<string>>)
  {
    if l.blockStart then (p.(block := true), None)
    else if l.writeStart then (p.(write := true, read := false, block := true), None)
    else if l.readStart then (p.(read := true, block := true), None)
    else if l.frame.Some? then (SyncFrame(p, l.frame.value), None)
    else if l.blank then var q := SyncEmit(p); (q.0.(read := false, write := false), q.1)
    else if l.blockBreak then (p.(read := false, write := false, block := false, writeList := [], readList := []), None)
    else if l.blockEnd then SyncEmit(p.(block := false, read := false, write := false))
    else (p, None)
  }

  function SyncStep(s: Scan<SyncPending>, l: TsanLine): Scan<SyncPending>
  {
    var q := SyncLineStep(s.pending, l);
    Scan(q.0, s.files + Written(q.1))
  }

  /** The stack-frame branch of the line loop of `runNormalSyncLoop`. */
  method SyncFrameLine(verifier: bool, block: bool, read: bool, write: bool, writeList: seq<string>, readList: seq<string>,
                       f: CallFrame)
    returns (block': bool, read': bool, write': bool, writeList': seq<string>, readList': seq<string>)
    ensures SyncPending(verifier, block', read', write', writeList', readList') ==
            SyncFrame(SyncPending(verifier, block, read, write, writeList, readList), f)
  {
    block', read', write', writeList', readList' := block, read, write, writeList, readList;
    if read' && block' {
      var fileName := FileName(f.path);
      if IsInterceptor(fileName) {
        if !verifier {
          read', block' := false, false;
        }
        return;
      }
      if |readList'| == 0 {
        readList' := readList' + [Entry(f)];
      }
    }
    if write' && block' {
      var fileName := FileName(f.path);
      if IsInterceptor(fileName) {
        if !verifier {
          write', block' := false, false;
        }
        return;
      }
      if |writeList'| == 0 {
        writeList' := writeList' + [Entry(f)];
      }
    }
  }

  /** The body of the line loop of `runNormalSyncLoop`; `out` is the file the line writes, if any. */
  method SyncLine(p: SyncPending, line: TsanLine) returns (p': SyncPending, out: Option<seq<string>>)
    ensures (p', out) == SyncLineStep(p, line)
  {
    var verifier, block, read, write, writeList, readList := p.verifier, p.block, p.read, p.write, p.writeList, p.readList;
    out := None;
    if line.blockStart {
      block := true;
    } else if line.writeStart {
      write, read, block := true, false, true;
    } else if line.readStart {
      read, block := true, true;
    } else if line.frame.Some? {
      block, read, write, writeList, readList := SyncFrameLine(verifier, block, read, write, writeList, readList, line.frame.value);
    } else if line.blank {
      if |writeList| > 0 && |readList| > 0 {
        out, writeList, readList := Some(writeList + readList), [], [];
      }
      read, write := false, false;
    } else if line.blockBreak {
      read, write, block := false, false, false;
      writeList, readList := [], [];
    } else if line.blockEnd {
      block, read, write := false, false, false;
      if |writeList| > 0 && |readList| > 0 {
        out, writeList, readList := Some(writeList + readList), [], [];
      }
    }
    p' := SyncPending(verifier, block, read, write, writeList, readList);
  }

  /**
   * `runNormalSyncLoop`: only the lines before the last block-break line
   * are read; the files written are those of the scan of those lines,
   * numbered from 0.
   */
  method RunNormalSyncLoop(verifier: bool, lines: seq<TsanLine>) returns (files: seq<seq<string>>, outFileNo: nat)
    ensures files == Run(SyncStep, SyncStart(verifier), lines[..Processed(Boundary(Breaks(lines), 0))]).files
    ensures outFileNo == |files|
  {
    var boundary := CheckBlockIntegrity(0, lines);
    files, outFileNo := SyncScanTo(verifier, lines, boundary);
  }

  /** The line loop of `runNormalSyncLoop`, which stops at line `boundary`. */
  method SyncScanTo(verifier: bool, lines: seq<TsanLine>, boundary: nat) returns (files: seq<seq<string>>, outFileNo: nat)
    requires boundary <= |lines|
    ensures files == Run(SyncStep, SyncStart(verifier), lines[..Processed(boundary)]).files
    ensures outFileNo == |files|
  {
    var flags := SyncStart(verifier).pending;
    files, outFileNo := [], 0;
    var i := 1;
    while i < boundary
      invariant 1 <= i <= Processed(boundary) + 1
      invariant Scan(flags, files) == Run(SyncStep, SyncStart(verifier), lines[..i - 1])
      invariant outFileNo == |files|
    {
      var line := lines[i - 1];
      RunPrefix(SyncStep, SyncStart(verifier), lines, i - 1);
      var out;
      flags, out := SyncLine(flags, line);
      if out.Some? {
        files, outFileNo := files + [out.value], outFileNo + 1;
      }
      i := i + 1;
    }
  }

  /** What a SyncLoop-mode pending state promises: at most one entry per side, and the output type kept. */
  predicate SyncPendingOk(p: SyncPending, verifier: bool)
  {
    p.verifier == verifier && |p.writeList| <= 1 && |p.readList| <= 1
  }

  /**
   * One line keeps at most one entry per side, writes only a file made of
   * the pending write entry then the pending read entry, and adds only
   * the entry of its own reportable frame.
   */
  lemma SyncLineStepPaired(p: SyncPending, l: TsanLine)
    requires SyncPendingOk(p, p.verifier)
    ensures var q := SyncLineStep(p, l);
            SyncPendingOk(q.0, p.verifier) &&
            (q.0.writeList == [] || p.writeList == [] || q.0.writeList == p.writeList) &&
            (q.0.readList == [] || p.readList == [] || q.0.readList == p.readList) &&
            (q.1.Some? ==> |p.writeList| == 1 && |p.readList| == 1 && q.1.value == p.writeList + p.readList) &&
            forall e :: e in q.0.writeList + q.0.readList ==>
              e in p.writeList + p.readList || (l.frame.Some? && Reportable(l.frame.value) && e == Entry(l.frame.value))
  {
  }

  /**
   * In SyncLoop mode at most one write entry and one read entry are ever
   * pending, and every file written is exactly a write entry then a read
   * entry, each of a reportable stack-frame line of the report.
   */
  lemma {:induction false} SyncFilesPaired(verifier: bool, lines: seq<TsanLine>)
    ensures var s := Run(SyncStep, SyncStart(verifier), lines);
            SyncPendingOk(s.pending, verifier) &&
            (forall e :: e in s.pending.writeList + s.pending.readList ==> FromFrameLine(lines, e)) &&
            forall k :: 0 <= k < |s.files| ==>
              |s.files[k]| == 2 && FromFrameLine(lines, s.files[k][0]) && FromFrameLine(lines, s.files[k][1])
    decreases |lines|
  {
    if lines != [] {
      var pre := lines[..|lines| - 1];
      var l := lines[|lines| - 1];
      var p := Run(SyncStep, SyncStart(verifier), pre).pending;
      SyncFilesPaired(verifier, pre);
      FromFrameLineLast(lines);
      SyncLineStepPaired(p, l);
      var q := SyncLineStep(p, l);
      if q.1.Some? {
        assert q.1.value[0] in p.writeList + p.readList;
        assert q.1.value[1] in p.writeList + p.readList;
      }
    }
  }

  /** Files already written never influence a step. */
  lemma SyncStepAfter(earlier: seq<seq<string>>)
    ensures forall t: Scan<SyncPending>, l: TsanLine :: SyncStep(After(t, earlier), l) == After(SyncStep(t, l), earlier)
  {
    forall t: Scan<SyncPending>, l: TsanLine
      ensures SyncStep(After(t, earlier), l) == After(SyncStep(t, l), earlier)
    {
      var q := SyncLineStep(t.pending, l);
      assert (earlier + t.files) + Written(q.1) == earlier + (t.files + Written(q.1));
    }
  }

  /** A line whose first matching pattern is the block break. */
  predicate IsBlockBreak(l: TsanLine)
  {
    !l.blockStart && !l.writeStart && !l.readStart && l.frame.None? && !l.blank && l.blockBreak
  }

  /**
   * A block break discards everything pending: the lines before it count
   * only through the files they already wrote, and the lines after it
   * write what they would from a fresh start.
   */
  lemma BlockBreakRestarts(verifier: bool, pre: seq<TsanLine>, b: TsanLine, post: seq<TsanLine>)
    requires IsBlockBreak(b)
    ensures Run(SyncStep, SyncStart(verifier), pre + [b] + post).files ==
            Run(SyncStep, SyncStart(verifier), pre).files + Run(SyncStep, SyncStart(verifier), post).files
  {
    var start := SyncStart(verifier);
    var s := Run(SyncStep, start, pre);
    SyncFilesPaired(verifier, pre);
    RunSnoc(SyncStep, start, pre, b);
    assert s.files + [] == s.files;
    assert Run(SyncStep, start, pre + [b]) == After(start, s.files);
    RunAppend(SyncStep, start, pre + [b], post);
    SyncStepAfter(s.files);
    RunAfter(SyncStep, start, s.files, post);
  }

  /** A line whose first matching pattern is the read start. */
  predicate IsReadStart(l: TsanLine)
  {
    !l.blockStart && !l.writeStart && l.readStart
  }

  /** Without read capture on, a line that does not start a read leaves the pending read entry alone or writes it out. */
  lemma SyncLineNoRead(p: SyncPending, l: TsanLine)
    requires !p.read && !IsReadStart(l)
    ensures var q := SyncLineStep(p, l).0;
            !q.read && (q.readList == p.readList || q.readList == [])
  {
  }

  /**
   * After a write-start line, no read entry is captured until the next
   * read-start line: the pending read entry stays what it was or is
   * written out.
   */
  lemma {:induction false} WriteStartStopsRead(s: Scan<SyncPending>, w: TsanLine, post: seq<TsanLine>)
    requires !w.blockStart && w.writeStart
    requires forall j :: 0 <= j < |post| ==> !IsReadStart(post[j])
    ensures var t := Run(SyncStep, s, [w] + post).pending;
            !t.read && (t.readList == s.pending.readList || t.readList == [])
    decreases |post|
  {
    if post == [] {
      assert [w] + post == [w];
      RunSnoc(SyncStep, s, [], w);
    } else {
      var pre := post[..|post| - 1];
      var l := post[|post| - 1];
      assert [w] + post == ([w] + pre) + [l];
      WriteStartStopsRead(s, w, pre);
      RunSnoc(SyncStep, s, [w] + pre, l);
      SyncLineNoRead(Run(SyncStep, s, [w] + pre).pending, l);
    }
  }
}
