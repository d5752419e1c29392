/**
 * What the two race-report converters share: the file name a stack frame
 * is reduced to, and the boundary up to which a report is read.
 */
module ReportLines {
  import opened IR

  /**
   * A converter's variables during a scan: what is pending, and the
   * `.race` files written so far, file `k` being the one numbered `k`.
   */
  datatype Scan<P> = Scan(pending: P, files: seq<seq<string>>)

  /** The file a line writes, if any, as a list of files. */
  function Written(out: Option<seq<string>>): (fs: seq<seq<string>>)
    ensures |fs| <= 1 && (out.Some? <==> |fs| == 1) && (out.Some? ==> fs[0] == out.value)
  {
    if out.Some? then [out.value] else []
  }

  /** `s` with the files `earlier` written before its own. */
  function After<P>(s: Scan<P>, earlier: seq<seq<string>>): Scan<P>
  {
    s.(files := earlier + s.files)
  }

  /** The position just after the last '/' of `p`, or 0 when there is none. */
  function AfterLastSlash(p: string): (k: nat)
    ensures k <= |p|
    ensures k > 0 ==> p[k - 1] == '/'
    ensures forall j :: k <= j < |p| ==> p[j] != '/'
  {
    if p == [] then 0
    else if p[|p| - 1] == '/' then |p|
    else AfterLastSlash(p[..|p| - 1])
  }

  /**
   * `os.path.basename(os.path.normpath(p))`: trailing slashes and `.`
   * components are dropped, then the last component is kept; the empty
   * path names `.`, and a path made of slashes names nothing.
   */
  function FileName(p: string): (name: string)
    ensures '/' !in name
    decreases |p|
  {
    if p == [] then "."
    else if p == "/" then ""
    else if p[|p| - 1] == '/' then FileName(p[..|p| - 1])
    else
      var k := AfterLastSlash(p);
      if p[k..] != "." then p[k..]
      else if k == 0 then "."
      else FileName(p[..k])
  }

  /** A plain name is its own file name. */
  lemma FileNameOfName(name: string)
    requires name != [] && name != "." && '/' !in name
    ensures FileName(name) == name
  {
    assert AfterLastSlash(name) == 0;
  }

  /** The directory of a path is stripped: `dir/name` names `name`. */
  lemma {:induction false} FileNameStripsDir(dir: string, name: string)
    requires name != [] && name != "." && '/' !in name
    ensures FileName(dir + "/" + name) == name
  {
    var p := dir + "/" + name;
    assert p[|dir|] == '/';
    assert p[|dir| + 1..] == name;
    var k := AfterLastSlash(p);
    assert k == |dir| + 1;
  }

  /**
   * `checkBlockIntegrity(baseIndex, fp)` over the per-line block-break
   * matches: the 1-based index of the last block-break line at or after
   * `base`, or `base` when there is none.
   */
  function Boundary(breaks: seq<bool>, base: nat): (b: nat)
    ensures b == base || (1 <= b <= |breaks| && base <= b)
    ensures b != base ==> breaks[b - 1] && forall j :: b <= j < |breaks| ==> !breaks[j]
    ensures (exists j :: 0 <= j < |breaks| && base <= j + 1 && breaks[j]) ==>
              1 <= b <= |breaks| && base <= b && breaks[b - 1] && forall j :: b <= j < |breaks| ==> !breaks[j]
  {
    if breaks == [] then base
    else if base <= |breaks| && breaks[|breaks| - 1] then |breaks|
    else
      var b := Boundary(breaks[..|breaks| - 1], base);
      assert forall j :: 0 <= j < |breaks| - 1 ==> breaks[..|breaks| - 1][j] == breaks[j];
      b
  }

  /** How many lines the normal modes process: those before the boundary line. */
  function Processed(boundary: nat): nat
  {
    if boundary == 0 then 0 else boundary - 1
  }

  /** The state a per-line scan reaches from `s` after the lines `ls`, one `step` per line. */
  function Run<S, L>(step: (S, L) -> S, s: S, ls: seq<L>): S
    decreases |ls|
  {
    if ls == [] then s else step(Run(step, s, ls[..|ls| - 1]), ls[|ls| - 1])
  }

  /** One more line is one more step. */
  lemma RunSnoc<S, L>(step: (S, L) -> S, s: S, ls: seq<L>, l: L)
    ensures Run(step, s, ls + [l]) == step(Run(step, s, ls), l)
  {
    assert (ls + [l])[..|ls|] == ls;
  }

  /** Scanning one more line of `ls` is one more step. */
  lemma RunPrefix<S, L>(step: (S, L) -> S, s: S, ls: seq<L>, i: nat)
    requires i < |ls|
    ensures Run(step, s, ls[..i + 1]) == step(Run(step, s, ls[..i]), ls[i])
  {
    assert ls[..i + 1][..i] == ls[..i];
  }

  /** Scanning `a + b` is scanning `a`, then `b` from where `a` left off. */
  lemma {:induction false} RunAppend<S, L>(step: (S, L) -> S, s: S, a: seq<L>, b: seq<L>)
    ensures Run(step, s, a + b) == Run(step, Run(step, s, a), b)
    decreases |b|
  {
    if b == [] {
      assert a + b == a;
    } else {
      var b' := b[..|b| - 1];
      assert a + b == (a + b') + [b[|b| - 1]];
      assert b == b' + [b[|b| - 1]];
      RunSnoc(step, s, a + b', b[|b| - 1]);
      RunSnoc(step, Run(step, s, a), b', b[|b| - 1]);
      RunAppend(step, s, a, b');
    }
  }

  /**
   * When a step never looks at the files already written, neither does a
   * scan: it goes on as from the same state with none.
   */
  lemma {:induction false} RunAfter<P, L>(step: (Scan<P>, L) -> Scan<P>, s: Scan<P>, earlier: seq<seq<string>>, ls: seq<L>)
    requires forall t: Scan<P>, l: L :: step(After(t, earlier), l) == After(step(t, l), earlier)
    ensures Run(step, After(s, earlier), ls) == After(Run(step, s, ls), earlier)
    decreases |ls|
  {
    if ls != [] {
      var t := Run(step, s, ls[..|ls| - 1]);
      RunAfter(step, s, earlier, ls[..|ls| - 1]);
      assert step(After(t, earlier), ls[|ls| - 1]) == After(step(t, ls[|ls| - 1]), earlier);
    }
  }
}
