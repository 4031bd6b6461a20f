/** Scanning blanked Rust source for prints outside test code.

    The scanner walks the lines with a brace counter.  Its specification says
    instead where a skipped region ends and jumps there.  The regular
    expressions are parameters: predicates on a blanked line. */
module LogScanner {
  import opened Names
  import opened BlankingLexer
  import opened BlankingProperties
  import opened Sequences

  // ---------- Lines ----------

  /** Where Python's `splitlines` breaks a text whose carriage returns have been
      translated to newlines, as reading a file in text mode does. */
  predicate IsBreak(c: char) {
    c as int in {0xA, 0xB, 0xC, 0x1C, 0x1D, 0x1E, 0x85, 0x2028, 0x2029}
  }

  /** The first line break from `i` on, or the end. */
  function NextBreak(s: string, i: nat): (b: nat)
    requires i <= |s|
    ensures i <= b <= |s|
  {
    First(s, IsBreak, i)
  }

  /** Where the next line starts. */
  function NextLine(s: string, i: nat): (j: nat)
    requires i < |s|
    ensures i < j <= |s|
  {
    if NextBreak(s, i) < |s| then NextBreak(s, i) + 1 else |s|
  }

  /** The lines of the text from `i` on; a final line break starts no further line. */
  function LinesFrom(s: string, i: nat): seq<string>
    requires i <= |s|
    decreases |s| - i
  {
    if i == |s| then [] else [s[i..NextBreak(s, i)]] + LinesFrom(s, NextLine(s, i))
  }

  function SplitLines(s: string): seq<string> {
    LinesFrom(s, 0)
  }

  function Lengths(xs: seq<string>): seq<nat> {
    if xs == [] then [] else [|xs[0]|] + Lengths(xs[1..])
  }

  /** As many lines on both sides, and each as long as its counterpart. */
  predicate SameShape(xs: seq<string>, ys: seq<string>) {
    |xs| == |ys| && forall i :: 0 <= i < |xs| ==> |xs[i]| == |ys[i]|
  }

  predicate SameBreaks(a: string, b: string, i: nat) {
    |a| == |b| && forall k :: i <= k < |a| ==> (IsBreak(a[k]) <==> IsBreak(b[k]))
  }

  lemma {:induction false} LengthsMeaning(xs: seq<string>)
    ensures |Lengths(xs)| == |xs|
    ensures forall i :: 0 <= i < |xs| ==> Lengths(xs)[i] == |xs[i]|
  {
    if xs != [] {
      LengthsMeaning(xs[1..]);
    }
  }

  lemma ShapeIsLengths(xs: seq<string>, ys: seq<string>)
    ensures SameShape(xs, ys) <==> Lengths(xs) == Lengths(ys)
  {
    LengthsMeaning(xs);
    LengthsMeaning(ys);
  }

  lemma LengthsCons(x: string, xs: seq<string>)
    ensures Lengths([x] + xs) == [|x|] + Lengths(xs)
  {
    assert ([x] + xs)[1..] == xs;
  }

  lemma ConsEqual(x: nat, xs: seq<nat>, y: nat, ys: seq<nat>)
    ensures [x] + xs == [y] + ys <==> x == y && xs == ys
  {
    assert ([x] + xs)[1..] == xs && ([y] + ys)[1..] == ys;
    assert ([x] + xs)[0] == x && ([y] + ys)[0] == y;
  }

  /** Two texts of one length agree on their breaks from `i` on when they agree
      on the next one and on those after it. */
  lemma BreaksFromNext(a: string, b: string, i: nat)
    requires |a| == |b| && i < |a|
    ensures SameBreaks(a, b, i) <==> NextBreak(a, i) == NextBreak(b, i) && SameBreaks(a, b, NextLine(a, i))
  {
    FirstMeaning(a, IsBreak, i);
    FirstMeaning(b, IsBreak, i);
    var n, m := NextBreak(a, i), NextBreak(b, i);
    assert n < |a| ==> IsBreak(a[n]);
    assert m < |b| ==> IsBreak(b[m]);
  }

  lemma {:induction false} ShapeIsBreaks(a: string, b: string, i: nat)
    requires |a| == |b| && i <= |a|
    ensures Lengths(LinesFrom(a, i)) == Lengths(LinesFrom(b, i)) <==> SameBreaks(a, b, i)
    decreases |a| - i
  {
    if i < |a| {
      var n, m := NextBreak(a, i), NextBreak(b, i);
      var xs, ys := LinesFrom(a, NextLine(a, i)), LinesFrom(b, NextLine(b, i));
      LengthsCons(a[i..n], xs);
      LengthsCons(b[i..m], ys);
      ConsEqual(n - i, Lengths(xs), m - i, Lengths(ys));
      BreaksFromNext(a, b, i);
      if n == m {
        ShapeIsBreaks(a, b, NextLine(a, i));
      }
    }
  }

  /** A break stays a break unless it is a newline that a string escapes, or
      another break character outside plain code. */
  lemma BreakStays(src: string, k: nat, alnum: char -> bool)
    requires k < |src|
    ensures IsBreak(Blank(src, alnum)[k]) <==>
            IsBreak(src[k]) &&
            if src[k] == '\n' then !Escaped(src, Code, k, alnum) else ModeAt(src, Code, k, alnum) == Some(Code)
  {
    NewlinesSurvive(src, Code, k, alnum);
  }

  /** The script pairs the i-th blanked line with the i-th source line.  The two
      have the same extent throughout exactly when no string escapes a newline
      and every other break character stands in code. */
  lemma LinesArePaired(src: string, alnum: char -> bool)
    ensures SameShape(SplitLines(Blank(src, alnum)), SplitLines(src)) <==>
            (forall k :: 0 <= k < |src| && src[k] == '\n' ==> !Escaped(src, Code, k, alnum)) &&
            (forall k :: 0 <= k < |src| && src[k] != '\n' && IsBreak(src[k]) ==> ModeAt(src, Code, k, alnum) == Some(Code))
  {
    ShapeIsLengths(SplitLines(Blank(src, alnum)), SplitLines(src));
    ShapeIsBreaks(Blank(src, alnum), src, 0);
    forall k | 0 <= k < |src|
      ensures IsBreak(Blank(src, alnum)[k]) <==>
              IsBreak(src[k]) &&
              if src[k] == '\n' then !Escaped(src, Code, k, alnum) else ModeAt(src, Code, k, alnum) == Some(Code)
    {
      BreakStays(src, k, alnum);
    }
  }

  // ---------- Reading one line ----------

  datatype Patterns = Patterns(
    cfgTest: string -> bool,
    testAttribute: string -> bool,
    testsModule: string -> bool,
    anyModule: string -> bool,
    anyFunction: string -> bool,
    prints: string -> bool)

  /** Attributes seen that may announce a test module or function. */
  datatype Pending = Pending(cfg: bool, testFn: bool)

  const NOTHING := Pending(false, false)

  /** Trimming, given what counts as white space. */
  function Strip(s: string, space: char -> bool): string {
    if s == "" then ""
    else if space(s[0]) then Strip(s[1..], space)
    else if space(s[|s| - 1]) then Strip(s[..|s| - 1], space)
    else s
  }

  /** The line holds code other than an attribute. */
  predicate BeyondAttributes(line: string, space: char -> bool) {
    var code := Strip(line, space);
    code != "" && !("#[" <= code)
  }

  predicate IsOpen(c: char) { c == '{' }

  predicate IsClose(c: char) { c == '}' }

  /** Braces opened minus braces closed. */
  function Delta(line: string): int {
    Count(line, |line|, IsOpen) - Count(line, |line|, IsClose)
  }

  predicate OpensTestModule(p: Pending, line: string, re: Patterns) {
    re.testsModule(line) || ((p.cfg || re.cfgTest(line)) && re.anyModule(line))
  }

  predicate OpensTestFn(p: Pending, line: string, re: Patterns) {
    !OpensTestModule(p, line, re) && re.anyFunction(line) &&
    (p.cfg || re.cfgTest(line) || p.testFn || re.testAttribute(line))
  }

  /** The line heads a region to skip. */
  predicate Heads(p: Pending, line: string, re: Patterns) {
    OpensTestModule(p, line, re) || OpensTestFn(p, line, re)
  }

  function PendingAfter(p: Pending, line: string, re: Patterns, space: char -> bool): Pending {
    if OpensTestModule(p, line, re) then Pending(false, p.testFn)
    else if OpensTestFn(p, line, re) then NOTHING
    else Pending((p.cfg || re.cfgTest(line)) && !BeyondAttributes(line, space), p.testFn || re.testAttribute(line))
  }

  datatype Kind = TestModule | TestFn | Plain

  /** The flag updates and tests of one line outside every region, in the
      script's order. */
  method ReadLine(cfg: bool, testFn: bool, line: string, re: Patterns, space: char -> bool)
    returns (kind: Kind, pendingCfg: bool, pendingTestFn: bool)
    ensures kind.TestModule? <==> OpensTestModule(Pending(cfg, testFn), line, re)
    ensures kind.TestFn? <==> OpensTestFn(Pending(cfg, testFn), line, re)
    ensures Pending(pendingCfg, pendingTestFn) == PendingAfter(Pending(cfg, testFn), line, re, space)
  {
    kind, pendingCfg, pendingTestFn := Plain, cfg, testFn;
    if re.cfgTest(line) {
      pendingCfg := true;
    }
    if re.testsModule(line) {
      return TestModule, false, pendingTestFn;
    }
    if pendingCfg && re.anyModule(line) {
      return TestModule, false, pendingTestFn;
    }
    if re.testAttribute(line) {
      pendingTestFn := true;
    }
    if pendingTestFn && re.anyFunction(line) {
      return TestFn, false, false;
    }
    if pendingCfg && re.anyFunction(line) {
      return TestFn, false, pendingTestFn;
    }
    if pendingCfg && BeyondAttributes(line, space) {
      pendingCfg := false;
    }
  }

  // ---------- Regions ----------

  /** Braces opened minus braces closed, line by line. */
  function Deltas(code: seq<string>): (deltas: seq<int>)
    ensures |deltas| == |code|
  {
    seq(|code|, i requires 0 <= i < |code| => Delta(code[i]))
  }

  /** The net number of braces opened on the lines from `i` up to `j`. */
  function Depth(deltas: seq<int>, i: nat, j: nat): int
    requires i <= j <= |deltas|
  {
    if i == j then 0 else Depth(deltas, i, j - 1) + deltas[j - 1]
  }

  /** The first line after a region that stands at `depth` when line `i` is reached. */
  function RegionEnd(deltas: seq<int>, i: nat, depth: int): (e: nat)
    requires i <= |deltas|
    ensures i <= e <= |deltas| && (i < |deltas| ==> i < e)
    decreases |deltas| - i
  {
    if i == |deltas| then i
    else if depth + deltas[i] <= 0 then i + 1
    else RegionEnd(deltas, i + 1, depth + deltas[i])
  }

  lemma {:induction false} DepthSplit(deltas: seq<int>, i: nat, j: nat)
    requires i < j <= |deltas|
    ensures Depth(deltas, i, j) == deltas[i] + Depth(deltas, i + 1, j)
  {
    if i + 1 < j {
      DepthSplit(deltas, i, j - 1);
    }
  }

  /** A region is the shortest nonempty run of lines that brings the depth down
      to zero or less, or all the rest if none does. */
  lemma {:induction false} RegionIsShortest(deltas: seq<int>, i: nat, depth: int)
    requires i < |deltas|
    ensures var e := RegionEnd(deltas, i, depth);
            && (forall j :: i < j < e ==> depth + Depth(deltas, i, j) > 0)
            && (depth + Depth(deltas, i, e) <= 0 || e == |deltas|)
    decreases |deltas| - i
  {
    var e := RegionEnd(deltas, i, depth);
    var next := depth + deltas[i];
    DepthSplit(deltas, i, i + 1);
    if next > 0 && i + 1 < |deltas| {
      RegionIsShortest(deltas, i + 1, next);
      forall j | i < j <= e ensures Depth(deltas, i, j) == deltas[i] + Depth(deltas, i + 1, j) {
        DepthSplit(deltas, i, j);
      }
    }
  }

  /** The end of the shortest nonempty run from the header line `i` on, itself
      included, whose braces balance. */
  predicate BalancesAt(deltas: seq<int>, i: nat, e: nat)
    requires i < |deltas|
  {
    && i < e <= |deltas|
    && (forall j :: i < j < e ==> Depth(deltas, i, j) > 0)
    && (Depth(deltas, i, e) <= 0 || e == |deltas|)
  }

  /** The region skipped after the header line `i` ends where the header's
      braces balance, exactly when the header line leaves a brace open (or is
      the last line): a test module closed on its own line takes the following
      line with it. */
  lemma SkipsExactlyTheBraces(deltas: seq<int>, i: nat)
    requires i < |deltas|
    ensures BalancesAt(deltas, i, RegionEnd(deltas, i + 1, deltas[i])) <==>
            deltas[i] > 0 || i + 1 == |deltas|
  {
    var e := RegionEnd(deltas, i + 1, deltas[i]);
    forall j | i < j <= e ensures Depth(deltas, i, j) == deltas[i] + Depth(deltas, i + 1, j) {
      DepthSplit(deltas, i, j);
    }
    if i + 1 < |deltas| {
      RegionIsShortest(deltas, i + 1, deltas[i]);
      assert Depth(deltas, i, i + 1) == deltas[i] + Depth(deltas, i + 1, i + 1);
    }
  }

  // ---------- The findings ----------

  datatype Finding = Finding(line: nat, text: string)

  function CodeLine(code: seq<string>, i: nat): string {
    if i < |code| then code[i] else ""
  }

  /** One blanked line per source line, empty where the blanking has fewer. */
  function Padded(code: seq<string>, n: nat): (lines: seq<string>)
    ensures |lines| == n
  {
    seq(n, i requires 0 <= i < n => CodeLine(code, i))
  }

  /** What line `i` contributes outside every region. */
  function Reported(raw: seq<string>, code: seq<string>, i: nat, re: Patterns,
                    allowed: nat -> bool, space: char -> bool): seq<Finding>
    requires |code| == |raw| && i < |raw|
  {
    if re.prints(code[i]) && !allowed(i + 1) then [Finding(i + 1, Strip(raw[i], space))] else []
  }

  /** The findings from line `i` on, outside every region, with `p` pending. */
  function Findings(raw: seq<string>, code: seq<string>, i: nat, p: Pending, re: Patterns,
                    allowed: nat -> bool, space: char -> bool): seq<Finding>
    requires |code| == |raw| && i <= |raw|
    decreases |raw| - i
  {
    if i == |raw| then []
    else
      var after := PendingAfter(p, code[i], re, space);
      if Heads(p, code[i], re) then
        Findings(raw, code, RegionEnd(Deltas(code), i + 1, Delta(code[i])), after, re, allowed, space)
      else
        Reported(raw, code, i, re, allowed, space) + Findings(raw, code, i + 1, after, re, allowed, space)
  }

  /** The findings lie on lines `from + 1` to `to`, in strictly increasing order. */
  ghost predicate Increasing(found: seq<Finding>, from: nat, to: nat) {
    && (forall k :: 0 <= k < |found| ==> from < found[k].line <= to)
    && (forall k, l :: 0 <= k < l < |found| ==> found[k].line < found[l].line)
  }

  lemma {:induction false} FindingsIncrease(raw: seq<string>, code: seq<string>, i: nat, p: Pending, re: Patterns,
                                            allowed: nat -> bool, space: char -> bool)
    requires |code| == |raw| && i <= |raw|
    ensures Increasing(Findings(raw, code, i, p, re, allowed, space), i, |raw|)
    decreases |raw| - i
  {
    if i < |raw| {
      var after := PendingAfter(p, code[i], re, space);
      var next := if Heads(p, code[i], re) then RegionEnd(Deltas(code), i + 1, Delta(code[i])) else i + 1;
      FindingsIncrease(raw, code, next, after, re, allowed, space);
    }
  }

  /** The scanner's variables: flags pending, and a depth for each kind of region. */
  datatype State = State(pending: Pending, inTestModule: bool, testModuleDepth: int, inTestFn: bool, testFnDepth: int)

  /** The first line from `i` on that the scanner reads outside every region. */
  function Resume(deltas: seq<int>, i: nat, st: State): (r: nat)
    requires i <= |deltas|
    ensures i <= r <= |deltas|
  {
    if st.inTestModule then RegionEnd(deltas, i, st.testModuleDepth)
    else if st.inTestFn then RegionEnd(deltas, i, st.testFnDepth)
    else i
  }

  function Remaining(raw: seq<string>, code: seq<string>, i: nat, st: State, re: Patterns,
                     allowed: nat -> bool, space: char -> bool): seq<Finding>
    requires |code| == |raw| && i <= |raw|
  {
    Findings(raw, code, Resume(Deltas(code), i, st), st.pending, re, allowed, space)
  }

  /** Outside every region, what remains from a line on is the line's own finding
      and what remains behind it, or behind the region it heads. */
  lemma OutsideStep(raw: seq<string>, code: seq<string>, i: nat, st: State, re: Patterns,
                    allowed: nat -> bool, space: char -> bool)
    requires |code| == |raw| && i < |raw| && !st.inTestModule && !st.inTestFn
    ensures var after := PendingAfter(st.pending, code[i], re, space);
            Remaining(raw, code, i, st, re, allowed, space) ==
            if Heads(st.pending, code[i], re)
            then Findings(raw, code, RegionEnd(Deltas(code), i + 1, Delta(code[i])), after, re, allowed, space)
            else Reported(raw, code, i, re, allowed, space) + Findings(raw, code, i + 1, after, re, allowed, space)
  {
  }

  /** Inside a region nothing is found, and the region ends where its depth does. */
  lemma InsideStep(deltas: seq<int>, i: nat, st: State, after: State)
    requires i < |deltas| && (st.inTestModule || st.inTestFn) && !(st.inTestModule && st.inTestFn)
    requires if st.inTestModule
             then after == st.(testModuleDepth := st.testModuleDepth + deltas[i],
                               inTestModule := st.testModuleDepth + deltas[i] > 0)
             else after == st.(testFnDepth := st.testFnDepth + deltas[i], inTestFn := st.testFnDepth + deltas[i] > 0)
    ensures Resume(deltas, i, st) == Resume(deltas, i + 1, after)
  {
  }

  /** One pass of the scanner's loop, at line `i`. */
  method ScanLine(ghost raw: seq<string>, ghost code: seq<string>, rawLine: string, codeLine: string, i: nat, st: State,
                  re: Patterns, allowed: nat -> bool, space: char -> bool)
    returns (after: State, found: seq<Finding>)
    requires |code| == |raw| && i < |raw| && rawLine == raw[i] && codeLine == code[i]
    requires !(st.inTestModule && st.inTestFn)
    ensures !(after.inTestModule && after.inTestFn)
    ensures Remaining(raw, code, i, st, re, allowed, space) ==
            found + Remaining(raw, code, i + 1, after, re, allowed, space)
  {
    var braceDelta := Delta(codeLine);
    assert Deltas(code)[i] == braceDelta;
    found := [];
    if st.inTestModule {
      var depth := st.testModuleDepth + braceDelta;
      after := st.(testModuleDepth := depth, inTestModule := depth > 0);
      InsideStep(Deltas(code), i, st, after);
    } else if st.inTestFn {
      var depth := st.testFnDepth + braceDelta;
      after := st.(testFnDepth := depth, inTestFn := depth > 0);
      InsideStep(Deltas(code), i, st, after);
    } else {
      after, found := ScanOutside(raw, code, rawLine, codeLine, i, st, re, allowed, space);
    }
  }

  /** Reading a header enters its region. */
  lemma EntersRegion(raw: seq<string>, code: seq<string>, i: nat, st: State, after: State, re: Patterns,
                     allowed: nat -> bool, space: char -> bool)
    requires |code| == |raw| && i < |raw| && !st.inTestModule && !st.inTestFn
    requires Heads(st.pending, code[i], re) && after.pending == PendingAfter(st.pending, code[i], re, space)
    requires Resume(Deltas(code), i + 1, after) == RegionEnd(Deltas(code), i + 1, Delta(code[i]))
    ensures Remaining(raw, code, i, st, re, allowed, space) ==
            [] + Remaining(raw, code, i + 1, after, re, allowed, space)
  {
    OutsideStep(raw, code, i, st, re, allowed, space);
  }

  /** Reading any other line reports it or not, and stays outside. */
  lemma StaysOutside(raw: seq<string>, code: seq<string>, i: nat, st: State, after: State, re: Patterns,
                     allowed: nat -> bool, space: char -> bool)
    requires |code| == |raw| && i < |raw| && !st.inTestModule && !st.inTestFn
    requires !Heads(st.pending, code[i], re) && after == st.(pending := PendingAfter(st.pending, code[i], re, space))
    ensures Remaining(raw, code, i, st, re, allowed, space) ==
            Reported(raw, code, i, re, allowed, space) + Remaining(raw, code, i + 1, after, re, allowed, space)
  {
    OutsideStep(raw, code, i, st, re, allowed, space);
  }

  /** The part of the pass that is reached outside every region. */
  method ScanOutside(ghost raw: seq<string>, ghost code: seq<string>, rawLine: string, codeLine: string, i: nat, st: State,
                     re: Patterns, allowed: nat -> bool, space: char -> bool)
    returns (after: State, found: seq<Finding>)
    requires |code| == |raw| && i < |raw| && rawLine == raw[i] && codeLine == code[i]
    requires !st.inTestModule && !st.inTestFn
    ensures !(after.inTestModule && after.inTestFn)
    ensures Remaining(raw, code, i, st, re, allowed, space) ==
            found + Remaining(raw, code, i + 1, after, re, allowed, space)
  {
    found := [];
    var kind, cfg, testFn := ReadLine(st.pending.cfg, st.pending.testFn, codeLine, re, space);
    after := st.(pending := Pending(cfg, testFn));
    match kind {
      case TestModule =>
        after := after.(inTestModule := true, testModuleDepth := Delta(codeLine));
        EntersRegion(raw, code, i, st, after, re, allowed, space);
      case TestFn =>
        after := after.(inTestFn := true, testFnDepth := Delta(codeLine));
        EntersRegion(raw, code, i, st, after, re, allowed, space);
      case Plain =>
        StaysOutside(raw, code, i, st, after, re, allowed, space);
        if re.prints(codeLine) && !allowed(i + 1) {
          found := [Finding(i + 1, Strip(rawLine, space))];
        }
    }
  }

  lemma Assoc(a: seq<Finding>, b: seq<Finding>, c: seq<Finding>)
    ensures a + (b + c) == (a + b) + c
  {
  }

  /** What is found in a file: its lines scanned beside its blanked lines. */
  function FileFindings(source: string, re: Patterns, allowed: nat -> bool, alnum: char -> bool, space: char -> bool):
    seq<Finding>
  {
    var raw := SplitLines(source);
    Findings(raw, Padded(SplitLines(Blank(source, alnum)), |raw|), 0, NOTHING, re, allowed, space)
  }

  method ScanFile(source: string, re: Patterns, allowed: nat -> bool, alnum: char -> bool, space: char -> bool)
    returns (findings: seq<Finding>)
    ensures findings == FileFindings(source, re, allowed, alnum, space)
  {
    var stripped := StripNonCode(source, alnum);
    findings := ScanLines(SplitLines(source), SplitLines(stripped), re, allowed, space);
  }

  /** The scanner's loop over the source lines and their blanked counterparts. */
  method ScanLines(raw: seq<string>, code: seq<string>, re: Patterns, allowed: nat -> bool, space: char -> bool)
    returns (findings: seq<Finding>)
    ensures findings == Findings(raw, Padded(code, |raw|), 0, NOTHING, re, allowed, space)
  {
    ghost var lines := Padded(code, |raw|);
    ghost var goal := Findings(raw, lines, 0, NOTHING, re, allowed, space);
    var st := State(NOTHING, false, 0, false, 0);
    findings := [];
    for i := 0 to |raw|
      invariant !(st.inTestModule && st.inTestFn)
      invariant goal == findings + Remaining(raw, lines, i, st, re, allowed, space)
    {
      var codeLine := if i < |code| then code[i] else "";
      var found;
      st, found := ScanLine(raw, lines, raw[i], codeLine, i, st, re, allowed, space);
      Assoc(findings, found, Remaining(raw, lines, i + 1, st, re, allowed, space));
      findings := findings + found;
    }
  }

  /** From a header on nothing is reported up to its region's end.  There
      scanning goes on with the flags from before the header, except that no cfg
      attribute is pending, and behind a test function no test attribute either. */
  lemma RegionReportsNothing(raw: seq<string>, code: seq<string>, i: nat, p: Pending, re: Patterns,
                             allowed: nat -> bool, space: char -> bool)
    requires |code| == |raw| && i < |raw| && Heads(p, code[i], re)
    ensures var e := RegionEnd(Deltas(code), i + 1, Delta(code[i]));
            var found := Findings(raw, code, i, p, re, allowed, space);
            && Increasing(found, e, |raw|)
            && found == Findings(raw, code, e, if OpensTestModule(p, code[i], re) then Pending(false, p.testFn) else NOTHING,
                                 re, allowed, space)
  {
    var e := RegionEnd(Deltas(code), i + 1, Delta(code[i]));
    FindingsIncrease(raw, code, e, PendingAfter(p, code[i], re, space), re, allowed, space);
  }

  // ---------- Line by line ----------

  /** With what pending the scanner, outside every region at line `j` with `p`
      pending, reads line `i` outside every region; None if it does not. */
  function Outside(code: seq<string>, j: nat, p: Pending, i: nat, re: Patterns, space: char -> bool): Option<Pending>
    requires j <= |code| && i < |code|
    decreases |code| - j
  {
    if j == i then Some(p)
    else if j > i then None
    else Outside(code, if Heads(p, code[j], re) then RegionEnd(Deltas(code), j + 1, Delta(code[j])) else j + 1,
                 PendingAfter(p, code[j], re, space), i, re, space)
  }

  /** Line `h` heads a region that includes line `i`. */
  predicate Covers(code: seq<string>, j: nat, p: Pending, h: nat, i: nat, re: Patterns, space: char -> bool)
    requires j <= |code| && h < |code|
  {
    var q := Outside(code, j, p, h, re, space);
    q.Some? && Heads(q.value, code[h], re) && h <= i < RegionEnd(Deltas(code), h + 1, Delta(code[h]))
  }

  predicate Covered(code: seq<string>, j: nat, p: Pending, i: nat, re: Patterns, space: char -> bool)
    requires j <= |code| && i < |code|
  {
    exists h :: j <= h <= i && Covers(code, j, p, h, i, re, space)
  }

  lemma OutsideOn(code: seq<string>, j: nat, p: Pending, h: nat, re: Patterns, space: char -> bool)
    requires j <= h < |code|
    ensures var next := if Heads(p, code[j], re) then RegionEnd(Deltas(code), j + 1, Delta(code[j])) else j + 1;
            Outside(code, j, p, h, re, space) ==
            if h == j then Some(p) else if h < next then None
            else Outside(code, next, PendingAfter(p, code[j], re, space), h, re, space)
  {
  }

  /** A line is covered exactly if it is not read outside every region, or heads one itself. */
  lemma {:induction false} CoveredIff(code: seq<string>, j: nat, p: Pending, i: nat, re: Patterns, space: char -> bool)
    requires j <= i < |code|
    ensures var q := Outside(code, j, p, i, re, space);
            Covered(code, j, p, i, re, space) <==> q.None? || Heads(q.value, code[i], re)
    decreases |code| - j
  {
    if j == i {
      assert Covers(code, j, p, j, i, re, space) <==> Heads(p, code[i], re);
    } else {
      var after := PendingAfter(p, code[j], re, space);
      var next := if Heads(p, code[j], re) then RegionEnd(Deltas(code), j + 1, Delta(code[j])) else j + 1;
      if i < next {
        assert Covers(code, j, p, j, i, re, space);
      } else {
        CoveredIff(code, next, after, i, re, space);
        forall h | j <= h <= i
          ensures Covers(code, j, p, h, i, re, space) <==> next <= h && Covers(code, next, after, h, i, re, space)
        {
          OutsideOn(code, j, p, h, re, space);
        }
      }
    }
  }

  ghost predicate FoundAt(found: seq<Finding>, line: nat) {
    exists k :: 0 <= k < |found| && found[k].line == line
  }

  lemma FoundAtConcat(a: seq<Finding>, b: seq<Finding>, line: nat)
    ensures FoundAt(a + b, line) <==> FoundAt(a, line) || FoundAt(b, line)
  {
    if FoundAt(a, line) {
      var k :| 0 <= k < |a| && a[k].line == line;
      assert (a + b)[k].line == line;
    }
    if FoundAt(b, line) {
      var k :| 0 <= k < |b| && b[k].line == line;
      assert (a + b)[|a| + k].line == line;
    }
  }

  lemma {:induction false} FoundIfOutside(raw: seq<string>, code: seq<string>, j: nat, p: Pending, i: nat, re: Patterns,
                                          allowed: nat -> bool, space: char -> bool)
    requires |code| == |raw| && j <= i < |raw|
    ensures var q := Outside(code, j, p, i, re, space);
            FoundAt(Findings(raw, code, j, p, re, allowed, space), i + 1) <==>
            q.Some? && !Heads(q.value, code[i], re) && re.prints(code[i]) && !allowed(i + 1)
    decreases |raw| - j
  {
    var after := PendingAfter(p, code[j], re, space);
    var next := if Heads(p, code[j], re) then RegionEnd(Deltas(code), j + 1, Delta(code[j])) else j + 1;
    var rest := Findings(raw, code, next, after, re, allowed, space);
    FindingsIncrease(raw, code, next, after, re, allowed, space);
    if !Heads(p, code[j], re) {
      var own := Reported(raw, code, j, re, allowed, space);
      FoundAtConcat(own, rest, i + 1);
      assert FoundAt(own, i + 1) <==> i == j && re.prints(code[j]) && !allowed(j + 1) by {
        if own != [] {
          assert own[0].line == j + 1;
        }
      }
    }
    if next <= i {
      FoundIfOutside(raw, code, next, after, i, re, allowed, space);
    }
  }

  /** A line is reported exactly if no region covers it, it holds a print, and it
      is not allowed to. */
  lemma FoundIff(raw: seq<string>, code: seq<string>, i: nat, re: Patterns, allowed: nat -> bool, space: char -> bool)
    requires |code| == |raw| && i < |raw|
    ensures FoundAt(Findings(raw, code, 0, NOTHING, re, allowed, space), i + 1) <==>
            !Covered(code, 0, NOTHING, i, re, space) && re.prints(code[i]) && !allowed(i + 1)
  {
    FoundIfOutside(raw, code, 0, NOTHING, i, re, allowed, space);
    CoveredIff(code, 0, NOTHING, i, re, space);
  }

  // ---------- What the parts of a line mean ----------

  /** Braces are counted with their sign, over any concatenation. */
  lemma DeltaMeaning(a: string, b: string, c: char)
    ensures Delta(a + b) == Delta(a) + Delta(b)
    ensures Delta([c]) == if c == '{' then 1 else if c == '}' then -1 else 0
  {
    CountConcat(a, b, |b|, IsOpen);
    CountConcat(a, b, |b|, IsClose);
    assert Count([c], 0, IsOpen) == 0 && Count([c], 0, IsClose) == 0;
  }

  /** Stripping takes white space off both ends and nothing else. */
  lemma {:induction false} StripMeaning(s: string, space: char -> bool) returns (before: string, after: string)
    ensures s == before + Strip(s, space) + after
    ensures forall k :: 0 <= k < |before| ==> space(before[k])
    ensures forall k :: 0 <= k < |after| ==> space(after[k])
    decreases |s|
  {
    if s == "" {
      before, after := "", "";
    } else if space(s[0]) {
      before, after := StripMeaning(s[1..], space);
      before := [s[0]] + before;
      assert s == [s[0]] + s[1..];
    } else if space(s[|s| - 1]) {
      before, after := StripMeaning(s[..|s| - 1], space);
      after := after + [s[|s| - 1]];
      assert s == s[..|s| - 1] + [s[|s| - 1]];
    } else {
      before, after := "", "";
    }
  }

  lemma {:induction false} StripEnds(s: string, space: char -> bool)
    ensures var t := Strip(s, space); t != "" ==> !space(t[0]) && !space(t[|t| - 1])
    decreases |s|
  {
    if s != "" && space(s[0]) {
      StripEnds(s[1..], space);
    } else if s != "" && space(s[|s| - 1]) {
      StripEnds(s[..|s| - 1], space);
    }
  }

  /** Every finding quotes its source line, stripped. */
  lemma {:induction false} FindingsQuote(raw: seq<string>, code: seq<string>, i: nat, p: Pending, re: Patterns,
                                         allowed: nat -> bool, space: char -> bool)
    requires |code| == |raw| && i <= |raw|
    ensures forall f :: f in Findings(raw, code, i, p, re, allowed, space) ==>
              1 <= f.line <= |raw| && f.text == Strip(raw[f.line - 1], space)
    decreases |raw| - i
  {
    if i < |raw| {
      var after := PendingAfter(p, code[i], re, space);
      var next := if Heads(p, code[i], re) then RegionEnd(Deltas(code), i + 1, Delta(code[i])) else i + 1;
      FindingsQuote(raw, code, next, after, re, allowed, space);
    }
  }

  // ---------- Which lines are headers ----------

  /** The flags at line `h`, read on from line `j` with none, while no header is met. */
  function PendingAt(code: seq<string>, j: nat, h: nat, re: Patterns, space: char -> bool): Pending
    requires j <= h <= |code|
  {
    if j == h then NOTHING else PendingAfter(PendingAt(code, j, h - 1, re, space), code[h - 1], re, space)
  }

  predicate NoHeader(code: seq<string>, j: nat, h: nat, re: Patterns, space: char -> bool)
    requires j <= h <= |code|
  {
    forall l :: j <= l < h ==> !Heads(PendingAt(code, j, l, re, space), code[l], re)
  }

  /** A cfg attribute on one of the lines from `j` up to `h`, with no code but
      attributes on it and on the lines after it before `h`. */
  predicate CfgSince(code: seq<string>, j: nat, h: nat, re: Patterns, space: char -> bool)
    requires h <= |code|
  {
    exists k :: j <= k < h && re.cfgTest(code[k]) && AttributesOnly(code, k, h, space)
  }

  predicate AttributesOnly(code: seq<string>, k: nat, h: nat, space: char -> bool)
    requires h <= |code|
  {
    forall l :: k <= l < h ==> Strip(code[l], space) == "" || "#[" <= Strip(code[l], space)
  }

  predicate TestSince(code: seq<string>, j: nat, h: nat, re: Patterns)
    requires h <= |code|
  {
    exists k :: j <= k < h && re.testAttribute(code[k])
  }

  /** A cfg attribute is pending as long as only attributes and blank lines follow
      it, a test attribute until the next header. */
  lemma {:induction false} PendingMeaning(code: seq<string>, j: nat, h: nat, re: Patterns, space: char -> bool)
    requires j <= h <= |code| && NoHeader(code, j, h, re, space)
    ensures PendingAt(code, j, h, re, space).cfg <==> CfgSince(code, j, h, re, space)
    ensures PendingAt(code, j, h, re, space).testFn <==> TestSince(code, j, h, re)
  {
    if j < h {
      PendingMeaning(code, j, h - 1, re, space);
      var line := code[h - 1];
      assert !Heads(PendingAt(code, j, h - 1, re, space), line, re);
      CfgStep(code, j, h - 1, re, space);
    }
  }

  lemma CfgStep(code: seq<string>, j: nat, h: nat, re: Patterns, space: char -> bool)
    requires j <= h < |code|
    ensures CfgSince(code, j, h + 1, re, space) <==>
            (CfgSince(code, j, h, re, space) || re.cfgTest(code[h])) && AttributesOnly(code, h, h + 1, space)
  {
    forall k | j <= k <= h
      ensures AttributesOnly(code, k, h + 1, space) <==>
              AttributesOnly(code, k, h, space) && AttributesOnly(code, h, h + 1, space)
    {
    }
  }

  /** A line heads a skipped region exactly if it opens a tests module, or any
      module under a pending cfg attribute, or any function under a pending cfg or
      test attribute, on the line itself or before it; and it is read outside. */
  lemma HeaderIff(code: seq<string>, j: nat, h: nat, re: Patterns, space: char -> bool)
    requires j <= h < |code| && NoHeader(code, j, h, re, space)
    ensures var cfg := CfgSince(code, j, h, re, space) || re.cfgTest(code[h]);
            var test := TestSince(code, j, h, re) || re.testAttribute(code[h]);
            Heads(PendingAt(code, j, h, re, space), code[h], re) <==>
            re.testsModule(code[h]) || (re.anyModule(code[h]) && cfg) || (re.anyFunction(code[h]) && (cfg || test))
    ensures Outside(code, j, NOTHING, h, re, space) == Some(PendingAt(code, j, h, re, space))
  {
    PendingMeaning(code, j, h, re, space);
    OutsideAlong(code, j, j, h, re, space);
  }

  lemma {:induction false} OutsideAlong(code: seq<string>, j: nat, l: nat, h: nat, re: Patterns, space: char -> bool)
    requires j <= l <= h < |code| && NoHeader(code, j, h, re, space)
    ensures Outside(code, l, PendingAt(code, j, l, re, space), h, re, space) == Some(PendingAt(code, j, h, re, space))
    decreases h - l
  {
    if l < h {
      OutsideAlong(code, j, l + 1, h, re, space);
    }
  }

  // ---------- How lines are split ----------

  lemma {:induction false} FirstBehind(prefix: string, s: string, i: nat)
    requires i <= |s|
    ensures NextBreak(prefix + s, |prefix| + i) == |prefix| + NextBreak(s, i)
    decreases |s| - i
  {
    if i < |s| && !IsBreak(s[i]) {
      FirstBehind(prefix, s, i + 1);
    }
  }

  lemma FirstLine(s: string, i: nat, b: nat)
    requires i < |s| && b == NextBreak(s, i)
    ensures LinesFrom(s, i) == [s[i..b]] + LinesFrom(s, if b < |s| then b + 1 else |s|)
  {
  }

  lemma {:induction false} LinesBehind(prefix: string, s: string, i: nat)
    requires i <= |s|
    ensures LinesFrom(prefix + s, |prefix| + i) == LinesFrom(s, i)
    decreases |s| - i
  {
    if i < |s| {
      var longer, b := prefix + s, NextBreak(s, i);
      FirstBehind(prefix, s, i);
      FirstLine(s, i, b);
      FirstLine(longer, |prefix| + i, |prefix| + b);
      LinesBehind(prefix, s, if b < |s| then b + 1 else |s|);
      assert longer[|prefix| + i..|prefix| + b] == s[i..b];
    }
  }

  /** A text is split at its first break; a text without one is its only line. */
  lemma LineThenRest(line: string, c: char, rest: string)
    requires IsBreak(c) && forall k :: 0 <= k < |line| ==> !IsBreak(line[k])
    ensures SplitLines(line + [c] + rest) == [line] + SplitLines(rest)
    ensures SplitLines(line) == if line == "" then [] else [line]
  {
    var s, prefix := line + [c] + rest, line + [c];
    FirstIs(s, IsBreak, 0, |line|);
    LinesBehind(prefix, rest, 0);
    assert s[0..|line|] == line;
    assert LinesFrom(s, 0) == [s[0..|line|]] + LinesFrom(s, |line| + 1);
    if line != "" {
      LastLine(line, 0);
      assert line[0..] == line;
    }
  }

  // ---------- A module on one line ----------

  /** A text without breaks is the last line from wherever it starts. */
  lemma LastLine(s: string, i: nat)
    requires i < |s| && forall k :: i <= k < |s| ==> !IsBreak(s[k])
    ensures LinesFrom(s, i) == [s[i..]]
  {
    FirstIs(s, IsBreak, i, |s|);
    assert LinesFrom(s, |s|) == [] && s[i..|s|] == s[i..];
  }

  lemma TwoLines(a: string, b: string)
    requires b != ""
    requires forall k :: 0 <= k < |a| ==> !IsBreak(a[k])
    requires forall k :: 0 <= k < |b| ==> !IsBreak(b[k])
    ensures SplitLines(a + "\n" + b) == [a, b]
  {
    LineThenRest(a, '\n', b);
    LineThenRest(b, '\n', "");
  }

  /** Wherever the scanner comes upon a test module closed on its own line, it
      reports neither that line nor the next, whatever the next is. */
  lemma OneLineModuleHidesTheNext(raw: seq<string>, code: seq<string>, i: nat, p: Pending, re: Patterns,
                                  allowed: nat -> bool, space: char -> bool)
    requires |code| == |raw| && i + 1 < |raw|
    requires OpensTestModule(p, code[i], re) && Delta(code[i]) <= 0
    ensures Increasing(Findings(raw, code, i, p, re, allowed, space), i + 2, |raw|)
  {
    RegionReportsNothing(raw, code, i, p, re, allowed, space);
  }

  /** A single line that is no header and holds a print is reported. */
  lemma PrintAlone(line: string, re: Patterns, allowed: nat -> bool, alnum: char -> bool, space: char -> bool)
    requires OpenerFree(line) && SplitLines(line) == [line]
    requires re.prints(line) && !allowed(1) && !Heads(NOTHING, line, re)
    ensures FileFindings(line, re, allowed, alnum, space) == [Finding(1, Strip(line, space))]
  {
    FixedExactlyWhenOpenerFree(line, alnum);
    var lines := [line];
    assert Padded(lines, 1) == lines;
    var after := PendingAfter(NOTHING, lines[0], re, space);
    assert Findings(lines, lines, 1, after, re, allowed, space) == [];
  }

  const MODULE := "mod tests {}"
  const PRINT := "println!();"

  /** Neither a quote, nor part of a comment's start, nor a break. */
  predicate Harmless(c: char) {
    c != '"' && c != '/' && !IsBreak(c)
  }

  lemma ModuleText()
    ensures forall k :: 0 <= k < |MODULE| ==> Harmless(MODULE[k])
  {
  }

  lemma ModuleIsClosed(line: string)
    requires |line| == 12 && line[10] == '{' && line[11] == '}'
    requires forall k :: 0 <= k < 10 ==> line[k] != '{' && line[k] != '}'
    ensures Delta(line) == 0
  {
    CountNone(line, 10, IsOpen);
    CountNone(line, 11, IsClose);
    assert Count(line, 11, IsOpen) == 1 && Count(line, 12, IsOpen) == 1;
  }

  lemma PrintText()
    ensures PRINT != "" && forall k :: 0 <= k < |PRINT| ==> Harmless(PRINT[k])
  {
  }

  /** `mod tests {}` on a line of its own swallows the print on the next line,
      which alone is found. */
  lemma SwallowedPrint(re: Patterns, allowed: nat -> bool, alnum: char -> bool, space: char -> bool)
    requires re.testsModule(MODULE) && re.prints(PRINT) && !Heads(NOTHING, PRINT, re) && !allowed(1) && !allowed(2)
    ensures FileFindings(MODULE + "\n" + PRINT, re, allowed, alnum, space) == []
    ensures FileFindings(PRINT, re, allowed, alnum, space) == [Finding(1, Strip(PRINT, space))]
  {
    ModuleText();
    ModuleIsClosed(MODULE);
    PrintText();
    Swallowed(MODULE, PRINT, re, allowed, alnum, space);
    Found(PRINT, re, allowed, alnum, space);
  }

  lemma HarmlessOpensNothing(s: string)
    requires forall k :: 0 <= k < |s| ==> s[k] != '"' && s[k] != '/'
    ensures OpenerFree(s)
  {
  }

  lemma {:induction false} FindingsFit(found: seq<Finding>, from: nat, to: nat)
    requires from <= to && Increasing(found, from, to)
    ensures |found| <= to - from
  {
    if found != [] {
      var n := |found| - 1;
      FindingsFit(found[..n], from, found[n].line - 1);
    }
  }

  lemma Swallowed(module_: string, print_: string, re: Patterns, allowed: nat -> bool, alnum: char -> bool, space: char -> bool)
    requires forall k :: 0 <= k < |module_| ==> Harmless(module_[k])
    requires print_ != "" && forall k :: 0 <= k < |print_| ==> Harmless(print_[k])
    requires re.testsModule(module_) && Delta(module_) == 0
    ensures FileFindings(module_ + "\n" + print_, re, allowed, alnum, space) == []
  {
    var source, lines := module_ + "\n" + print_, [module_, print_];
    TwoLines(module_, print_);
    assert OpenerFree(source) by {
      assert forall c :: c in source ==> c in module_ || c == '\n' || c in print_;
      HarmlessOpensNothing(source);
    }
    FixedExactlyWhenOpenerFree(source, alnum);
    assert Padded(lines, 2) == lines;
    OneLineModuleHidesTheNext(lines, lines, 0, NOTHING, re, allowed, space);
    FindingsFit(Findings(lines, lines, 0, NOTHING, re, allowed, space), 2, 2);
  }

  lemma Found(print_: string, re: Patterns, allowed: nat -> bool, alnum: char -> bool, space: char -> bool)
    requires print_ != "" && forall k :: 0 <= k < |print_| ==> Harmless(print_[k])
    requires re.prints(print_) && !Heads(NOTHING, print_, re) && !allowed(1)
    ensures FileFindings(print_, re, allowed, alnum, space) == [Finding(1, Strip(print_, space))]
  {
    LastLine(print_, 0);
    assert print_[0..] == print_;
    HarmlessOpensNothing(print_);
    PrintAlone(print_, re, allowed, alnum, space);
  }
}
