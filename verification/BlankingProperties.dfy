/** What blanking guarantees, for every source text. */
module BlankingProperties {
  import opened Names
  import opened BlankingLexer

  // ---------- Alignment ----------

  /** The newline at `k` is the second character of an escape in a string. */
  predicate Escaped(src: string, start: Mode, k: nat, alnum: char -> bool)
    requires k < |src| && Proper(start)
  {
    k > 0 && ModeAt(src, start, k - 1, alnum) == Some(InString) && src[k - 1] == '\\'
  }

  /** A position that is no token boundary lies inside the token before it. */
  lemma {:induction false} CoveringToken(src: string, i: nat, m: Mode, k: nat, alnum: char -> bool)
    returns (j: nat)
    requires i < k < |src| && Proper(m) && Lex(src, i, m, k, alnum).None?
    ensures i <= j < k && Lex(src, i, m, j, alnum).Some?
    ensures k < j + Step(src, j, Lex(src, i, m, j, alnum).value, alnum).len
    decreases |src| - i
  {
    var t := Step(src, i, m, alnum);
    if k < i + t.len {
      j := i;
    } else {
      j := CoveringToken(src, i + t.len, t.next, k, alnum);
    }
  }

  /** Past its first character, only an escape can hold an arbitrary one. */
  lemma TokenTail(src: string, i: nat, m: Mode, k: nat, alnum: char -> bool)
    requires i < k < |src| && Proper(m) && k < i + Step(src, i, m, alnum).len
    ensures (m.InString? && src[i] == '\\' && k == i + 1) || src[k] in {'r', 'b', '#', '"', '/', '*'}
  {
    HashRunIs(src, i + Stem(src, i));
    if m.Raw? {
      HashRunIs(src, if m.stray then i + 2 else i + 1);
    }
  }

  /** Every newline survives, unless it directly follows a backslash that
      escapes it inside a string; no other newline appears. */
  lemma NewlinesSurvive(src: string, start: Mode, k: nat, alnum: char -> bool)
    requires Proper(start) && k < |src|
    ensures BlankFrom(src, start, alnum)[k] == '\n' <==> src[k] == '\n' && !Escaped(src, start, k, alnum)
  {
    if src[k] == '\n' {
      if ModeAt(src, start, k, alnum).None? {
        var j := CoveringToken(src, 0, start, k, alnum);
        TokenTail(src, j, ModeAt(src, start, j, alnum).value, k, alnum);
      } else if Escaped(src, start, k, alnum) {
        TokenSpan(src, start, k - 1, k, alnum);
        assert false;
      }
    }
  }

  /** Line breaks stay where they are exactly when no string escapes one. */
  lemma LineBreaksAligned(src: string, alnum: char -> bool)
    ensures (forall k :: 0 <= k < |src| ==> (Blank(src, alnum)[k] == '\n' <==> src[k] == '\n')) <==>
            (forall k :: 0 <= k < |src| && src[k] == '\n' ==> !Escaped(src, Code, k, alnum))
  {
    forall k | 0 <= k < |src|
      ensures Blank(src, alnum)[k] == '\n' <==> src[k] == '\n' && !Escaped(src, Code, k, alnum)
    {
      NewlinesSurvive(src, Code, k, alnum);
    }
  }

  /** A string that holds a backslash and a newline loses its line break. */
  lemma EscapedBreakExample(alnum: char -> bool)
    ensures Blank("\"\\\n\"", alnum) == "    "
  {
    EscapedBreak("\"\\\n\"", alnum);
  }

  lemma EscapedBreak(src: string, alnum: char -> bool)
    requires |src| == 4 && src[0] == src[3] == '"' && src[1] == '\\' && src[2] == '\n'
    ensures forall k :: 0 <= k < 4 ==> Blank(src, alnum)[k] == ' '
  {
    assert Stem(src, 0) == 0;
    TokenSpan(src, Code, 0, 1, alnum);
    TokenSpan(src, Code, 1, 2, alnum);
    TokenSpan(src, Code, 1, 3, alnum);
  }

  // ---------- Nothing left to blank ----------

  predicate OpenerFree(s: string) {
    forall k :: 0 <= k < |s| ==> s[k] != '"' && !Pair(s, k, '/', '/') && !Pair(s, k, '/', '*')
  }

  lemma BlankedIsOpenerFree(src: string, start: Mode, alnum: char -> bool)
    requires Proper(start)
    ensures OpenerFree(BlankFrom(src, start, alnum))
  {
    var out := BlankFrom(src, start, alnum);
    forall k | 0 <= k < |out|
      ensures out[k] != '"' && !Pair(out, k, '/', '/') && !Pair(out, k, '/', '*')
    {
      assert out[k] == if Shown(src, start, k, alnum) then src[k] else ' ';
      if k + 1 < |out| {
        assert out[k + 1] == src[k + 1] || out[k + 1] == ' ';
      }
    }
  }

  lemma {:induction false} OpenerFreeStaysInCode(s: string, i: nat, k: nat, alnum: char -> bool)
    requires OpenerFree(s) && i <= k <= |s|
    ensures Lex(s, i, Code, k, alnum) == Some(Code)
    decreases k - i
  {
    if i < k {
      OpenerFreeStaysInCode(s, i + 1, k, alnum);
    }
  }

  /** Blanking changes nothing exactly on texts that open no comment and no string. */
  lemma FixedExactlyWhenOpenerFree(s: string, alnum: char -> bool)
    ensures Blank(s, alnum) == s <==> OpenerFree(s)
  {
    if OpenerFree(s) {
      forall k | 0 <= k < |s| ensures Blank(s, alnum)[k] == s[k] {
        OpenerFreeStaysInCode(s, 0, k, alnum);
      }
    }
    BlankedIsOpenerFree(s, Code, alnum);
  }

  lemma BlankingIsIdempotent(src: string, alnum: char -> bool)
    ensures |Blank(src, alnum)| == |src|
    ensures OpenerFree(Blank(src, alnum))
    ensures Blank(Blank(src, alnum), alnum) == Blank(src, alnum)
  {
    BlankedIsOpenerFree(src, Code, alnum);
    FixedExactlyWhenOpenerFree(Blank(src, alnum), alnum);
  }

  // ---------- Resumption at a line break ----------

  predicate EndsLine(p: string) {
    p == "" || p[|p| - 1] == '\n'
  }

  /** `src` continues `p` after a line break. */
  predicate Continues(src: string, p: string) {
    EndsLine(p) && p <= src
  }

  /** `s` is what follows the line break at `at` in `src`. */
  predicate Follows(src: string, at: nat, s: string) {
    at <= |src| && src[at..] == s && (at > 0 ==> src[at - 1] == '\n')
  }

  lemma {:induction false} HashRunBefore(src: string, p: string, j: nat)
    requires Continues(src, p) && j < |p|
    ensures HashRun(src, j) == HashRun(p, j)
    decreases |p| - j
  {
    if p[j] == '#' {
      HashRunBefore(src, p, j + 1);
    }
  }

  lemma {:induction false} HashRunAfter(src: string, at: nat, s: string, j: nat)
    requires Follows(src, at, s) && j <= |s|
    ensures HashRun(src, at + j) == HashRun(s, j)
    decreases |s| - j
  {
    if j < |s| && s[j] == '#' {
      HashRunAfter(src, at, s, j + 1);
    }
  }

  lemma RawPrefixBefore(src: string, p: string, i: nat, alnum: char -> bool)
    requires Continues(src, p) && i < |p|
    ensures RawPrefixLength(src, i, alnum) == RawPrefixLength(p, i, alnum)
    ensures RawPrefixLength(p, i, alnum) > 0 ==> Opened(src, i) == Opened(p, i)
  {
    assert Stem(src, i) == Stem(p, i);
    HashRunIs(p, i + Stem(p, i));
    if Stem(p, i) > 0 {
      HashRunBefore(src, p, i + Stem(p, i));
    }
  }

  lemma ClosesBefore(src: string, p: string, i: nat, stray: bool, hashes: nat)
    requires Continues(src, p) && i < |p|
    ensures Closes(src, i, stray, hashes) <==> Closes(p, i, stray, hashes)
  {
    if p[i] == '"' {
      HashRunBefore(src, p, i + 1);
      if p[i + 1] == 'b' {
        HashRunBefore(src, p, i + 2);
      }
    }
  }

  /** Before the break no lookahead crosses it. */
  lemma StepBefore(src: string, p: string, i: nat, m: Mode, alnum: char -> bool)
    requires Continues(src, p) && i < |p| && Proper(m)
    ensures Step(src, i, m, alnum) == Step(p, i, m, alnum)
  {
    RawPrefixBefore(src, p, i, alnum);
    if m.Raw? {
      ClosesBefore(src, p, i, m.stray, m.hashes);
    }
  }

  lemma StemAfter(src: string, at: nat, s: string, j: nat)
    requires Follows(src, at, s) && j < |s|
    ensures Stem(src, at + j) == Stem(s, j) && ReversedStem(src, at + j) == ReversedStem(s, j)
    ensures HashRun(src, at + j + Stem(s, j)) == HashRun(s, j + Stem(s, j))
  {
    assert src[at + j] == s[j];
    if j + 1 < |s| {
      assert src[at + j + 1] == s[j + 1];
    }
    HashRunAfter(src, at, s, j + Stem(s, j));
  }

  lemma RawPrefixAfter(src: string, at: nat, s: string, j: nat, alnum: char -> bool)
    requires Follows(src, at, s) && !alnum('\n') && j < |s|
    ensures RawPrefixLength(src, at + j, alnum) == RawPrefixLength(s, j, alnum)
  {
    StemAfter(src, at, s, j);
    if j > 0 {
      assert src[at + j - 1] == s[j - 1];
    }
    var quote := j + Stem(s, j) + HashRun(s, j + Stem(s, j));
    if quote < |s| {
      assert src[at + quote] == s[quote];
    }
  }

  lemma ClosesAfter(src: string, at: nat, s: string, j: nat, stray: bool, hashes: nat)
    requires Follows(src, at, s) && j < |s|
    ensures Closes(src, at + j, stray, hashes) <==> Closes(s, j, stray, hashes)
  {
    assert src[at + j] == s[j];
    HashRunAfter(src, at, s, j + 1);
    if j + 1 < |s| {
      assert src[at + (j + 1)] == s[j + 1];
      HashRunAfter(src, at, s, j + 2);
    }
  }

  /** After the break no lookback crosses it. */
  lemma StepAfter(src: string, at: nat, s: string, j: nat, m: Mode, alnum: char -> bool)
    requires Follows(src, at, s) && !alnum('\n') && j < |s| && Proper(m)
    ensures Step(src, at + j, m, alnum) == Step(s, j, m, alnum)
  {
    assert src[at + j] == s[j];
    if j + 1 < |s| {
      assert src[at + (j + 1)] == s[j + 1];
    }
    if m.Code? {
      RawPrefixAfter(src, at, s, j, alnum);
      StemAfter(src, at, s, j);
    } else if m.Raw? {
      ClosesAfter(src, at, s, j, m.stray, m.hashes);
    }
  }

  lemma {:induction false} LexBefore(src: string, p: string, i: nat, m: Mode, k: nat, alnum: char -> bool)
    requires Continues(src, p) && i <= |p| && k <= |p| && Proper(m)
    ensures Lex(src, i, m, k, alnum) == Lex(p, i, m, k, alnum)
    decreases |p| - i
  {
    if i < k {
      var t := Step(p, i, m, alnum);
      StepBefore(src, p, i, m, alnum);
      LexBefore(src, p, i + t.len, t.next, k, alnum);
    }
  }

  lemma {:induction false} LexAfter(src: string, at: nat, s: string, j: nat, m: Mode, k: nat, alnum: char -> bool)
    requires Follows(src, at, s) && !alnum('\n') && j <= |s| && k <= |s| && Proper(m)
    ensures Lex(src, at + j, m, at + k, alnum) == Lex(s, j, m, k, alnum)
    decreases |s| - j
  {
    if j < k {
      var t := Step(s, j, m, alnum);
      StepAfter(src, at, s, j, m, alnum);
      LexAfter(src, at, s, j + t.len, t.next, k, alnum);
    }
  }

  lemma ShownBefore(src: string, p: string, start: Mode, k: nat, alnum: char -> bool)
    requires Continues(src, p) && Proper(start) && k < |p|
    ensures Shown(src, start, k, alnum) == Shown(p, start, k, alnum)
  {
    LexBefore(src, p, 0, start, k, alnum);
    StepBefore(src, p, k, Code, alnum);
  }

  lemma ModeAfter(src: string, at: nat, s: string, start: Mode, mid: Mode, k: nat, alnum: char -> bool)
    requires Follows(src, at, s) && Proper(start) && Proper(mid) && k <= |s| && !alnum('\n')
    requires ModeAt(src, start, at, alnum) == Some(mid)
    ensures ModeAt(src, start, at + k, alnum) == ModeAt(s, mid, k, alnum)
  {
    LexThrough(src, 0, start, at, at + k, alnum);
    LexAfter(src, at, s, 0, mid, k, alnum);
  }

  lemma ShownAfter(src: string, at: nat, s: string, start: Mode, mid: Mode, k: nat, alnum: char -> bool)
    requires Follows(src, at, s) && Proper(start) && Proper(mid) && k < |s| && !alnum('\n')
    requires ModeAt(src, start, at, alnum) == Some(mid)
    ensures Shown(src, start, at + k, alnum) == Shown(s, mid, k, alnum)
  {
    ModeAfter(src, at, s, start, mid, k, alnum);
    StepAfter(src, at, s, k, Code, alnum);
    assert Step(src, at + k, Code, alnum) == CodeStep(src, at + k, alnum);
    assert src[at + k] == s[k];
  }

  lemma {:induction false} LexEndsOnABoundary(src: string, i: nat, m: Mode, alnum: char -> bool)
    requires i <= |src| && Proper(m)
    ensures Lex(src, i, m, |src|, alnum).Some?
    decreases |src| - i
  {
    if i < |src| {
      var t := Step(src, i, m, alnum);
      LexEndsOnABoundary(src, i + t.len, t.next, alnum);
    }
  }

  /** The mode after a text lexed from `start`. */
  ghost function FinalMode(p: string, start: Mode, alnum: char -> bool): (m: Mode)
    requires Proper(start)
    ensures Proper(m)
  {
    LexEndsOnABoundary(p, 0, start, alnum);
    ModeAt(p, start, |p|, alnum).value
  }

  lemma PieceBefore(src: string, p: string, start: Mode, alnum: char -> bool)
    requires Continues(src, p) && Proper(start)
    ensures BlankFrom(src, start, alnum)[..|p|] == BlankFrom(p, start, alnum)
    ensures ModeAt(src, start, |p|, alnum) == Some(FinalMode(p, start, alnum))
  {
    LexEndsOnABoundary(p, 0, start, alnum);
    LexBefore(src, p, 0, start, |p|, alnum);
    forall k | 0 <= k < |p| ensures BlankFrom(src, start, alnum)[..|p|][k] == BlankFrom(p, start, alnum)[k] {
      ShownBefore(src, p, start, k, alnum);
    }
  }

  lemma PieceAfter(src: string, at: nat, s: string, start: Mode, mid: Mode, alnum: char -> bool)
    requires Follows(src, at, s) && Proper(start) && Proper(mid) && !alnum('\n')
    requires ModeAt(src, start, at, alnum) == Some(mid)
    ensures BlankFrom(src, start, alnum)[at..] == BlankFrom(s, mid, alnum)
    ensures FinalMode(src, start, alnum) == FinalMode(s, mid, alnum)
  {
    forall k | 0 <= k < |s| ensures BlankFrom(src, start, alnum)[at..][k] == BlankFrom(s, mid, alnum)[k] {
      ShownAfter(src, at, s, start, mid, k, alnum);
    }
    ModeAfter(src, at, s, start, mid, |s|, alnum);
  }

  /** Blanking can stop after any line, in any mode, and resume from that mode:
      the two pieces are the blanking of the whole. */
  lemma Resumption(p: string, s: string, start: Mode, alnum: char -> bool)
    requires Proper(start) && EndsLine(p) && !alnum('\n')
    ensures BlankFrom(p + s, start, alnum) ==
            BlankFrom(p, start, alnum) + BlankFrom(s, FinalMode(p, start, alnum), alnum)
    ensures FinalMode(p + s, start, alnum) == FinalMode(s, FinalMode(p, start, alnum), alnum)
  {
    var src, mid := p + s, FinalMode(p, start, alnum);
    LexEndsOnABoundary(p, 0, start, alnum);
    assert src[|p|..] == s;
    PieceBefore(src, p, start, alnum);
    PieceAfter(src, |p|, s, start, mid, alnum);
    var whole := BlankFrom(src, start, alnum);
    assert whole == whole[..|p|] + whole[|p|..];
  }

  /** In particular, after a line that ends in code the rest stands alone. */
  lemma ResumptionInCode(p: string, s: string, alnum: char -> bool)
    requires EndsLine(p) && !alnum('\n') && ModeAt(p, Code, |p|, alnum) == Some(Code)
    ensures Blank(p + s, alnum) == Blank(p, alnum) + Blank(s, alnum)
  {
    Resumption(p, s, Code, alnum);
  }

  // ---------- Raw strings as the script reads them ----------

  /** An opener starts a raw string unless it is `r"` or `br"`: without a hash
      the script goes on reading code inside the literal. */
  lemma RawStringOpens(src: string, i: nat, alnum: char -> bool)
    requires i < |src|
    ensures CodeStep(src, i, alnum).next.Raw? <==>
            RawPrefixLength(src, i, alnum) > 0 &&
            (HashRun(src, i + Stem(src, i)) > 0 || ReversedStem(src, i))
    ensures RawPrefixLength(src, i, alnum) > 0 && !CodeStep(src, i, alnum).next.Raw? ==>
            CodeStep(src, i, alnum).next == Code
  {
  }

  lemma {:induction false} RawBody(src: string, i: nat, h: nat, close: nat, k: nat, alnum: char -> bool)
    requires i <= k <= close < |src| && h > 0
    requires forall j :: i <= j < close ==> !Closes(src, j, false, h)
    ensures Lex(src, i, Raw(false, h), k, alnum) == Some(Raw(false, h))
    decreases k - i
  {
    if i < k {
      RawBody(src, i + 1, h, close, k, alnum);
    }
  }

  /** A raw string with hashes is blanked from its opener to the first quote
      followed by as many hashes, newlines apart, and code goes on after it. */
  lemma RawStringIsBlanked(src: string, i: nat, close: nat, alnum: char -> bool)
    requires i < |src| && ModeAt(src, Code, i, alnum) == Some(Code)
    requires RawPrefixLength(src, i, alnum) > 0 && !ReversedStem(src, i)
    requires HashRun(src, i + Stem(src, i)) > 0
    requires i + RawPrefixLength(src, i, alnum) <= close < |src|
    requires var run := Hashes(HashRun(src, i + Stem(src, i)));
             && src[close] == '"' && StartsWith(src, run, close + 1)
             && forall j :: i + RawPrefixLength(src, i, alnum) <= j < close ==>
                  !(src[j] == '"' && StartsWith(src, run, j + 1))
    ensures var end := close + 1 + HashRun(src, i + Stem(src, i));
            && ModeAt(src, Code, end, alnum) == Some(Code)
            && forall k :: i <= k < end ==>
                 Blank(src, alnum)[k] == if src[k] == '\n' then '\n' else ' '
  {
    var n := RawPrefixLength(src, i, alnum);
    var h := HashRun(src, i + Stem(src, i));
    var body, end := i + n, close + 1 + h;
    forall j | body <= j <= close ensures Closes(src, j, false, h) <==> src[j] == '"' && StartsWith(src, Hashes(h), j + 1) {
      ClosesMeaning(src, j, false, h);
      assert Marker(false, h) == Hashes(h);
    }
    assert Step(src, i, Code, alnum) == Token(n, Raw(false, h));
    TokenSpan(src, Code, i, body, alnum);
    forall k | body <= k <= close ensures ModeAt(src, Code, k, alnum) == Some(Raw(false, h)) {
      LexThrough(src, 0, Code, body, k, alnum);
      RawBody(src, body, h, close, k, alnum);
    }
    assert Step(src, close, Raw(false, h), alnum) == Token(1 + h, Code);
    TokenSpan(src, Code, close, end, alnum);
    forall k | i <= k < end ensures Blank(src, alnum)[k] == if src[k] == '\n' then '\n' else ' ' {
      if i < k < body {
        TokenSpan(src, Code, i, k, alnum);
        if src[k] == '\n' { TokenTail(src, i, Code, k, alnum); }
      } else if close < k {
        TokenSpan(src, Code, close, k, alnum);
        if src[k] == '\n' { TokenTail(src, close, Raw(false, h), k, alnum); }
      }
    }
  }
}
