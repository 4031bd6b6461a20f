/** Raw string literals without hashes, which the script reads as code.

    `r"…"` ends at the first quote after its opener.  The script does not enter
    raw mode there, so whether the literal is blanked, and in which mode its
    closing quote leaves the lexer, depends on its text. */
module UnhashedRawStrings {
  import opened Names
  import opened BlankingLexer
  import opened BlankingProperties
  import opened Sequences

  /** The opener at `i` has no hash and is not `rb`. */
  predicate Unhashed(src: string, i: nat)
    requires i < |src|
  {
    HashRun(src, i + Stem(src, i)) == 0 && !ReversedStem(src, i)
  }

  function BodyStart(src: string, i: nat, alnum: char -> bool): nat
    requires i < |src|
  {
    i + RawPrefixLength(src, i, alnum)
  }

  predicate NoQuote(src: string, from: nat, to: nat) {
    to <= |src| && forall k :: from <= k < to ==> src[k] != '"'
  }

  /** In code, an unhashed raw string literal from `i` to its closing quote. */
  predicate Literal(src: string, i: nat, close: nat, alnum: char -> bool) {
    && i < close < |src| && ModeAt(src, Code, i, alnum) == Some(Code)
    && RawPrefixLength(src, i, alnum) > 0 && Unhashed(src, i)
    && BodyStart(src, i, alnum) <= close && src[close] == '"'
    && NoQuote(src, BodyStart(src, i, alnum), close)
  }

  /** The position is blanked, or is a newline that is kept. */
  predicate Blanked(src: string, k: nat, alnum: char -> bool)
    requires k < |src|
  {
    Blank(src, alnum)[k] == if src[k] == '\n' then '\n' else ' '
  }

  // ---------- Text that is blank as code ----------

  /** The first newline from `p` on, or the end. */
  function LineEnd(src: string, p: nat): (e: nat)
    requires p <= |src|
    ensures p <= e <= |src|
  {
    First(src, IsNewline, p)
  }

  predicate IsNewline(c: char) { c == '\n' }

  /** Where the block comment that is `depth` deep at `p` has been closed. */
  function CommentEnd(src: string, p: nat, depth: nat): (e: Option<nat>)
    requires p <= |src| && depth > 0
    ensures e.Some? ==> p < e.value <= |src| && src[e.value - 1] == '/'
    decreases |src| - p
  {
    if p == |src| then None
    else if Pair(src, p, '/', '*') then CommentEnd(src, p + 2, depth + 1)
    else if Pair(src, p, '*', '/') then if depth == 1 then Some(p + 2) else CommentEnd(src, p + 2, depth - 1)
    else CommentEnd(src, p + 1, depth)
  }

  /** Nothing but spaces, newlines and whole comments from `p` up to `q`. */
  predicate Gaps(src: string, p: nat, q: nat)
    requires p <= q <= |src|
    decreases q - p
  {
    p == q
    || (src[p] in {' ', '\n'} && Gaps(src, p + 1, q))
    || (Pair(src, p, '/', '/') && LineEnd(src, p + 2) < q && Gaps(src, LineEnd(src, p + 2) + 1, q))
    || (Pair(src, p, '/', '*') && EndsBy(CommentEnd(src, p + 2, 1), q) && Gaps(src, CommentEnd(src, p + 2, 1).value, q))
  }

  predicate EndsBy(e: Option<nat>, q: nat) {
    e.Some? && e.value <= q
  }

  // ---------- Comments, lexed ----------

  lemma {:induction false} LineRun(src: string, p: nat, k: nat, alnum: char -> bool)
    requires p <= k <= |src| && forall j :: p <= j < k ==> src[j] != '\n'
    ensures Lex(src, p, LineComment, k, alnum) == Some(LineComment)
    decreases k - p
  {
    if p < k {
      LineRun(src, p + 1, k, alnum);
    }
  }

  predicate InBlock(m: Option<Mode>) {
    m.Some? ==> m.value.Block?
  }

  /** Inside a block comment the lexer is in block mode, and behind it in code. */
  lemma {:induction false} BlockRun(src: string, p: nat, depth: nat, k: nat, alnum: char -> bool)
    requires p <= k <= |src| && depth > 0
    ensures CommentEnd(src, p, depth).None? || k < CommentEnd(src, p, depth).value ==>
              InBlock(Lex(src, p, Block(depth), k, alnum))
    ensures CommentEnd(src, p, depth) == Some(k) ==> Lex(src, p, Block(depth), k, alnum) == Some(Code)
    decreases |src| - p
  {
    if p < k {
      var t := Step(src, p, Block(depth), alnum);
      if p + t.len <= k {
        if t.next.Block? {
          BlockRun(src, p + t.len, t.next.depth, k, alnum);
        }
      }
    }
  }

  /** From a position in code, the modes further on are those lexed from there. */
  lemma FromCode(src: string, p: nat, k: nat, alnum: char -> bool)
    requires p <= k <= |src| && ModeAt(src, Code, p, alnum) == Some(Code)
    ensures ModeAt(src, Code, k, alnum) == Lex(src, p, Code, k, alnum)
  {
    LexThrough(src, 0, Code, p, k, alnum);
  }

  /** A line comment that starts at `p`: its modes up to its newline and behind it. */
  lemma LineModes(src: string, p: nat, k: nat, alnum: char -> bool)
    requires p < k <= |src| && Pair(src, p, '/', '/') && ModeAt(src, Code, p, alnum) == Some(Code)
    ensures var e := LineEnd(src, p + 2);
            && (k <= e ==> ModeAt(src, Code, k, alnum) in {None, Some(LineComment)})
            && (k == e + 1 ==> ModeAt(src, Code, k, alnum) == Some(Code))
  {
    var e := LineEnd(src, p + 2);
    FirstMeaning(src, IsNewline, p + 2);
    assert Step(src, p, Code, alnum) == Token(2, LineComment);
    FromCode(src, p, k, alnum);
    if p + 2 <= k <= e {
      LineRun(src, p + 2, k, alnum);
    } else if k == e + 1 {
      FromCode(src, p, e, alnum);
      LineRun(src, p + 2, e, alnum);
      TokenSpan(src, Code, e, k, alnum);
    }
  }

  lemma BlockModes(src: string, p: nat, k: nat, alnum: char -> bool)
    requires p < k <= |src| && Pair(src, p, '/', '*') && ModeAt(src, Code, p, alnum) == Some(Code)
    ensures var e := CommentEnd(src, p + 2, 1);
            && (e.None? || k < e.value ==> InBlock(ModeAt(src, Code, k, alnum)))
            && (e == Some(k) ==> ModeAt(src, Code, k, alnum) == Some(Code))
  {
    assert Step(src, p, Code, alnum) == Token(2, Block(1));
    FromCode(src, p, k, alnum);
    if p + 2 <= k {
      BlockRun(src, p + 2, 1, k, alnum);
    }
  }

  // ---------- Gaps are blanked, and nothing else is ----------

  /** Nothing of the position shows but white space, and no string is open there. */
  predicate Calm(src: string, k: nat, alnum: char -> bool)
    requires k < |src|
  {
    && (Shown(src, Code, k, alnum) ==> src[k] in {' ', '\n'})
    && ModeAt(src, Code, k, alnum) != Some(InString)
  }

  lemma {:induction false} GapsAreCalm(src: string, p: nat, q: nat, alnum: char -> bool)
    requires p <= q <= |src| && Gaps(src, p, q) && ModeAt(src, Code, p, alnum) == Some(Code)
    ensures ModeAt(src, Code, q, alnum) == Some(Code)
    ensures forall k :: p <= k < q ==> Calm(src, k, alnum)
    decreases q - p
  {
    if p < q {
      if src[p] in {' ', '\n'} && Gaps(src, p + 1, q) {
        TokenSpan(src, Code, p, p + 1, alnum);
        GapsAreCalm(src, p + 1, q, alnum);
      } else if Pair(src, p, '/', '/') {
        var next := LineEnd(src, p + 2) + 1;
        forall k | p < k <= next { LineModes(src, p, k, alnum); }
        GapsAreCalm(src, next, q, alnum);
      } else {
        var next := CommentEnd(src, p + 2, 1).value;
        forall k | p < k <= next { BlockModes(src, p, k, alnum); }
        GapsAreCalm(src, next, q, alnum);
      }
    }
  }

  /** From `j` on nothing of the text shows, the closing quote included: the
      quote comes at once, or ends an opener, or lies in a comment. */
  predicate EndsBlank(src: string, j: nat, close: nat, alnum: char -> bool)
    requires j <= close < |src|
  {
    || j == close
    || RawPrefixLength(src, j, alnum) > 0
    || (Pair(src, j, '/', '/') && LineEnd(src, j + 2) > close)
    || (Pair(src, j, '/', '*') && !EndsBy(CommentEnd(src, j + 2, 1), close))
  }

  lemma {:induction false} CalmTextIsGaps(src: string, p: nat, close: nat, alnum: char -> bool) returns (j: nat)
    requires p <= close < |src| && src[close] == '"' && NoQuote(src, p, close)
    requires ModeAt(src, Code, p, alnum) == Some(Code)
    requires forall k :: p <= k < close && Shown(src, Code, k, alnum) ==> src[k] in {' ', '\n'}
    ensures p <= j <= close && Gaps(src, p, j) && EndsBlank(src, j, close, alnum)
    ensures ModeAt(src, Code, j, alnum) == Some(Code)
    decreases close - p
  {
    if EndsBlank(src, p, close, alnum) {
      j := p;
    } else if Pair(src, p, '/', '/') {
      var e := LineEnd(src, p + 2);
      FirstMeaning(src, IsNewline, p + 2);
      LineModes(src, p, e + 1, alnum);
      j := CalmTextIsGaps(src, e + 1, close, alnum);
    } else if Pair(src, p, '/', '*') {
      var e := CommentEnd(src, p + 2, 1).value;
      BlockModes(src, p, e, alnum);
      j := CalmTextIsGaps(src, e, close, alnum);
    } else {
      TokenSpan(src, Code, p, p + 1, alnum);
      j := CalmTextIsGaps(src, p + 1, close, alnum);
    }
  }

  lemma EndIsCalm(src: string, j: nat, close: nat, k: nat, alnum: char -> bool)
    requires j <= k <= close < |src| && src[close] == '"' && RawPrefixLength(src, j, alnum) == 0
    requires ModeAt(src, Code, j, alnum) == Some(Code) && EndsBlank(src, j, close, alnum)
    ensures Calm(src, k, alnum)
  {
    if j < k {
      if Pair(src, j, '/', '/') {
        LineModes(src, j, k, alnum);
      } else {
        BlockModes(src, j, k, alnum);
      }
    }
  }

  /** An opener without hashes, up to the closing quote at `close`. */
  predicate ClosesAsOpener(src: string, j: nat, close: nat, alnum: char -> bool)
    requires j < |src|
  {
    RawPrefixLength(src, j, alnum) == close + 1 - j && Unhashed(src, j)
  }

  /** If code resumes behind the closing quote, the text ended in an unhashed opener. */
  lemma ResumesBehindOpener(src: string, j: nat, close: nat, alnum: char -> bool)
    requires j <= close < |src| && src[close] == '"' && NoQuote(src, j, close) && EndsBlank(src, j, close, alnum)
    requires ModeAt(src, Code, j, alnum) == Some(Code) && ModeAt(src, Code, close + 1, alnum) == Some(Code)
    ensures j < close && ClosesAsOpener(src, j, close, alnum)
  {
    if j == close {
      TokenSpan(src, Code, j, close + 1, alnum);
    } else if RawPrefixLength(src, j, alnum) > 0 {
      OpenerEndsThere(src, j, close, alnum);
    } else if Pair(src, j, '/', '/') {
      LineModes(src, j, close + 1, alnum);
    } else {
      BlockModes(src, j, close + 1, alnum);
    }
  }

  /** Without a quote before it, an opener ends at the closing quote. */
  lemma OpenerEndsAtQuote(src: string, p: nat, close: nat, alnum: char -> bool)
    requires p <= close < |src| && src[close] == '"' && NoQuote(src, p, close) && RawPrefixLength(src, p, alnum) > 0
    ensures RawPrefixLength(src, p, alnum) == close + 1 - p && p < close
  {
    var n := RawPrefixLength(src, p, alnum);
    HashRunIs(src, p + Stem(src, p));
    assert forall k :: p <= k < p + n - 1 ==> src[k] != '"';
    assert p + n - 1 == close;
  }

  /** An opener before the closing quote, from which code resumes behind it. */
  lemma OpenerEndsThere(src: string, p: nat, close: nat, alnum: char -> bool)
    requires p < |src| && RawPrefixLength(src, p, alnum) > 0
    requires p <= close < |src| && src[close] == '"' && NoQuote(src, p, close)
    requires ModeAt(src, Code, p, alnum) == Some(Code) && ModeAt(src, Code, close + 1, alnum) == Some(Code)
    ensures RawPrefixLength(src, p, alnum) == close + 1 - p && Unhashed(src, p) && p < close
  {
    OpenerEndsAtQuote(src, p, close, alnum);
    TokenSpan(src, Code, p, close + 1, alnum);
    RawStringOpens(src, p, alnum);
  }

  // ---------- The theorems ----------

  lemma OpenerIsBlanked(src: string, i: nat, k: nat, alnum: char -> bool)
    requires i <= k < |src| && ModeAt(src, Code, i, alnum) == Some(Code)
    requires RawPrefixLength(src, i, alnum) > 0 && k < BodyStart(src, i, alnum)
    ensures Blanked(src, k, alnum) && ModeAt(src, Code, k, alnum) != Some(InString)
  {
    HashRunIs(src, i + Stem(src, i));
    if i < k {
      TokenSpan(src, Code, i, k, alnum);
    }
  }

  lemma LiteralStarts(src: string, i: nat, alnum: char -> bool)
    requires i < |src| && ModeAt(src, Code, i, alnum) == Some(Code)
    requires RawPrefixLength(src, i, alnum) > 0 && Unhashed(src, i)
    ensures ModeAt(src, Code, BodyStart(src, i, alnum), alnum) == Some(Code)
  {
    RawStringOpens(src, i, alnum);
    TokenSpan(src, Code, i, BodyStart(src, i, alnum), alnum);
  }

  lemma CalmIsBlanked(src: string, k: nat, alnum: char -> bool)
    requires 0 < k < |src| && Calm(src, k, alnum) && ModeAt(src, Code, k - 1, alnum) != Some(InString)
    ensures Blanked(src, k, alnum)
  {
    NewlinesSurvive(src, Code, k, alnum);
  }

  /** An unhashed literal is blanked exactly when its text is spaces, newlines and
      whole comments up to a place from which nothing shows: the closing quote,
      an opener that the quote ends, or a comment that runs over the quote. */
  lemma UnhashedLiteralIsBlanked(src: string, i: nat, close: nat, alnum: char -> bool)
    requires Literal(src, i, close, alnum)
    ensures var body := BodyStart(src, i, alnum);
            (forall k :: i <= k <= close ==> Blanked(src, k, alnum)) <==>
            (exists j :: body <= j <= close && Gaps(src, body, j) && EndsBlank(src, j, close, alnum))
  {
    var body := BodyStart(src, i, alnum);
    if forall k :: i <= k <= close ==> Blanked(src, k, alnum) {
      var j := BlankedTextIsGaps(src, i, close, alnum);
    }
    if j :| body <= j <= close && Gaps(src, body, j) && EndsBlank(src, j, close, alnum) {
      GapsLiteralIsBlanked(src, i, j, close, alnum);
    }
  }

  /** It is blanked, and code resumes behind it, exactly when that place is an
      opener without hashes. */
  lemma CodeResumesBehindUnhashedLiteral(src: string, i: nat, close: nat, alnum: char -> bool)
    requires Literal(src, i, close, alnum)
    ensures var body := BodyStart(src, i, alnum);
            ((forall k :: i <= k <= close ==> Blanked(src, k, alnum)) && ModeAt(src, Code, close + 1, alnum) == Some(Code))
            <==>
            (exists j :: body <= j < close && Gaps(src, body, j) && ClosesAsOpener(src, j, close, alnum))
  {
    var body := BodyStart(src, i, alnum);
    if (forall k :: i <= k <= close ==> Blanked(src, k, alnum)) && ModeAt(src, Code, close + 1, alnum) == Some(Code) {
      var j := BlankedTextIsGaps(src, i, close, alnum);
      ResumesBehindOpener(src, j, close, alnum);
    }
    if j :| body <= j < close && Gaps(src, body, j) && ClosesAsOpener(src, j, close, alnum) {
      GapsLiteralIsBlanked(src, i, j, close, alnum);
      GapsLiteralIsClosed(src, i, j, close, alnum);
    }
  }

  lemma BlankedTextIsGaps(src: string, i: nat, close: nat, alnum: char -> bool) returns (j: nat)
    requires Literal(src, i, close, alnum) && forall k :: i <= k <= close ==> Blanked(src, k, alnum)
    ensures BodyStart(src, i, alnum) <= j <= close && Gaps(src, BodyStart(src, i, alnum), j)
    ensures EndsBlank(src, j, close, alnum) && ModeAt(src, Code, j, alnum) == Some(Code)
  {
    var body := BodyStart(src, i, alnum);
    LiteralStarts(src, i, alnum);
    forall k | body <= k < close && Shown(src, Code, k, alnum) ensures src[k] in {' ', '\n'} {
      assert Blanked(src, k, alnum);
    }
    j := CalmTextIsGaps(src, body, close, alnum);
  }

  lemma GapsLiteralIsBlanked(src: string, i: nat, j: nat, close: nat, alnum: char -> bool)
    requires Literal(src, i, close, alnum) && BodyStart(src, i, alnum) <= j <= close
    requires Gaps(src, BodyStart(src, i, alnum), j) && EndsBlank(src, j, close, alnum)
    ensures forall k :: i <= k <= close ==> Blanked(src, k, alnum)
  {
    var body := BodyStart(src, i, alnum);
    LiteralStarts(src, i, alnum);
    GapsAreCalm(src, body, j, alnum);
    forall k | i <= k <= close
      ensures ModeAt(src, Code, k, alnum) != Some(InString)
      ensures Blanked(src, k, alnum) || (body <= k && Calm(src, k, alnum))
    {
      if k < body {
        OpenerIsBlanked(src, i, k, alnum);
      } else if j <= k {
        if RawPrefixLength(src, j, alnum) > 0 {
          OpenerEndsAtQuote(src, j, close, alnum);
          OpenerIsBlanked(src, j, k, alnum);
        } else {
          EndIsCalm(src, j, close, k, alnum);
        }
      } else {
        assert Calm(src, k, alnum);
      }
    }
    forall k | i <= k <= close ensures Blanked(src, k, alnum) {
      if !Blanked(src, k, alnum) {
        CalmIsBlanked(src, k, alnum);
      }
    }
  }

  lemma GapsLiteralIsClosed(src: string, i: nat, j: nat, close: nat, alnum: char -> bool)
    requires Literal(src, i, close, alnum) && BodyStart(src, i, alnum) <= j < close
    requires Gaps(src, BodyStart(src, i, alnum), j) && ClosesAsOpener(src, j, close, alnum)
    ensures ModeAt(src, Code, close + 1, alnum) == Some(Code)
  {
    LiteralStarts(src, i, alnum);
    GapsAreCalm(src, BodyStart(src, i, alnum), j, alnum);
    LiteralStarts(src, j, alnum);
  }

  /** The text opens nothing: no comment, no raw string, nor one with the closing quote. */
  predicate OpensNothing(src: string, from: nat, close: nat, alnum: char -> bool)
    requires close <= |src|
  {
    forall k :: from <= k < close ==>
      !Pair(src, k, '/', '/') && !Pair(src, k, '/', '*') && RawPrefixLength(src, k, alnum) == 0
  }

  lemma {:induction false} CodeRun(src: string, p: nat, k: nat, close: nat, alnum: char -> bool)
    requires p <= k <= close < |src| && NoQuote(src, p, close) && OpensNothing(src, p, close, alnum)
    ensures Lex(src, p, Code, k, alnum) == Some(Code)
    decreases k - p
  {
    if p < k {
      CodeRun(src, p + 1, k, close, alnum);
    }
  }

  /** Any other text that opens nothing stays visible, and the closing quote
      opens a string: what follows the literal is read as its inside. */
  lemma PlainLiteralStaysVisible(src: string, i: nat, close: nat, alnum: char -> bool)
    requires Literal(src, i, close, alnum) && OpensNothing(src, BodyStart(src, i, alnum), close, alnum)
    ensures forall k :: BodyStart(src, i, alnum) <= k < close ==> Blank(src, alnum)[k] == src[k]
    ensures ModeAt(src, Code, close + 1, alnum) == Some(InString)
  {
    var body := BodyStart(src, i, alnum);
    LiteralStarts(src, i, alnum);
    forall k | body <= k <= close ensures ModeAt(src, Code, k, alnum) == Some(Code) {
      FromCode(src, body, k, alnum);
      CodeRun(src, body, k, close, alnum);
    }
    TokenSpan(src, Code, close, close + 1, alnum);
  }

  lemma SmallOpener(src: string, i: nat, alnum: char -> bool)
    requires i + 1 < |src| && src[i] == 'r' && src[i + 1] == '"' && !FollowsWord(src, i, alnum)
    ensures RawPrefixLength(src, i, alnum) == 2 && Unhashed(src, i)
  {
  }

  lemma LetterLiteral(src: string, alnum: char -> bool)
    requires |src| == 4 && src[0] == 'r' && src[1] == src[3] == '"' && src[2] == 'p'
    ensures forall k :: 0 <= k < 4 ==> Blank(src, alnum)[k] == if k == 2 then 'p' else ' '
    ensures ModeAt(src, Code, 4, alnum) == Some(InString)
  {
    SmallOpener(src, 0, alnum);
    assert Stem(src, 2) == 0;
    PlainLiteralStaysVisible(src, 0, 3, alnum);
    OpenerIsBlanked(src, 0, 0, alnum);
    OpenerIsBlanked(src, 0, 1, alnum);
    assert !Shown(src, Code, 3, alnum);
  }

  /** `r"p"` shows its `p`, and the rest of the file is read inside out. */
  lemma PlainLiteralExample(alnum: char -> bool)
    ensures Blank("r\"p\"", alnum) == "  p " && ModeAt("r\"p\"", Code, 4, alnum) == Some(InString)
  {
    LetterLiteral("r\"p\"", alnum);
  }

  lemma SpacedLiteral(src: string, alnum: char -> bool)
    requires |src| == 5 && src[0] == src[3] == 'r' && src[1] == src[4] == '"' && src[2] == ' ' && !alnum(' ')
    ensures forall k :: 0 <= k < 5 ==> Blank(src, alnum)[k] == ' '
    ensures ModeAt(src, Code, 5, alnum) == Some(Code)
  {
    SmallOpener(src, 0, alnum);
    SmallOpener(src, 3, alnum);
    assert Gaps(src, 2, 3) by { assert Gaps(src, 3, 3); }
    GapsLiteralIsBlanked(src, 0, 3, 4, alnum);
    GapsLiteralIsClosed(src, 0, 3, 4, alnum);
    forall k | 0 <= k < 5 ensures Blank(src, alnum)[k] == ' ' {
      assert Blanked(src, k, alnum);
    }
  }

  /** `r" r"` is blanked, and code resumes behind it. */
  lemma BlankLiteralExample(alnum: char -> bool)
    requires !alnum(' ')
    ensures Blank("r\" r\"", alnum) == "     " && ModeAt("r\" r\"", Code, 5, alnum) == Some(Code)
  {
    SpacedLiteral("r\" r\"", alnum);
  }

  /** `r" "` is blanked as well, but leaves a string open behind it. */
  lemma OpenLiteralExample(alnum: char -> bool)
    ensures Blank("r\" \"", alnum) == "    " && ModeAt("r\" \"", Code, 4, alnum) == Some(InString)
  {
    EmptyLiteral("r\" \"", alnum);
  }

  lemma EmptyLiteral(src: string, alnum: char -> bool)
    requires |src| == 4 && src[0] == 'r' && src[1] == src[3] == '"' && src[2] == ' '
    ensures forall k :: 0 <= k < 4 ==> Blank(src, alnum)[k] == ' '
    ensures ModeAt(src, Code, 4, alnum) == Some(InString)
  {
    SmallOpener(src, 0, alnum);
    assert Gaps(src, 2, 3) by { assert Gaps(src, 3, 3); }
    GapsLiteralIsBlanked(src, 0, 3, 3, alnum);
    PlainLiteralStaysVisible(src, 0, 3, alnum);
    forall k | 0 <= k < 4 ensures Blank(src, alnum)[k] == ' ' {
      assert Blanked(src, k, alnum);
    }
  }
}
