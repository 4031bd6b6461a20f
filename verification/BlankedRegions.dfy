/** What the lexer makes of a whole string literal or comment, told from the
    characters of the source alone. */
module BlankedRegions {
  import opened Names
  import opened BlankingLexer
  import opened BlankingProperties
  import opened UnhashedRawStrings
  import opened Sequences

  // ---------- String literals ----------

  /** How many backslashes stand directly before `k`, not counting any before `from`. */
  function Backslashes(src: string, from: nat, k: nat): nat
    requires from <= k <= |src|
  {
    if k > from && src[k - 1] == '\\' then Backslashes(src, from, k - 1) + 1 else 0
  }

  /** A backslash escape that starts at `from` or later ends before `k`, or none is open. */
  predicate Unescaped(src: string, from: nat, k: nat)
    requires from <= k <= |src|
  {
    Backslashes(src, from, k) % 2 == 0
  }

  /** The first quote from `from` on that no backslash escapes. */
  predicate ClosesString(src: string, from: nat, close: nat) {
    && from <= close < |src| && src[close] == '"' && Unescaped(src, from, close)
    && forall k :: from <= k < close && src[k] == '"' ==> !Unescaped(src, from, k)
  }

  lemma {:induction false} InsideString(src: string, from: nat, p: nat, k: nat, close: nat, alnum: char -> bool)
    requires from <= p <= k <= close && ClosesString(src, from, close) && Unescaped(src, from, p)
    requires ModeAt(src, Code, p, alnum) == Some(InString)
    ensures ModeAt(src, Code, k, alnum) == if Unescaped(src, from, k) then Some(InString) else None
    decreases k - p
  {
    if p < k {
      if src[p] == '\\' {
        TokenSpan(src, Code, p, p + 1, alnum);
        if p + 2 <= k {
          TokenSpan(src, Code, p, p + 2, alnum);
          InsideString(src, from, p + 2, k, close, alnum);
        }
      } else {
        TokenSpan(src, Code, p, p + 1, alnum);
        InsideString(src, from, p + 1, k, close, alnum);
      }
    }
  }

  /** A string literal that opens in code is blanked up to the first quote that no
      backslash escapes, unescaped newlines apart, and code goes on behind it. */
  lemma StringIsBlanked(src: string, i: nat, close: nat, alnum: char -> bool)
    requires i < |src| && src[i] == '"' && ModeAt(src, Code, i, alnum) == Some(Code)
    requires ClosesString(src, i + 1, close)
    ensures Blank(src, alnum)[i] == ' '
    ensures forall k :: i < k <= close ==>
              Blank(src, alnum)[k] == if src[k] == '\n' && Unescaped(src, i + 1, k) then '\n' else ' '
    ensures ModeAt(src, Code, close + 1, alnum) == Some(Code)
  {
    assert CodeStep(src, i, alnum) == Token(1, InString);
    TokenSpan(src, Code, i, i + 1, alnum);
    forall k | i < k <= close
      ensures Blank(src, alnum)[k] == if src[k] == '\n' && Unescaped(src, i + 1, k) then '\n' else ' '
    {
      InsideString(src, i + 1, i + 1, k, close, alnum);
    }
    InsideString(src, i + 1, i + 1, close, close, alnum);
    TokenSpan(src, Code, close, close + 1, alnum);
  }

  /** Behind the literal `"a"` the semicolon is code, and stays. */
  lemma StringExample(alnum: char -> bool)
    ensures Blank("\"a\";", alnum) == "   ;"
  {
    LetterString("\"a\";", alnum);
  }

  lemma LetterString(src: string, alnum: char -> bool)
    requires |src| == 4 && src[0] == src[2] == '"' && src[1] == 'a' && src[3] == ';'
    ensures forall k :: 0 <= k < 4 ==> Blank(src, alnum)[k] == if k == 3 then ';' else ' '
  {
    assert Stem(src, 0) == 0 && Stem(src, 3) == 0;
    StringIsBlanked(src, 0, 2, alnum);
  }

  /** An escaped quote does not close the literal. */
  lemma EscapedQuoteExample(alnum: char -> bool)
    ensures Blank("\"\\\"\";", alnum) == "    ;"
  {
    QuoteString("\"\\\"\";", alnum);
  }

  lemma QuoteString(src: string, alnum: char -> bool)
    requires |src| == 5 && src[0] == src[2] == src[3] == '"' && src[1] == '\\' && src[4] == ';'
    ensures forall k :: 0 <= k < 5 ==> Blank(src, alnum)[k] == if k == 4 then ';' else ' '
  {
    assert Stem(src, 0) == 0 && Stem(src, 4) == 0;
    assert Backslashes(src, 1, 1) == 0 && Backslashes(src, 1, 2) == 1 && Backslashes(src, 1, 3) == 0;
    StringIsBlanked(src, 0, 3, alnum);
  }

  // ---------- Comments ----------

  /** A line comment is blanked up to the end of its line, and code goes on behind it. */
  lemma LineCommentIsBlanked(src: string, i: nat, e: nat, alnum: char -> bool)
    requires i < |src| && Pair(src, i, '/', '/') && ModeAt(src, Code, i, alnum) == Some(Code)
    requires i < e <= |src| && (e < |src| ==> src[e] == '\n') && forall k :: i <= k < e ==> src[k] != '\n'
    ensures forall k :: i <= k < e ==> Blank(src, alnum)[k] == ' '
    ensures e < |src| ==> Blank(src, alnum)[e] == '\n' && ModeAt(src, Code, e + 1, alnum) == Some(Code)
  {
    FirstIs(src, IsNewline, i + 2, e);
    forall k | i <= k < e ensures Blank(src, alnum)[k] == ' ' {
      if i < k { LineModes(src, i, k, alnum); }
    }
    if e < |src| {
      LineModes(src, i, e, alnum);
      LineModes(src, i, e + 1, alnum);
      NewlinesSurvive(src, Code, e, alnum);
      if i < e - 1 { LineModes(src, i, e - 1, alnum); }
    }
  }

  /** What may stand in a block comment: whole comments, and characters that start
      neither a comment nor the end of one. */
  ghost predicate CommentBody(src: string, p: nat, q: nat)
    requires p <= q <= |src|
    decreases q - p
  {
    || p == q
    || (!Pair(src, p, '/', '*') && !Pair(src, p, '*', '/') && CommentBody(src, p + 1, q))
    || (exists e: nat :: Nested(src, p, e, q) && CommentBody(src, p + 2, e) && CommentBody(src, e + 2, q))
  }

  /** A comment inside starts at `p` and its closing characters stand at `e`. */
  predicate Nested(src: string, p: nat, e: nat, q: nat) {
    p + 2 <= e && e + 2 <= q <= |src| && Pair(src, p, '/', '*') && Pair(src, e, '*', '/')
  }

  lemma {:induction false} BodyEnds(src: string, p: nat, q: nat, depth: nat)
    requires p <= q < |src| && depth > 0 && CommentBody(src, p, q) && Pair(src, q, '*', '/')
    ensures CommentEnd(src, p, depth) == if depth == 1 then Some(q + 2) else CommentEnd(src, q + 2, depth - 1)
    decreases q - p
  {
    if p < q {
      if !Pair(src, p, '/', '*') && !Pair(src, p, '*', '/') && CommentBody(src, p + 1, q) {
        BodyEnds(src, p + 1, q, depth);
      } else {
        var e: nat :| Nested(src, p, e, q) && CommentBody(src, p + 2, e) && CommentBody(src, e + 2, q);
        BodyEnds(src, p + 2, e, depth + 1);
        BodyEnds(src, e + 2, q, depth);
      }
    }
  }

  /** A block comment is blanked, nested comments included and newlines apart, up
      to the end that matches its start, and code goes on behind it. */
  lemma BlockCommentIsBlanked(src: string, i: nat, q: nat, alnum: char -> bool)
    requires i + 2 <= q < |src| && ModeAt(src, Code, i, alnum) == Some(Code)
    requires Pair(src, i, '/', '*') && CommentBody(src, i + 2, q) && Pair(src, q, '*', '/')
    ensures forall k :: i <= k < q + 2 ==> Blank(src, alnum)[k] == if src[k] == '\n' then '\n' else ' '
    ensures ModeAt(src, Code, q + 2, alnum) == Some(Code)
  {
    BodyEnds(src, i + 2, q, 1);
    BlockModes(src, i, q + 2, alnum);
    forall k | i <= k < q + 2 ensures Blank(src, alnum)[k] == if src[k] == '\n' then '\n' else ' ' {
      if i < k {
        BlockModes(src, i, k, alnum);
        if i + 1 < k { BlockModes(src, i, k - 1, alnum); }
        NewlinesSurvive(src, Code, k, alnum);
      }
    }
  }

  // ---------- Raw string openers ----------

  /** At `i` stand `br`, `rb` or `r`, up to 255 times `#`, and a quote: `n` characters. */
  predicate OpenerAt(src: string, i: nat, stem: string, hashes: nat, n: nat) {
    && stem in ["br", "rb", "r"] && hashes <= 255 && n == |stem| + hashes + 1 && i + n <= |src|
    && StartsWith(src, stem, i)
    && (forall k :: i + |stem| <= k < i + |stem| + hashes ==> src[k] == '#')
    && src[i + n - 1] == '"'
  }

  lemma {:induction false} HashRunEquals(src: string, j: nat, h: nat)
    requires j + h < |src| && src[j + h] != '#' && forall k :: j <= k < j + h ==> src[k] == '#'
    ensures HashRun(src, j) == h
    decreases h
  {
    if h > 0 {
      HashRunEquals(src, j + 1, h - 1);
    }
  }

  lemma OpenerStem(src: string, i: nat, stem: string, hashes: nat, n: nat)
    requires OpenerAt(src, i, stem, hashes, n)
    ensures Stem(src, i) == |stem|
  {
    assert src[i + 0] == stem[0] && (|stem| == 2 ==> src[i + 1] == stem[1]);
    if |stem| == 1 {
      assert src[i + 1] == if hashes > 0 then '#' else '"';
    }
  }

  /** An opener is recognised exactly if it stands there and does not continue a word. */
  lemma RawPrefixIff(src: string, i: nat, n: nat, alnum: char -> bool)
    requires i < |src| && n > 0
    ensures RawPrefixLength(src, i, alnum) == n <==>
            && !(i > 0 && (alnum(src[i - 1]) || src[i - 1] == '_'))
            && exists stem, hashes: nat :: OpenerAt(src, i, stem, hashes, n)
  {
    HashRunIs(src, i + Stem(src, i));
    if RawPrefixLength(src, i, alnum) == n {
      var stem := if Stem(src, i) == 1 then "r" else if src[i] == 'b' then "br" else "rb";
      assert OpenerAt(src, i, stem, HashRun(src, i + Stem(src, i)), n);
    }
    if stem, hashes: nat :| OpenerAt(src, i, stem, hashes, n) {
      OpenerStem(src, i, stem, hashes, n);
      HashRunEquals(src, i + |stem|, hashes);
    }
  }
}
