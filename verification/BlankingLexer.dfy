/** Blanking the comments and strings of a Rust source before it is scanned.

    The lexer is the script's own, not Rust's: which raw strings it recognises
    and how it treats an escaped newline are stated below as theorems.  Letters
    and digits are recognised by a parameter, `alnum`, because Python's test
    ranges over all of Unicode. */
module BlankingLexer {
  import opened Names

  /** A raw string is closed by a quote and `hashes` times `#`, with a stray `b`
      between them if its opener has the stem `rb`. */
  datatype Mode = Code | LineComment | Block(depth: nat) | InString | Raw(stray: bool, hashes: nat)

  /** What is consumed at a position, and the mode afterwards. */
  datatype Token = Token(len: nat, next: Mode)

  const MAX_HASHES := 255

  // ---------- Raw string prefixes ----------

  /** The number of consecutive `#` from `j` on. */
  function HashRun(src: string, j: nat): (h: nat)
    requires j <= |src|
    ensures j + h <= |src|
    decreases |src| - j
  {
    if j < |src| && src[j] == '#' then 1 + HashRun(src, j + 1) else 0
  }

  lemma {:induction false} HashRunIs(src: string, j: nat)
    requires j <= |src|
    ensures var h := HashRun(src, j);
            && (forall k :: j <= k < j + h ==> src[k] == '#')
            && (j + h < |src| ==> src[j + h] != '#')
    decreases |src| - j
  {
    if j < |src| && src[j] == '#' {
      HashRunIs(src, j + 1);
    }
  }

  /** The length of `br`, `rb` or `r` at `i`, tried in that order. */
  function Stem(src: string, i: nat): (n: nat)
    requires i < |src|
    ensures n <= 2 && i + n <= |src|
  {
    if i + 1 < |src| && src[i] == 'b' && src[i + 1] == 'r' then 2
    else if i + 1 < |src| && src[i] == 'r' && src[i + 1] == 'b' then 2
    else if src[i] == 'r' then 1
    else 0
  }

  predicate FollowsWord(src: string, i: nat, alnum: char -> bool)
    requires i <= |src|
  {
    i > 0 && (alnum(src[i - 1]) || src[i - 1] == '_')
  }

  /** The `n` characters at `i` are a stem, all the `#` after it, and a quote. */
  predicate IsOpener(src: string, i: nat, n: nat)
    requires i < |src|
  {
    && Stem(src, i) > 0
    && n == Stem(src, i) + HashRun(src, i + Stem(src, i)) + 1
    && i + n <= |src| && src[i + n - 1] == '"'
  }

  /** The length of the raw string opener at `i`, or 0. */
  function RawPrefixLength(src: string, i: nat, alnum: char -> bool): (n: nat)
    requires i < |src|
    ensures n > 0 ==> IsOpener(src, i, n)
  {
    if FollowsWord(src, i, alnum) || Stem(src, i) == 0 then 0
    else
      var quote := i + Stem(src, i) + HashRun(src, i + Stem(src, i));
      if HashRun(src, i + Stem(src, i)) <= MAX_HASHES && quote < |src| && src[quote] == '"'
      then quote + 1 - i else 0
  }

  predicate ReversedStem(src: string, i: nat)
    requires i < |src|
  {
    src[i] == 'r' && i + 1 < |src| && src[i + 1] == 'b'
  }

  // The script keeps the delimiter as a text, cut out of the opener.

  function Hashes(n: nat): (s: string)
    ensures |s| == n && forall k :: 0 <= k < n ==> s[k] == '#'
  {
    seq(n, _ => '#')
  }

  function Marker(stray: bool, hashes: nat): string {
    (if stray then "b" else "") + Hashes(hashes)
  }

  /** The closing delimiter the script records for an opener of length `n`:
      it skips one character, one more after a `b`, and one more over an `r`. */
  function Delimiter(src: string, i: nat, n: nat): string
    requires i < |src| && IsOpener(src, i, n)
  {
    var afterB := if src[i] == 'b' then i + 2 else i + 1;
    var start := if src[afterB] == 'r' then afterB + 1 else afterB;
    HashRunIs(src, i + Stem(src, i));
    src[start..i + n - 1]
  }

  /** The recorded delimiter is the opener's run of `#`, with a stray `b` in
      front exactly for the stem `rb`. */
  lemma DelimiterMeaning(src: string, i: nat, n: nat)
    requires i < |src| && IsOpener(src, i, n)
    ensures Delimiter(src, i, n) == Marker(ReversedStem(src, i), HashRun(src, i + Stem(src, i)))
  {
    var h := HashRun(src, i + Stem(src, i));
    HashRunIs(src, i + Stem(src, i));
    if ReversedStem(src, i) {
      assert Delimiter(src, i, n) == src[i + 1..i + 2 + h];
    } else {
      assert Delimiter(src, i, n) == src[i + Stem(src, i)..i + Stem(src, i) + h];
    }
  }

  // ---------- Tokens ----------

  predicate StartsWith(src: string, prefix: string, i: nat) {
    i + |prefix| <= |src| && forall k :: 0 <= k < |prefix| ==> src[i + k] == prefix[k]
  }

  predicate Pair(src: string, i: nat, first: char, second: char)
    requires i < |src|
  {
    src[i] == first && i + 1 < |src| && src[i + 1] == second
  }

  /** The modes the lexer can be in: comments have a depth, raw strings a delimiter. */
  predicate Proper(m: Mode) {
    && (m.Block? ==> m.depth > 0)
    && (m.Raw? ==> m.stray || m.hashes > 0)
  }

  /** The mode behind an opener: without a delimiter the script stays in code. */
  function Opened(src: string, i: nat): (m: Mode)
    requires i < |src|
    ensures Proper(m)
  {
    var hashes := HashRun(src, i + Stem(src, i));
    if ReversedStem(src, i) || hashes > 0 then Raw(ReversedStem(src, i), hashes) else Code
  }

  /** A quote followed by a raw string's delimiter. */
  predicate Closes(src: string, i: nat, stray: bool, hashes: nat)
    requires i < |src|
  {
    src[i] == '"' &&
    if stray then i + 1 < |src| && src[i + 1] == 'b' && HashRun(src, i + 2) >= hashes
    else HashRun(src, i + 1) >= hashes
  }

  lemma HashRunStarts(src: string, i: nat, hashes: nat)
    requires i <= |src|
    ensures HashRun(src, i) >= hashes <==> StartsWith(src, Hashes(hashes), i)
  {
    var h := HashRun(src, i);
    HashRunIs(src, i);
    assert h < hashes ==> Hashes(hashes)[h] == '#';
    assert h < hashes && i + h < |src| ==> src[i + h] != Hashes(hashes)[h];
  }

  lemma StartsWithCons(src: string, c: char, rest: string, i: nat)
    ensures StartsWith(src, [c] + rest, i) <==> i < |src| && src[i] == c && StartsWith(src, rest, i + 1)
  {
    var prefix := [c] + rest;
    assert prefix[0] == c && forall k :: 0 <= k < |rest| ==> prefix[k + 1] == rest[k];
    if StartsWith(src, prefix, i) {
      assert src[i + 0] == prefix[0];
      forall k | 0 <= k < |rest| ensures src[i + 1 + k] == rest[k] {
        assert src[i + (k + 1)] == prefix[k + 1];
      }
    }
  }

  /** The test on the text of the delimiter says the same. */
  lemma ClosesMeaning(src: string, i: nat, stray: bool, hashes: nat)
    requires i < |src|
    ensures Closes(src, i, stray, hashes) <==> src[i] == '"' && StartsWith(src, Marker(stray, hashes), i + 1)
  {
    if stray {
      StartsWithCons(src, 'b', Hashes(hashes), i + 1);
      if i + 1 < |src| {
        HashRunStarts(src, i + 2, hashes);
      }
    } else {
      assert Marker(stray, hashes) == Hashes(hashes);
      HashRunStarts(src, i + 1, hashes);
    }
  }

  function CodeStep(src: string, i: nat, alnum: char -> bool): (t: Token)
    requires i < |src|
    ensures 1 <= t.len <= |src| - i
    ensures Proper(t.next)
  {
    var n := RawPrefixLength(src, i, alnum);
    if n > 0 then Token(n, Opened(src, i))
    else if Pair(src, i, '/', '/') then Token(2, LineComment)
    else if Pair(src, i, '/', '*') then Token(2, Block(1))
    else if src[i] == '"' then Token(1, InString)
    else Token(1, Code)
  }

  function Step(src: string, i: nat, m: Mode, alnum: char -> bool): (t: Token)
    requires i < |src| && Proper(m)
    ensures 1 <= t.len <= |src| - i
    ensures Proper(t.next)
  {
    match m
    case LineComment => Token(1, if src[i] == '\n' then Code else LineComment)
    case Block(depth) =>
      if Pair(src, i, '/', '*') then Token(2, Block(depth + 1))
      else if Pair(src, i, '*', '/') then Token(2, if depth == 1 then Code else Block(depth - 1))
      else Token(1, m)
    case InString =>
      if src[i] == '\\' && i + 1 < |src| then Token(2, InString)
      else if src[i] == '"' then Token(1, Code)
      else Token(1, InString)
    case Raw(stray, hashes) =>
      if Closes(src, i, stray, hashes) then Token(1 + (if stray then 1 else 0) + hashes, Code)
      else Token(1, m)
    case Code => CodeStep(src, i, alnum)
  }

  /** The mode in which a lexer that is in mode `m` at `i` arrives at `k`; None
      when `k` lies inside a token. */
  function Lex(src: string, i: nat, m: Mode, k: nat, alnum: char -> bool): (r: Option<Mode>)
    requires i <= |src| && k <= |src| && Proper(m)
    ensures r.Some? ==> Proper(r.value)
    decreases |src| - i
  {
    if i == k then Some(m)
    else if i > k then None
    else
      var t := Step(src, i, m, alnum);
      Lex(src, i + t.len, t.next, k, alnum)
  }

  function ModeAt(src: string, start: Mode, k: nat, alnum: char -> bool): (r: Option<Mode>)
    requires k <= |src| && Proper(start)
    ensures r.Some? ==> Proper(r.value)
  {
    Lex(src, 0, start, k, alnum)
  }

  // ---------- Blanking, position by position ----------

  /** A token keeps its first character when it is plain code or, in any other
      mode, a newline. */
  predicate Keeps(src: string, i: nat, m: Mode, alnum: char -> bool)
    requires i < |src|
  {
    if m.Code? then CodeStep(src, i, alnum) == Token(1, Code) else src[i] == '\n'
  }

  /** A position keeps its character when a token starts there that keeps it. */
  predicate Shown(src: string, start: Mode, k: nat, alnum: char -> bool)
    requires k < |src| && Proper(start)
  {
    var m := ModeAt(src, start, k, alnum);
    m.Some? && Keeps(src, k, m.value, alnum)
  }

  /** Blanking from a given mode: every position keeps its character or turns into a space. */
  function BlankFrom(src: string, start: Mode, alnum: char -> bool): string
    requires Proper(start)
  {
    seq(|src|, k requires 0 <= k < |src| => if Shown(src, start, k, alnum) then src[k] else ' ')
  }

  function Blank(src: string, alnum: char -> bool): string {
    BlankFrom(src, Code, alnum)
  }

  lemma {:induction false} LexThrough(src: string, i: nat, m: Mode, j: nat, k: nat, alnum: char -> bool)
    requires i <= j <= k <= |src| && Proper(m)
    requires Lex(src, i, m, j, alnum).Some?
    ensures Lex(src, i, m, k, alnum) == Lex(src, j, Lex(src, i, m, j, alnum).value, k, alnum)
    decreases |src| - i
  {
    if i < j {
      var t := Step(src, i, m, alnum);
      LexThrough(src, i + t.len, t.next, j, k, alnum);
    }
  }

  /** Past a token boundary, the next boundary is the end of its token. */
  lemma TokenSpan(src: string, start: Mode, i: nat, k: nat, alnum: char -> bool)
    requires Proper(start) && i < |src| && ModeAt(src, start, i, alnum).Some?
    requires i < k <= i + Step(src, i, ModeAt(src, start, i, alnum).value, alnum).len
    ensures var t := Step(src, i, ModeAt(src, start, i, alnum).value, alnum);
            ModeAt(src, start, k, alnum) == if k == i + t.len then Some(t.next) else None
  {
    LexThrough(src, 0, start, i, k, alnum);
  }

  // ---------- The script's loop ----------

  function Spaces(n: nat): (s: string)
    ensures |s| == n
    ensures forall k :: 0 <= k < n ==> s[k] == ' '
  {
    seq(n, _ => ' ')
  }

  /** The output so far is the blanking up to `i`, where the lexer is in mode `m`. */
  ghost predicate Synced(src: string, out: string, i: nat, m: Mode, alnum: char -> bool) {
    && |out| == i <= |src| && Proper(m) && ModeAt(src, Code, i, alnum) == Some(m)
    && forall k :: 0 <= k < i ==> out[k] == if Shown(src, Code, k, alnum) then src[k] else ' '
  }

  /** What the token at `i` leaves of itself: its first character if that is
      shown, and spaces. */
  predicate Leaves(src: string, i: nat, m: Mode, alnum: char -> bool, chunk: string)
    requires i < |src| && Proper(m)
  {
    && |chunk| == Step(src, i, m, alnum).len
    && chunk[0] == (if Keeps(src, i, m, alnum) then src[i] else ' ')
    && forall k :: 1 <= k < |chunk| ==> chunk[k] == ' '
  }

  lemma TokenLeft(src: string, out: string, i: nat, m: Mode, chunk: string, alnum: char -> bool)
    requires i < |src| && Synced(src, out, i, m, alnum) && Leaves(src, i, m, alnum, chunk)
    ensures var t := Step(src, i, m, alnum); Synced(src, out + chunk, i + t.len, t.next, alnum)
  {
    var t := Step(src, i, m, alnum);
    forall k | i < k <= i + t.len
      ensures ModeAt(src, Code, k, alnum) == if k == i + t.len then Some(t.next) else None
    {
      TokenSpan(src, Code, i, k, alnum);
    }
  }

  /** The script's variables: those that tell the mode. */
  datatype Flags = Flags(blockDepth: nat, inLineComment: bool, inString: bool, rawHashes: string)

  /** The flags stand for the mode. */
  ghost predicate Stands(f: Flags, m: Mode) {
    && Proper(m)
    && (f.inLineComment <==> m.LineComment?)
    && (if m.Block? then f.blockDepth == m.depth else f.blockDepth == 0)
    && (f.inString <==> m.InString?)
    && f.rawHashes == if m.Raw? then Marker(m.stray, m.hashes) else ""
  }

  method StripNonCode(src: string, alnum: char -> bool) returns (out: string)
    ensures out == Blank(src, alnum)
  {
    out := "";
    var i := 0;
    var flags := Flags(0, false, false, "");
    ghost var mode := Code;
    while i < |src|
      invariant Synced(src, out, i, mode, alnum) && Stands(flags, mode)
    {
      var chunk;
      chunk, flags := StripToken(src, i, flags, mode, alnum);
      TokenLeft(src, out, i, mode, chunk, alnum);
      mode := Step(src, i, mode, alnum).next;
      out := out + chunk;
      i := i + |chunk|;
    }
  }

  /** One pass of the loop: what it appends, by as much as it advances. */
  method StripToken(src: string, i: nat, f: Flags, ghost mode: Mode, alnum: char -> bool)
    returns (chunk: string, g: Flags)
    requires i < |src| && Stands(f, mode)
    ensures Leaves(src, i, mode, alnum, chunk) && Stands(g, Step(src, i, mode, alnum).next)
  {
    var ch := src[i];
    if f.inLineComment {
      if ch == '\n' {
        return "\n", f.(inLineComment := false);
      }
      return " ", f;
    }
    if f.blockDepth > 0 {
      if Pair(src, i, '/', '*') {
        return "  ", f.(blockDepth := f.blockDepth + 1);
      }
      if Pair(src, i, '*', '/') {
        return "  ", f.(blockDepth := f.blockDepth - 1);
      }
      return (if ch == '\n' then "\n" else " "), f;
    }
    if f.inString {
      if ch == '\\' && i + 1 < |src| {
        return "  ", f;
      }
      if ch == '"' {
        return " ", f.(inString := false);
      }
      return (if ch == '\n' then "\n" else " "), f;
    }
    if f.rawHashes != "" {
      ClosesMeaning(src, i, mode.stray, mode.hashes);
      if ch == '"' && StartsWith(src, f.rawHashes, i + 1) {
        return " " + Spaces(|f.rawHashes|), f.(rawHashes := "");
      }
      return (if ch == '\n' then "\n" else " "), f;
    }
    var prefix := RawPrefixLength(src, i, alnum);
    if prefix > 0 {
      DelimiterMeaning(src, i, prefix);
      return Spaces(prefix), f.(rawHashes := Delimiter(src, i, prefix));
    }
    if Pair(src, i, '/', '/') {
      return "  ", f.(inLineComment := true);
    }
    if Pair(src, i, '/', '*') {
      return "  ", f.(blockDepth := 1);
    }
    if ch == '"' {
      return " ", f.(inString := true);
    }
    return [ch], f;
  }
}
