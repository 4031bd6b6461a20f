/** Trimming, splitting and joining texts. */
module Text {

  /** Rust's `char::is_whitespace`: the Unicode White_Space property. */
  predicate IsWhitespace(c: char) {
    var code := c as int;
    0x9 <= code <= 0xD || code in {0x20, 0x85, 0xA0, 0x1680, 0x2028, 0x2029, 0x202F, 0x205F, 0x3000}
    || 0x2000 <= code <= 0x200A
  }

  /** The longest prefix that does not end in whitespace. */
  function TrimEnd(text: string): (trimmed: string)
    ensures trimmed <= text
    ensures trimmed != "" ==> !IsWhitespace(trimmed[|trimmed| - 1])
    ensures forall i :: |trimmed| <= i < |text| ==> IsWhitespace(text[i])
  {
    if text == "" || !IsWhitespace(text[|text| - 1]) then text else TrimEnd(text[..|text| - 1])
  }

  /** `text` without the whitespace at either end. */
  function Trim(text: string): string {
    if text != "" && IsWhitespace(text[0]) then Trim(text[1..]) else TrimEnd(text)
  }

  /** The parts with the separator between them. */
  function Join(parts: seq<string>, separator: string): string {
    if parts == [] then ""
    else if |parts| == 1 then parts[0]
    else parts[0] + separator + Join(parts[1..], separator)
  }

  /** `text.split(c)`, which always yields at least one part. */
  function Split(text: string, c: char): (parts: seq<string>)
    ensures parts != []
  {
    if text == "" then [""]
    else
      var rest := Split(text[1..], c);
      if text[0] == c then [""] + rest else [[text[0]] + rest[0]] + rest[1..]
  }

  /** Splitting at a separator splits both sides of it. */
  lemma {:induction false} SplitAt(a: string, b: string, c: char)
    ensures Split(a + [c] + b, c) == Split(a, c) + Split(b, c)
  {
    var s := a + [c] + b;
    if a == "" {
      assert s[1..] == b;
    } else {
      assert s[1..] == a[1..] + [c] + b;
      SplitAt(a[1..], b, c);
    }
  }

  lemma {:induction false} SplitNothing(part: string, c: char)
    requires c !in part
    ensures Split(part, c) == [part]
  {
    if part != "" {
      SplitNothing(part[1..], c);
      assert part == [part[0]] + part[1..];
    }
  }

  lemma {:induction false} PartsHoldNoSeparator(text: string, c: char)
    ensures forall i :: 0 <= i < |Split(text, c)| ==> c !in Split(text, c)[i]
  {
    if text != "" {
      PartsHoldNoSeparator(text[1..], c);
    }
  }

  /** Trimming takes white space off both ends and nothing else. */
  lemma {:induction false} TrimMeaning(text: string) returns (before: string, after: string)
    ensures text == before + Trim(text) + after
    ensures forall k :: 0 <= k < |before| ==> IsWhitespace(before[k])
    ensures forall k :: 0 <= k < |after| ==> IsWhitespace(after[k])
    ensures Trim(text) != "" ==> !IsWhitespace(Trim(text)[0]) && !IsWhitespace(Trim(text)[|Trim(text)| - 1])
  {
    if text != "" && IsWhitespace(text[0]) {
      before, after := TrimMeaning(text[1..]);
      before := [text[0]] + before;
      assert text == [text[0]] + text[1..];
    } else {
      before, after := "", text[|TrimEnd(text)|..];
    }
  }
}
