/** JSON pointers as the schema resolver reads them.

    A pointer is `#` followed by `/segment` for every step, each segment escaped
    as section 4 of RFC 6901 says: `~` as `~0` and `/` as `~1`. */
module JsonPointer {
  import opened Names
  import opened Json
  import opened Text

  // ---------- Escaping ----------

  /** `s.replace(ab, c)` for a two-character pattern `ab`. */
  function Replace(s: string, a: char, b: char, c: char): string {
    if s == "" then ""
    else if |s| >= 2 && s[0] == a && s[1] == b then [c] + Replace(s[2..], a, b, c)
    else [s[0]] + Replace(s[1..], a, b, c)
  }

  function Decode(segment: string): string {
    Replace(Replace(segment, '~', '1', '/'), '~', '0', '~')
  }

  function Escape(c: char): string {
    if c == '~' then "~0" else if c == '/' then "~1" else [c]
  }

  function Encode(text: string): string {
    if text == "" then "" else Escape(text[0]) + Encode(text[1..])
  }

  /** No bare `/`, and every `~` starts `~0` or `~1`. */
  predicate WellEscaped(s: string) {
    if s == "" then true
    else if s[0] == '~' then |s| >= 2 && (s[1] == '0' || s[1] == '1') && WellEscaped(s[2..])
    else s[0] != '/' && WellEscaped(s[1..])
  }

  lemma ReplaceOther(x: char, rest: string, a: char, b: char, c: char)
    requires x != a
    ensures Replace([x] + rest, a, b, c) == [x] + Replace(rest, a, b, c)
  {
    assert ([x] + rest)[1..] == rest;
  }

  lemma ReplaceHit(rest: string, a: char, b: char, c: char)
    ensures Replace([a, b] + rest, a, b, c) == [c] + Replace(rest, a, b, c)
  {
    assert ([a, b] + rest)[2..] == rest;
  }

  lemma ReplaceMiss(y: char, rest: string, a: char, b: char, c: char)
    requires y != b && y != a
    ensures Replace([a, y] + rest, a, b, c) == [a, y] + Replace(rest, a, b, c)
  {
    assert ([a, y] + rest)[1..] == [y] + rest;
    ReplaceOther(y, rest, a, b, c);
    assert [a] + ([y] + Replace(rest, a, b, c)) == [a, y] + Replace(rest, a, b, c);
  }

  /** Decoding undoes one escape at a time. */
  lemma DecodeEscape(c: char, rest: string)
    ensures Decode(Escape(c) + rest) == [c] + Decode(rest)
  {
    var once := Replace(rest, '~', '1', '/');
    if c == '~' {
      ReplaceMiss('0', rest, '~', '1', '/');
      ReplaceHit(once, '~', '0', '~');
    } else if c == '/' {
      ReplaceHit(rest, '~', '1', '/');
      ReplaceOther('/', once, '~', '0', '~');
    } else {
      ReplaceOther(c, rest, '~', '1', '/');
      ReplaceOther(c, once, '~', '0', '~');
    }
  }

  lemma {:induction false} DecodeEncode(text: string)
    ensures Decode(Encode(text)) == text
  {
    if text != "" {
      DecodeEncode(text[1..]);
      DecodeEscape(text[0], Encode(text[1..]));
      assert text == [text[0]] + text[1..];
    }
  }

  lemma {:induction false} EncodeIsWellEscaped(text: string)
    ensures WellEscaped(Encode(text))
    ensures '/' !in Encode(text)
  {
    if text != "" {
      EncodeIsWellEscaped(text[1..]);
      var e, rest := Escape(text[0]), Encode(text[1..]);
      assert (e + rest)[|e|..] == rest;
    }
  }

  /** A segment survives decoding and encoding exactly when it is well escaped:
      the well-escaped texts are the segments there are. */
  lemma EncodeDecode(s: string)
    ensures Encode(Decode(s)) == s <==> WellEscaped(s)
  {
    EncodeIsWellEscaped(Decode(s));
    if WellEscaped(s) {
      WellEscapedRoundTrip(s);
    }
  }

  lemma {:induction false} WellEscapedRoundTrip(s: string)
    requires WellEscaped(s)
    ensures Encode(Decode(s)) == s
  {
    if s != "" {
      var c := if s[0] != '~' then s[0] else if s[1] == '0' then '~' else '/';
      var rest := s[|Escape(c)|..];
      assert s == Escape(c) + rest;
      WellEscapedRoundTrip(rest);
      DecodeEscape(c, rest);
      assert ([c] + Decode(rest))[1..] == Decode(rest);
    }
  }

  // ---------- The order of decoding ----------

  /** Undoing `~0` before `~1`. */
  function DecodeSwapped(segment: string): string {
    Replace(Replace(segment, '~', '0', '~'), '~', '1', '/')
  }

  predicate Contains(s: string, a: char, b: char) {
    |s| >= 2 && ((s[0] == a && s[1] == b) || Contains(s[1..], a, b))
  }

  /** `text` with only `/` escaped. */
  function EscapeSlashes(text: string): string {
    if text == "" then "" else (if text[0] == '/' then "~1" else [text[0]]) + EscapeSlashes(text[1..])
  }

  lemma {:induction false} TildesFirst(text: string)
    ensures Replace(Encode(text), '~', '0', '~') == EscapeSlashes(text)
  {
    if text != "" {
      TildesFirst(text[1..]);
      var rest := Encode(text[1..]);
      if text[0] == '~' {
        ReplaceHit(rest, '~', '0', '~');
      } else if text[0] == '/' {
        ReplaceMiss('1', rest, '~', '0', '~');
      } else {
        ReplaceOther(text[0], rest, '~', '0', '~');
      }
    }
  }

  function Undone(text: string): string {
    Replace(EscapeSlashes(text), '~', '1', '/')
  }

  lemma EscapeStep(c: char, tail: string)
    ensures EscapeSlashes([c] + tail) == (if c == '/' then "~1" else [c]) + EscapeSlashes(tail)
  {
    assert ([c] + tail)[1..] == tail;
  }

  lemma UndoneOther(c: char, tail: string)
    requires c != '~'
    ensures Undone([c] + tail) == [c] + Undone(tail)
  {
    EscapeStep(c, tail);
    if c == '/' {
      ReplaceHit(EscapeSlashes(tail), '~', '1', '/');
    } else {
      ReplaceOther(c, EscapeSlashes(tail), '~', '1', '/');
    }
  }

  lemma UndoneTilde(tail: string)
    requires tail == "" || tail[0] != '1'
    ensures Undone(['~'] + tail) == ['~'] + Undone(tail)
  {
    EscapeStep('~', tail);
    var rest := EscapeSlashes(tail);
    assert (['~'] + rest)[1..] == rest;
  }

  lemma UndoneTildeOne(more: string)
    ensures Undone(['~', '1'] + more) == ['/'] + Undone(more)
  {
    EscapeStep('1', more);
    EscapeStep('~', ['1'] + more);
    assert ['~'] + (['1'] + more) == ['~', '1'] + more;
    assert ['~'] + (['1'] + EscapeSlashes(more)) == ['~', '1'] + EscapeSlashes(more);
    ReplaceHit(EscapeSlashes(more), '~', '1', '/');
  }

  lemma {:induction false} SlashesSecond(text: string)
    ensures |Undone(text)| <= |text|
    ensures Undone(text) == text <==> !Contains(text, '~', '1')
    decreases |text|
  {
    if text != "" {
      var tail := text[1..];
      assert text == [text[0]] + tail;
      SlashesSecond(tail);
      if text[0] != '~' {
        UndoneOther(text[0], tail);
      } else if tail == "" || tail[0] != '1' {
        UndoneTilde(tail);
      } else {
        assert text == ['~', '1'] + tail[1..];
        UndoneTildeOne(tail[1..]);
        SlashesSecond(tail[1..]);
      }
    }
  }

  /** In the other order a segment comes back wrong exactly when it contains `~1`. */
  lemma SwappedOrderFails(text: string)
    ensures DecodeSwapped(Encode(text)) == text <==> !Contains(text, '~', '1')
  {
    TildesFirst(text);
    SlashesSecond(text);
  }

  // ---------- Splitting ----------

  lemma {:induction false} SplitJoin(parts: seq<string>)
    requires parts != [] && forall i :: 0 <= i < |parts| ==> '/' !in parts[i]
    ensures Split(Join(parts, "/"), '/') == parts
  {
    SplitNothing(parts[0], '/');
    if |parts| > 1 {
      SplitJoin(parts[1..]);
      SplitAt(parts[0], Join(parts[1..], "/"), '/');
    }
  }

  // ---------- Resolving ----------

  function EncodeAll(path: seq<string>): (parts: seq<string>)
    ensures |parts| == |path|
    ensures forall i :: 0 <= i < |path| ==> parts[i] == Encode(path[i])
  {
    seq(|path|, i requires 0 <= i < |path| => Encode(path[i]))
  }

  function DecodeAll(parts: seq<string>): (path: seq<string>)
    ensures |path| == |parts|
    ensures forall i :: 0 <= i < |parts| ==> path[i] == Decode(parts[i])
  {
    seq(|parts|, i requires 0 <= i < |parts| => Decode(parts[i]))
  }

  /** The pointer to a place in a document, as a URI fragment. */
  function PointerTo(path: seq<string>): string {
    if path == [] then "#" else "#/" + Join(EncodeAll(path), "/")
  }

  // The resolver indexes whatever it has reached with the text of the segment,
  // which only an object answers.

  /** The value the resolver's loop ends at; None where indexing raises. */
  function Follow(value: Json, path: seq<string>): Option<Json> {
    if path == [] then Some(value)
    else if value.Obj? && path[0] in value.fields then Follow(value.fields[path[0]], path[1..])
    else None
  }

  /** What the resolver finds; None stands for the exception it raises. */
  function Resolve(document: Json, pointer: string): Option<Json> {
    if |pointer| < 2 || pointer[0] != '#' || pointer[1] != '/' then None
    else Follow(document, DecodeAll(Split(pointer[2..], '/')))
  }

  method ResolvePointer(document: Json, pointer: string) returns (found: Option<Json>)
    ensures found == Resolve(document, pointer)
  {
    if |pointer| < 2 || pointer[0] != '#' || pointer[1] != '/' {
      return None;
    }
    var current := document;
    var segments := Split(pointer[2..], '/');
    ghost var path := DecodeAll(segments);
    for i := 0 to |segments|
      invariant Follow(document, path) == Follow(current, path[i..])
    {
      var key := Decode(segments[i]);
      assert path[i..][0] == key && path[i..][1..] == path[i + 1..];
      if !(current.Obj? && key in current.fields) {
        return None;
      }
      current := current.fields[key];
    }
    found := Some(current);
  }

  lemma PointerRoundTrip(path: seq<string>)
    requires path != []
    ensures DecodeAll(Split(PointerTo(path)[2..], '/')) == path
  {
    var parts := EncodeAll(path);
    forall i | 0 <= i < |parts| ensures '/' !in parts[i] && Decode(parts[i]) == path[i] {
      EncodeIsWellEscaped(path[i]);
      DecodeEncode(path[i]);
    }
    SplitJoin(parts);
    assert PointerTo(path)[2..] == Join(parts, "/");
  }

  // ---------- What a pointer denotes ----------

  predicate IsDigit(c: char) {
    '0' <= c <= '9'
  }

  /** An array index: digits without a leading zero. */
  predicate IsIndex(token: string) {
    token != "" && (forall k :: 0 <= k < |token| ==> IsDigit(token[k])) && (token[0] == '0' ==> |token| == 1)
  }

  function IndexValue(digits: string): nat
    requires forall k :: 0 <= k < |digits| ==> IsDigit(digits[k])
  {
    if digits == "" then 0
    else
      assert IsDigit(digits[|digits| - 1]);
      IndexValue(digits[..|digits| - 1]) * 10 + (digits[|digits| - 1] as int - '0' as int)
  }

  /** Evaluation as in section 4 of RFC 6901: a token names a member of an object
      or, if it is an index in range, an element of an array. */
  function Evaluate(value: Json, path: seq<string>): Option<Json> {
    if path == [] then Some(value)
    else
      match value
      case Obj(fields) => if path[0] in fields then Evaluate(fields[path[0]], path[1..]) else None
      case Arr(items) =>
        if IsIndex(path[0]) && IndexValue(path[0]) < |items| then Evaluate(items[IndexValue(path[0])], path[1..]) else None
      case _ => None
  }

  /** Along the members the path names there is an array with path left over. */
  predicate EntersArray(value: Json, path: seq<string>) {
    path != [] &&
    (value.Arr? || (value.Obj? && path[0] in value.fields && EntersArray(value.fields[path[0]], path[1..])))
  }

  lemma {:induction false} FollowEvaluates(value: Json, path: seq<string>)
    ensures Follow(value, path) == Evaluate(value, path) <==>
            !(EntersArray(value, path) && Evaluate(value, path).Some?)
    ensures EntersArray(value, path) ==> Follow(value, path).None?
  {
    if path != [] && value.Obj? && path[0] in value.fields {
      FollowEvaluates(value.fields[path[0]], path[1..]);
    }
  }

  /** Only texts that start with `#/` resolve, each to what its parts, decoded, lead to. */
  lemma ResolvesFragmentsOnly(document: Json, pointer: string, parts: seq<string>)
    requires parts != [] && forall i :: 0 <= i < |parts| ==> '/' !in parts[i]
    ensures !("#/" <= pointer) ==> Resolve(document, pointer).None?
    ensures pointer == "#/" + Join(parts, "/") ==> Resolve(document, pointer) == Follow(document, DecodeAll(parts))
  {
    SplitJoin(parts);
    if pointer == "#/" + Join(parts, "/") {
      assert pointer[2..] == Join(parts, "/");
    }
  }

  /** The pointer to a path, whatever characters its names contain, resolves to
      what it denotes, value or nothing, exactly when it does not point at the
      whole document and reaches what it denotes without entering an array. */
  lemma ResolvesWhatItDenotes(document: Json, path: seq<string>)
    ensures Resolve(document, PointerTo(path)) == Evaluate(document, path) <==>
            path != [] && !(EntersArray(document, path) && Evaluate(document, path).Some?)
  {
    if path != [] {
      PointerRoundTrip(path);
      FollowEvaluates(document, path);
    }
  }

  /** `#/a/0` denotes the first element of `{"a": [x]}` and is not resolved. */
  lemma ElementIsNotResolved(x: Json)
    ensures var document := Obj(map["a" := Arr([x])]);
            && PointerTo(["a", "0"]) == "#/a/0"
            && Evaluate(document, ["a", "0"]) == Some(x)
            && Resolve(document, "#/a/0") == None
  {
    var document := Obj(map["a" := Arr([x])]);
    var path := ["a", "0"];
    assert EncodeAll(path) == path by {
      assert Encode("a") == "a" && Encode("0") == "0";
    }
    assert path[1..] == ["0"];
    assert Evaluate(Arr([x]), ["0"]) == Some(x) by {
      assert "0"[..0] == "" && IndexValue("0") == 0;
      assert ["0"][1..] == [];
    }
    ResolvesWhatItDenotes(document, path);
    PointerRoundTrip(path);
    FollowEvaluates(document, path);
    assert EntersArray(Arr([x]), ["0"]);
  }
}
