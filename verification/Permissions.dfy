/** Merging permission lists given on the command line into the configuration. */
module Permissions {
  import opened Text

  // ---------- Entries ----------

  /** The pieces that are not blank, trimmed. */
  function NonBlank(pieces: seq<string>): seq<string> {
    if pieces == [] then []
    else
      var piece := Trim(pieces[0]);
      (if piece == "" then [] else [piece]) + NonBlank(pieces[1..])
  }

  function Entries(values: seq<string>): seq<string> {
    if values == [] then [] else NonBlank(Split(values[0], ',')) + Entries(values[1..])
  }

  lemma {:induction false} NonBlankConcat(x: seq<string>, y: seq<string>)
    ensures NonBlank(x + y) == NonBlank(x) + NonBlank(y)
  {
    if x == [] {
      assert x + y == y;
    } else {
      assert (x + y)[1..] == x[1..] + y;
      NonBlankConcat(x[1..], y);
    }
  }

  lemma EntriesStep(value: string, more: seq<string>)
    ensures Entries([value] + more) == NonBlank(Split(value, ',')) + Entries(more)
  {
    assert ([value] + more)[1..] == more;
  }

  /** `a,b` as one argument means the same as `a` and `b` as two. */
  lemma {:induction false} CommaSeparates(a: string, b: string, more: seq<string>)
    ensures Entries([a + "," + b] + more) == Entries([a, b] + more)
  {
    EntriesStep(a + "," + b, more);
    SplitAt(a, b, ',');
    NonBlankConcat(Split(a, ','), Split(b, ','));
    EntriesStep(b, more);
    EntriesStep(a, [b] + more);
    Associative(NonBlank(Split(a, ',')), NonBlank(Split(b, ',')), Entries(more));
    Associative([a], [b], more);
  }

  /** An argument without a comma is one entry, trimmed, unless it is blank. */
  lemma SingleEntry(value: string)
    requires ',' !in value
    ensures Entries([value]) == if Trim(value) == "" then [] else [Trim(value)]
  {
    SplitNothing(value, ',');
    EntriesStep(value, []);
    assert [value] + [] == [value] && Entries([]) == [];
    assert NonBlank([value]) == (if Trim(value) == "" then [] else [Trim(value)]) + NonBlank([]);
    assert [value][1..] == [] && NonBlank([]) == [];
  }

  /** An entry is never blank, holds no comma, and has no white space at either end. */
  predicate Clean(entry: string) {
    entry != "" && ',' !in entry && !IsWhitespace(entry[0]) && !IsWhitespace(entry[|entry| - 1])
  }

  lemma {:induction false} TrimIsInside(text: string)
    ensures ',' !in text ==> ',' !in Trim(text)
    ensures Trim(text) != "" ==> !IsWhitespace(Trim(text)[0]) && !IsWhitespace(Trim(text)[|Trim(text)| - 1])
  {
    if text != "" && IsWhitespace(text[0]) {
      TrimIsInside(text[1..]);
    }
  }

  lemma {:induction false} NonBlankIsClean(pieces: seq<string>)
    requires forall i :: 0 <= i < |pieces| ==> ',' !in pieces[i]
    ensures forall k :: 0 <= k < |NonBlank(pieces)| ==> Clean(NonBlank(pieces)[k])
  {
    if pieces != [] {
      TrimIsInside(pieces[0]);
      NonBlankIsClean(pieces[1..]);
    }
  }

  lemma {:induction false} EntriesAreClean(values: seq<string>)
    ensures forall k :: 0 <= k < |Entries(values)| ==> Clean(Entries(values)[k])
  {
    if values != [] {
      PartsHoldNoSeparator(values[0], ',');
      NonBlankIsClean(Split(values[0], ','));
      EntriesAreClean(values[1..]);
    }
  }

  lemma Associative<T>(x: seq<T>, y: seq<T>, z: seq<T>)
    ensures (x + y) + z == x + (y + z)
  {
  }

  // ---------- Merging ----------

  /** An entry worth adding: new to the target and not seen earlier in the list. */
  predicate FirstSeen(target: seq<string>, entries: seq<string>, i: nat)
    requires i < |entries|
  {
    entries[i] !in target && entries[i] !in entries[..i]
  }

  /** The entries worth adding among the first `n`, in order. */
  function Fresh(target: seq<string>, entries: seq<string>, n: nat): seq<string>
    requires n <= |entries|
  {
    if n == 0 then []
    else if FirstSeen(target, entries, n - 1) then Fresh(target, entries, n - 1) + [entries[n - 1]]
    else Fresh(target, entries, n - 1)
  }

  lemma {:induction false} FreshMembers(target: seq<string>, entries: seq<string>, n: nat, x: string)
    requires n <= |entries|
    ensures x in Fresh(target, entries, n) <==> x in entries[..n] && x !in target
  {
    if n > 0 {
      FreshMembers(target, entries, n - 1, x);
      assert entries[..n] == entries[..n - 1] + [entries[n - 1]];
    }
  }

  lemma {:induction false} NothingFresh(target: seq<string>, entries: seq<string>, n: nat)
    requires n <= |entries| && forall i :: 0 <= i < |entries| ==> entries[i] in target
    ensures Fresh(target, entries, n) == []
  {
    if n > 0 {
      NothingFresh(target, entries, n - 1);
    }
  }

  /** `target` extended by the first occurrences of what it lacks. */
  function Merged(target: seq<string>, entries: seq<string>): (result: seq<string>)
    ensures target <= result
  {
    target + Fresh(target, entries, |entries|)
  }

  /** Merging the same entries again adds nothing. */
  lemma MergedIsIdempotent(target: seq<string>, entries: seq<string>)
    ensures Merged(Merged(target, entries), entries) == Merged(target, entries)
  {
    var once := Merged(target, entries);
    forall i | 0 <= i < |entries| ensures entries[i] in once {
      FreshMembers(target, entries, |entries|, entries[i]);
      assert entries[i] in entries[..|entries|];
    }
    NothingFresh(once, entries, |entries|);
    assert once + [] == once;
  }

  /** From position `from` on, every entry is new. */
  predicate AddedOnce(from: nat, result: seq<string>) {
    forall i, j :: from <= i < |result| && 0 <= j < i ==> result[j] != result[i]
  }

  /** The merged list has what either list has, and adds nothing twice. */
  lemma MergedMembers(target: seq<string>, entries: seq<string>)
    ensures forall x :: x in Merged(target, entries) <==> x in target || x in entries
    ensures AddedOnce(|target|, Merged(target, entries))
  {
    forall x ensures x in Merged(target, entries) <==> x in target || x in entries {
      FreshMembers(target, entries, |entries|, x);
      assert entries[..|entries|] == entries;
    }
    NoneTwice(target, entries, |entries|);
  }

  lemma {:induction false} NoneTwice(target: seq<string>, entries: seq<string>, n: nat)
    requires n <= |entries|
    ensures AddedOnce(|target|, target + Fresh(target, entries, n))
  {
    if n > 0 {
      NoneTwice(target, entries, n - 1);
      var before := target + Fresh(target, entries, n - 1);
      if FirstSeen(target, entries, n - 1) {
        FreshMembers(target, entries, n - 1, entries[n - 1]);
        assert entries[n - 1] !in before;
        assert target + Fresh(target, entries, n) == before + [entries[n - 1]];
      }
    }
  }

  // ---------- The configuration ----------

  class Config {
    var allow: seq<string>
    var deny: seq<string>

    constructor (allow: seq<string>, deny: seq<string>)
      ensures this.allow == allow && this.deny == deny
    {
      this.allow, this.deny := allow, deny;
    }

    method ApplyCliPermissionOverrides(allowedTools: seq<string>, disallowedTools: seq<string>)
      modifies this
      ensures allow == Merged(old(allow), Entries(allowedTools))
      ensures deny == Merged(old(deny), Entries(disallowedTools))
    {
      allow := PushAll(allow, Entries(allowedTools));
      deny := PushAll(deny, Entries(disallowedTools));
    }
  }

  method PushUnique(target: seq<string>, entry: string) returns (result: seq<string>)
    ensures result == if entry in target then target else target + [entry]
  {
    result := target;
    if !exists i :: 0 <= i < |target| && target[i] == entry {
      result := result + [entry];
    }
  }

  method PushAll(target: seq<string>, entries: seq<string>) returns (result: seq<string>)
    ensures result == Merged(target, entries)
  {
    result := target;
    assert target + [] == target;
    for i := 0 to |entries|
      invariant result == target + Fresh(target, entries, i)
    {
      FreshMembers(target, entries, i, entries[i]);
      assert entries[i] in result <==> !FirstSeen(target, entries, i);
      result := PushUnique(result, entries[i]);
    }
  }
}
