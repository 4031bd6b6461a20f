/** The table of configuration fields: a map from paths to entries that every
    visit of a path refines. */
module FieldTable {
  import opened Names

  datatype Entry = Entry(path: string, typeName: string, required: bool, default_: string, description: string)

  const UNKNOWN := "unknown"

  // ---------- What a history of entries says about a path ----------

  /** The first value other than `void` that an entry of the path has. */
  function FirstValue(seen: seq<Entry>, n: nat, path: string, read: Entry -> string, void: string): string
    requires n <= |seen|
  {
    if n == 0 then void
    else
      var earlier := FirstValue(seen, n - 1, path, read, void);
      if earlier == void && seen[n - 1].path == path then read(seen[n - 1]) else earlier
  }

  predicate Visited(seen: seq<Entry>, n: nat, path: string)
    requires n <= |seen|
  {
    exists i :: 0 <= i < n && seen[i].path == path
  }

  predicate EverRequired(seen: seq<Entry>, n: nat, path: string)
    requires n <= |seen|
  {
    exists i :: 0 <= i < n && seen[i].path == path && seen[i].required
  }

  function TypeOf(e: Entry): string { e.typeName }

  function DefaultOf(e: Entry): string { e.default_ }

  function DescriptionOf(e: Entry): string { e.description }

  /** The entry a history gives a path: required if ever required, with the
      first known type and the first default and description that are not empty. */
  function Summary(seen: seq<Entry>, n: nat, path: string): Entry
    requires n <= |seen|
  {
    Entry(path,
          FirstValue(seen, n, path, TypeOf, UNKNOWN),
          EverRequired(seen, n, path),
          FirstValue(seen, n, path, DefaultOf, ""),
          FirstValue(seen, n, path, DescriptionOf, ""))
  }

  /** `FirstValue` is the value at the first position that has one. */
  lemma {:induction false} FirstValueMeaning(seen: seq<Entry>, n: nat, path: string, read: Entry -> string,
                                             void: string, value: string)
    requires n <= |seen| && value != void
    ensures FirstValue(seen, n, path, read, void) == value <==>
            exists i :: 0 <= i < n && seen[i].path == path && read(seen[i]) == value &&
                        forall j :: 0 <= j < i && seen[j].path == path ==> read(seen[j]) == void
  {
    if n > 0 {
      FirstValueMeaning(seen, n - 1, path, read, void, value);
      var earlier := FirstValue(seen, n - 1, path, read, void);
      if earlier == void {
        AllVoid(seen, n - 1, path, read, void);
      } else {
        FirstValueMeaning(seen, n - 1, path, read, void, earlier);
      }
    }
  }

  lemma {:induction false} AllVoid(seen: seq<Entry>, n: nat, path: string, read: Entry -> string, void: string)
    requires n <= |seen|
    ensures FirstValue(seen, n, path, read, void) == void <==>
            forall j :: 0 <= j < n && seen[j].path == path ==> read(seen[j]) == void
  {
    if n > 0 {
      AllVoid(seen, n - 1, path, read, void);
    }
  }

  lemma {:induction false} FirstValuePrefix(seen: seq<Entry>, e: Entry, n: nat, path: string, read: Entry -> string,
                                            void: string)
    requires n <= |seen|
    ensures FirstValue(seen + [e], n, path, read, void) == FirstValue(seen, n, path, read, void)
  {
    if n > 0 {
      FirstValuePrefix(seen, e, n - 1, path, read, void);
    }
  }

  /** One more entry changes the summary of its own path only. */
  lemma SummarySnoc(seen: seq<Entry>, e: Entry, path: string)
    ensures var before, after := Summary(seen, |seen|, path), Summary(seen + [e], |seen| + 1, path);
            && (path != e.path ==> after == before)
            && (path == e.path ==>
                  && after.typeName == (if before.typeName == UNKNOWN then e.typeName else before.typeName)
                  && after.required == (before.required || e.required)
                  && after.default_ == (if before.default_ == "" then e.default_ else before.default_)
                  && after.description == (if before.description == "" then e.description else before.description))
    ensures Visited(seen + [e], |seen| + 1, path) <==> Visited(seen, |seen|, path) || path == e.path
  {
    var longer := seen + [e];
    FirstValuePrefix(seen, e, |seen|, path, TypeOf, UNKNOWN);
    FirstValuePrefix(seen, e, |seen|, path, DefaultOf, "");
    FirstValuePrefix(seen, e, |seen|, path, DescriptionOf, "");
    assert longer[|seen|] == e;
    assert forall i :: 0 <= i < |seen| ==> longer[i] == seen[i];
    if EverRequired(seen, |seen|, path) {
      var i :| 0 <= i < |seen| && seen[i].path == path && seen[i].required;
      assert longer[i].required;
    }
    if Visited(seen, |seen|, path) {
      var i :| 0 <= i < |seen| && seen[i].path == path;
      assert longer[i].path == path;
    }
  }

  lemma {:induction false} UnvisitedSummary(seen: seq<Entry>, n: nat, path: string)
    requires n <= |seen| && !Visited(seen, n, path)
    ensures Summary(seen, n, path) == Entry(path, UNKNOWN, false, "", "")
  {
    AllVoid(seen, n, path, TypeOf, UNKNOWN);
    AllVoid(seen, n, path, DefaultOf, "");
    AllVoid(seen, n, path, DescriptionOf, "");
  }

  /** Every visited path, and no other, holds the summary of its history. */
  ghost predicate Holds(fieldMap: map<string, Entry>, seen: seq<Entry>) {
    && (forall path :: path in fieldMap <==> Visited(seen, |seen|, path))
    && (forall path :: path in fieldMap ==> fieldMap[path] == Summary(seen, |seen|, path))
  }

  lemma HoldsSnoc(fieldMap: map<string, Entry>, seen: seq<Entry>, e: Entry)
    requires Holds(fieldMap, seen)
    ensures Holds(fieldMap[e.path := Summary(seen + [e], |seen| + 1, e.path)], seen + [e])
  {
    forall path {
      SummarySnoc(seen, e, path);
    }
  }

  /** `entries` lists the nonempty paths ever visited, each once and in
      increasing order, with the summary of its history. */
  ghost predicate Lists(entries: seq<Entry>, seen: seq<Entry>) {
    && (forall i, j :: 0 <= i < j < |entries| ==> Lt(entries[i].path, entries[j].path))
    && (forall i :: 0 <= i < |entries| ==> entries[i] == Summary(seen, |seen|, entries[i].path))
    && (forall path :: (path != "" && Visited(seen, |seen|, path)) <==>
                       exists i :: 0 <= i < |entries| && entries[i].path == path)
  }

  /** A row with a path is listed, as required if it is. */
  lemma RowIsListed(entries: seq<Entry>, seen: seq<Entry>, e: Entry)
    requires Lists(entries, seen) && e in seen && e.path != ""
    ensures exists i :: 0 <= i < |entries| && entries[i].path == e.path && (e.required ==> entries[i].required)
  {
    assert Visited(seen, |seen|, e.path);
    assert e.required ==> EverRequired(seen, |seen|, e.path);
    var i :| 0 <= i < |entries| && entries[i].path == e.path;
  }

  // ---------- The table ----------

  class Table {
    var fieldMap: map<string, Entry>
    ghost var seen: seq<Entry>

    ghost predicate Valid()
      reads this
    {
      Holds(fieldMap, seen)
    }

    constructor ()
      ensures Valid() && seen == []
    {
      fieldMap := map[];
      seen := [];
    }

    method Upsert(entry: Entry)
      requires Valid()
      modifies this
      ensures Valid() && seen == old(seen) + [entry]
    {
      HoldsSnoc(fieldMap, seen, entry);
      SummarySnoc(seen, entry, entry.path);
      if entry.path !in fieldMap {
        UnvisitedSummary(seen, |seen|, entry.path);
        fieldMap := fieldMap[entry.path := entry];
      } else {
        var existing := fieldMap[entry.path];
        var description := existing.description;
        if description == "" && entry.description != "" {
          description := entry.description;
        }
        var default_ := existing.default_;
        if default_ == "" && entry.default_ != "" {
          default_ := entry.default_;
        }
        var typeName := existing.typeName;
        if typeName == UNKNOWN && entry.typeName != UNKNOWN {
          typeName := entry.typeName;
        }
        fieldMap := fieldMap[entry.path :=
          Entry(existing.path, typeName, existing.required || entry.required, default_, description)];
      }
      seen := seen + [entry];
    }

    method Entries() returns (entries: seq<Entry>)
      requires Valid()
      ensures Lists(entries, seen)
    {
      var paths := Sorted(fieldMap.Keys - {""});
      ListedPaths(paths, fieldMap.Keys - {""});
      entries := [];
      for i := 0 to |paths|
        invariant |entries| == i
        invariant forall k :: 0 <= k < i ==> entries[k] == fieldMap[paths[k]]
      {
        entries := entries + [fieldMap[paths[i]]];
      }
      ListedEntries(entries, paths, fieldMap, seen);
    }
  }

  /** Sorted paths with the entries held for them list a history. */
  lemma ListedEntries(entries: seq<Entry>, paths: seq<string>, fieldMap: map<string, Entry>, seen: seq<Entry>)
    requires Holds(fieldMap, seen) && StrictlySorted(paths) && Elements(paths) == fieldMap.Keys - {""}
    requires |entries| == |paths|
    requires forall k :: 0 <= k < |paths| ==> paths[k] in fieldMap && entries[k] == fieldMap[paths[k]]
    ensures Lists(entries, seen)
  {
    ListedPaths(paths, fieldMap.Keys - {""});
    forall k | 0 <= k < |paths| ensures entries[k].path == paths[k] {
      assert fieldMap[paths[k]] == Summary(seen, |seen|, paths[k]);
    }
    forall path ensures (path != "" && Visited(seen, |seen|, path)) <==>
                        exists i :: 0 <= i < |entries| && entries[i].path == path {
      assert path in fieldMap.Keys - {""} <==> exists i :: 0 <= i < |paths| && paths[i] == path;
    }
  }

  lemma ListedPaths(paths: seq<string>, names: set<string>)
    requires Elements(paths) == names
    ensures forall i :: 0 <= i < |paths| ==> paths[i] in names
    ensures forall path :: path in names <==> exists i :: 0 <= i < |paths| && paths[i] == path
  {
    assert forall path :: path in Elements(paths) <==> path in paths;
  }
}
