/** Walking a schema and recording every configuration field in the table.

    Formatting is a parameter: `read` gives a normalised node's type name,
    default and description, or None where formatting them raises.  None in a
    result is an exception throughout. */
module SchemaWalk {
  import opened Names
  import opened Json
  import opened SchemaMerge
  import opened SchemaNormalize
  import opened FieldTable
  import opened BoundedWalk

  const MAX_WALK_DEPTH := 32

  datatype Reading = Reading(typeName: string, default_: string, description: string)

  type Reader = Fields -> Option<Reading>

  // ---------- What a normalised node contributes ----------

  function Member(path: string, name: string): string {
    if path == "" then name else path + "." + name
  }

  /** The properties of a node, where an empty list or text is as good as none. */
  function PropertiesOf(fields: Fields): Option<Fields> {
    if PROPERTIES !in fields then Some(map[])
    else
      match fields[PROPERTIES]
      case Obj(properties) => Some(properties)
      case Arr(items) => if items == [] then Some(map[]) else None
      case Str(text) => if text == "" then Some(map[]) else None
      case _ => None
  }

  predicate Hashable(value: Json) {
    !value.Arr? && !value.Obj?
  }

  /** The names in `set(node.get("required", []))`. */
  function RequiredOf(fields: Fields): Option<set<string>> {
    if REQUIRED !in fields then Some({})
    else
      match fields[REQUIRED]
      case Arr(items) =>
        if forall i :: 0 <= i < |items| ==> Hashable(items[i])
        then Some(set i | 0 <= i < |items| && items[i].Str? :: items[i].text) else None
      case Str(text) => Some(set i | 0 <= i < |text| :: [text[i]])
      case Obj(members) => Some(members.Keys)
      case _ => None
  }

  function PropertyPlace(path: string, properties: Fields, required: set<string>, name: string): Place
    requires name in properties
  {
    Place(Member(path, name), properties[name], name in required)
  }

  function PlacesOf(path: string, properties: Fields, required: set<string>, names: seq<string>): seq<Item>
    requires forall i :: 0 <= i < |names| ==> names[i] in properties
  {
    seq(|names|, i requires 0 <= i < |names| => Down(PropertyPlace(path, properties, required, names[i])))
  }

  lemma ListedNames(names: seq<string>)
    ensures forall i :: 0 <= i < |names| ==> names[i] in Elements(names)
  {
  }

  /** The properties, in increasing order of name. */
  function PropertyItems(fields: Fields, path: string): Option<seq<Item>> {
    var properties, required := PropertiesOf(fields), RequiredOf(fields);
    if properties.None? || required.None? then None
    else
      var names := Sorted(properties.value.Keys);
      ListedNames(names);
      Some(PlacesOf(path, properties.value, required.value, names))
  }

  predicate IsObject(fields: Fields) {
    Lookup(fields, "type") == Some(Str("object")) || PROPERTIES in fields
  }

  /** A member of a union, normalised, as far as it is an object. */
  function ObjectOption(option: Json, root: Json): Option<seq<Fields>> {
    var resolved := Normalize(option, root, []);
    if resolved.None? then None else Some(if IsObject(resolved.value) then [resolved.value] else [])
  }

  function ObjectOptions(options: seq<Json>, root: Json): (parts: seq<Option<seq<Fields>>>)
    ensures |parts| == |options|
  {
    seq(|options|, i requires 0 <= i < |options| => ObjectOption(options[i], root))
  }

  function OptionsUnder(fields: Fields, key: string, root: Json): Option<seq<Fields>> {
    if key !in fields then Some([])
    else
      var options := Members(fields[key]);
      if options.None? then None else Joined(ObjectOptions(options.value, root), |options.value|)
  }

  predicate IsUnion(fields: Fields) {
    "oneOf" in fields || "anyOf" in fields
  }

  /** The node itself, if it has properties, and its object options. */
  function Branches(fields: Fields, root: Json): Option<seq<Fields>> {
    Append(Append(Some(if PROPERTIES in fields then [fields] else []), OptionsUnder(fields, "oneOf", root)),
           OptionsUnder(fields, "anyOf", root))
  }

  function BranchItems(branches: seq<Fields>, path: string): (parts: seq<Option<seq<Item>>>)
    ensures |parts| == |branches|
  {
    seq(|branches|, i requires 0 <= i < |branches| => PropertyItems(branches[i], path))
  }

  /** Map values: walked if they have a schema, a row of their own if any value will do. */
  function AdditionalItems(fields: Fields, path: string): seq<Item> {
    match Lookup<Json>(fields, "additionalProperties")
    case Some(Obj(additional)) => [Down(Place(Member(path, "*"), Obj(additional), false))]
    case Some(Bool(b)) =>
      if b && path != "" then [Row(Entry(path + ".*", "any", false, "", "Additional map entries."))] else []
    case _ => []
  }

  function UnionItems(fields: Fields, own: Entry, root: Json): Option<seq<Item>> {
    var branches := Branches(fields, root);
    if branches.None? then None
    else Append(Some([Row(own)]), Joined(BranchItems(branches.value, own.path), |branches.value|))
  }

  function ObjectItems(fields: Fields, own: Entry): Option<seq<Item>> {
    Append(Append(Some(if PropertiesOf(fields) == Some(map[]) then [Row(own)] else []), PropertyItems(fields, own.path)),
           Some(AdditionalItems(fields, own.path)))
  }

  predicate IsArray(fields: Fields) {
    Lookup(fields, "type") == Some(Str("array")) || "items" in fields
  }

  function LeafItems(fields: Fields, own: Entry): seq<Item> {
    [Row(own)] +
    if IsArray(fields) && "items" in fields && fields["items"].Obj?
    then [Down(Place(own.path + "[]", fields["items"], false))] else []
  }

  function OwnEntry(at: Place, r: Reading): Entry {
    Entry(at.path, r.typeName, at.required, r.default_, r.description)
  }

  function Layout(fields: Fields, own: Entry, root: Json): Option<seq<Item>> {
    if IsUnion(fields) then UnionItems(fields, own, root)
    else if IsObject(fields) then ObjectItems(fields, own)
    else Some(LeafItems(fields, own))
  }

  function Expand(at: Place, root: Json, read: Reader): Option<seq<Item>> {
    var fields := Normalize(at.node, root, []);
    if fields.None? || read(fields.value).None? then None
    else Layout(fields.value, OwnEntry(at, read(fields.value).value), root)
  }

  function Expanding(root: Json, read: Reader): Expander {
    at => Expand(at, root, read)
  }

  // ---------- The script's functions ----------

  function Left(depth: nat): nat {
    if depth <= MAX_WALK_DEPTH then MAX_WALK_DEPTH + 1 - depth else 0
  }

  /** A walk that succeeds has added exactly `rows` to the table's history. */
  predicate Added(before: seq<Entry>, after: seq<Entry>, rows: Option<seq<Entry>>, ok: bool) {
    (ok <==> rows.Some?) && (ok ==> after == before + rows.value)
  }

  lemma AddedNothing(seen: seq<Entry>)
    ensures Added(seen, seen, Some([]), true)
  {
    assert seen + [] == seen;
  }

  lemma AddedStep(before: seq<Entry>, between: seq<Entry>, after: seq<Entry>,
                  rows: Option<seq<Entry>>, more: Option<seq<Entry>>, ok: bool)
    requires Added(before, between, rows, true) && Added(between, after, more, ok)
    ensures Added(before, after, Append(rows, more), ok)
  {
    if ok {
      assert (before + rows.value) + more.value == before + (rows.value + more.value);
    }
  }

  method Walk(table: Table, at: Place, depth: nat, root: Json, read: Reader) returns (ok: bool)
    requires table.Valid()
    modifies table
    ensures table.Valid()
    ensures Added(old(table.seen), table.seen, Visits(at, Left(depth), Expanding(root, read)), ok)
    decreases Left(depth), 1, 0
  {
    if depth > MAX_WALK_DEPTH {
      AddedNothing(table.seen);
      return true;
    }
    var normalized := NormalizeSchemaNode(at.node, root, []);
    if normalized.None? {
      return false;
    }
    var fields := normalized.value;
    var reading := read(fields);
    if reading.None? {
      return false;
    }
    var own := OwnEntry(at, reading.value);
    WalkExpands(at, depth, root, read);
    ok := WalkNode(table, fields, own, depth + 1, root, read);
  }

  /** The three-way branch on the shape of a normalised node; `depth` is that of its children. */
  method WalkNode(table: Table, fields: Fields, own: Entry, depth: nat, root: Json, read: Reader) returns (ok: bool)
    requires table.Valid()
    modifies table
    ensures table.Valid()
    ensures Added(old(table.seen), table.seen, VisitAll(Layout(fields, own, root), Left(depth), Expanding(root, read)), ok)
    decreases Left(depth), 4, 0
  {
    if IsUnion(fields) {
      ok := WalkUnion(table, fields, own, depth, root, read);
    } else if IsObject(fields) {
      ok := WalkObject(table, fields, own, depth, root, read);
    } else {
      ok := WalkLeaf(table, fields, own, depth, root, read);
    }
  }

  lemma WalkExpands(at: Place, depth: nat, root: Json, read: Reader)
    requires depth <= MAX_WALK_DEPTH && Normalize(at.node, root, []).Some?
    requires read(Normalize(at.node, root, []).value).Some?
    ensures var fields := Normalize(at.node, root, []).value;
            Visits(at, Left(depth), Expanding(root, read)) ==
            VisitAll(Layout(fields, OwnEntry(at, read(fields).value), root), Left(depth + 1), Expanding(root, read))
  {
    VisitsExpanded(at, Left(depth + 1), Expanding(root, read));
  }

  method WalkUnion(table: Table, fields: Fields, own: Entry, depth: nat, root: Json, read: Reader) returns (ok: bool)
    requires table.Valid()
    modifies table
    ensures table.Valid()
    ensures Added(old(table.seen), table.seen, VisitAll(UnionItems(fields, own, root), Left(depth), Expanding(root, read)), ok)
    decreases Left(depth), 3, 0
  {
    ghost var left, expand := Left(depth), Expanding(root, read);
    table.Upsert(own);
    VisitOne(Row(own), left, expand);
    var branches := CollectBranches(fields, root);
    if branches.None? {
      return false;
    }
    ghost var between, parts := table.seen, BranchItems(branches.value, own.path);
    ghost var more := Joined(parts, |parts|);
    VisitAllAppend(Some([Row(own)]), more, left, expand);
    VisitJoined(parts, |parts|, left, expand);
    ok := WalkBranches(table, branches.value, own.path, depth, root, read);
    AddedStep(old(table.seen), between, table.seen, Some([own]), VisitAll(more, left, expand), ok);
  }

  lemma BranchPart(branches: seq<Fields>, path: string, i: nat, left: nat, expand: Expander)
    requires i < |branches|
    ensures VisitParts(BranchItems(branches, path), left, expand)[i] ==
            VisitAll(PropertyItems(branches[i], path), left, expand)
  {
  }

  /** The rows of the first `n` branches. */
  function BranchRows(branches: seq<Fields>, n: nat, path: string, depth: nat, root: Json, read: Reader): Option<seq<Entry>>
    requires n <= |branches|
  {
    Joined(VisitParts(BranchItems(branches, path), Left(depth), Expanding(root, read)), n)
  }

  /** Walks one branch after the ones before it, which `start` precedes. */
  method WalkBranch(table: Table, branches: seq<Fields>, i: nat, path: string, depth: nat, root: Json, read: Reader,
                    ghost start: seq<Entry>)
    returns (ok: bool)
    requires i < |branches|
    requires table.Valid() && Added(start, table.seen, BranchRows(branches, i, path, depth, root, read), true)
    modifies table
    ensures table.Valid()
    ensures Added(start, table.seen, BranchRows(branches, i + 1, path, depth, root, read), ok)
    ensures !ok ==> BranchRows(branches, |branches|, path, depth, root, read).None?
    decreases Left(depth), 2, 1
  {
    ghost var between := table.seen;
    ghost var parts := VisitParts(BranchItems(branches, path), Left(depth), Expanding(root, read));
    BranchPart(branches, path, i, Left(depth), Expanding(root, read));
    ok := WalkProperties(table, branches[i], path, depth, root, read);
    AddedStep(start, between, table.seen, Joined(parts, i), parts[i], ok);
    if !ok {
      PartFails(parts, i + 1, |parts|);
    }
  }

  method WalkBranches(table: Table, branches: seq<Fields>, path: string, depth: nat, root: Json, read: Reader)
    returns (ok: bool)
    requires table.Valid()
    modifies table
    ensures table.Valid()
    ensures Added(old(table.seen), table.seen, BranchRows(branches, |branches|, path, depth, root, read), ok)
    decreases Left(depth), 2, 2
  {
    AddedNothing(table.seen);
    for i := 0 to |branches|
      invariant table.Valid()
      invariant Added(old(table.seen), table.seen, BranchRows(branches, i, path, depth, root, read), true)
    {
      ok := WalkBranch(table, branches, i, path, depth, root, read, old(table.seen));
      if !ok {
        return;
      }
    }
    return true;
  }

  method CollectBranches(fields: Fields, root: Json) returns (branches: Option<seq<Fields>>)
    ensures branches == Branches(fields, root)
  {
    var one := CollectOptions(fields, "oneOf", root);
    if one.None? {
      return None;
    }
    var any := CollectOptions(fields, "anyOf", root);
    if any.None? {
      return None;
    }
    branches := Some((if PROPERTIES in fields then [fields] else []) + one.value + any.value);
  }

  method CollectOptions(fields: Fields, key: string, root: Json) returns (found: Option<seq<Fields>>)
    ensures found == OptionsUnder(fields, key, root)
  {
    if key !in fields {
      return Some([]);
    }
    var options := Members(fields[key]);
    if options.None? {
      return None;
    }
    found := NormalizeOptions(options.value, root);
  }

  lemma OptionPart(options: seq<Json>, i: nat, root: Json)
    requires i < |options|
    ensures ObjectOptions(options, root)[i] == ObjectOption(options[i], root)
  {
  }

  /** The loop over the options. */
  method NormalizeOptions(options: seq<Json>, root: Json) returns (found: Option<seq<Fields>>)
    ensures found == Joined(ObjectOptions(options, root), |options|)
  {
    var objects: seq<Fields> := [];
    ghost var parts := ObjectOptions(options, root);
    for i := 0 to |options|
      invariant Joined(parts, i) == Some(objects)
    {
      var resolved := NormalizeSchemaNode(options[i], root, []);
      OptionPart(options, i, root);
      if resolved.None? {
        PartFails(parts, i + 1, |parts|);
        return None;
      }
      objects := objects + if IsObject(resolved.value) then [resolved.value] else [];
    }
    return Some(objects);
  }

  method WalkProperties(table: Table, fields: Fields, path: string, depth: nat, root: Json, read: Reader)
    returns (ok: bool)
    requires table.Valid()
    modifies table
    ensures table.Valid()
    ensures Added(old(table.seen), table.seen, VisitAll(PropertyItems(fields, path), Left(depth), Expanding(root, read)), ok)
    decreases Left(depth), 2, 0
  {
    var properties, required := PropertiesOf(fields), RequiredOf(fields);
    if properties.None? || required.None? {
      return false;
    }
    var names := Sorted(properties.value.Keys);
    ListedNames(names);
    ok := WalkNames(table, path, properties.value, required.value, names, depth, root, read);
  }

  method WalkNames(table: Table, path: string, properties: Fields, required: set<string>, names: seq<string>,
                   depth: nat, root: Json, read: Reader)
    returns (ok: bool)
    requires table.Valid() && forall i :: 0 <= i < |names| ==> names[i] in properties
    modifies table
    ensures table.Valid()
    ensures Added(old(table.seen), table.seen,
                  VisitAll(Some(PlacesOf(path, properties, required, names)), Left(depth), Expanding(root, read)), ok)
    decreases Left(depth), 1, 1
  {
    ghost var left, expand := Left(depth), Expanding(root, read);
    ghost var items := PlacesOf(path, properties, required, names);
    AddedNothing(table.seen);
    for i := 0 to |names|
      invariant table.Valid()
      invariant Added(old(table.seen), table.seen, VisitItems(items, i, left, expand), true)
    {
      ghost var between := table.seen;
      ok := Walk(table, PropertyPlace(path, properties, required, names[i]), depth, root, read);
      AddedStep(old(table.seen), between, table.seen, VisitItems(items, i, left, expand),
                VisitItem(items[i], left, expand), ok);
      if !ok {
        ItemsFail(items, i + 1, |items|, left, expand);
        return false;
      }
    }
    return true;
  }

  method WalkObject(table: Table, fields: Fields, own: Entry, depth: nat, root: Json, read: Reader) returns (ok: bool)
    requires table.Valid()
    modifies table
    ensures table.Valid()
    ensures Added(old(table.seen), table.seen, VisitAll(ObjectItems(fields, own), Left(depth), Expanding(root, read)), ok)
    decreases Left(depth), 3, 0
  {
    ghost var left, expand := Left(depth), Expanding(root, read);
    ghost var self: seq<Item> := if PropertiesOf(fields) == Some(map[]) then [Row(own)] else [];
    ghost var middle, more := PropertyItems(fields, own.path), AdditionalItems(fields, own.path);
    VisitAllAppend(Some(self), middle, left, expand);
    VisitAllAppend(Append(Some(self), middle), Some(more), left, expand);
    VisitOne(Row(own), left, expand);

    AddedNothing(table.seen);
    if PropertiesOf(fields) == Some(map[]) {
      table.Upsert(own);
    }
    ghost var first := table.seen;
    ok := WalkProperties(table, fields, own.path, depth, root, read);
    AddedStep(old(table.seen), first, table.seen, VisitAll(Some(self), left, expand), VisitAll(middle, left, expand), ok);
    if !ok {
      return;
    }
    ghost var second := table.seen;
    ok := WalkAdditional(table, fields, own.path, depth, root, read);
    AddedStep(old(table.seen), second, table.seen, VisitAll(Append(Some(self), middle), left, expand),
              VisitAll(Some(more), left, expand), ok);
  }

  method WalkAdditional(table: Table, fields: Fields, path: string, depth: nat, root: Json, read: Reader)
    returns (ok: bool)
    requires table.Valid()
    modifies table
    ensures table.Valid()
    ensures Added(old(table.seen), table.seen,
                  VisitAll(Some(AdditionalItems(fields, path)), Left(depth), Expanding(root, read)), ok)
    decreases Left(depth), 2, 0
  {
    ghost var left, expand := Left(depth), Expanding(root, read);
    AddedNothing(table.seen);
    match Lookup<Json>(fields, "additionalProperties") {
      case Some(Obj(additional)) =>
        VisitOne(Down(Place(Member(path, "*"), Obj(additional), false)), left, expand);
        ok := Walk(table, Place(Member(path, "*"), Obj(additional), false), depth, root, read);
      case Some(Bool(true)) =>
        if path != "" {
          var row := Entry(path + ".*", "any", false, "", "Additional map entries.");
          VisitOne(Row(row), left, expand);
          table.Upsert(row);
        }
        ok := true;
      case _ => ok := true;
    }
  }

  method WalkLeaf(table: Table, fields: Fields, own: Entry, depth: nat, root: Json, read: Reader) returns (ok: bool)
    requires table.Valid()
    modifies table
    ensures table.Valid()
    ensures Added(old(table.seen), table.seen, VisitAll(Some(LeafItems(fields, own)), Left(depth), Expanding(root, read)), ok)
    decreases Left(depth), 2, 0
  {
    ghost var left, expand := Left(depth), Expanding(root, read);
    table.Upsert(own);
    VisitOne(Row(own), left, expand);
    if IsArray(fields) && "items" in fields && fields["items"].Obj? {
      var below := Place(own.path + "[]", fields["items"], false);
      VisitAllAppend(Some([Row(own)]), Some([Down(below)]), left, expand);
      VisitOne(Down(below), left, expand);
      ghost var between := table.seen;
      ok := Walk(table, below, depth, root, read);
      AddedStep(old(table.seen), between, table.seen, Some([own]), Visits(below, left, expand), ok);
    } else {
      assert LeafItems(fields, own) == [Row(own)];
      ok := true;
    }
  }

  function Rows(root: Json, read: Reader): Option<seq<Entry>> {
    Visits(Place("", root, false), Left(0), Expanding(root, read))
  }

  method CollectFields(root: Json, read: Reader) returns (entries: Option<seq<Entry>>)
    ensures entries.Some? <==> Rows(root, read).Some?
    ensures entries.Some? ==> Lists(entries.value, Rows(root, read).value)
  {
    var table := new Table();
    var ok := Walk(table, Place("", root, false), 0, root, read);
    if !ok {
      return None;
    }
    assert [] + Rows(root, read).value == Rows(root, read).value;
    var listed := table.Entries();
    entries := Some(listed);
  }

  // ---------- What the table documents ----------

  /** A row for `path` lies at the end of a chain of at most 32 steps from the root. */
  ghost predicate Documented(root: Json, read: Reader, e: Entry) {
    Reachable(Place("", root, false), 33, e, Expanding(root, read))
  }

  /** The table has a row for exactly the nonempty paths that some chain of at
      most 32 steps leads to, and marks it required exactly if some such chain
      ends in a required field. */
  lemma TableMeaning(root: Json, read: Reader, entries: seq<Entry>, path: string)
    requires Rows(root, read).Some? && Lists(entries, Rows(root, read).value)
    ensures (exists i :: 0 <= i < |entries| && entries[i].path == path) <==>
            path != "" && exists e: Entry :: e.path == path && Documented(root, read, e)
    ensures forall i :: 0 <= i < |entries| && entries[i].path == path ==>
              (entries[i].required <==> exists e: Entry :: e.path == path && e.required && Documented(root, read, e))
  {
    var rows := Rows(root, read).value;
    forall e ensures e in rows <==> Documented(root, read, e) {
      VisitsAreTheReachable(Place("", root, false), MAX_WALK_DEPTH + 1, e, Expanding(root, read));
    }
    assert Visited(rows, |rows|, path) <==> exists e: Entry :: e.path == path && e in rows;
    assert EverRequired(rows, |rows|, path) <==> exists e: Entry :: e.path == path && e.required && e in rows;
  }

  // ---------- Recursive definitions ----------

  /** A definition whose one property is the definition itself is never
      recorded at all, however deep the walk goes. */
  lemma {:induction false} SelfMembersLeaveNoRow(pointer: string, name: string, path: string, required: bool,
                                                 left: nat, root: Json, read: Reader)
    requires Target(root, Str(pointer)) == Some(SelfMember(pointer, name)) && read(SelfMember(pointer, name)).Some?
    ensures Visits(Place(path, Obj(map[REF := Str(pointer)]), required), left, Expanding(root, read)) == Some([])
    decreases left
  {
    if left > 0 {
      var at := Place(path, Obj(map[REF := Str(pointer)]), required);
      var below := Place(Member(path, name), at.node, false);
      SelfMemberExpands(pointer, name, at, root, read);
      VisitsExpanded(at, left - 1, Expanding(root, read));
      VisitOne(Down(below), left - 1, Expanding(root, read));
      SelfMembersLeaveNoRow(pointer, name, below.path, false, left - 1, root, read);
    }
  }

  lemma SelfMemberExpands(pointer: string, name: string, at: Place, root: Json, read: Reader)
    requires Target(root, Str(pointer)) == Some(SelfMember(pointer, name)) && read(SelfMember(pointer, name)).Some?
    requires at.node == Obj(map[REF := Str(pointer)])
    ensures Expand(at, root, read) == Some([Down(Place(Member(at.path, name), at.node, false))])
  {
    var definition := SelfMember(pointer, name);
    SelfMemberNormalized(pointer, definition, root);
    SelfMemberItems(pointer, name, at.path);
    var own := OwnEntry(at, read(definition).value);
    assert Layout(definition, own, root) == ObjectItems(definition, own);
  }

  function SelfMember(pointer: string, name: string): Fields {
    map[PROPERTIES := Obj(map[name := Obj(map[REF := Str(pointer)])])]
  }

  lemma SelfMemberItems(pointer: string, name: string, path: string)
    ensures var definition, below := SelfMember(pointer, name), Place(Member(path, name), Obj(map[REF := Str(pointer)]), false);
            forall own: Entry :: own.path == path ==> ObjectItems(definition, own) == Some([Down(below)])
  {
    var definition, below := SelfMember(pointer, name), Place(Member(path, name), Obj(map[REF := Str(pointer)]), false);
    var properties := definition[PROPERTIES].fields;
    SortedUnique(Sorted({name}), [name]);
    assert properties.Keys == {name};
    assert PlacesOf(path, properties, {}, [name]) == [Down(below)];
    assert [] + [Down(below)] + [] == [Down(below)];
    assert Lookup(definition, "additionalProperties") == None;
  }

  lemma SelfMemberNormalized(pointer: string, definition: Fields, root: Json)
    requires Target(root, Str(pointer)) == Some(definition)
    requires REF !in definition && ALL_OF !in definition
    ensures Normalize(Obj(map[REF := Str(pointer)]), root, []) == Some(definition)
  {
    var fields := map[REF := Str(pointer)];
    forall k ensures Lookup(Merge(definition, fields).value, k) == Lookup(definition, k) {
      MergeLookup(definition, fields, k);
    }
    SameLookups(Merge(definition, fields).value, definition);
    UnfoldStep(fields, root, []);
  }
}
