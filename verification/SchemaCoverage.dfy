/** What a walk of a schema documents, told from its normalised nodes. */
module SchemaCoverage {
  import opened Names
  import opened Json
  import opened SchemaMerge
  import opened SchemaNormalize
  import opened FieldTable
  import opened BoundedWalk
  import opened SchemaWalk

  // ---------- Steps into a schema ----------

  /** Into a property, a property of the `index`-th option under `oneOf` or
      `anyOf`, the values of a map, or the elements of an array. */
  datatype Step = Prop(name: string) | OptionProp(key: string, index: nat, name: string) | MapValue | Element

  predicate HasUnion(fields: Fields) {
    "oneOf" in fields || "anyOf" in fields
  }

  predicate HasObject(fields: Fields) {
    "properties" in fields || ("type" in fields && fields["type"] == Str("object"))
  }

  predicate HasProp(fields: Fields, name: string) {
    "properties" in fields && fields["properties"].Obj? && name in fields["properties"].fields
  }

  /** `name` is in `set(required)`: in a list, or a text's character, or an object's key. */
  predicate Requires(fields: Fields, name: string) {
    "required" in fields &&
    match fields["required"]
    case Arr(items) => Str(name) in items
    case Str(text) => |name| == 1 && name[0] in text
    case Obj(members) => name in members
    case _ => false
  }

  function PropPlace(path: string, fields: Fields, name: string): Place
    requires HasProp(fields, name)
  {
    Place(if path == "" then name else path + "." + name, fields["properties"].fields[name], Requires(fields, name))
  }

  /** The normalised option. */
  function OptionAt(fields: Fields, key: string, index: nat, root: Json): Option<Fields> {
    if key in ["oneOf", "anyOf"] && key in fields && fields[key].Arr? && index < |fields[key].items|
    then Normalize(fields[key].items[index], root, []) else None
  }

  /** Where a step leads, from a place whose node normalises to `fields`. */
  function StepTo(path: string, fields: Fields, step: Step, root: Json): Option<Place> {
    match step
    case Prop(name) => if HasProp(fields, name) then Some(PropPlace(path, fields, name)) else None
    case OptionProp(key, index, name) =>
      var option := OptionAt(fields, key, index, root);
      if option.Some? && HasProp(option.value, name) then Some(PropPlace(path, option.value, name)) else None
    case MapValue =>
      if !HasUnion(fields) && HasObject(fields) && "additionalProperties" in fields && fields["additionalProperties"].Obj?
      then Some(Place(if path == "" then "*" else path + ".*", fields["additionalProperties"], false)) else None
    case Element =>
      if !HasUnion(fields) && !HasObject(fields) && "items" in fields && fields["items"].Obj?
      then Some(Place(path + "[]", fields["items"], false)) else None
  }

  /** Unions record themselves, and so does every node without properties. */
  predicate RecordsItself(fields: Fields) {
    HasUnion(fields) || "properties" !in fields || fields["properties"] in [Obj(map[]), Arr([]), Str("")]
  }

  /** A map that takes any value records that. */
  predicate TakesAnything(path: string, fields: Fields) {
    !HasUnion(fields) && HasObject(fields) && path != ""
    && "additionalProperties" in fields && fields["additionalProperties"] == Bool(true)
  }

  predicate RowAt(at: Place, fields: Fields, e: Entry, read: Reader) {
    || (RecordsItself(fields) && e.path == at.path && e.required == at.required
        && read(fields) == Some(Reading(e.typeName, e.default_, e.description)))
    || (TakesAnything(at.path, fields) && e == Entry(at.path + ".*", "any", false, "", "Additional map entries."))
  }

  // ---------- Expanding a node takes exactly those steps ----------

  lemma RequiresMeaning(fields: Fields, name: string)
    requires RequiredOf(fields).Some?
    ensures Requires(fields, name) <==> name in RequiredOf(fields).value
  {
    if REQUIRED in fields {
      match fields[REQUIRED] {
        case Arr(items) =>
          if Str(name) in items {
            var i :| 0 <= i < |items| && items[i] == Str(name);
            assert items[i].text == name;
          }
        case Str(text) =>
          if |name| == 1 && name[0] in text {
            var i :| 0 <= i < |text| && text[i] == name[0];
            assert [text[i]] == name;
          }
        case _ =>
      }
    }
  }

  lemma PropertyItemsAre(fields: Fields, path: string, item: Item)
    requires PropertyItems(fields, path).Some?
    ensures item in PropertyItems(fields, path).value <==>
            exists name :: HasProp(fields, name) && item == Down(PropPlace(path, fields, name))
  {
    var properties, required := PropertiesOf(fields).value, RequiredOf(fields).value;
    var names := Sorted(properties.Keys);
    var items := PropertyItems(fields, path).value;
    ListedNames(names);
    forall name | HasProp(fields, name)
      ensures Down(PropPlace(path, fields, name)) in items
    {
      RequiresMeaning(fields, name);
      assert name in Elements(names);
      var i :| 0 <= i < |names| && names[i] == name;
      assert items[i] == Down(PropPlace(path, fields, name));
    }
    if item in items {
      var i :| 0 <= i < |items| && items[i] == item;
      RequiresMeaning(fields, names[i]);
      assert HasProp(fields, names[i]) && item == Down(PropPlace(path, fields, names[i]));
    }
  }

  lemma OptionsAre(fields: Fields, key: string, root: Json, b: Fields)
    requires OptionsUnder(fields, key, root).Some? && key in ["oneOf", "anyOf"]
    ensures b in OptionsUnder(fields, key, root).value <==>
            IsObject(b) && exists i :: OptionAt(fields, key, i, root) == Some(b)
  {
    if key in fields && fields[key].Arr? {
      var options := fields[key].items;
      var parts := ObjectOptions(options, root);
      JoinedMembers(parts, |parts|, b);
      forall i | 0 <= i < |parts|
        ensures parts[i].Some? && b in parts[i].value <==> IsObject(b) && OptionAt(fields, key, i, root) == Some(b)
      {
        OptionPart(options, i, root);
      }
    }
  }

  lemma BranchesAre(fields: Fields, root: Json, b: Fields)
    requires Branches(fields, root).Some?
    ensures b in Branches(fields, root).value <==>
            || (PROPERTIES in fields && b == fields)
            || (IsObject(b) && exists key, i :: OptionAt(fields, key, i, root) == Some(b))
  {
    OptionsAre(fields, "oneOf", root, b);
    OptionsAre(fields, "anyOf", root, b);
  }

  ghost predicate Leads(path: string, fields: Fields, root: Json, next: Place) {
    exists step :: StepTo(path, fields, step, root) == Some(next)
  }

  lemma StepLeads(path: string, fields: Fields, root: Json, step: Step, next: Place)
    requires StepTo(path, fields, step, root) == Some(next)
    ensures Leads(path, fields, root, next)
  {
  }

  lemma BranchSteps(fields: Fields, path: string, root: Json, b: Fields, name: string)
    requires Branches(fields, root).Some? && b in Branches(fields, root).value && HasProp(b, name)
    ensures Leads(path, fields, root, PropPlace(path, b, name))
  {
    BranchesAre(fields, root, b);
    if PROPERTIES in fields && b == fields {
      StepLeads(path, fields, root, Prop(name), PropPlace(path, b, name));
    } else {
      var key, k :| OptionAt(fields, key, k, root) == Some(b);
      StepLeads(path, fields, root, OptionProp(key, k, name), PropPlace(path, b, name));
    }
  }

  lemma StepsBranch(fields: Fields, path: string, root: Json, step: Step, next: Place) returns (b: Fields, name: string)
    requires HasUnion(fields) && Branches(fields, root).Some? && StepTo(path, fields, step, root) == Some(next)
    ensures b in Branches(fields, root).value && HasProp(b, name) && next == PropPlace(path, b, name)
  {
    b := if step.Prop? then fields else OptionAt(fields, step.key, step.index, root).value;
    name := step.name;
    BranchesAre(fields, root, b);
  }

  ghost predicate FromBranch(b: Fields, path: string, item: Item) {
    exists name :: HasProp(b, name) && item == Down(PropPlace(path, b, name))
  }

  ghost predicate PartIs(parts: seq<Option<seq<Item>>>, branches: seq<Fields>, i: nat, path: string, item: Item)
    requires i < |parts| == |branches|
  {
    parts[i].Some? ==> (item in parts[i].value <==> FromBranch(branches[i], path, item))
  }

  lemma BranchPartIs(branches: seq<Fields>, i: nat, path: string, item: Item)
    requires i < |branches|
    ensures PartIs(BranchItems(branches, path), branches, i, path, item)
  {
    if BranchItems(branches, path)[i].Some? {
      PropertyItemsAre(branches[i], path, item);
    }
  }

  ghost predicate FromBranches(branches: seq<Fields>, n: nat, path: string, item: Item)
    requires n <= |branches|
  {
    exists i :: 0 <= i < n && FromBranch(branches[i], path, item)
  }

  lemma OneMoreBranch(branches: seq<Fields>, n: nat, path: string, item: Item)
    requires n < |branches|
    ensures FromBranches(branches, n + 1, path, item) <==>
            FromBranches(branches, n, path, item) || FromBranch(branches[n], path, item)
  {
  }

  lemma {:induction false} JoinedOnce<T>(parts: seq<Option<seq<T>>>, n: nat, x: T)
    requires n < |parts| && Joined(parts, n + 1).Some?
    ensures Joined(parts, n).Some? && parts[n].Some?
    ensures x in Joined(parts, n + 1).value <==> x in Joined(parts, n).value || x in parts[n].value
  {
  }

  lemma {:induction false} PartsJoined(parts: seq<Option<seq<Item>>>, branches: seq<Fields>, n: nat, path: string, item: Item)
    requires n <= |parts| == |branches| && Joined(parts, n).Some?
    requires forall i :: 0 <= i < |parts| ==> PartIs(parts, branches, i, path, item)
    ensures item in Joined(parts, n).value <==> FromBranches(branches, n, path, item)
  {
    if n > 0 {
      JoinedOnce(parts, n - 1, item);
      PartsJoined(parts, branches, n - 1, path, item);
      OneMoreBranch(branches, n - 1, path, item);
      assert PartIs(parts, branches, n - 1, path, item);
    }
  }

  /** What lies in the items of the branches is what lies in those of some branch. */
  lemma BranchItemsAre(branches: seq<Fields>, path: string, item: Item)
    requires Joined(BranchItems(branches, path), |branches|).Some?
    ensures item in Joined(BranchItems(branches, path), |branches|).value <==>
            FromBranches(branches, |branches|, path, item)
  {
    forall i | 0 <= i < |branches| ensures PartIs(BranchItems(branches, path), branches, i, path, item) {
      BranchPartIs(branches, i, path, item);
    }
    PartsJoined(BranchItems(branches, path), branches, |branches|, path, item);
  }

  lemma UnionSteps(fields: Fields, own: Entry, root: Json, next: Place)
    requires HasUnion(fields) && UnionItems(fields, own, root).Some?
    ensures Down(next) in UnionItems(fields, own, root).value <==> Leads(own.path, fields, root, next)
  {
    var branches := Branches(fields, root).value;
    BranchItemsAre(branches, own.path, Down(next));
    if i :| 0 <= i < |branches| && FromBranch(branches[i], own.path, Down(next)) {
      var name :| HasProp(branches[i], name) && Down(next) == Down(PropPlace(own.path, branches[i], name));
      BranchSteps(fields, own.path, root, branches[i], name);
    }
    if step :| StepTo(own.path, fields, step, root) == Some(next) {
      var b, name := StepsBranch(fields, own.path, root, step, next);
      var i :| 0 <= i < |branches| && branches[i] == b;
      assert Down(next) == Down(PropPlace(own.path, b, name));
      assert FromBranch(branches[i], own.path, Down(next));
    }
  }

  lemma AdditionalSteps(fields: Fields, path: string, root: Json, next: Place)
    requires !HasUnion(fields) && HasObject(fields)
    ensures Down(next) in AdditionalItems(fields, path) <==> StepTo(path, fields, MapValue, root) == Some(next)
  {
    assert path + "." + "*" == path + ".*";
  }

  lemma ObjectSteps(fields: Fields, own: Entry, root: Json, next: Place)
    requires !HasUnion(fields) && HasObject(fields) && ObjectItems(fields, own).Some?
    ensures Down(next) in ObjectItems(fields, own).value <==> Leads(own.path, fields, root, next)
  {
    PropertyItemsAre(fields, own.path, Down(next));
    AdditionalSteps(fields, own.path, root, next);
    ObjectItemsAre(fields, own, Down(next));
    if name :| HasProp(fields, name) && Down(next) == Down(PropPlace(own.path, fields, name)) {
      StepLeads(own.path, fields, root, Prop(name), next);
    }
    if Down(next) in AdditionalItems(fields, own.path) {
      StepLeads(own.path, fields, root, MapValue, next);
    }
    if step :| StepTo(own.path, fields, step, root) == Some(next) {
      NoOtherSteps(fields, own.path, root, step);
      assert step.Prop? ==> HasProp(fields, step.name) && Down(next) == Down(PropPlace(own.path, fields, step.name));
    }
  }

  lemma ObjectItemsAre(fields: Fields, own: Entry, item: Item)
    requires ObjectItems(fields, own).Some?
    ensures item in ObjectItems(fields, own).value <==>
            || (PropertiesOf(fields) == Some(map[]) && item == Row(own))
            || item in PropertyItems(fields, own.path).value
            || item in AdditionalItems(fields, own.path)
  {
  }

  /** Without a union there are no options, and an object has no elements. */
  lemma NoOtherSteps(fields: Fields, path: string, root: Json, step: Step)
    requires !HasUnion(fields) && StepTo(path, fields, step, root).Some?
    ensures !step.OptionProp?
    ensures HasObject(fields) ==> step.Prop? || step.MapValue?
    ensures !HasObject(fields) ==> step.Element?
  {
  }

  lemma LeafSteps(fields: Fields, own: Entry, root: Json, next: Place)
    requires !HasUnion(fields) && !HasObject(fields)
    ensures Down(next) in LeafItems(fields, own) <==> Leads(own.path, fields, root, next)
  {
    if Down(next) in LeafItems(fields, own) {
      StepLeads(own.path, fields, root, Element, next);
    }
    if step :| StepTo(own.path, fields, step, root) == Some(next) {
      NoOtherSteps(fields, own.path, root, step);
    }
  }

  lemma LayoutSteps(fields: Fields, own: Entry, root: Json, next: Place)
    requires Layout(fields, own, root).Some?
    ensures Down(next) in Layout(fields, own, root).value <==> Leads(own.path, fields, root, next)
  {
    if HasUnion(fields) {
      UnionSteps(fields, own, root, next);
    } else if HasObject(fields) {
      ObjectSteps(fields, own, root, next);
    } else {
      LeafSteps(fields, own, root, next);
    }
  }

  lemma NoRowsAmongProperties(fields: Fields, path: string, e: Entry)
    requires PropertyItems(fields, path).Some?
    ensures Row(e) !in PropertyItems(fields, path).value
  {
    PropertyItemsAre(fields, path, Row(e));
  }

  lemma LayoutRows(fields: Fields, own: Entry, root: Json, e: Entry)
    requires Layout(fields, own, root).Some?
    ensures Row(e) in Layout(fields, own, root).value <==>
            || (RecordsItself(fields) && e == own)
            || (TakesAnything(own.path, fields) && e == Entry(own.path + ".*", "any", false, "", "Additional map entries."))
  {
    if HasUnion(fields) {
      var branches := Branches(fields, root).value;
      BranchItemsAre(branches, own.path, Row(e));
    } else if HasObject(fields) {
      NoRowsAmongProperties(fields, own.path, e);
      ObjectItemsAre(fields, own, Row(e));
    }
  }

  // ---------- What is documented ----------

  /** `e` is the row of the place, or of the one the steps lead to. */
  predicate Documents(at: Place, steps: seq<Step>, e: Entry, root: Json, read: Reader)
    decreases |steps|
  {
    var fields := Normalize(at.node, root, []);
    fields.Some? &&
    if steps == [] then RowAt(at, fields.value, e, read)
    else
      var next := StepTo(at.path, fields.value, steps[0], root);
      next.Some? && Documents(next.value, steps[1..], e, root, read)
  }

  lemma ExpandedRows(at: Place, e: Entry, root: Json, read: Reader)
    requires Expand(at, root, read).Some?
    ensures Row(e) in Expand(at, root, read).value <==> RowAt(at, Normalize(at.node, root, []).value, e, read)
  {
    var fields := Normalize(at.node, root, []).value;
    LayoutRows(fields, OwnEntry(at, read(fields).value), root, e);
  }

  lemma ExpandedSteps(at: Place, next: Place, root: Json, read: Reader)
    requires Expand(at, root, read).Some?
    ensures Down(next) in Expand(at, root, read).value <==>
            Leads(at.path, Normalize(at.node, root, []).value, root, next)
  {
    var fields := Normalize(at.node, root, []).value;
    LayoutSteps(fields, OwnEntry(at, read(fields).value), root, next);
  }

  /** `expand` gives exactly the rows and the steps of a place. */
  ghost predicate FaithfulAt(expand: Expander, root: Json, read: Reader, at: Place) {
    expand(at).Some? ==>
      && Normalize(at.node, root, []).Some?
      && (forall e :: Row(e) in expand(at).value <==> RowAt(at, Normalize(at.node, root, []).value, e, read))
      && (forall next :: Down(next) in expand(at).value <==> Leads(at.path, Normalize(at.node, root, []).value, root, next))
  }

  ghost predicate Faithful(expand: Expander, root: Json, read: Reader) {
    forall at :: FaithfulAt(expand, root, read, at)
  }

  lemma ExpandingIsFaithful(root: Json, read: Reader)
    ensures Faithful(Expanding(root, read), root, read)
  {
    var expand := Expanding(root, read);
    forall at ensures FaithfulAt(expand, root, read, at) {
      if expand(at).Some? {
        forall e { ExpandedRows(at, e, root, read); }
        forall next { ExpandedSteps(at, next, root, read); }
      }
    }
  }

  lemma RowGiven(expand: Expander, root: Json, read: Reader, at: Place, e: Entry)
    requires Faithful(expand, root, read) && expand(at).Some?
    ensures Normalize(at.node, root, []).Some?
    ensures Row(e) in expand(at).value <==> RowAt(at, Normalize(at.node, root, []).value, e, read)
  {
    assert FaithfulAt(expand, root, read, at);
  }

  lemma StepGiven(expand: Expander, root: Json, read: Reader, at: Place, next: Place)
    requires Faithful(expand, root, read) && expand(at).Some?
    ensures Normalize(at.node, root, []).Some?
    ensures Down(next) in expand(at).value <==> Leads(at.path, Normalize(at.node, root, []).value, root, next)
  {
    assert FaithfulAt(expand, root, read, at);
  }

  lemma {:induction false} ChainDocuments(at: Place, places: seq<Place>, e: Entry, root: Json, read: Reader, expand: Expander)
    returns (steps: seq<Step>)
    requires Faithful(expand, root, read) && Chain(at, places, e, expand)
    ensures |steps| == |places| && Documents(at, steps, e, root, read)
    decreases |places|
  {
    if places == [] {
      RowGiven(expand, root, read, at, e);
      steps := [];
    } else {
      StepGiven(expand, root, read, at, places[0]);
      var step :| StepTo(at.path, Normalize(at.node, root, []).value, step, root) == Some(places[0]);
      var rest := ChainDocuments(places[0], places[1..], e, root, read, expand);
      steps := [step] + rest;
      assert steps[1..] == rest;
    }
  }

  lemma StepIsWalked(at: Place, left: nat, step: Step, next: Place, root: Json, read: Reader, expand: Expander)
    requires Faithful(expand, root, read) && Visits(at, left + 1, expand).Some? && Normalize(at.node, root, []).Some?
    requires StepTo(at.path, Normalize(at.node, root, []).value, step, root) == Some(next)
    ensures Visits(next, left, expand).Some?
    ensures forall e :: e in Visits(next, left, expand).value ==> e in Visits(at, left + 1, expand).value
  {
    StepLeads(at.path, Normalize(at.node, root, []).value, root, step, next);
    StepGiven(expand, root, read, at, next);
    RecordedBelow(at, next, left, expand);
  }

  lemma {:induction false} DocumentedIsRecorded(at: Place, left: nat, steps: seq<Step>, e: Entry,
                                                root: Json, read: Reader, expand: Expander)
    requires Faithful(expand, root, read)
    requires |steps| < left && Visits(at, left, expand).Some? && Documents(at, steps, e, root, read)
    ensures e in Visits(at, left, expand).value
    decreases |steps|
  {
    if steps == [] {
      RowGiven(expand, root, read, at, e);
      RecordedHere(at, left - 1, e, expand);
    } else {
      var next := StepTo(at.path, Normalize(at.node, root, []).value, steps[0], root).value;
      StepIsWalked(at, left - 1, steps[0], next, root, read, expand);
      DocumentedIsRecorded(next, left - 1, steps[1..], e, root, read, expand);
    }
  }

  /** A walk that raises nothing records exactly the rows that fewer than `left`
      steps into properties, options, map values and elements lead to. */
  lemma RecordedIff(at: Place, left: nat, e: Entry, root: Json, read: Reader)
    requires Visits(at, left, Expanding(root, read)).Some?
    ensures e in Visits(at, left, Expanding(root, read)).value <==>
            exists steps :: |steps| < left && Documents(at, steps, e, root, read)
  {
    ExpandingIsFaithful(root, read);
    RecordedIffDocumented(at, left, e, root, read, Expanding(root, read));
  }

  lemma RecordedIffDocumented(at: Place, left: nat, e: Entry, root: Json, read: Reader, expand: Expander)
    requires Faithful(expand, root, read) && Visits(at, left, expand).Some?
    ensures e in Visits(at, left, expand).value <==> exists steps :: |steps| < left && Documents(at, steps, e, root, read)
  {
    if e in Visits(at, left, expand).value {
      var places := RecordedIsReachable(at, left, e, expand);
      var steps := ChainDocuments(at, places, e, root, read, expand);
    }
    if steps :| |steps| < left && Documents(at, steps, e, root, read) {
      DocumentedIsRecorded(at, left, steps, e, root, read, expand);
    }
  }

  /** Where steps lead. */
  function Reach(at: Place, steps: seq<Step>, root: Json): Option<Place>
    decreases |steps|
  {
    if steps == [] then Some(at)
    else
      var fields := Normalize(at.node, root, []);
      if fields.None? then None
      else
        var next := StepTo(at.path, fields.value, steps[0], root);
        if next.None? then None else Reach(next.value, steps[1..], root)
  }

  lemma {:induction false} ReachDocuments(at: Place, steps: seq<Step>, e: Entry, root: Json, read: Reader)
    requires Reach(at, steps, root).Some? && Documents(Reach(at, steps, root).value, [], e, root, read)
    ensures Documents(at, steps, e, root, read)
    decreases |steps|
  {
    if steps != [] {
      var next := StepTo(at.path, Normalize(at.node, root, []).value, steps[0], root).value;
      ReachDocuments(next, steps[1..], e, root, read);
    }
  }

  lemma LeafIsRecorded(root: Json, read: Reader, steps: seq<Step>, e: Entry)
    requires |steps| <= 32 && Reach(Place("", root, false), steps, root).Some?
    requires Documents(Reach(Place("", root, false), steps, root).value, [], e, root, read)
    requires Rows(root, read).Some?
    ensures e in Rows(root, read).value
  {
    ReachDocuments(Place("", root, false), steps, e, root, read);
    RecordedIff(Place("", root, false), Left(0), e, root, read);
  }

  /** A node at most 32 steps down that records itself has a row with its path, its
      required flag and what `read` makes of it, and the table documents the path,
      as required if the node is. */
  lemma LeavesAreDocumented(root: Json, read: Reader, steps: seq<Step>, e: Entry, entries: seq<Entry>)
    requires |steps| <= 32 && Reach(Place("", root, false), steps, root).Some?
    requires Documents(Reach(Place("", root, false), steps, root).value, [], e, root, read) && e.path != ""
    requires Rows(root, read).Some? && Lists(entries, Rows(root, read).value)
    ensures e in Rows(root, read).value
    ensures exists i :: 0 <= i < |entries| && entries[i].path == e.path && (e.required ==> entries[i].required)
  {
    LeafIsRecorded(root, read, steps, e);
    RowIsListed(entries, Rows(root, read).value, e);
  }

  // ---------- Order ----------

  /** A node's own row comes before everything below it, so what it says about its
      path counts first. */
  lemma OwnRowFirst(fields: Fields, own: Entry, root: Json)
    requires Layout(fields, own, root).Some? && Row(own) in Layout(fields, own, root).value
    ensures Layout(fields, own, root).value[0] == Row(own)
  {
    if !HasUnion(fields) && HasObject(fields) {
      NoRowsAmongProperties(fields, own.path, own);
      assert own.path + ".*" != own.path;
    }
  }

  /** Properties are entered in increasing order of name. */
  lemma PropertyOrder(fields: Fields, path: string, i: nat, j: nat)
    requires PropertyItems(fields, path).Some? && i < j < |PropertyItems(fields, path).value|
    ensures exists a, b :: HasProp(fields, a) && HasProp(fields, b) && Lt(a, b)
              && PropertyItems(fields, path).value[i] == Down(PropPlace(path, fields, a))
              && PropertyItems(fields, path).value[j] == Down(PropPlace(path, fields, b))
  {
    var names := Sorted(PropertiesOf(fields).value.Keys);
    ListedNames(names);
    RequiresMeaning(fields, names[i]);
    RequiresMeaning(fields, names[j]);
    assert HasProp(fields, names[i]) && HasProp(fields, names[j]) && Lt(names[i], names[j]);
  }

  // ---------- Paths ----------

  /** `longer` is the path itself or continues it with a segment. */
  predicate Extends(longer: string, path: string) {
    path == "" || longer == path || (path < longer && longer[|path|] in {'.', '['})
  }

  lemma ExtendsTransitive(a: string, b: string, c: string)
    requires Extends(a, b) && Extends(b, c)
    ensures Extends(a, c)
  {
  }

  lemma StepExtends(path: string, fields: Fields, step: Step, root: Json)
    requires StepTo(path, fields, step, root).Some?
    ensures Extends(StepTo(path, fields, step, root).value.path, path)
  {
  }

  lemma {:induction false} DocumentsExtend(at: Place, steps: seq<Step>, e: Entry, root: Json, read: Reader)
    requires Documents(at, steps, e, root, read)
    ensures Extends(e.path, at.path)
    decreases |steps|
  {
    if steps != [] {
      var fields := Normalize(at.node, root, []).value;
      var next := StepTo(at.path, fields, steps[0], root).value;
      StepExtends(at.path, fields, steps[0], root);
      DocumentsExtend(next, steps[1..], e, root, read);
      ExtendsTransitive(e.path, next.path, at.path);
    }
  }

  /** Every row recorded below a place has a path that continues the place's own
      with `.` or `[]` segments. */
  lemma RowsExtendTheirPlace(at: Place, left: nat, e: Entry, root: Json, read: Reader)
    requires Visits(at, left, Expanding(root, read)).Some? && e in Visits(at, left, Expanding(root, read)).value
    ensures Extends(e.path, at.path)
  {
    RecordedIff(at, left, e, root, read);
    var steps :| |steps| < left && Documents(at, steps, e, root, read);
    DocumentsExtend(at, steps, e, root, read);
  }

  // ---------- Documents without references ----------

  /** A node without references and `allOf` is its own normal form. */
  lemma BareIsNormal(node: Json, root: Json)
    requires node.Obj? && REF !in node.fields && ALL_OF !in node.fields
    ensures Normalize(node, root, []) == Some(node.fields)
  {
  }
}
