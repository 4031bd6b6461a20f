/** A walk down a tree of nodes with a limit on its depth, for any way of
    expanding a node.  None stands for an exception. */
module BoundedWalk {
  import opened Names
  import opened Json
  import opened FieldTable

  /** A node to walk, with its path and whether its parent requires it. */
  datatype Place = Place(path: string, node: Json, required: bool)

  /** What a node contributes: rows for the table, and nodes to walk. */
  datatype Item = Row(entry: Entry) | Down(at: Place)

  type Expander = Place -> Option<seq<Item>>

  function Append<T>(a: Option<seq<T>>, b: Option<seq<T>>): Option<seq<T>> {
    if a.None? || b.None? then None else Some(a.value + b.value)
  }

  /** The first `n` parts, one after the other. */
  function Joined<T>(parts: seq<Option<seq<T>>>, n: nat): Option<seq<T>>
    requires n <= |parts|
  {
    if n == 0 then Some([]) else Append(Joined(parts, n - 1), parts[n - 1])
  }

  /** Once a part fails, so does the whole. */
  lemma {:induction false} PartFails<T>(parts: seq<Option<seq<T>>>, i: nat, n: nat)
    requires i <= n <= |parts| && Joined(parts, i).None?
    ensures Joined(parts, n).None?
  {
    if i < n {
      PartFails(parts, i, n - 1);
    }
  }

  lemma {:induction false} JoinedMembers<T>(parts: seq<Option<seq<T>>>, n: nat, x: T)
    requires n <= |parts| && Joined(parts, n).Some?
    ensures x in Joined(parts, n).value <==> exists i :: 0 <= i < n && parts[i].Some? && x in parts[i].value
  {
    if n > 0 {
      JoinedMembers(parts, n - 1, x);
    }
  }

  // ---------- The rows of a walk ----------

  /** The rows a walk records when it may still visit `left` levels. */
  function Visits(at: Place, left: nat, expand: Expander): Option<seq<Entry>>
    decreases left, 0, 0
  {
    if left == 0 then Some([])
    else
      var items := expand(at);
      if items.None? then None else VisitItems(items.value, |items.value|, left - 1, expand)
  }

  function VisitItem(item: Item, left: nat, expand: Expander): Option<seq<Entry>>
    decreases left, 1, 0
  {
    match item
    case Row(entry) => Some([entry])
    case Down(at) => Visits(at, left, expand)
  }

  /** The rows recorded by the first `n` items. */
  function VisitItems(items: seq<Item>, n: nat, left: nat, expand: Expander): Option<seq<Entry>>
    requires n <= |items|
    decreases left, 2, n
  {
    if n == 0 then Some([])
    else Append(VisitItems(items, n - 1, left, expand), VisitItem(items[n - 1], left, expand))
  }

  lemma {:induction false} VisitsPrefix(a: seq<Item>, b: seq<Item>, n: nat, left: nat, expand: Expander)
    requires n <= |a|
    ensures VisitItems(a + b, n, left, expand) == VisitItems(a, n, left, expand)
  {
    if n > 0 {
      VisitsPrefix(a, b, n - 1, left, expand);
    }
  }

  lemma AppendAssociates<T>(a: Option<seq<T>>, b: Option<seq<T>>, c: Option<seq<T>>)
    ensures Append(Append(a, b), c) == Append(a, Append(b, c))
    ensures Append(a, Some([])) == a
  {
    if a.Some? {
      assert a.value + [] == a.value;
      if b.Some? && c.Some? {
        assert (a.value + b.value) + c.value == a.value + (b.value + c.value);
      }
    }
  }

  /** Items can be visited in two parts. */
  lemma {:induction false} VisitsConcat(a: seq<Item>, b: seq<Item>, n: nat, left: nat, expand: Expander)
    requires n <= |b|
    ensures VisitItems(a + b, |a| + n, left, expand) ==
            Append(VisitItems(a, |a|, left, expand), VisitItems(b, n, left, expand))
  {
    if n == 0 {
      VisitsPrefix(a, b, |a|, left, expand);
      AppendAssociates(VisitItems(a, |a|, left, expand), None, None);
    } else {
      VisitsConcat(a, b, n - 1, left, expand);
      AppendAssociates(VisitItems(a, |a|, left, expand), VisitItems(b, n - 1, left, expand),
                       VisitItem(b[n - 1], left, expand));
    }
  }

  function VisitAll(items: Option<seq<Item>>, left: nat, expand: Expander): Option<seq<Entry>> {
    if items.None? then None else VisitItems(items.value, |items.value|, left, expand)
  }

  lemma VisitAllAppend(a: Option<seq<Item>>, b: Option<seq<Item>>, left: nat, expand: Expander)
    ensures VisitAll(Append(a, b), left, expand) == Append(VisitAll(a, left, expand), VisitAll(b, left, expand))
  {
    if a.Some? && b.Some? {
      VisitsConcat(a.value, b.value, |b.value|, left, expand);
    }
  }

  lemma VisitOne(item: Item, left: nat, expand: Expander)
    ensures VisitAll(Some([item]), left, expand) == VisitItem(item, left, expand)
  {
    var items := [item];
    assert VisitItems(items, 0, left, expand) == Some([]);
    var rows := VisitItem(item, left, expand);
    if rows.Some? {
      assert [] + rows.value == rows.value;
    }
  }

  lemma VisitsExpanded(at: Place, left: nat, expand: Expander)
    ensures Visits(at, left + 1, expand) == VisitAll(expand(at), left, expand)
  {
  }

  function VisitParts(parts: seq<Option<seq<Item>>>, left: nat, expand: Expander): (rows: seq<Option<seq<Entry>>>)
    ensures |rows| == |parts|
  {
    seq(|parts|, i requires 0 <= i < |parts| => VisitAll(parts[i], left, expand))
  }

  lemma {:induction false} VisitJoined(parts: seq<Option<seq<Item>>>, n: nat, left: nat, expand: Expander)
    requires n <= |parts|
    ensures VisitAll(Joined(parts, n), left, expand) == Joined(VisitParts(parts, left, expand), n)
  {
    if n > 0 {
      VisitJoined(parts, n - 1, left, expand);
      VisitAllAppend(Joined(parts, n - 1), parts[n - 1], left, expand);
    }
  }

  /** Once an item fails, so does the visit of all of them. */
  lemma {:induction false} ItemsFail(items: seq<Item>, i: nat, n: nat, left: nat, expand: Expander)
    requires i <= n <= |items| && VisitItems(items, i, left, expand).None?
    ensures VisitItems(items, n, left, expand).None?
  {
    if i < n {
      ItemsFail(items, i, n - 1, left, expand);
    }
  }

  // ---------- A walk is bounded reachability ----------

  /** `e` is recorded at the end of the chain of `steps` down from `at`. */
  predicate Chain(at: Place, steps: seq<Place>, e: Entry, expand: Expander)
    decreases |steps|
  {
    var items := expand(at);
    items.Some? &&
    if steps == [] then Row(e) in items.value
    else Down(steps[0]) in items.value && Chain(steps[0], steps[1..], e, expand)
  }

  ghost predicate Reachable(at: Place, left: nat, e: Entry, expand: Expander) {
    exists steps :: |steps| < left && Chain(at, steps, e, expand)
  }

  predicate Records(item: Item, left: nat, e: Entry, expand: Expander) {
    var rows := VisitItem(item, left, expand);
    rows.Some? && e in rows.value
  }

  lemma {:induction false} ItemsRecord(items: seq<Item>, n: nat, left: nat, e: Entry, expand: Expander)
    requires n <= |items| && VisitItems(items, n, left, expand).Some?
    ensures e in VisitItems(items, n, left, expand).value <==>
            exists k :: 0 <= k < n && Records(items[k], left, e, expand)
  {
    if n > 0 {
      ItemsRecord(items, n - 1, left, e, expand);
    }
  }

  lemma {:induction false} ItemsSucceed(items: seq<Item>, n: nat, left: nat, expand: Expander, k: nat)
    requires k < n <= |items| && VisitItems(items, n, left, expand).Some?
    ensures VisitItem(items[k], left, expand).Some?
  {
    if k < n - 1 {
      ItemsSucceed(items, n - 1, left, expand, k);
    }
  }

  lemma ChainCons(at: Place, next: Place, steps: seq<Place>, e: Entry, expand: Expander)
    requires expand(at).Some? && Down(next) in expand(at).value && Chain(next, steps, e, expand)
    ensures Chain(at, [next] + steps, e, expand)
  {
    assert ([next] + steps)[1..] == steps;
  }

  lemma {:induction false} RecordedIsReachable(at: Place, left: nat, e: Entry, expand: Expander)
    returns (steps: seq<Place>)
    requires Visits(at, left, expand).Some? && e in Visits(at, left, expand).value
    ensures |steps| < left && Chain(at, steps, e, expand)
    decreases left
  {
    var items := expand(at).value;
    ItemsRecord(items, |items|, left - 1, e, expand);
    var k :| 0 <= k < |items| && Records(items[k], left - 1, e, expand);
    match items[k] {
      case Row(entry) => steps := [];
      case Down(next) =>
        var rest := RecordedIsReachable(next, left - 1, e, expand);
        ChainCons(at, next, rest, e, expand);
        steps := [next] + rest;
    }
  }

  lemma {:induction false} ReachableIsRecorded(at: Place, left: nat, steps: seq<Place>, e: Entry, expand: Expander)
    requires Visits(at, left, expand).Some? && |steps| < left && Chain(at, steps, e, expand)
    ensures e in Visits(at, left, expand).value
    decreases left
  {
    var items := expand(at).value;
    var item := if steps == [] then Row(e) else Down(steps[0]);
    var k :| 0 <= k < |items| && items[k] == item;
    ItemsSucceed(items, |items|, left - 1, expand, k);
    if steps != [] {
      ReachableIsRecorded(steps[0], left - 1, steps[1..], e, expand);
    }
    assert Records(items[k], left - 1, e, expand);
    ItemsRecord(items, |items|, left - 1, e, expand);
  }

  /** A walk that raises nothing records exactly the rows at the end of a chain
      of fewer than `left` steps. */
  lemma VisitsAreTheReachable(at: Place, left: nat, e: Entry, expand: Expander)
    requires Visits(at, left, expand).Some?
    ensures e in Visits(at, left, expand).value <==> Reachable(at, left, e, expand)
  {
    if e in Visits(at, left, expand).value {
      var steps := RecordedIsReachable(at, left, e, expand);
    }
    if steps :| |steps| < left && Chain(at, steps, e, expand) {
      ReachableIsRecorded(at, left, steps, e, expand);
    }
  }

  /** A row of the node itself, or of a node it leads to, is recorded. */
  lemma RecordedHere(at: Place, left: nat, e: Entry, expand: Expander)
    requires Visits(at, left + 1, expand).Some? && Row(e) in expand(at).value
    ensures e in Visits(at, left + 1, expand).value
  {
    ReachableIsRecorded(at, left + 1, [], e, expand);
  }

  lemma RecordedBelow(at: Place, next: Place, left: nat, expand: Expander)
    requires Visits(at, left + 1, expand).Some? && Down(next) in expand(at).value
    ensures Visits(next, left, expand).Some?
    ensures forall e :: e in Visits(next, left, expand).value ==> e in Visits(at, left + 1, expand).value
  {
    var items := expand(at).value;
    var k :| 0 <= k < |items| && items[k] == Down(next);
    ItemsSucceed(items, |items|, left, expand, k);
    forall e | e in Visits(next, left, expand).value ensures e in Visits(at, left + 1, expand).value {
      assert Records(items[k], left, e, expand);
      ItemsRecord(items, |items|, left, e, expand);
    }
  }

  // ---------- The depth cap ----------

  /** Some node lies `left` levels down, so that the cap turns it away. */
  ghost predicate Capped(at: Place, left: nat, expand: Expander)
    decreases left
  {
    left == 0 ||
    (expand(at).Some? && exists next :: Down(next) in expand(at).value && Capped(next, left - 1, expand))
  }

  /** Unless it turns a node away, the cap makes no difference: any larger one
      gives the same rows, in the same order, or the same failure. */
  lemma {:induction false} CapIsInvisible(at: Place, left: nat, more: nat, expand: Expander)
    requires left <= more && !Capped(at, left, expand)
    ensures Visits(at, more, expand) == Visits(at, left, expand)
    decreases left, 0, 0
  {
    var items := expand(at);
    if items.Some? {
      forall next | Down(next) in items.value ensures !Capped(next, left - 1, expand) {
      }
      ItemsUncapped(items.value, |items.value|, left - 1, more - 1, expand);
    }
  }

  lemma {:induction false} ItemsUncapped(items: seq<Item>, n: nat, left: nat, more: nat, expand: Expander)
    requires left <= more && n <= |items|
    requires forall next :: Down(next) in items ==> !Capped(next, left, expand)
    ensures VisitItems(items, n, more, expand) == VisitItems(items, n, left, expand)
    decreases left, 1, n
  {
    if n > 0 {
      ItemsUncapped(items, n - 1, left, more, expand);
      match items[n - 1] {
        case Row(_) =>
        case Down(next) =>
          assert Down(next) in items;
          CapIsInvisible(next, left, more, expand);
      }
    }
  }
}
