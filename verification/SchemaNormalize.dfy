/** Expanding references and `allOf` in a schema node.

    References may be cyclic; the expansion stops at a reference that is already
    being expanded.  It ends on every document because either a reference is
    added to the stack, out of those the document and the node contain, or the
    node gets smaller. */
module SchemaNormalize {
  import opened Names
  import opened Json
  import opened JsonPointer
  import opened Text
  import opened SchemaMerge

  const ALL_OF := "allOf"

  // ---------- The references in a value ----------

  /** Every text that stands under a `$ref` key anywhere in the value. */
  function Refs(value: Json): set<string> {
    match value
    case Arr(items) => set i, r | 0 <= i < |items| && r in Refs(items[i]) :: r
    case Obj(fields) =>
      (set k, r | k in fields && r in Refs(fields[k]) :: r) +
      (if REF in fields && fields[REF].Str? then {fields[REF].text} else {})
    case _ => {}
  }

  lemma RefsOfMember(fields: Fields, key: string)
    requires key in fields
    ensures Refs(fields[key]) <= Refs(Obj(fields))
  {
  }

  lemma RefsOfItem(items: seq<Json>, i: nat)
    requires i < |items|
    ensures Refs(items[i]) <= Refs(Arr(items))
  {
  }

  lemma RefsWithin(fields: Fields, bound: set<string>)
    requires forall k :: k in fields ==> Refs(fields[k]) <= bound
    requires REF in fields && fields[REF].Str? ==> fields[REF].text in bound
    ensures Refs(Obj(fields)) <= bound
  {
  }

  lemma {:induction false} RefsFollow(value: Json, path: seq<string>)
    requires Follow(value, path).Some?
    ensures Refs(Follow(value, path).value) <= Refs(value)
  {
    if path != [] {
      RefsFollow(value.fields[path[0]], path[1..]);
      RefsOfMember(value.fields, path[0]);
    }
  }

  lemma RefsCombine(key: string, base: Option<Json>, overlay: Option<Json>, bound: set<string>)
    requires Fits(key, base, overlay) && Combine(key, base, overlay).Some?
    requires base.Some? ==> Refs(base.value) <= bound
    requires overlay.Some? ==> Refs(overlay.value) <= bound
    ensures Refs(Combine(key, base, overlay).value) <= bound
  {
    var combined := Combine(key, base, overlay).value;
    if overlay.Some? && key == PROPERTIES {
      var below, above := FieldsOf(base), FieldsOf(overlay);
      forall k | k in below + above ensures Refs((below + above)[k]) <= bound {
        if k in above { RefsOfMember(above, k); } else { RefsOfMember(below, k); }
      }
      RefsWithin(below + above, bound);
    } else if overlay.Some? && key == REQUIRED {
      assert forall i :: 0 <= i < |combined.items| ==> Refs(combined.items[i]) == {};
    }
  }

  lemma RefsMerge(base: Fields, overlay: Fields)
    requires Merge(base, overlay).Some?
    ensures Refs(Obj(Merge(base, overlay).value)) <= Refs(Obj(base)) + Refs(Obj(overlay))
  {
    var merged, bound := Merge(base, overlay).value, Refs(Obj(base)) + Refs(Obj(overlay));
    forall k | k in merged ensures Refs(merged[k]) <= bound {
      MergeLookup(base, overlay, k);
      if k in base { RefsOfMember(base, k); }
      if k in overlay { RefsOfMember(overlay, k); }
      RefsCombine(k, Lookup(base, k), Lookup(overlay, k), bound);
    }
    MergeLookup(base, overlay, REF);
    assert Lookup(merged, REF) == Lookup(base, REF);
    RefsWithin(merged, bound);
  }

  // ---------- The reference loop ----------

  /** Failed: an exception.  Cut: a reference met again, dropped and returned at
      once.  Plain: no reference left, with the stack so far. */
  datatype Unfolded = Failed | Cut(fields: Fields) | Plain(fields: Fields, stack: seq<string>)

  function Without(fields: Fields, key: string): Fields {
    fields - {key}
  }

  /** The references that can still be pushed on the stack. */
  function Unused(refs: set<string>, root: Json, stack: seq<string>): set<string> {
    refs + Refs(root) - Elements(stack)
  }

  /** The object a reference denotes. */
  function Target(root: Json, ref: Json): Option<Fields> {
    if !ref.Str? then None
    else
      var found := Resolve(root, ref.text);
      if found.Some? && found.value.Obj? then Some(found.value.fields) else None
  }

  lemma TargetRefs(root: Json, ref: Json)
    requires Target(root, ref).Some?
    ensures Refs(Obj(Target(root, ref).value)) <= Refs(root)
  {
    RefsFollow(root, DecodeAll(Split(ref.text[2..], '/')));
  }

  lemma FewerUnused(refs: set<string>, more: set<string>, root: Json, stack: seq<string>, ref: string)
    requires refs <= more + Refs(root) && ref in more + Refs(root) && ref !in stack
    ensures |Unused(refs, root, stack + [ref])| < |Unused(more, root, stack)|
  {
    var a, b := Unused(refs, root, stack + [ref]), Unused(more, root, stack);
    assert Elements(stack + [ref]) == Elements(stack) + {ref};
    assert a <= b - {ref};
    SubsetCardinality(a, b - {ref});
  }

  lemma SubsetCardinality<T>(a: set<T>, b: set<T>)
    requires a <= b
    ensures |a| <= |b|
  {
    assert b == a + (b - a);
  }

  function Unfold(fields: Fields, root: Json, stack: seq<string>): Unfolded
    decreases |Unused(Refs(Obj(fields)), root, stack)|
  {
    if REF !in fields then Plain(fields, stack)
    else
      var ref := fields[REF];
      if ref.Str? && ref.text in stack then Cut(Without(fields, REF))
      else
        var target := Target(root, ref);
        if target.None? then Failed
        else
          var merged := Merge(target.value, fields);
          if merged.None? then Failed
          else
            TargetRefs(root, ref);
            RefsMerge(target.value, fields);
            FewerUnused(Refs(Obj(merged.value)), Refs(Obj(fields)), root, stack, ref.text);
            Unfold(merged.value, root, stack + [ref.text])
  }

  function UnfoldMerged(merged: Option<Fields>, root: Json, stack: seq<string>): Unfolded {
    if merged.None? then Failed else Unfold(merged.value, root, stack)
  }

  /** One turn of the reference loop. */
  lemma UnfoldStep(fields: Fields, root: Json, stack: seq<string>)
    requires REF in fields && !(fields[REF].Str? && fields[REF].text in stack)
    ensures Unfold(fields, root, stack) ==
            var target := Target(root, fields[REF]);
            if target.None? then Failed
            else UnfoldMerged(Merge(target.value, fields), root, stack + [fields[REF].text])
  {
  }

  /** One turn of the reference loop uses up a reference. */
  lemma TurnShrinks(fields: Fields, root: Json, stack: seq<string>)
    requires REF in fields && fields[REF].Str? && fields[REF].text !in stack
    requires Target(root, fields[REF]).Some? && Merge(Target(root, fields[REF]).value, fields).Some?
    ensures var merged := Merge(Target(root, fields[REF]).value, fields).value;
            && Refs(Obj(merged)) <= Refs(Obj(fields)) + Refs(root)
            && |Unused(Refs(Obj(merged)), root, stack + [fields[REF].text])| < |Unused(Refs(Obj(fields)), root, stack)|
  {
    var ref := fields[REF];
    var target := Target(root, ref).value;
    TargetRefs(root, ref);
    RefsMerge(target, fields);
    FewerUnused(Refs(Obj(Merge(target, fields).value)), Refs(Obj(fields)), root, stack, ref.text);
  }

  /** Unfolding leaves no reference on top, and either changes nothing or uses
      up a reference. */
  lemma {:induction false} UnfoldShrinks(fields: Fields, root: Json, stack: seq<string>)
    ensures var u := Unfold(fields, root, stack);
            && (u.Cut? || u.Plain? ==> REF !in u.fields)
            && (u.Plain? ==>
                  || (u.fields == fields && u.stack == stack)
                  || (Refs(Obj(u.fields)) <= Refs(Obj(fields)) + Refs(root) &&
                      |Unused(Refs(Obj(u.fields)), root, u.stack)| < |Unused(Refs(Obj(fields)), root, stack)|))
    decreases |Unused(Refs(Obj(fields)), root, stack)|
  {
    if REF in fields && !(fields[REF].Str? && fields[REF].text in stack) {
      UnfoldStep(fields, root, stack);
      var target := Target(root, fields[REF]);
      if target.Some? && Merge(target.value, fields).Some? {
        TurnShrinks(fields, root, stack);
        UnfoldShrinks(Merge(target.value, fields).value, root, stack + [fields[REF].text]);
      }
    }
  }

  // ---------- Normalisation ----------

  /** The values Python's `for` would visit; None where it raises. */
  function Members(value: Json): Option<seq<Json>> {
    match value
    case Arr(items) => Some(items)
    case Str(text) => if text == "" then Some([]) else None
    case Obj(fields) => if fields == map[] then Some([]) else None
    case _ => None
  }

  /** How many references can still be pushed while expanding `value`. */
  function Fuel(value: Json, root: Json, stack: seq<string>): nat {
    |Unused(Refs(value), root, stack)|
  }

  function Normalize(node: Json, root: Json, stack: seq<string>): Option<Fields>
    decreases Fuel(node, root, stack), node
  {
    if !node.Obj? then None
    else
      var u := Unfold(node.fields, root, stack);
      if u.Failed? then None
      else if u.Cut? then Some(u.fields)
      else if ALL_OF !in u.fields then Some(u.fields)
      else
        var items := Members(u.fields[ALL_OF]);
        if items.None? then None
        else if items.value == [] then Some(Without(u.fields, ALL_OF))
        else
          MembersFuel(node, root, stack);
          FoldAll(Without(u.fields, ALL_OF), items.value, 0, root, u.stack)
  }

  /** The members of an `allOf` are expanded with fewer references left, or they
      are part of the node itself. */
  lemma MembersFuel(node: Json, root: Json, stack: seq<string>)
    requires node.Obj?
    requires var u := Unfold(node.fields, root, stack);
             u.Plain? && ALL_OF in u.fields && u.fields[ALL_OF].Arr?
    ensures var u := Unfold(node.fields, root, stack);
            var members := u.fields[ALL_OF];
            || Fuel(members, root, u.stack) < Fuel(node, root, stack)
            || (Fuel(members, root, u.stack) <= Fuel(node, root, stack) && u.fields == node.fields)
  {
    var u := Unfold(node.fields, root, stack);
    UnfoldShrinks(node.fields, root, stack);
    RefsOfMember(u.fields, ALL_OF);
    SubsetCardinality(Unused(Refs(u.fields[ALL_OF]), root, u.stack), Unused(Refs(Obj(u.fields)), root, u.stack));
  }

  lemma ItemUnused(items: seq<Json>, i: nat, root: Json, stack: seq<string>)
    requires i < |items|
    ensures Fuel(items[i], root, stack) <= Fuel(Arr(items), root, stack)
  {
    RefsOfItem(items, i);
    SubsetCardinality(Unused(Refs(items[i]), root, stack), Unused(Refs(Arr(items)), root, stack));
  }

  /** Merges the normalised members of an `allOf`, from the `i`-th on, onto `base`. */
  function FoldAll(base: Fields, items: seq<Json>, i: nat, root: Json, stack: seq<string>): Option<Fields>
    requires i <= |items|
    decreases Fuel(Arr(items), root, stack), items, |items| - i
  {
    if i == |items| then Some(base)
    else
      ItemUnused(items, i, root, stack);
      var sub := Normalize(items[i], root, stack);
      if sub.None? then None
      else
        var merged := Merge(base, sub.value);
        if merged.None? then None else FoldAll(merged.value, items, i + 1, root, stack)
  }

  // ---------- No reference is left on top ----------

  lemma {:induction false} FoldKeepsRefOut(base: Fields, items: seq<Json>, i: nat, root: Json, stack: seq<string>)
    requires i <= |items| && REF !in base
    requires FoldAll(base, items, i, root, stack).Some?
    ensures REF !in FoldAll(base, items, i, root, stack).value
    decreases |items| - i
  {
    if i < |items| {
      var sub := Normalize(items[i], root, stack).value;
      MergeLookup(base, sub, REF);
      FoldKeepsRefOut(Merge(base, sub).value, items, i + 1, root, stack);
    }
  }

  /** Whatever the references do, a normalised node has no `$ref` on top. */
  lemma NoReferenceOnTop(node: Json, root: Json, stack: seq<string>)
    requires Normalize(node, root, stack).Some?
    ensures REF !in Normalize(node, root, stack).value
  {
    var u := Unfold(node.fields, root, stack);
    UnfoldShrinks(node.fields, root, stack);
    if u.Plain? && ALL_OF in u.fields {
      var items := Members(u.fields[ALL_OF]).value;
      if items != [] {
        FoldKeepsRefOut(Without(u.fields, ALL_OF), items, 0, root, u.stack);
      }
    }
  }

  // ---------- A reference means inheritance ----------

  function Overlaid(u: Unfolded, overlay: Fields): Unfolded {
    if u.Failed? then Failed
    else
      var merged := Merge(u.fields, overlay);
      if merged.None? then Failed
      else if u.Cut? then Cut(merged.value) else Plain(merged.value, u.stack)
  }

  lemma MergeWithoutRef(base: Fields, overlay: Fields)
    ensures Merge(Without(base, REF), overlay) ==
            if Merge(base, overlay).None? then None else Some(Without(Merge(base, overlay).value, REF))
  {
    var bare := Without(base, REF);
    assert forall k :: k != REF ==> Lookup(bare, k) == Lookup(base, k);
    assert CanMerge(bare, overlay) <==> CanMerge(base, overlay);
    if Merge(base, overlay).Some? {
      var x, y := Merge(bare, overlay).value, Without(Merge(base, overlay).value, REF);
      forall k ensures Lookup(x, k) == Lookup(y, k) {
        MergeLookup(bare, overlay, k);
        MergeLookup(base, overlay, k);
      }
      SameLookups(x, y);
    }
  }

  lemma UnfoldStepShrinks(fields: Fields, root: Json, stack: seq<string>)
    requires REF in fields && fields[REF].Str? && fields[REF].text !in stack
    requires var target := Target(root, fields[REF]);
             target.Some? && Merge(target.value, fields).Some?
    ensures var merged := Merge(Target(root, fields[REF]).value, fields).value;
            Fuel(Obj(merged), root, stack + [fields[REF].text]) < Fuel(Obj(fields), root, stack)
  {
    TurnShrinks(fields, root, stack);
  }

  /** Unfolding a node and then overlaying gives what overlaying and then
      unfolding gives. */
  lemma {:induction false} UnfoldCommutes(base: Fields, overlay: Fields, root: Json, stack: seq<string>)
    ensures Overlaid(Unfold(base, root, stack), overlay) == UnfoldMerged(Merge(base, overlay), root, stack)
    decreases Fuel(Obj(base), root, stack), 1
  {
    if Merge(base, overlay).Some? {
      MergeLookup(base, overlay, REF);
      assert Lookup(Merge(base, overlay).value, REF) == Lookup(base, REF);
    }
    if REF in base {
      if base[REF].Str? && base[REF].text in stack {
        MergeWithoutRef(base, overlay);
      } else {
        UnfoldStep(base, root, stack);
        if Merge(base, overlay).Some? {
          UnfoldStep(Merge(base, overlay).value, root, stack);
        }
        StepCommutes(base, overlay, root, stack);
      }
    }
  }

  lemma {:induction false} StepCommutes(base: Fields, overlay: Fields, root: Json, stack: seq<string>)
    requires REF in base && !(base[REF].Str? && base[REF].text in stack)
    ensures var target := Target(root, base[REF]);
            target.Some? ==>
              var more := stack + [base[REF].text];
              Overlaid(UnfoldMerged(Merge(target.value, base), root, more), overlay) ==
              UnfoldMerged(Under(target.value, Merge(base, overlay)), root, more)
    decreases Fuel(Obj(base), root, stack), 0
  {
    var target := Target(root, base[REF]);
    if target.Some? {
      MergeAssociates(target.value, base, overlay);
      var merged := Merge(target.value, base);
      if merged.Some? {
        UnfoldStepShrinks(base, root, stack);
        UnfoldCommutes(merged.value, overlay, root, stack + [base[REF].text]);
      }
    }
  }

  /** A `$ref` is inheritance: the loop, which merges target after target under
      the node, computes the target's own unfolding with the node laid on top. */
  lemma ReferenceIsInheritance(fields: Fields, root: Json, stack: seq<string>)
    requires REF in fields && fields[REF].Str? && fields[REF].text !in stack
    requires Target(root, fields[REF]).Some?
    ensures Unfold(fields, root, stack) ==
            Overlaid(Unfold(Target(root, fields[REF]).value, root, stack + [fields[REF].text]), fields)
  {
    UnfoldStep(fields, root, stack);
    UnfoldCommutes(Target(root, fields[REF]).value, fields, root, stack + [fields[REF].text]);
  }

  // ---------- A node's own keys win ----------

  /** `result` keeps the value of every key of `own`, or extends it where values
      are combined: the names of `required`, the members of `properties`. */
  ghost predicate Keeps(result: Fields, own: Fields) {
    forall key :: key in own && key != REF ==>
      && key in result
      && (result[key] == own[key] ||
          (key == REQUIRED && IsNameList(result[key]) && IsNameList(own[key]) &&
           NamesIn(own[key]) <= NamesIn(result[key])) ||
          (key == PROPERTIES && result[key].Obj? && own[key].Obj? &&
           forall p :: p in own[key].fields ==> p in result[key].fields && result[key].fields[p] == own[key].fields[p]))
  }

  lemma KeepsTransitive(a: Fields, b: Fields, c: Fields)
    requires Keeps(a, b) && Keeps(b, c)
    ensures Keeps(a, c)
  {
  }

  lemma MergeKeeps(base: Fields, overlay: Fields)
    requires Merge(base, overlay).Some?
    ensures Keeps(Merge(base, overlay).value, overlay)
  {
    var merged := Merge(base, overlay).value;
    forall key | key in overlay && key != REF
      ensures Lookup(merged, key) == Combine(key, Lookup(base, key), Some(overlay[key]))
    {
      MergeLookup(base, overlay, key);
    }
    if REQUIRED in overlay {
      RequiredIsTheUnion(Lookup(base, REQUIRED), overlay[REQUIRED]);
    }
  }

  /** However long the chain of references, what a node says itself survives. */
  lemma {:induction false} OwnKeysWin(fields: Fields, root: Json, stack: seq<string>)
    requires !Unfold(fields, root, stack).Failed?
    ensures Keeps(Unfold(fields, root, stack).fields, fields)
    decreases Fuel(Obj(fields), root, stack)
  {
    if REF in fields && !(fields[REF].Str? && fields[REF].text in stack) {
      UnfoldStep(fields, root, stack);
      var target := Target(root, fields[REF]).value;
      var merged := Merge(target, fields).value;
      UnfoldStepShrinks(fields, root, stack);
      MergeKeeps(target, fields);
      OwnKeysWin(merged, root, stack + [fields[REF].text]);
      KeepsTransitive(Unfold(fields, root, stack).fields, merged, fields);
    }
  }

  // ---------- The chain of references ----------

  // The chain is read off the document: from an object to the object its `$ref`
  // denotes, as long as that reference is not on the stack.

  /** The next object on the chain, if there is one. */
  function Next(fields: Fields, root: Json, stack: seq<string>): (next: Option<Fields>)
    ensures next.Some? ==> REF in fields && fields[REF].Str? && fields[REF].text !in stack
    ensures next.Some? ==> |Unused(Refs(Obj(next.value)), root, stack + [fields[REF].text])| < |Unused(Refs(Obj(fields)), root, stack)|
  {
    if REF !in fields || !fields[REF].Str? || fields[REF].text in stack || Target(root, fields[REF]).None? then None
    else
      TargetRefs(root, fields[REF]);
      FewerUnused(Refs(Obj(Target(root, fields[REF]).value)), Refs(Obj(fields)), root, stack, fields[REF].text);
      Target(root, fields[REF])
  }

  /** The chain comes back to a reference. */
  predicate Revisits(fields: Fields, root: Json, stack: seq<string>)
    decreases |Unused(Refs(Obj(fields)), root, stack)|
  {
    var next := Next(fields, root, stack);
    if next.Some? then Revisits(next.value, root, stack + [fields[REF].text])
    else REF in fields && fields[REF].Str? && fields[REF].text in stack
  }

  /** The references met when the chain ends. */
  function StackAfter(fields: Fields, root: Json, stack: seq<string>): seq<string>
    decreases |Unused(Refs(Obj(fields)), root, stack)|
  {
    var next := Next(fields, root, stack);
    if next.Some? then StackAfter(next.value, root, stack + [fields[REF].text]) else stack
  }

  /** What the first object on the chain that has the key has there. */
  function FirstOnChain(fields: Fields, root: Json, stack: seq<string>, key: string): Option<Json>
    decreases |Unused(Refs(Obj(fields)), root, stack)|
  {
    if key in fields then Some(fields[key])
    else
      var next := Next(fields, root, stack);
      if next.Some? then FirstOnChain(next.value, root, stack + [fields[REF].text], key) else None
  }

  /** What a node under which `base` has been laid has for a key. */
  lemma UnfoldMergedKey(base: Fields, overlay: Fields, root: Json, stack: seq<string>, key: string)
    requires key != REF && key != REQUIRED && key != PROPERTIES
    requires !UnfoldMerged(Merge(base, overlay), root, stack).Failed?
    ensures !Unfold(base, root, stack).Failed?
    ensures var u, v := Unfold(base, root, stack), UnfoldMerged(Merge(base, overlay), root, stack);
            && (u.Cut? <==> v.Cut?) && (u.Plain? ==> v.stack == u.stack)
            && Lookup(v.fields, key) == if key in overlay then Some(overlay[key]) else Lookup(u.fields, key)
  {
    UnfoldCommutes(base, overlay, root, stack);
    var u := Unfold(base, root, stack);
    MergeLookup(u.fields, overlay, key);
  }

  /** Expansion follows the chain: it is cut exactly if the chain comes back to a
      reference, and gives a key the value of the first object that has it. */
  lemma {:induction false} UnfoldFollowsChain(fields: Fields, root: Json, stack: seq<string>, key: string)
    requires key != REF && key != REQUIRED && key != PROPERTIES
    requires !Unfold(fields, root, stack).Failed?
    ensures var u := Unfold(fields, root, stack);
            && (u.Cut? <==> Revisits(fields, root, stack))
            && (u.Plain? ==> u.stack == StackAfter(fields, root, stack))
            && Lookup(u.fields, key) == FirstOnChain(fields, root, stack, key)
    decreases |Unused(Refs(Obj(fields)), root, stack)|
  {
    if REF in fields && !(fields[REF].Str? && fields[REF].text in stack) {
      UnfoldStep(fields, root, stack);
      var next := Next(fields, root, stack).value;
      var more := stack + [fields[REF].text];
      UnfoldMergedKey(next, fields, root, more, key);
      UnfoldFollowsChain(next, root, more, key);
    }
  }

  /** What the chain has for a key is expanded with fewer references left, or is
      part of the node itself. */
  lemma {:induction false} ChainFuel(fields: Fields, root: Json, stack: seq<string>, key: string)
    requires FirstOnChain(fields, root, stack, key).Some?
    ensures var value, after := FirstOnChain(fields, root, stack, key).value, StackAfter(fields, root, stack);
            || Fuel(value, root, after) < Fuel(Obj(fields), root, stack)
            || (Fuel(value, root, after) <= Fuel(Obj(fields), root, stack) && key in fields && value == fields[key])
    decreases |Unused(Refs(Obj(fields)), root, stack)|
  {
    StackGrows(fields, root, stack);
    if key in fields {
      RefsOfMember(fields, key);
      SubsetCardinality(Unused(Refs(fields[key]), root, StackAfter(fields, root, stack)), Unused(Refs(Obj(fields)), root, stack));
    } else {
      ChainFuel(Next(fields, root, stack).value, root, stack + [fields[REF].text], key);
    }
  }

  lemma {:induction false} StackGrows(fields: Fields, root: Json, stack: seq<string>)
    ensures Elements(stack) <= Elements(StackAfter(fields, root, stack))
    decreases |Unused(Refs(Obj(fields)), root, stack)|
  {
    var next := Next(fields, root, stack);
    if next.Some? {
      StackGrows(next.value, root, stack + [fields[REF].text]);
    }
  }

  // ---------- When an allOf survives ----------

  /** Somewhere down the members of `allOf`s, a chain of references that comes
      back to one of them carries an `allOf`. */
  predicate CutsAnAllOf(node: Json, root: Json, stack: seq<string>)
    decreases Fuel(node, root, stack), node
  {
    node.Obj? &&
    var allOf := FirstOnChain(node.fields, root, stack, ALL_OF);
    allOf.Some? &&
    (Revisits(node.fields, root, stack) ||
     (allOf.value.Arr? &&
      (ChainFuel(node.fields, root, stack, ALL_OF);
       MemberCuts(allOf.value.items, 0, root, StackAfter(node.fields, root, stack)))))
  }

  predicate MemberCuts(items: seq<Json>, i: nat, root: Json, stack: seq<string>)
    requires i <= |items|
    decreases Fuel(Arr(items), root, stack), items, |items| - i
  {
    if i == |items| then false
    else
      ItemUnused(items, i, root, stack);
      CutsAnAllOf(items[i], root, stack) || MemberCuts(items, i + 1, root, stack)
  }

  /** The members of the `allOf` that normalisation resolves. */
  function ResolvedMembers(fields: Fields, root: Json, stack: seq<string>): seq<Json> {
    var allOf := FirstOnChain(fields, root, stack, ALL_OF);
    if allOf.Some? && allOf.value.Arr? && !Revisits(fields, root, stack) then allOf.value.items else []
  }

  /** The members that are folded in after an expansion. */
  function Foldable(u: Unfolded): seq<Json> {
    if u.Plain? && ALL_OF in u.fields && u.fields[ALL_OF].Arr? then u.fields[ALL_OF].items else []
  }

  /** Normalising is expanding, and folding in the members. */
  lemma NormalizedFold(node: Json, root: Json, stack: seq<string>)
    requires Normalize(node, root, stack).Some?
    ensures var u := Unfold(node.fields, root, stack);
            && !u.Failed?
            && (Foldable(u) == [] ==>
                  Normalize(node, root, stack).value == if u.Cut? then u.fields else Without(u.fields, ALL_OF))
            && (Foldable(u) != [] ==>
                  Normalize(node, root, stack) == FoldAll(Without(u.fields, ALL_OF), Foldable(u), 0, root, u.stack))
  {
    var u := Unfold(node.fields, root, stack);
    if u.Plain? && ALL_OF !in u.fields {
      assert Without(u.fields, ALL_OF) == u.fields;
    }
  }

  lemma FoldableByChain(fields: Fields, root: Json, stack: seq<string>)
    requires !Unfold(fields, root, stack).Failed?
    ensures Foldable(Unfold(fields, root, stack)) == ResolvedMembers(fields, root, stack)
    ensures Foldable(Unfold(fields, root, stack)) != [] ==>
              Unfold(fields, root, stack).stack == StackAfter(fields, root, stack)
  {
    UnfoldFollowsChain(fields, root, stack, ALL_OF);
  }

  lemma CutsByChain(node: Json, root: Json, stack: seq<string>)
    requires node.Obj?
    ensures CutsAnAllOf(node, root, stack) <==>
            || (Revisits(node.fields, root, stack) && FirstOnChain(node.fields, root, stack, ALL_OF).Some?)
            || MemberCuts(ResolvedMembers(node.fields, root, stack), 0, root, StackAfter(node.fields, root, stack))
  {
  }

  /** A normalised node still has an `allOf` on top exactly when, at the node or
      down the members of its `allOf`, a chain of references that carries an
      `allOf` comes back to one of them. */
  lemma {:induction false} AllOfSurvives(node: Json, root: Json, stack: seq<string>)
    requires Normalize(node, root, stack).Some?
    ensures ALL_OF in Normalize(node, root, stack).value <==> CutsAnAllOf(node, root, stack)
    decreases Fuel(node, root, stack), node
  {
    var u := Unfold(node.fields, root, stack);
    NormalizedFold(node, root, stack);
    FoldableByChain(node.fields, root, stack);
    CutsByChain(node, root, stack);
    UnfoldFollowsChain(node.fields, root, stack, ALL_OF);
    if Foldable(u) != [] {
      MembersFuel(node, root, stack);
      FoldedAllOf(Without(u.fields, ALL_OF), Foldable(u), 0, root, u.stack);
    }
  }

  lemma {:induction false} FoldedAllOf(base: Fields, items: seq<Json>, i: nat, root: Json, stack: seq<string>)
    requires i <= |items| && FoldAll(base, items, i, root, stack).Some?
    ensures ALL_OF in FoldAll(base, items, i, root, stack).value <==>
            ALL_OF in base || MemberCuts(items, i, root, stack)
    decreases Fuel(Arr(items), root, stack), items, |items| - i
  {
    if i < |items| {
      ItemUnused(items, i, root, stack);
      AllOfSurvives(items[i], root, stack);
      var sub := Normalize(items[i], root, stack).value;
      MergeLookup(base, sub, ALL_OF);
      FoldedAllOf(Merge(base, sub).value, items, i + 1, root, stack);
    }
  }

  /** A definition that refers to itself and has an `allOf` shows it. */
  lemma SelfReferenceKeepsAllOf(name: string)
    ensures var pointer := PointerTo([name]);
            var root := Obj(map[name := Obj(map["$ref" := Str(pointer), "allOf" := Arr([])])]);
            Normalize(Obj(map["$ref" := Str(pointer)]), root, []) == Some(map["allOf" := Arr([])])
  {
    var pointer := PointerTo([name]);
    var definition := map[REF := Str(pointer), ALL_OF := Arr([])];
    var root := Obj(map[name := Obj(definition)]);
    var node := map[REF := Str(pointer)];
    PointerRoundTrip([name]);
    assert Follow(root, [name]) == Some(Obj(definition)) by {
      assert Follow(Obj(definition), [name][1..]) == Some(Obj(definition));
    }
    assert Target(root, node[REF]) == Some(definition);
    forall k ensures Lookup(Merge(definition, node).value, k) == Lookup(definition, k) {
      MergeLookup(definition, node, k);
    }
    SameLookups(Merge(definition, node).value, definition);
    assert Without(definition, REF) == map[ALL_OF := Arr([])];
    assert Unfold(definition, root, [] + [pointer]) == Cut(Without(definition, REF));
  }

  // ---------- What a normalised node has for a key ----------

  /** A key whose values are not combined: the later one wins. */
  predicate Uncombined(key: string) {
    key != REF && key != REQUIRED && key != PROPERTIES && key != ALL_OF
  }

  function OrElse(value: Option<Json>, default: Option<Json>): Option<Json> {
    if value.Some? then value else default
  }

  /** What the last of the members, from the `i`-th on, that has the key once
      normalised has there. */
  function LastMember(items: seq<Json>, i: nat, root: Json, stack: seq<string>, key: string): Option<Json>
    requires i <= |items|
    decreases |items| - i
  {
    if i == |items| then None
    else
      var sub := Normalize(items[i], root, stack);
      OrElse(LastMember(items, i + 1, root, stack, key), if sub.None? then None else Lookup(sub.value, key))
  }

  lemma {:induction false} FoldedKey(base: Fields, items: seq<Json>, i: nat, root: Json, stack: seq<string>, key: string)
    requires i <= |items| && FoldAll(base, items, i, root, stack).Some? && Uncombined(key)
    ensures Lookup(FoldAll(base, items, i, root, stack).value, key) ==
            OrElse(LastMember(items, i, root, stack, key), Lookup(base, key))
    decreases |items| - i
  {
    if i < |items| {
      var sub := Normalize(items[i], root, stack).value;
      MergeLookup(base, sub, key);
      FoldedKey(Merge(base, sub).value, items, i + 1, root, stack, key);
    }
  }

  /** A normalised node has, for an uncombined key, what the last member of its
      `allOf` that has it says, and otherwise what the first object on its chain
      of references that has it says. */
  lemma NormalizedKey(node: Json, root: Json, stack: seq<string>, key: string)
    requires Normalize(node, root, stack).Some? && Uncombined(key)
    ensures Lookup(Normalize(node, root, stack).value, key) ==
            OrElse(LastMember(ResolvedMembers(node.fields, root, stack), 0, root, StackAfter(node.fields, root, stack), key),
                   FirstOnChain(node.fields, root, stack, key))
  {
    var u := Unfold(node.fields, root, stack);
    NormalizedFold(node, root, stack);
    FoldableByChain(node.fields, root, stack);
    UnfoldFollowsChain(node.fields, root, stack, key);
    if Foldable(u) != [] {
      FoldedKey(Without(u.fields, ALL_OF), Foldable(u), 0, root, u.stack, key);
    }
  }

  /** So a member of `allOf` overrides what the node itself says. */
  lemma MembersOverride(own: Json, member: Json, root: Json)
    ensures var node := Obj(map["description" := own, ALL_OF := Arr([Obj(map["description" := member])])]);
            Normalize(node, root, []) == Some(map["description" := member])
  {
    var sub := map["description" := member];
    var base := map["description" := own];
    var fields := map["description" := own, ALL_OF := Arr([Obj(sub)])];
    assert Without(fields, ALL_OF) == base;
    assert Normalize(Obj(sub), root, []) == Some(sub);
    forall k ensures Lookup(Merge(base, sub).value, k) == Lookup(sub, k) {
      MergeLookup(base, sub, k);
    }
    SameLookups(Merge(base, sub).value, sub);
    assert FoldAll(sub, [Obj(sub)], 1, root, []) == Some(sub);
  }

  // ---------- Readings that overlaying respects ----------

  /** What `read` makes of a merge is its reading of the base joined with that of
      the overlay, and `$ref` and `allOf` do not enter it. */
  ghost predicate Respects<A(!new)>(read: Fields -> A, join: (A, A) -> A) {
    && (forall base: Fields, overlay: Fields :: Merge(base, overlay).Some? ==>
          read(Merge(base, overlay).value) == join(read(base), read(overlay)))
    && (forall fields: Fields :: read(Without(fields, REF)) == read(fields))
    && (forall fields: Fields :: read(Without(fields, ALL_OF)) == read(fields))
  }

  /** The objects on a chain of references read together, the node over its target. */
  function ChainRead<A>(fields: Fields, root: Json, stack: seq<string>, read: Fields -> A, join: (A, A) -> A): A
    decreases |Unused(Refs(Obj(fields)), root, stack)|
  {
    var next := Next(fields, root, stack);
    if next.Some? then join(ChainRead(next.value, root, stack + [fields[REF].text], read, join), read(fields))
    else read(fields)
  }

  /** The members from the `i`-th on, normalised, read over `start` one after the other. */
  function MembersRead<A>(start: A, items: seq<Json>, i: nat, root: Json, stack: seq<string>,
                          read: Fields -> A, join: (A, A) -> A): A
    requires i <= |items|
    decreases |items| - i
  {
    if i == |items| then start
    else
      var sub := Normalize(items[i], root, stack);
      MembersRead(if sub.None? then start else join(start, read(sub.value)), items, i + 1, root, stack, read, join)
  }

  lemma UnfoldMergedFields(base: Fields, overlay: Fields, root: Json, stack: seq<string>)
    requires !UnfoldMerged(Merge(base, overlay), root, stack).Failed?
    ensures !Unfold(base, root, stack).Failed? && Merge(Unfold(base, root, stack).fields, overlay).Some?
    ensures UnfoldMerged(Merge(base, overlay), root, stack).fields ==
            Merge(Unfold(base, root, stack).fields, overlay).value
  {
    UnfoldCommutes(base, overlay, root, stack);
  }

  lemma ReadMerged<A(!new)>(base: Fields, overlay: Fields, read: Fields -> A, join: (A, A) -> A)
    requires Respects(read, join) && Merge(base, overlay).Some?
    ensures read(Merge(base, overlay).value) == join(read(base), read(overlay))
  {
  }

  lemma UnfoldedEnd<A(!new)>(fields: Fields, root: Json, stack: seq<string>, read: Fields -> A, join: (A, A) -> A)
    requires Respects(read, join) && Next(fields, root, stack).None? && !Unfold(fields, root, stack).Failed?
    ensures read(Unfold(fields, root, stack).fields) == read(fields)
  {
  }

  lemma UnfoldedNext(fields: Fields, root: Json, stack: seq<string>)
    requires Next(fields, root, stack).Some?
    ensures Unfold(fields, root, stack) ==
            UnfoldMerged(Merge(Next(fields, root, stack).value, fields), root, stack + [fields[REF].text])
  {
    UnfoldStep(fields, root, stack);
  }

  lemma {:induction false} ChainIsRead<A(!new)>(fields: Fields, root: Json, stack: seq<string>,
                                                read: Fields -> A, join: (A, A) -> A)
    requires Respects(read, join) && !Unfold(fields, root, stack).Failed?
    ensures read(Unfold(fields, root, stack).fields) == ChainRead(fields, root, stack, read, join)
    decreases |Unused(Refs(Obj(fields)), root, stack)|
  {
    var next := Next(fields, root, stack);
    if next.Some? {
      var more := stack + [fields[REF].text];
      UnfoldedNext(fields, root, stack);
      UnfoldMergedFields(next.value, fields, root, more);
      ReadMerged(Unfold(next.value, root, more).fields, fields, read, join);
      ChainIsRead(next.value, root, more, read, join);
    } else {
      UnfoldedEnd(fields, root, stack, read, join);
    }
  }

  lemma {:induction false} MembersAreRead<A(!new)>(base: Fields, items: seq<Json>, i: nat, root: Json, stack: seq<string>,
                                                   read: Fields -> A, join: (A, A) -> A)
    requires Respects(read, join) && i <= |items| && FoldAll(base, items, i, root, stack).Some?
    ensures read(FoldAll(base, items, i, root, stack).value) ==
            MembersRead(read(base), items, i, root, stack, read, join)
    decreases |items| - i
  {
    if i < |items| {
      var sub := Normalize(items[i], root, stack).value;
      MembersAreRead(Merge(base, sub).value, items, i + 1, root, stack, read, join);
    }
  }

  /** Every such reading of a normalised node is that of its chain of references,
      and then of the members of its `allOf`, in order. */
  lemma NormalizedReading<A(!new)>(node: Json, root: Json, stack: seq<string>, read: Fields -> A, join: (A, A) -> A)
    requires Respects(read, join) && Normalize(node, root, stack).Some?
    ensures read(Normalize(node, root, stack).value) ==
            MembersRead(ChainRead(node.fields, root, stack, read, join), ResolvedMembers(node.fields, root, stack), 0,
                        root, StackAfter(node.fields, root, stack), read, join)
  {
    var u := Unfold(node.fields, root, stack);
    NormalizedFold(node, root, stack);
    FoldableByChain(node.fields, root, stack);
    ChainIsRead(node.fields, root, stack, read, join);
    if Foldable(u) != [] {
      MembersAreRead(Without(u.fields, ALL_OF), Foldable(u), 0, root, u.stack, read, join);
    }
  }

  /** One property of a schema object. */
  function Property(name: string): Fields -> Option<Json> {
    (fields: Fields) => if PROPERTIES in fields && fields[PROPERTIES].Obj? then Lookup(fields[PROPERTIES].fields, name) else None
  }

  function Later(earlier: Option<Json>, later: Option<Json>): Option<Json> {
    OrElse(later, earlier)
  }

  /** The names a schema object requires. */
  function RequiredNames(fields: Fields): set<string> {
    if REQUIRED in fields && IsNameList(fields[REQUIRED]) then NamesIn(fields[REQUIRED]) else {}
  }

  function Both(a: set<string>, b: set<string>): set<string> { a + b }

  lemma PropertyRespects(name: string)
    ensures Respects(Property(name), Later)
  {
    forall base: Fields, overlay: Fields | Merge(base, overlay).Some?
      ensures Property(name)(Merge(base, overlay).value) == Later(Property(name)(base), Property(name)(overlay))
    {
      MergeLookup(base, overlay, PROPERTIES);
      if PROPERTIES in overlay {
        PropertiesAreMerged(Lookup(base, PROPERTIES), overlay[PROPERTIES], name);
      }
    }
  }

  lemma RequiredRespects()
    ensures Respects(RequiredNames, Both)
  {
    forall base: Fields, overlay: Fields | Merge(base, overlay).Some?
      ensures RequiredNames(Merge(base, overlay).value) == Both(RequiredNames(base), RequiredNames(overlay))
    {
      MergeLookup(base, overlay, REQUIRED);
      if REQUIRED in overlay {
        RequiredIsTheUnion(Lookup(base, REQUIRED), overlay[REQUIRED]);
      }
    }
  }

  /** A property of a normalised node is as the last to have it says: the last such
      `allOf` member, else the first such object on the chain of references. */
  lemma NormalizedProperty(node: Json, root: Json, stack: seq<string>, name: string)
    requires Normalize(node, root, stack).Some?
    ensures Property(name)(Normalize(node, root, stack).value) ==
            MembersRead(ChainRead(node.fields, root, stack, Property(name), Later), ResolvedMembers(node.fields, root, stack),
                        0, root, StackAfter(node.fields, root, stack), Property(name), Later)
  {
    PropertyRespects(name);
    NormalizedReading(node, root, stack, Property(name), Later);
  }

  /** A normalised node requires the names that any object on the chain or any
      `allOf` member requires. */
  lemma NormalizedRequired(node: Json, root: Json, stack: seq<string>)
    requires Normalize(node, root, stack).Some?
    ensures RequiredNames(Normalize(node, root, stack).value) ==
            MembersRead(ChainRead(node.fields, root, stack, RequiredNames, Both), ResolvedMembers(node.fields, root, stack),
                        0, root, StackAfter(node.fields, root, stack), RequiredNames, Both)
  {
    RequiredRespects();
    NormalizedReading(node, root, stack, RequiredNames, Both);
  }

  /** A member of `allOf` adds its properties to the node's. */
  lemma MembersAddProperties(a: string, x: Json, b: string, y: Json, root: Json)
    requires a != b
    ensures var node := Obj(map["properties" := Obj(map[a := x]),
                                "allOf" := Arr([Obj(map["properties" := Obj(map[b := y])])])]);
            Normalize(node, root, []) == Some(map["properties" := Obj(map[a := x, b := y])])
  {
    var sub, base := map[PROPERTIES := Obj(map[b := y])], map[PROPERTIES := Obj(map[a := x])];
    var fields := map[PROPERTIES := Obj(map[a := x]), ALL_OF := Arr([Obj(sub)])];
    assert Without(fields, ALL_OF) == base;
    assert Normalize(Obj(sub), root, []) == Some(sub);
    MergedPair(a, x, b, y);
    assert FoldAll(map[PROPERTIES := Obj(map[a := x, b := y])], [Obj(sub)], 1, root, []) ==
           Some(map[PROPERTIES := Obj(map[a := x, b := y])]);
  }

  lemma MergedPair(a: string, x: Json, b: string, y: Json)
    requires a != b
    ensures Merge(map[PROPERTIES := Obj(map[a := x])], map[PROPERTIES := Obj(map[b := y])]) ==
            Some(map[PROPERTIES := Obj(map[a := x, b := y])])
  {
    var base, sub := map[PROPERTIES := Obj(map[a := x])], map[PROPERTIES := Obj(map[b := y])];
    var both := map[PROPERTIES := Obj(map[a := x, b := y])];
    assert map[a := x] + map[b := y] == map[a := x, b := y];
    forall k ensures Lookup(Merge(base, sub).value, k) == Lookup(both, k) {
      MergeLookup(base, sub, k);
    }
    SameLookups(Merge(base, sub).value, both);
  }

  // ---------- The script's function ----------

  /** The `while "$ref"` loop, which rebinds the node and the stack. */
  method ExpandReferences(fields: Fields, root: Json, stack: seq<string>) returns (u: Unfolded)
    ensures u == Unfold(fields, root, stack)
  {
    var normalized := fields;
    var refStack := stack;
    while REF in normalized
      invariant Unfold(normalized, root, refStack) == Unfold(fields, root, stack)
      decreases Fuel(Obj(normalized), root, refStack)
    {
      var ref := normalized[REF];
      if ref.Str? && ref.text in refStack {
        return Cut(Without(normalized, REF));
      }
      if !ref.Str? {
        return Failed;
      }
      var target := ResolvePointer(root, ref.text);
      if target.None? || !target.value.Obj? {
        return Failed;
      }
      var merged := MergeSchema(target.value.fields, normalized);
      UnfoldStep(normalized, root, refStack);
      if merged.None? {
        return Failed;
      }
      UnfoldStepShrinks(normalized, root, refStack);
      normalized := merged.value;
      refStack := refStack + [ref.text];
    }
    u := Plain(normalized, refStack);
  }

  method NormalizeSchemaNode(node: Json, root: Json, stack: seq<string>) returns (result: Option<Fields>)
    ensures result == Normalize(node, root, stack)
    decreases Fuel(node, root, stack), node, 1
  {
    if !node.Obj? {
      return None;
    }
    var u := ExpandReferences(node.fields, root, stack);
    if u.Failed? {
      return None;
    }
    if u.Cut? || ALL_OF !in u.fields {
      return Some(u.fields);
    }
    var allOf := Members(u.fields[ALL_OF]);
    if allOf.None? {
      return None;
    }
    if allOf.value == [] {
      return Some(Without(u.fields, ALL_OF));
    }
    MembersFuel(node, root, stack);
    result := MergeMembers(Without(u.fields, ALL_OF), allOf.value, root, u.stack);
  }

  /** The loop over the members of an `allOf`. */
  method MergeMembers(start: Fields, items: seq<Json>, root: Json, stack: seq<string>) returns (result: Option<Fields>)
    ensures result == FoldAll(start, items, 0, root, stack)
    decreases Fuel(Arr(items), root, stack), items, 0
  {
    var base := start;
    ghost var goal := FoldAll(start, items, 0, root, stack);
    for i := 0 to |items|
      invariant FoldAll(base, items, i, root, stack) == goal
    {
      ItemUnused(items, i, root, stack);
      var sub := NormalizeSchemaNode(items[i], root, stack);
      if sub.None? {
        return None;
      }
      var merged := MergeSchema(base, sub.value);
      if merged.None? {
        return None;
      }
      base := merged.value;
    }
    return Some(base);
  }
}
