/** Overlaying one schema object on another. */
module SchemaMerge {
  import opened Names
  import opened Json

  type Fields = map<string, Json>

  const REF := "$ref"
  const REQUIRED := "required"
  const PROPERTIES := "properties"

  /** A list of strings, the shape of `required`. */
  predicate IsNameList(value: Json) {
    value.Arr? && forall i :: 0 <= i < |value.items| ==> value.items[i].Str?
  }

  function NamesIn(value: Json): set<string>
    requires IsNameList(value)
  {
    set i | 0 <= i < |value.items| :: value.items[i].text
  }

  function NameList(names: set<string>): Json {
    var sorted := Sorted(names);
    Arr(seq(|sorted|, i requires 0 <= i < |sorted| => Str(sorted[i])))
  }

  lemma NameListRoundTrip(names: set<string>)
    ensures IsNameList(NameList(names)) && NamesIn(NameList(names)) == names
  {
    var sorted := Sorted(names);
    var list := NameList(names);
    forall x ensures x in NamesIn(list) <==> x in names {
      if x in names {
        assert x in Elements(sorted);
        var i :| 0 <= i < |sorted| && sorted[i] == x;
        assert list.items[i].text == x;
      }
      if x in NamesIn(list) {
        var i :| 0 <= i < |list.items| && list.items[i].text == x;
        assert sorted[i] in Elements(sorted);
      }
    }
  }

  // ---------- One key at a time ----------

  function NamesOf(value: Option<Json>): set<string>
    requires value.Some? ==> IsNameList(value.value)
  {
    if value.Some? then NamesIn(value.value) else {}
  }

  function FieldsOf(value: Option<Json>): Fields
    requires value.Some? ==> value.value.Obj?
  {
    if value.Some? then value.value.fields else map[]
  }

  /** The overlay's value for `key`, if any, can be merged onto the base's. */
  predicate Fits(key: string, base: Option<Json>, overlay: Option<Json>) {
    overlay.Some? ==>
      && (key == REQUIRED ==> IsNameList(overlay.value) && (base.Some? ==> IsNameList(base.value)))
      && (key == PROPERTIES ==> overlay.value.Obj? && (base.Some? ==> base.value.Obj?))
  }

  function Combine(key: string, base: Option<Json>, overlay: Option<Json>): Option<Json>
    requires Fits(key, base, overlay)
  {
    if overlay.None? || key == REF then base
    else if key == REQUIRED then Some(NameList(NamesOf(base) + NamesOf(overlay)))
    else if key == PROPERTIES then Some(Obj(FieldsOf(base) + FieldsOf(overlay)))
    else overlay
  }

  lemma CombineAssociates(key: string, a: Option<Json>, b: Option<Json>, c: Option<Json>)
    ensures Fits(key, a, b) && Fits(key, Combine(key, a, b), c) <==>
            Fits(key, b, c) && Fits(key, a, Combine(key, b, c))
    ensures Fits(key, a, b) && Fits(key, Combine(key, a, b), c) ==>
              Combine(key, Combine(key, a, b), c) == Combine(key, a, Combine(key, b, c))
  {
    if key == REQUIRED {
      RequiredAssociates(a, b, c);
    } else if key == PROPERTIES && c.Some? && (a.Some? ==> a.value.Obj?) && Fits(key, b, c) {
      assert FieldsOf(a) + map[] == FieldsOf(a) && map[] + FieldsOf(c) == FieldsOf(c);
      assert (FieldsOf(a) + FieldsOf(b)) + FieldsOf(c) == FieldsOf(a) + (FieldsOf(b) + FieldsOf(c));
    }
  }

  lemma RequiredAssociates(a: Option<Json>, b: Option<Json>, c: Option<Json>)
    ensures Fits(REQUIRED, a, b) && Fits(REQUIRED, Combine(REQUIRED, a, b), c) <==>
            Fits(REQUIRED, b, c) && Fits(REQUIRED, a, Combine(REQUIRED, b, c))
    ensures Fits(REQUIRED, a, b) && Fits(REQUIRED, Combine(REQUIRED, a, b), c) ==>
              Combine(REQUIRED, Combine(REQUIRED, a, b), c) == Combine(REQUIRED, a, Combine(REQUIRED, b, c))
  {
    if c.Some? {
      if b.Some? && Fits(REQUIRED, a, b) {
        NameListRoundTrip(NamesOf(a) + NamesOf(b));
      }
      if Fits(REQUIRED, b, c) {
        NameListRoundTrip(NamesOf(b) + NamesOf(c));
        assert {} + NamesOf(c) == NamesOf(c);
      }
      if b.Some? && Fits(REQUIRED, a, b) && Fits(REQUIRED, b, c) {
        assert (NamesOf(a) + NamesOf(b)) + NamesOf(c) == NamesOf(a) + (NamesOf(b) + NamesOf(c));
      }
    }
  }

  /** The names a combined `required` lists are those of both sides. */
  lemma RequiredIsTheUnion(base: Option<Json>, overlay: Json)
    requires Fits(REQUIRED, base, Some(overlay))
    ensures var merged := Combine(REQUIRED, base, Some(overlay)).value;
            IsNameList(merged) && NamesIn(merged) == NamesOf(base) + NamesIn(overlay)
  {
    NameListRoundTrip(NamesOf(base) + NamesIn(overlay));
  }

  /** Combined `properties` hold the members of both sides, each as the overlay
      has it, or else as the base has it. */
  lemma PropertiesAreMerged(base: Option<Json>, overlay: Json, name: string)
    requires Fits(PROPERTIES, base, Some(overlay))
    ensures var merged := Combine(PROPERTIES, base, Some(overlay)).value;
            && merged.Obj?
            && (name in merged.fields <==> name in overlay.fields || (base.Some? && name in base.value.fields))
            && (name in overlay.fields ==> merged.fields[name] == overlay.fields[name])
            && (name !in overlay.fields && base.Some? && name in base.value.fields ==>
                  merged.fields[name] == base.value.fields[name])
  {
  }

  // ---------- Whole objects ----------

  predicate CanMerge(base: Fields, overlay: Fields) {
    forall key :: key in overlay ==> Fits(key, Lookup(base, key), Lookup(overlay, key))
  }

  /** The overlay on the base, key by key; None stands for the exception raised
      when a `required` or `properties` to be combined has the wrong shape. */
  function Merge(base: Fields, overlay: Fields): Option<Fields> {
    if !CanMerge(base, overlay) then None
    else Some(map key | key in base.Keys + (overlay.Keys - {REF}) ::
                Combine(key, Lookup(base, key), Lookup(overlay, key)).value)
  }

  /** A merge has exactly the combined value for every key. */
  lemma MergeLookup(base: Fields, overlay: Fields, key: string)
    requires Merge(base, overlay).Some?
    ensures Lookup(Merge(base, overlay).value, key) == Combine(key, Lookup(base, key), Lookup(overlay, key))
  {
  }

  lemma SameLookups(x: Fields, y: Fields)
    requires forall key :: Lookup(x, key) == Lookup(y, key)
    ensures x == y
  {
    forall key ensures key in x <==> key in y {
      assert Lookup(x, key) == Lookup(y, key);
    }
    forall key | key in x ensures x[key] == y[key] {
      assert Lookup(x, key) == Lookup(y, key);
    }
  }

  function Then(merged: Option<Fields>, overlay: Fields): Option<Fields> {
    if merged.None? then None else Merge(merged.value, overlay)
  }

  function Under(base: Fields, merged: Option<Fields>): Option<Fields> {
    if merged.None? then None else Merge(base, merged.value)
  }

  /** Overlaying is associative, failures included. */
  lemma MergeAssociates(a: Fields, b: Fields, c: Fields)
    ensures Then(Merge(a, b), c) == Under(a, Merge(b, c))
  {
    forall key {
      CombineAssociates(key, Lookup(a, key), Lookup(b, key), Lookup(c, key));
    }
    LeftMerges(a, b, c);
    RightMerges(a, b, c);
    if Then(Merge(a, b), c).Some? && Under(a, Merge(b, c)).Some? {
      var x, y := Then(Merge(a, b), c).value, Under(a, Merge(b, c)).value;
      forall key ensures Lookup(x, key) == Lookup(y, key) {
        MergeLookup(a, b, key);
        MergeLookup(Merge(a, b).value, c, key);
        MergeLookup(b, c, key);
        MergeLookup(a, Merge(b, c).value, key);
      }
      SameLookups(x, y);
    }
  }

  predicate LeftFits(key: string, a: Option<Json>, b: Option<Json>, c: Option<Json>) {
    Fits(key, a, b) && Fits(key, Combine(key, a, b), c)
  }

  predicate RightFits(key: string, a: Option<Json>, b: Option<Json>, c: Option<Json>) {
    Fits(key, b, c) && Fits(key, a, Combine(key, b, c))
  }

  lemma LeftMerges(a: Fields, b: Fields, c: Fields)
    ensures Then(Merge(a, b), c).Some? <==> forall key :: LeftFits(key, Lookup(a, key), Lookup(b, key), Lookup(c, key))
  {
    if Merge(a, b).Some? {
      forall key { MergeLookup(a, b, key); }
    }
  }

  lemma RightMerges(a: Fields, b: Fields, c: Fields)
    ensures Under(a, Merge(b, c)).Some? <==> forall key :: RightFits(key, Lookup(a, key), Lookup(b, key), Lookup(c, key))
  {
    if Merge(b, c).Some? {
      forall key { MergeLookup(b, c, key); }
    }
  }

  // ---------- The script's loop ----------

  /** Goes through the overlay's entries in whatever order they come. */
  method MergeSchema(base: Fields, overlay: Fields) returns (merged: Option<Fields>)
    ensures merged == Merge(base, overlay)
  {
    var result := base;
    var rest := overlay.Keys;
    while rest != {}
      invariant rest <= overlay.Keys
      invariant forall key :: key in overlay.Keys - rest ==> Fits(key, Lookup(base, key), Lookup(overlay, key))
      invariant forall key ::
                  Lookup(result, key) == if key in overlay.Keys - rest then Combine(key, Lookup(base, key), Lookup(overlay, key))
                                         else Lookup(base, key)
      decreases rest
    {
      ghost var before := result;
      var key :| key in rest;
      assert Lookup(before, key) == Lookup(base, key);
      rest := rest - {key};
      if key == REF {
        continue;
      }
      var value := overlay[key];
      if key == REQUIRED {
        var existing := Lookup(result, REQUIRED);
        if !IsNameList(value) || (existing.Some? && !IsNameList(existing.value)) {
          return None;
        }
        result := result[REQUIRED := NameList(NamesOf(existing) + NamesIn(value))];
      } else if key == PROPERTIES {
        var properties := Lookup(result, PROPERTIES);
        if !value.Obj? || (properties.Some? && !properties.value.Obj?) {
          return None;
        }
        result := result[PROPERTIES := Obj(FieldsOf(properties) + value.fields)];
      } else {
        result := result[key := value];
      }
      forall k ensures Lookup(result, k) == if k == key then Combine(key, Lookup(base, key), Lookup(overlay, key))
                                            else Lookup(before, k) {
      }
    }
    forall key ensures Lookup(result, key) == Lookup(Merge(base, overlay).value, key) {
      MergeLookup(base, overlay, key);
    }
    SameLookups(result, Merge(base, overlay).value);
    return Some(result);
  }
}
