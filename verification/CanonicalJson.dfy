/** stableJson identifies exactly the values that differ in key order only
    (src/noema/composition-log.ts:129-142). */
module CanonicalJson {
  import opened OrderedMap
  import opened Sequences
  import opened JsonValues
  import opened StableJsons
  import opened TextOrder

  const KEY: Field -> string := (f: Field) => f.key

  /** The value with the keys of every object in order. */
  function Canon(v: Json): Json
    decreases v
  {
    match v
    case Arr(xs) => Arr(CanonItems(xs))
    case Obj(fs) => Obj(SortUnique(CanonFields(fs), KEY))
    case _ => v
  }

  function CanonItems(xs: seq<Json>): (r: seq<Json>)
    ensures |r| == |xs|
    decreases xs
  {
    if xs == [] then [] else [Canon(xs[0])] + CanonItems(xs[1..])
  }

  function CanonFields(fs: seq<Field>): (r: seq<Field>)
    ensures |r| == |fs|
    decreases fs
  {
    if fs == [] then [] else [Field(fs[0].key, Canon(fs[0].value))] + CanonFields(fs[1..])
  }

  function StableJson(v: Json): string {
    Print(Canon(v))
  }

  /** Equal up to the order of keys. */
  ghost predicate Same(v: Json, w: Json)
    decreases v
  {
    match v
    case Arr(xs) => w.Arr? && |w.items| == |xs| && forall i :: 0 <= i < |xs| ==> Same(xs[i], w.items[i])
    case Obj(fs) => w.Obj? && |w.fields| == |fs| && forall i :: 0 <= i < |fs| ==> Paired(fs[i], w.fields)
    case _ => v == w
  }

  ghost predicate Paired(f: Field, gs: seq<Field>)
    decreases f, 0
  {
    exists j :: 0 <= j < |gs| && gs[j].key == f.key && Same(f.value, gs[j].value)
  }

  // ---------------------------------------------------------------- canonical fields

  lemma {:induction false} ItemAt(xs: seq<Json>, i: nat)
    requires i < |xs|
    ensures CanonItems(xs)[i] == Canon(xs[i])
  {
    if i > 0 {
      ItemAt(xs[1..], i - 1);
    }
  }

  lemma {:induction false} FieldAt(fs: seq<Field>, i: nat)
    requires i < |fs|
    ensures CanonFields(fs)[i] == Field(fs[i].key, Canon(fs[i].value))
  {
    if i > 0 {
      FieldAt(fs[1..], i - 1);
    }
  }

  lemma FieldsDistinct(fs: seq<Field>)
    requires DistinctFields(fs)
    ensures DistinctKeys(CanonFields(fs), KEY)
  {
    forall i, j | 0 <= i < j < |fs|
      ensures KEY(CanonFields(fs)[i]) != KEY(CanonFields(fs)[j])
    {
      FieldAt(fs, i);
      FieldAt(fs, j);
    }
  }

  lemma {:induction false} AscendingDistinct(fs: seq<Field>)
    requires Ascending(fs, KEY)
    ensures DistinctFields(fs)
  {
    if fs != [] {
      AscendingDistinct(fs[1..]);
      forall j | 0 < j < |fs|
        ensures fs[j].key != fs[0].key
      {
        assert fs[j] in fs[1..];
        LessTotal(KEY(fs[0]), KEY(fs[j]));
      }
    }
  }

  /** Sorted and original fields are the same fields. */
  lemma SortedFields(fs: seq<Field>)
    requires DistinctFields(fs)
    ensures forall f :: f in SortUnique(CanonFields(fs), KEY) <==> f in CanonFields(fs)
    ensures Ascending(SortUnique(CanonFields(fs), KEY), KEY)
  {
    FieldsDistinct(fs);
    SortUniqueIs(CanonFields(fs), KEY);
  }

  lemma {:induction false} CanonWellFormed(v: Json)
    requires WellFormed(v)
    ensures WellFormed(Canon(v))
    decreases v
  {
    match v
    case Arr(xs) =>
      forall x | x in CanonItems(xs)
        ensures WellFormed(x)
      {
        var i :| 0 <= i < |xs| && CanonItems(xs)[i] == x;
        ItemAt(xs, i);
        CanonWellFormed(xs[i]);
      }
    case Obj(fs) =>
      var sorted := SortUnique(CanonFields(fs), KEY);
      SortedFields(fs);
      AscendingDistinct(sorted);
      forall f | f in sorted
        ensures WellFormed(f.value)
      {
        var i :| 0 <= i < |fs| && CanonFields(fs)[i] == f;
        FieldAt(fs, i);
        CanonWellFormed(fs[i].value);
      }
    case _ =>
  }

  // ---------------------------------------------------------------- same and canonical

  lemma {:induction false} SameCanon(v: Json, w: Json)
    requires WellFormed(v) && WellFormed(w)
    ensures Same(v, w) <==> Canon(v) == Canon(w)
    decreases v
  {
    match v
    case Arr(xs) =>
      if w.Arr? && |w.items| == |xs| {
        forall i | 0 <= i < |xs|
          ensures Same(xs[i], w.items[i]) <==> CanonItems(xs)[i] == CanonItems(w.items)[i]
        {
          ItemAt(xs, i);
          ItemAt(w.items, i);
          SameCanon(xs[i], w.items[i]);
        }
      }
    case Obj(fs) =>
      if w.Obj? {
        SameFields(fs, w.fields);
      }
    case _ =>
  }

  lemma {:induction false} PairedCanon(f: Field, gs: seq<Field>)
    requires WellFormed(f.value) && WellFormed(Obj(gs))
    ensures Paired(f, gs) <==> Field(f.key, Canon(f.value)) in CanonFields(gs)
    decreases f, 1
  {
    forall j | 0 <= j < |gs|
      ensures CanonFields(gs)[j] == Field(gs[j].key, Canon(gs[j].value))
      ensures Same(f.value, gs[j].value) <==> Canon(f.value) == Canon(gs[j].value)
    {
      FieldAt(gs, j);
      SameCanon(f.value, gs[j].value);
    }
  }

  lemma {:induction false} SameFields(fs: seq<Field>, gs: seq<Field>)
    requires WellFormed(Obj(fs)) && WellFormed(Obj(gs))
    ensures Same(Obj(fs), Obj(gs)) <==> Canon(Obj(fs)) == Canon(Obj(gs))
    decreases fs
  {
    var cs, ds := CanonFields(fs), CanonFields(gs);
    SortedFields(fs);
    SortedFields(gs);
    forall i | 0 <= i < |fs|
      ensures Paired(fs[i], gs) <==> cs[i] in ds
    {
      FieldAt(fs, i);
      PairedCanon(fs[i], gs);
    }
    if Same(Obj(fs), Obj(gs)) {
      FieldsDistinct(fs);
      FieldsDistinct(gs);
      SameSize(cs, ds);
      AscendingUnique(SortUnique(cs, KEY), SortUnique(ds, KEY), KEY);
    }
    if Canon(Obj(fs)) == Canon(Obj(gs)) {
      FieldsDistinct(fs);
      FieldsDistinct(gs);
      EqualSize(cs, ds);
    }
  }

  lemma FieldsSize(s: seq<Field>)
    requires DistinctKeys(s, KEY)
    ensures |SetOf(s)| == |s|
  {
    assert forall i, j :: 0 <= i < j < |s| ==> KEY(s[i]) != KEY(s[j]);
    SetSize(s);
  }

  lemma SameSize(s: seq<Field>, t: seq<Field>)
    requires DistinctKeys(s, KEY) && DistinctKeys(t, KEY) && |s| == |t|
    requires forall i :: 0 <= i < |s| ==> s[i] in t
    ensures forall f :: f in s <==> f in t
  {
    FieldsSize(s);
    FieldsSize(t);
    var a, b := SetOf(s), SetOf(t);
    assert a <= b;
    if a != b {
      assert b == a + (b - a);
    }
    forall f
      ensures f in s <==> f in t
    {
      assert f in a <==> f in b;
    }
  }

  lemma EqualSize(s: seq<Field>, t: seq<Field>)
    requires DistinctKeys(s, KEY) && DistinctKeys(t, KEY)
    requires forall f :: f in SortUnique(s, KEY) <==> f in s
    requires forall f :: f in SortUnique(t, KEY) <==> f in t
    requires SortUnique(s, KEY) == SortUnique(t, KEY)
    ensures |s| == |t| && forall f :: f in s ==> f in t
  {
    FieldsSize(s);
    FieldsSize(t);
    assert SetOf(s) == SetOf(t);
  }

  // ---------------------------------------------------------------- the serialiser

  /** Two values have the same canonical text exactly when they are the same value up to the
      order of keys. */
  lemma StableJsonExact(v: Json, w: Json)
    requires WellFormed(v) && WellFormed(w)
    ensures StableJson(v) == StableJson(w) <==> Same(v, w)
  {
    SameCanon(v, w);
    CanonWellFormed(v);
    CanonWellFormed(w);
    if StableJson(v) == StableJson(w) {
      assert Print(Canon(v)) + "" == Print(Canon(w)) + "";
      PrintPrefix(Canon(v), Canon(w), "", "");
    }
  }
}
