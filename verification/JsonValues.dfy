/** JSON values as parsed objects: fields keep their order. */
module JsonValues {
  import opened OrderedMap

  /** Numbers are kept as the text JavaScript prints for them. */
  datatype Json =
    | Null
    | Bool(b: bool)
    | Num(literal: string)
    | Str(text: string)
    | Arr(items: seq<Json>)
    | Obj(fields: seq<Field>)

  datatype Field = Field(key: string, value: Json)

  function GetField(fs: seq<Field>, key: string): (r: Option<Json>)
    ensures r.None? <==> forall f :: f in fs ==> f.key != key
    ensures r.Some? ==> Field(key, r.value) in fs
  {
    if fs == [] then None else if fs[0].key == key then Some(fs[0].value) else GetField(fs[1..], key)
  }

  /** `v[key]`, with undefined for anything but an object that has the key. */
  function Get(v: Json, key: string): Option<Json> {
    if v.Obj? then GetField(v.fields, key) else None
  }

  function EndsWith(s: string, suffix: string): bool {
    |suffix| <= |s| && s[|s| - |suffix|..] == suffix
  }

  /** A suffix is what is left of the text behind some front part. */
  lemma EndsWithIs(s: string, suffix: string)
    ensures EndsWith(s, suffix) <==> exists front: string :: Followed(s, front, suffix)
  {
    if EndsWith(s, suffix) {
      assert Followed(s, s[..|s| - |suffix|], suffix);
    }
  }

  predicate Followed(s: string, front: string, suffix: string) {
    s == front + suffix
  }
}
