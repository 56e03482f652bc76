/** An already-decoded JSON payload, as Python's `json` module hands it to the
    extractor, together with the few Python operations the extractor applies
    to it: truthiness, `key in d`, `d.get(key)` and `isinstance`. */
module Json {
  import opened Wrappers

  /** A decoded JSON value. Objects keep their fields in document order, which
      is the order Python's `dict.values()` walks. Floats are finite (NaN and
      the infinities are not modelled). */
  datatype Json =
    | Null
    | Bool(b: bool)
    | Int(i: int)
    | Float(r: real)
    | Str(s: string)
    | Arr(items: seq<Json>)
    | Obj(fields: seq<Field>)

  /** One `key: value` member of an object. */
  datatype Field = Field(key: string, value: Json)

  /** Python's truthiness: None, False, 0, 0.0, "", [] and {} are falsy. */
  predicate Truthy(j: Json) {
    match j
    case Null => false
    case Bool(b) => b
    case Int(i) => i != 0
    case Float(r) => r != 0.0
    case Str(s) => s != []
    case Arr(xs) => xs != []
    case Obj(fs) => fs != []
  }

  /** `key in d` for a list of object fields. */
  predicate HasKey(fs: seq<Field>, key: string) {
    exists i :: 0 <= i < |fs| && fs[i].key == key
  }

  /** The value stored under `key`: the first field carrying it. */
  function Lookup(fs: seq<Field>, key: string): (r: Option<Json>)
    ensures r.None? <==> !HasKey(fs, key)
    ensures r.Some? ==> exists i :: 0 <= i < |fs| && fs[i] == Field(key, r.value)
                                    && forall k :: 0 <= k < i ==> fs[k].key != key
  {
    if fs == [] then None
    else if fs[0].key == key then Some(fs[0].value)
    else
      var r := Lookup(fs[1..], key);
      assert HasKey(fs[1..], key) ==> HasKey(fs, key) by {
        if HasKey(fs[1..], key) {
          var i :| 0 <= i < |fs[1..]| && fs[1..][i].key == key;
          assert fs[i + 1].key == key;
        }
      }
      assert HasKey(fs, key) ==> HasKey(fs[1..], key) by {
        if HasKey(fs, key) {
          var i :| 0 <= i < |fs| && fs[i].key == key;
          assert i != 0;
          assert fs[1..][i - 1].key == key;
        }
      }
      if r.Some? then
        assert exists i :: 0 <= i < |fs| && fs[i] == Field(key, r.value)
                           && forall k :: 0 <= k < i ==> fs[k].key != key by {
          var i :| 0 <= i < |fs[1..]| && fs[1..][i] == Field(key, r.value)
                   && forall k :: 0 <= k < i ==> fs[1..][k].key != key;
          assert fs[i + 1] == Field(key, r.value);
          forall k | 0 <= k < i + 1 ensures fs[k].key != key {
            if k > 0 { assert fs[k] == fs[1..][k - 1]; }
          }
        }
        r
      else r
  }

  /** Python's `d.get(key)` on a mapping: the stored value, or None (JSON null)
      when the key is absent. */
  function Get(d: Json, key: string): (r: Json)
    requires d.Obj?
    ensures !HasKey(d.fields, key) ==> r == Null
    ensures HasKey(d.fields, key) ==> exists i :: 0 <= i < |d.fields| && d.fields[i] == Field(key, r)
  {
    Lookup(d.fields, key).GetOr(Null)
  }

  /** `key in d and isinstance(d[key], list)`: the list stored under `key`. */
  function ListAt(d: Json, key: string): (r: Option<seq<Json>>)
    requires d.Obj?
    ensures r.Some? <==> HasKey(d.fields, key) && Get(d, key).Arr?
    ensures r.Some? ==> Get(d, key) == Arr(r.value)
  {
    match Lookup(d.fields, key)
    case Some(Arr(xs)) => Some(xs)
    case _ => None
  }
}
