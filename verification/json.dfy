/** The JSON values the backend replies with, and the two JavaScript
    operations the client applies to them: truthiness and property access. */
module Json {
  import opened Wrappers

  /** A value produced by `JSON.parse`. Numbers are kept as exact reals. */
  datatype Json =
    | Null
    | Bool(b: bool)
    | Num(n: real)
    | Str(s: string)
    | Arr(items: seq<Json>)
    | Obj(fields: seq<(string, Json)>)

  /** JavaScript truthiness: `null`, `false`, `0` and `""` are falsy. */
  predicate Truthy(v: Json) {
    match v
    case Null => false
    case Bool(b) => b
    case Num(n) => n != 0.0
    case Str(s) => s != ""
    case Arr(_) => true
    case Obj(_) => true
  }

  /** The value bound to `key` in an object's members; when a key repeats,
      the last binding wins, as it does in `JSON.parse`. */
  function Lookup(fields: seq<(string, Json)>, key: string): (r: Option<Json>)
    ensures r.None? <==> forall k :: 0 <= k < |fields| ==> fields[k].0 != key
    ensures r.Some? ==> exists k :: 0 <= k < |fields| && fields[k] == (key, r.value)
                                   && forall j :: k < j < |fields| ==> fields[j].0 != key
  {
    if fields == [] then None
    else if fields[|fields| - 1].0 == key then
      assert fields[|fields| - 1] == (key, fields[|fields| - 1].1);
      Some(fields[|fields| - 1].1)
    else Lookup(fields[..|fields| - 1], key)
  }

  /** `v.key` on a value that is not `null`: a member of an object, and
      `undefined` (None) on every other kind of value. */
  function Get(v: Json, key: string): (r: Option<Json>)
    ensures !v.Obj? ==> r.None?
  {
    if v.Obj? then Lookup(v.fields, key) else None
  }

  /** A property that the source compares with `===` against a string
      constant: its text when it is a string, and "" otherwise (a missing or
      non-string value equals no non-empty constant, and neither does ""). */
  function TextOf(o: Option<Json>): string {
    if o.Some? && o.value.Str? then o.value.s else ""
  }
}
