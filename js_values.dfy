/**
 * The JavaScript values that the front end's records are made of.
 *
 * Nodes, edges, style groups and configuration objects are plain JavaScript
 * objects whose keys are added and deleted at run time, so they are modelled
 * as maps from property names to values. The module also states the two
 * library behaviours every other module leans on: JavaScript truthiness and
 * lodash's deep `merge` (recursive on plain objects, right-biased otherwise).
 */
module JsValues {

  datatype Option<+T> = None | Some(value: T)

  datatype Result<+T, +E> = Ok(value: T) | Err(error: E)

  /** A JavaScript value. Numbers are reals (NaN and the infinities are not
    * values here); a callback is an opaque reference compared by identity. */
  datatype Value =
    | Undefined
    | Null
    | Bool(b: bool)
    | Num(n: real)
    | Str(s: string)
    | Arr(items: seq<Value>)
    | Obj(fields: map<string, Value>)
    | Fn(ref: nat)

  /** The own properties of a plain object. A key that is present may still
    * hold `Undefined` (`o.k = undefined` differs from `delete o.k`). */
  type Fields = map<string, Value>

  /** JavaScript truthiness: `undefined`, `null`, `false`, `0` and `""` are falsy. */
  predicate Truthy(v: Value) {
    match v
    case Undefined => false
    case Null => false
    case Bool(b) => b
    case Num(n) => n != 0.0
    case Str(s) => s != ""
    case _ => true
  }

  /** Property read `o[k]`: `undefined` when the key is absent. */
  function Get(o: Fields, k: string): Value {
    if k in o then o[k] else Undefined
  }

  /** `a || b`. */
  function Or(a: Value, b: Value): Value {
    if Truthy(a) then a else b
  }

  /** `s.startsWith(p)` on a string. */
  predicate StartsWith(s: string, p: string) {
    p <= s
  }

  /** Property read on an arbitrary value, `v[k]`; `None` is the TypeError
    * thrown when `v` is `undefined` or `null`. Strings and arrays answer
    * their index properties; other primitives have no own properties here. */
  function GetProp(v: Value, k: string): Option<Value> {
    match v
    case Undefined => None
    case Null => None
    case Obj(f) => Some(Get(f, k))
    case Arr(items) =>
      Some(if k == "0" && |items| > 0 then items[0] else Undefined)
    case Str(s) =>
      Some(if k == "0" && |s| > 0 then Str([s[0]]) else Undefined)
    case _ => Some(Undefined)
  }

  /** Decimal text of a whole number. */
  function NatText(n: nat): (r: string)
    ensures |r| > 0
  {
    var d := ["0123456789"[n % 10]];
    if n < 10 then d else NatText(n / 10) + d
  }

  /** `String(v)` as a template literal `${v}` or a property key computes it.
    * Every fractional number is rendered as the same placeholder text, so
    * two fractional ids are not told apart by their text. */
  function ToText(v: Value): string
    decreases v, 1
  {
    match v
    case Undefined => "undefined"
    case Null => "null"
    case Bool(b) => if b then "true" else "false"
    case Num(n) =>
      if n == n.Floor as real then
        (if n < 0.0 then "-" + NatText(-n.Floor) else NatText(n.Floor))
      else "<fraction>"
    case Str(s) => s
    case Arr(items) => JoinItemsFrom(items, 0)
    case Obj(_) => "[object Object]"
    case Fn(_) => "function"
  }

  /** `items.slice(i).join(",")`, where `undefined` and `null` items print as "". */
  function JoinItemsFrom(items: seq<Value>, i: nat): string
    requires i <= |items|
    decreases Arr(items), 0, |items| - i
  {
    if i == |items| then ""
    else
      var first := if items[i].Undefined? || items[i].Null? then "" else ToText(items[i]);
      if i + 1 == |items| then first else first + "," + JoinItemsFrom(items, i + 1)
  }

  /** `parts.join(sep)` on strings. */
  function Join(parts: seq<string>, sep: string): string {
    if parts == [] then ""
    else if |parts| == 1 then parts[0]
    else parts[0] + sep + Join(parts[1..], sep)
  }

  // ---------------------------------------------------------------------
  // lodash `merge` (the `lodash/fp` flavour, which does not mutate its
  // arguments). Its source is not part of this model, and the contract below
  // is this model's assumption about it: a key of the source overwrites the
  // destination's, except that two plain objects are merged key by key and
  // an `undefined` source value leaves an existing destination value in
  // place. lodash also merges two arrays index by index; this model treats
  // arrays as leaves that the source value replaces.
  // ---------------------------------------------------------------------

  function MergeValue(dst: Value, src: Value): Value
    decreases src, 1
  {
    if dst.Obj? && src.Obj? then Obj(MergeFields(dst.fields, src.fields))
    else if src.Undefined? then dst
    else src
  }

  function MergeFields(dst: Fields, src: Fields): (r: Fields)
    ensures r.Keys == dst.Keys + src.Keys
    decreases Obj(src), 0
  {
    map k | k in dst.Keys + src.Keys ::
      if k in src && k in dst then MergeValue(dst[k], src[k])
      else if k in src then src[k]
      else dst[k]
  }

  /** Merging a value into itself changes nothing. */
  lemma {:induction false} MergeValueSelf(v: Value)
    ensures MergeValue(v, v) == v
    decreases v, 1
  {
    if v.Obj? {
      MergeFieldsSelf(v.fields);
    }
  }

  lemma {:induction false} MergeFieldsSelf(f: Fields)
    ensures MergeFields(f, f) == f
    decreases Obj(f), 0
  {
    var r := MergeFields(f, f);
    forall k | k in f ensures r[k] == f[k] {
      MergeValueSelf(f[k]);
    }
  }

  /** Merging the same source twice is the same as merging it once. */
  lemma {:induction false} MergeValueIdempotent(dst: Value, src: Value)
    ensures MergeValue(MergeValue(dst, src), src) == MergeValue(dst, src)
    decreases src, 1
  {
    if dst.Obj? && src.Obj? {
      MergeFieldsIdempotent(dst.fields, src.fields);
    } else if !src.Undefined? {
      MergeValueSelf(src);
    }
  }

  lemma {:induction false} MergeFieldsIdempotent(dst: Fields, src: Fields)
    ensures MergeFields(MergeFields(dst, src), src) == MergeFields(dst, src)
    decreases Obj(src), 0
  {
    var once := MergeFields(dst, src);
    var twice := MergeFields(once, src);
    forall k | k in once ensures twice[k] == once[k] {
      if k in src {
        if k in dst {
          MergeValueIdempotent(dst[k], src[k]);
        } else {
          MergeValueSelf(src[k]);
        }
      }
    }
  }

  /** Merging into an empty object yields (a copy of) the source. */
  lemma {:induction false} MergeIntoEmpty(src: Fields)
    ensures MergeFields(map[], src) == src
  {
  }

  /** Merging an empty source yields (a copy of) the destination. */
  lemma {:induction false} MergeOfEmpty(dst: Fields)
    ensures MergeFields(dst, map[]) == dst
  {
  }

  /** The contract the rest of the model relies on, key by key: the source
    * wins on leaves, an `undefined` source leaves a present value alone,
    * two objects are merged recursively, and keys only the destination
    * has are kept. */
  lemma MergeAt(dst: Fields, src: Fields, k: string)
    ensures k in MergeFields(dst, src) <==> k in dst || k in src
    ensures k in src && k !in dst ==> MergeFields(dst, src)[k] == src[k]
    ensures k !in src && k in dst ==> MergeFields(dst, src)[k] == dst[k]
    ensures k in src && k in dst && src[k].Undefined? ==> MergeFields(dst, src)[k] == dst[k]
    ensures k in src && k in dst && !src[k].Undefined? && !(src[k].Obj? && dst[k].Obj?) ==>
              MergeFields(dst, src)[k] == src[k]
    ensures k in src && k in dst && src[k].Obj? && dst[k].Obj? ==>
              MergeFields(dst, src)[k] == Obj(MergeFields(dst[k].fields, src[k].fields))
  {
  }

  // ---------------------------------------------------------------------
  // `JSON.parse(JSON.stringify(v))`: a deep copy that drops object keys
  // holding `undefined` or a function and turns such array items into null.
  // ---------------------------------------------------------------------

  predicate Unserializable(v: Value) {
    v.Undefined? || v.Fn?
  }

  function JsonClone(v: Value): Value
    decreases v, 1
  {
    match v
    case Obj(f) => Obj(JsonCloneFields(f))
    case Arr(items) => Arr(JsonCloneItems(items))
    case _ => v
  }

  function JsonCloneFields(f: Fields): (r: Fields)
    ensures r.Keys == set k | k in f && !Unserializable(f[k])
    decreases Obj(f), 0
  {
    map k | k in f && !Unserializable(f[k]) :: JsonClone(f[k])
  }

  function JsonCloneItems(items: seq<Value>): (r: seq<Value>)
    ensures |r| == |items|
    decreases Arr(items), 0
  {
    seq(|items|, i requires 0 <= i < |items| =>
      if Unserializable(items[i]) then Null else JsonClone(items[i]))
  }

  /** A value built only from strings, numbers, booleans, null and nested
    * objects of them survives the JSON round trip unchanged. */
  predicate PlainData(v: Value)
    decreases v, 1
  {
    match v
    case Obj(f) => PlainFields(f)
    case Arr(_) => false
    case Undefined => false
    case Fn(_) => false
    case _ => true
  }

  predicate PlainFields(f: Fields)
    decreases Obj(f), 0
  {
    forall k | k in f :: PlainData(f[k])
  }

  lemma {:induction false} JsonCloneOfPlain(v: Value)
    requires PlainData(v)
    ensures JsonClone(v) == v
    decreases v, 1
  {
    if v.Obj? {
      JsonCloneFieldsOfPlain(v.fields);
    }
  }

  lemma {:induction false} JsonCloneFieldsOfPlain(f: Fields)
    requires PlainFields(f)
    ensures JsonCloneFields(f) == f
    decreases Obj(f), 0
  {
    var r := JsonCloneFields(f);
    forall k | k in f ensures k in r && r[k] == f[k] {
      JsonCloneOfPlain(f[k]);
    }
  }
}
