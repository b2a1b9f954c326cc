/**
 * Structural JSON, as encoding/json writes values: objects keep the
 * declaration order of struct fields, and a Go slice is either nil (written
 * `null`) or a possibly empty list (written `[...]`).
 */
module Wire {
  import opened Wrappers

  datatype Json =
    | Null
    | Bool(b: bool)
    | Number(n: int)
    | Str(s: string)
    | Array(items: seq<Json>)
    | Object(members: seq<(string, Json)>)

  /** A Go slice: nil, or a list that may be empty. */
  datatype Slice<T> = Nil | Of(elems: seq<T>) {

    function Items(): seq<T> {
      match this
      case Nil => []
      case Of(xs) => xs
    }

    /** append(s, xs...): a nil slice stays nil only when nothing is appended. */
    function AppendAll(xs: seq<T>): (r: Slice<T>)
      ensures r.Items() == Items() + xs
      ensures r.Nil? <==> Nil? && xs == []
    {
      if xs == [] then this else Of(Items() + xs)
    }
  }

  lemma AppendAllTwice<T>(s: Slice<T>, xs: seq<T>, ys: seq<T>)
    ensures s.AppendAll(xs).AppendAll(ys) == s.AppendAll(xs + ys)
  {
    if xs != [] && ys != [] {
      assert s.Items() + xs + ys == s.Items() + (xs + ys);
    }
  }

  /** An object whose keys are `keys` in order, paired with `vals`. */
  function Obj(keys: seq<string>, vals: seq<Json>): Json
    requires |keys| == |vals|
  {
    Object(seq(|keys|, i requires 0 <= i < |keys| => (keys[i], vals[i])))
  }

  /** The values of an object whose keys are exactly `keys`, in that order. */
  function Fields(j: Json, keys: seq<string>): (r: Option<seq<Json>>)
    ensures r.Some? ==> |r.value| == |keys|
  {
    if j.Object? && |j.members| == |keys| && forall i :: 0 <= i < |keys| ==> j.members[i].0 == keys[i] then
      Some(seq(|keys|, i requires 0 <= i < |keys| => j.members[i].1))
    else None
  }

  lemma FieldsOfObj(keys: seq<string>, vals: seq<Json>)
    requires |keys| == |vals|
    ensures Fields(Obj(keys, vals), keys) == Some(vals)
  {
    var ms := Obj(keys, vals).members;
    assert forall i :: 0 <= i < |keys| ==> ms[i].0 == keys[i];
    assert seq(|keys|, i requires 0 <= i < |keys| => ms[i].1) == vals;
  }

  function AsString(j: Json): Option<string> {
    if j.Str? then Some(j.s) else None
  }

  function AsNumber(j: Json): Option<int> {
    if j.Number? then Some(j.n) else None
  }

  function AsBool(j: Json): Option<bool> {
    if j.Bool? then Some(j.b) else None
  }

  /** A list of strings, as a []string literal is written. */
  function Strings(ss: seq<string>): Json {
    Array(seq(|ss|, i requires 0 <= i < |ss| => Str(ss[i])))
  }

  function EncodeAll<T>(xs: seq<T>, enc: T -> Json): seq<Json> {
    seq(|xs|, i requires 0 <= i < |xs| => enc(xs[i]))
  }

  /** Encoding one more element appends its encoding. */
  lemma EncodeAllSnoc<T>(xs: seq<T>, x: T, enc: T -> Json)
    ensures EncodeAll(xs + [x], enc) == EncodeAll(xs, enc) + [enc(x)]
  {
  }

  function SliceJson<T>(s: Slice<T>, enc: T -> Json): Json {
    match s
    case Nil => Null
    case Of(xs) => Array(EncodeAll(xs, enc))
  }

  function DecodeAll<T>(items: seq<Json>, dec: Json -> Option<T>): Option<seq<T>>
    decreases |items|
  {
    if items == [] then Some([])
    else
      var x :- dec(items[0]);
      var rest :- DecodeAll(items[1..], dec);
      Some([x] + rest)
  }

  function DecodeSlice<T>(j: Json, dec: Json -> Option<T>): Option<Slice<T>> {
    match j
    case Null => Some(Nil)
    case Array(items) =>
      var xs :- DecodeAll(items, dec);
      Some(Of(xs))
    case _ => None
  }

  lemma {:induction false} DecodeAllRoundTrip<T>(xs: seq<T>, enc: T -> Json, dec: Json -> Option<T>)
    requires forall x :: x in xs ==> dec(enc(x)) == Some(x)
    ensures DecodeAll(EncodeAll(xs, enc), dec) == Some(xs)
    decreases |xs|
  {
    if xs != [] {
      assert EncodeAll(xs, enc)[1..] == EncodeAll(xs[1..], enc);
      DecodeAllRoundTrip(xs[1..], enc, dec);
      assert [xs[0]] + xs[1..] == xs;
    }
  }

  /** A slice comes back from its encoding when each element does; nil stays nil. */
  lemma SliceRoundTrip<T>(s: Slice<T>, enc: T -> Json, dec: Json -> Option<T>)
    requires forall x :: x in s.Items() ==> dec(enc(x)) == Some(x)
    ensures DecodeSlice(SliceJson(s, enc), dec) == Some(s)
  {
    if s.Of? {
      DecodeAllRoundTrip(s.elems, enc, dec);
    }
  }
}
