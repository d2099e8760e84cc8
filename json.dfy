/**
 * The values `JSON.parse` produces (RFC 8259). Parsing text into these values
 * is not modelled: wherever the source calls `JSON.parse`, the model takes the
 * parser as a function parameter.
 */
module Json {
  import opened Wrappers

  /** A JSON number is kept as the exact decimal value it denotes. */
  datatype Json =
    | JNull
    | JBool(b: bool)
    | JNum(n: real)
    | JStr(s: string)
    | JArr(items: seq<Json>)
    | JObj(fields: map<string, Json>)

  /** `v[key]` on a parsed value that is not `null`: an object's own property, `undefined` otherwise. */
  function Field(v: Json, key: string): (r: Option<Json>)
    ensures r.Some? <==> v.JObj? && key in v.fields
  {
    if v.JObj? && key in v.fields then Some(v.fields[key]) else None
  }

  /** `Number.isInteger(n)` */
  predicate IsInt(n: real) {
    n.Floor as real == n
  }

  /** A text parser in the role of `JSON.parse`: `None` is a thrown `SyntaxError`. */
  type Parser = string -> Option<Json>

  /** What every JSON parser does with the empty text: a JSON text holds exactly one value, so "" is rejected. */
  predicate RejectsEmpty(parse: Parser) {
    parse("") == None
  }

  /**
   * Decodes each element with `f`, as `z.array(schema)` does: every element
   * must decode, and the results keep their order.
   */
  function DecodeEach<T>(items: seq<Json>, f: Json -> Option<T>): (r: Option<seq<T>>)
    ensures r.Some? <==> forall k :: 0 <= k < |items| ==> f(items[k]).Some?
    ensures r.Some? ==> |r.value| == |items| && forall k :: 0 <= k < |items| ==> r.value[k] == f(items[k]).value
    decreases |items|
  {
    if |items| == 0 then Some([])
    else
      match f(items[0])
      case None => None
      case Some(x) =>
        match DecodeEach(items[1..], f)
        case None => None
        case Some(xs) => Some([x] + xs)
  }

  /** Encodes each element with `g`. */
  function EncodeEach<T>(xs: seq<T>, g: T -> Json): (r: seq<Json>)
    ensures |r| == |xs| && forall k :: 0 <= k < |xs| ==> r[k] == g(xs[k])
  {
    seq(|xs|, k requires 0 <= k < |xs| => g(xs[k]))
  }

  /**
   * When each element comes back unchanged exactly when it satisfies `ok`,
   * and is rejected otherwise, the list comes back exactly when every element
   * satisfies `ok`, and is rejected otherwise.
   */
  lemma DecodeEncodeEachIff<T>(xs: seq<T>, g: T -> Json, f: Json -> Option<T>, ok: T -> bool)
    requires forall k :: 0 <= k < |xs| ==> f(g(xs[k])) == if ok(xs[k]) then Some(xs[k]) else None
    ensures DecodeEach(EncodeEach(xs, g), f) == if forall k :: 0 <= k < |xs| ==> ok(xs[k]) then Some(xs) else None
  {
    var r := DecodeEach(EncodeEach(xs, g), f);
    if forall k :: 0 <= k < |xs| ==> ok(xs[k]) {
      assert r.Some?;
      assert r.value == xs;
    } else {
      var k :| 0 <= k < |xs| && !ok(xs[k]);
      assert f(EncodeEach(xs, g)[k]).None?;
    }
  }

  /** Decoding what was encoded element by element gives the elements back exactly when each one round-trips. */
  lemma DecodeEncodeEach<T>(xs: seq<T>, g: T -> Json, f: Json -> Option<T>)
    ensures DecodeEach(EncodeEach(xs, g), f) == Some(xs) <==> forall k :: 0 <= k < |xs| ==> f(g(xs[k])) == Some(xs[k])
  {
    var r := DecodeEach(EncodeEach(xs, g), f);
    if forall k :: 0 <= k < |xs| ==> f(g(xs[k])) == Some(xs[k]) {
      assert r.Some?;
      assert r.value == xs;
    }
  }
}
