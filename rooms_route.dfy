/**
 * `randomCode` and `POST /api/rooms` of `app/api/rooms/route.ts`: room codes
 * are "R-" followed by upper-case hexadecimal from random bytes, and a
 * supplied code is upper-cased before the room is found or created.
 */
module RoomsRoute {
  import opened Wrappers
  import opened Strings
  import opened Json
  import opened Structured

  newtype byte = x: int | 0 <= x < 256

  const DefaultCodeLength: nat := 6
  const CodePrefix: string := "R-"
  const DefaultOwner: string := "devuser"

  const LowerDigits: string := "0123456789abcdef"
  /** The Base16 alphabet of section 8 of RFC 4648. */
  const UpperDigits: string := "0123456789ABCDEF"

  /** `buf.toString('hex')`: two lower-case digits per byte, high nibble first. */
  function Hex(bytes: seq<byte>): (r: string)
    ensures |r| == 2 * |bytes|
  {
    if bytes == [] then []
    else [LowerDigits[bytes[0] as int / 16], LowerDigits[bytes[0] as int % 16]] + Hex(bytes[1..])
  }

  /** Base16 encoding as section 8 of RFC 4648 defines it, with its upper-case alphabet. */
  function Base16(bytes: seq<byte>): (r: string)
    ensures |r| == 2 * |bytes|
    ensures forall k :: 0 <= k < |r| ==> r[k] in UpperDigits
  {
    if bytes == [] then []
    else [UpperDigits[bytes[0] as int / 16], UpperDigits[bytes[0] as int % 16]] + Base16(bytes[1..])
  }

  /** Upper-casing Node's hex output gives exactly the RFC 4648 Base16 encoding. */
  lemma {:induction false} UpperHexIsBase16(bytes: seq<byte>)
    ensures ToUpper(Hex(bytes)) == Base16(bytes)
  {
    if bytes != [] {
      UpperHexIsBase16(bytes[1..]);
      var h := Hex(bytes);
      var hi, lo := bytes[0] as int / 16, bytes[0] as int % 16;
      assert h[2..] == Hex(bytes[1..]);
      assert ToUpper(h)[2..] == ToUpper(h[2..]);
      assert UpperChar(LowerDigits[hi]) == UpperDigits[hi];
      assert UpperChar(LowerDigits[lo]) == UpperDigits[lo];
    }
  }

  /** `randomCode(len)`, for the `len` bytes `crypto.randomBytes(len)` returned. */
  function RandomCode(len: nat, bytes: seq<byte>): string
    requires |bytes| == len
  {
    CodePrefix + Take(ToUpper(Hex(bytes)), len)
  }

  /**
   * A random code is "R-" and then `len` characters of 0-9 and A-F: the
   * first `len` digits of the bytes' Base16 encoding.
   */
  lemma RandomCodeShape(len: nat, bytes: seq<byte>)
    requires |bytes| == len
    ensures |RandomCode(len, bytes)| == |CodePrefix| + len
    ensures RandomCode(len, bytes)[..2] == CodePrefix
    ensures RandomCode(len, bytes)[2..] == Base16(bytes)[..len]
    ensures forall k :: 2 <= k < |RandomCode(len, bytes)| ==> RandomCode(len, bytes)[k] in UpperDigits
  {
    UpperHexIsBase16(bytes);
  }

  /** Six 0xFF bytes give "R-FFFFFF". */
  lemma AllOnesCode()
    ensures RandomCode(6, [255, 255, 255, 255, 255, 255]) == "R-FFFFFF"
  {
    var b: seq<byte> := [255, 255, 255, 255, 255, 255];
    UpperHexIsBase16(b);
    assert Base16(b) == "FFFFFFFFFFFF";
  }

  /** A generated code has no lower-case letter, so the route's upper-casing keeps it. */
  lemma RandomCodeIsUpper(len: nat, bytes: seq<byte>)
    requires |bytes| == len
    ensures IsUpperCase(RandomCode(len, bytes))
    ensures ToUpper(RandomCode(len, bytes)) == RandomCode(len, bytes)
  {
    RandomCodeShape(len, bytes);
    var c := RandomCode(len, bytes);
    forall k | 0 <= k < |c|
      ensures !('a' <= c[k] <= 'z')
    {
      if k < 2 {
        assert c[k] == c[..2][k];
      }
    }
    UpperCaseFixed(c);
  }

  /** The upsert the route performs: the owner's handle and the room code. */
  datatype Created = Created(ownerHandle: string, code: string)

  /**
   * `POST(req)`. `body` is the parsed request body, `None` when `req.json()`
   * rejected (the route then uses `{}`); `bytes` is what `randomBytes(6)`
   * returns. `Err` is the 500 `internal_error` answer.
   */
  function Post(body: Option<Json>, bytes: seq<byte>): (r: Result<Created, Failure>)
    requires |bytes| == DefaultCodeLength
    ensures r.Ok? ==> IsUpperCase(r.value.code)
    // destructuring a `null` body throws
    ensures body == Some(JNull) ==> r == Err(NullProperty)
    // a non-string owner fails the upsert, and a code that is neither text nor null has no `toUpperCase`
    ensures var v := body.GetOr(JObj(map[]));
            r.Ok? <==> v != JNull
                       && (Field(v, "ownerHandle").None? || Field(v, "ownerHandle").value.JStr?)
                       && (Field(v, "code").None? || Field(v, "code").value.JStr? || Field(v, "code").value == JNull)
    // the owner is the supplied handle, "devuser" when there is none
    ensures var v := body.GetOr(JObj(map[]));
            r.Ok? ==> r.value.ownerHandle == if Field(v, "ownerHandle").None? then DefaultOwner else Field(v, "ownerHandle").value.s
    // the code is the supplied one upper-cased, a random one when it is absent or null
    ensures var v := body.GetOr(JObj(map[]));
            r.Ok? && Field(v, "code").Some? && Field(v, "code").value.JStr? ==> r.value.code == ToUpper(Field(v, "code").value.s)
    ensures var v := body.GetOr(JObj(map[]));
            r.Ok? && (Field(v, "code").None? || Field(v, "code").value == JNull) ==>
              r.value.code == RandomCode(DefaultCodeLength, bytes)
  {
    var v := body.GetOr(JObj(map[]));
    if v == JNull then Err(NullProperty)
    else
      var owner := Field(v, "ownerHandle");
      var code := Field(v, "code");
      if owner.Some? && !owner.value.JStr? then Err(Schema)
      else if code.Some? && !code.value.JStr? && code.value != JNull then Err(Schema)
      else
        var handle := if owner.None? then DefaultOwner else owner.value.s;
        var raw := if code.None? || code.value == JNull then RandomCode(DefaultCodeLength, bytes) else code.value.s;
        UpperCaseFixed(raw);
        RandomCodeIsUpper(DefaultCodeLength, bytes);
        Ok(Created(handle, ToUpper(raw)))
  }

  /** With no code in the body, or an unreadable body, the room gets a fresh random code and the default owner. */
  lemma PostWithoutCode(body: Option<Json>, bytes: seq<byte>)
    requires |bytes| == DefaultCodeLength
    requires body.None? || body == Some(JObj(map[]))
    ensures Post(body, bytes) == Ok(Created(DefaultOwner, RandomCode(DefaultCodeLength, bytes)))
  {
    RandomCodeIsUpper(DefaultCodeLength, bytes);
  }

  /** A supplied code is upper-cased, and posting the answered code again names the same room. */
  lemma PostUpperCasesCode(code: string, bytes: seq<byte>)
    requires |bytes| == DefaultCodeLength
    ensures Post(Some(JObj(map["code" := JStr(code)])), bytes) == Ok(Created(DefaultOwner, ToUpper(code)))
    ensures Post(Some(JObj(map["code" := JStr(ToUpper(code))])), bytes) == Ok(Created(DefaultOwner, ToUpper(code)))
  {
    UpperCaseFixed(code);
    UpperCaseFixed(ToUpper(code));
  }

  /** A supplied owner and code: that owner's handle and the code upper-cased, as the route test expects. */
  lemma PostWithOwner(owner: string, code: string, bytes: seq<byte>)
    requires |bytes| == DefaultCodeLength
    ensures Post(Some(JObj(map["code" := JStr(code), "ownerHandle" := JStr(owner)])), bytes) == Ok(Created(owner, ToUpper(code)))
  {
    var v := JObj(map["code" := JStr(code), "ownerHandle" := JStr(owner)]);
    assert Field(v, "ownerHandle") == Some(JStr(owner));
    assert Field(v, "code") == Some(JStr(code));
  }
}
