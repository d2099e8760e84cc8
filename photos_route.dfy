/**
 * `POST /api/photos` of `app/api/photos/route.ts`: validates and clamps the
 * upload metadata a client reports after a Cloudinary upload, then files the
 * photo under an existing user and room.
 */
module PhotosRoute {
  import opened Wrappers
  import opened Json

  const PublicIdMax: nat := 512
  const UrlMax: nat := 2048
  const DimensionMax: real := 100000.0
  const BytesMax: real := 1000000000.0
  const FormatMax: nat := 32
  const FolderMax: nat := 256
  const HandleMax: nat := 64
  const DefaultOwner: string := "devuser"
  const DefaultRoom: string := "DEVROOM"

  /** What `new URL(s)` accepts; URL syntax is not modelled. */
  type UrlParser = string -> bool

  /** The row the route creates (owner and room are named by handle and code). */
  datatype PhotoRecord = PhotoRecord(
    storageUrl: string,
    publicId: string,
    width: Option<real>,
    height: Option<real>,
    bytes: Option<real>,
    format: Option<string>,
    folder: Option<string>,
    ownerHandle: string,
    roomCode: string)

  datatype Response =
    | BadRequest(error: string)
    | Stored(photo: PhotoRecord)
    | ServerError

  /** `isValidUrl(s)` */
  predicate IsValidUrl(s: Option<Json>, parses: UrlParser) {
    s.Some? && s.value.JStr? && |s.value.s| <= UrlMax && parses(s.value.s)
  }

  /** `isOptionalShort(s, max)`: absent, `null`, or a string of at most `max` characters. */
  predicate IsOptionalShort(s: Option<Json>, max: nat) {
    s.None? || s.value == JNull || (s.value.JStr? && |s.value.s| <= max)
  }

  /** `Math.max(lo, Math.min(hi, x))` */
  function Clamp(x: real, hi: real): (r: real)
    requires 0.0 <= hi
    ensures 0.0 <= r <= hi
    ensures 0.0 <= x <= hi ==> r == x
    ensures x < 0.0 ==> r == 0.0
    ensures hi < x ==> r == hi
  {
    if x < 0.0 then 0.0 else if hi < x then hi else x
  }

  /** `Number.isFinite(v) ? Math.max(0, Math.min(hi, Number(v))) : null` */
  function ClampedNumber(v: Option<Json>, hi: real): (r: Option<real>)
    requires 0.0 <= hi
    ensures r.Some? <==> v.Some? && v.value.JNum?
    ensures r.Some? ==> 0.0 <= r.value <= hi
    ensures r.Some? && 0.0 <= v.value.n <= hi ==> r.value == v.value.n
  {
    if v.Some? && v.value.JNum? then Some(Clamp(v.value.n, hi)) else None
  }

  /** `isOptionalShort(v, max) ? v ?? null : null`, for the nullable text columns. */
  function ShortOrNull(v: Option<Json>, max: nat): (r: Option<string>)
    ensures r.Some? <==> v.Some? && v.value.JStr? && |v.value.s| <= max
    ensures r.Some? ==> r.value == v.value.s
  {
    if v.Some? && v.value.JStr? && |v.value.s| <= max then Some(v.value.s) else None
  }

  /** `isOptionalShort(v, max) ? (v ?? dflt) : dflt`, for the owner and room. */
  function ShortOrDefault(v: Option<Json>, max: nat, dflt: string): (r: string)
    ensures v.Some? && v.value.JStr? && |v.value.s| <= max ==> r == v.value.s
    ensures !(v.Some? && v.value.JStr? && |v.value.s| <= max) ==> r == dflt
  {
    if v.Some? && v.value.JStr? && |v.value.s| <= max then v.value.s else dflt
  }

  /** What a stored record promises about its columns. */
  predicate WellFormed(p: PhotoRecord) {
    && 1 <= |p.publicId| <= PublicIdMax
    && |p.storageUrl| <= UrlMax
    && (p.width.Some? ==> 0.0 <= p.width.value <= DimensionMax)
    && (p.height.Some? ==> 0.0 <= p.height.value <= DimensionMax)
    && (p.bytes.Some? ==> 0.0 <= p.bytes.value <= BytesMax)
    && (p.format.Some? ==> |p.format.value| <= FormatMax)
    && (p.folder.Some? ==> |p.folder.value| <= FolderMax)
    && |p.ownerHandle| <= HandleMax
    && |p.roomCode| <= HandleMax
  }

  /** The field checks and clamps, in the route's order, before the database lookups. */
  function Sanitize(data: Json, parses: UrlParser): (r: Result<PhotoRecord, string>)
    ensures r == Err("publicId invalid") <==>
      !(Field(data, "publicId").Some? && Field(data, "publicId").value.JStr?
        && 1 <= |Field(data, "publicId").value.s| <= PublicIdMax)
    ensures r == Err("secureUrl invalid") <==>
      Field(data, "publicId").Some? && Field(data, "publicId").value.JStr?
        && 1 <= |Field(data, "publicId").value.s| <= PublicIdMax
        && !IsValidUrl(Field(data, "secureUrl"), parses)
    ensures r.Ok? ==> WellFormed(r.value) && parses(r.value.storageUrl)
    ensures r.Ok? ==> r.value.publicId == Field(data, "publicId").value.s
    ensures r.Ok? ==> r.value.storageUrl == Field(data, "secureUrl").value.s
  {
    var pid := Field(data, "publicId");
    var url := Field(data, "secureUrl");
    if !(pid.Some? && pid.value.JStr? && 1 <= |pid.value.s| <= PublicIdMax) then Err("publicId invalid")
    else if !IsValidUrl(url, parses) then Err("secureUrl invalid")
    else
      Ok(PhotoRecord(
        url.value.s,
        pid.value.s,
        ClampedNumber(Field(data, "width"), DimensionMax),
        ClampedNumber(Field(data, "height"), DimensionMax),
        ClampedNumber(Field(data, "bytes"), BytesMax),
        ShortOrNull(Field(data, "format"), FormatMax),
        ShortOrNull(Field(data, "folder"), FolderMax),
        ShortOrDefault(Field(data, "ownerHandle"), HandleMax, DefaultOwner),
        ShortOrDefault(Field(data, "roomCode"), HandleMax, DefaultRoom)))
  }

  /**
   * `POST(req)`: `body` is the parsed request body, `None` when `req.json()`
   * throws; `userExists` and `roomExists` stand for the two `findUnique`
   * lookups.
   */
  function Post(body: Option<Json>, parses: UrlParser, userExists: string -> bool, roomExists: string -> bool): (r: Response)
    ensures body.None? ==> r == ServerError
    ensures r.Stored? ==> WellFormed(r.photo) && userExists(r.photo.ownerHandle) && roomExists(r.photo.roomCode)
    ensures body.Some? && Sanitize(body.value, parses).Ok? ==>
      (r.Stored? <==> userExists(Sanitize(body.value, parses).value.ownerHandle)
                      && roomExists(Sanitize(body.value, parses).value.roomCode))
    ensures body.Some? && Sanitize(body.value, parses).Err? ==> r == BadRequest(Sanitize(body.value, parses).error)
    // the record stored is the sanitized body, and a failed lookup is its own 400
    ensures body.Some? && r.Stored? ==> Sanitize(body.value, parses) == Ok(r.photo)
    ensures body.Some? && Sanitize(body.value, parses).Ok?
            && !(userExists(Sanitize(body.value, parses).value.ownerHandle)
                 && roomExists(Sanitize(body.value, parses).value.roomCode))
            ==> r == BadRequest("Seed user/room not found")
  {
    if body.None? then ServerError
    else
      match Sanitize(body.value, parses)
      case Err(e) => BadRequest(e)
      case Ok(p) =>
        if !userExists(p.ownerHandle) || !roomExists(p.roomCode) then BadRequest("Seed user/room not found")
        else Stored(p)
  }

  function NumJson(v: Option<real>): Json {
    if v.Some? then JNum(v.value) else JNull
  }

  function StrJson(v: Option<string>): Json {
    if v.Some? then JStr(v.value) else JNull
  }

  /** The request body that reports exactly the record `p`. */
  function RecordJson(p: PhotoRecord): Json {
    JObj(map[
      "secureUrl" := JStr(p.storageUrl),
      "publicId" := JStr(p.publicId),
      "width" := NumJson(p.width),
      "height" := NumJson(p.height),
      "bytes" := NumJson(p.bytes),
      "format" := StrJson(p.format),
      "folder" := StrJson(p.folder),
      "ownerHandle" := JStr(p.ownerHandle),
      "roomCode" := JStr(p.roomCode)])
  }

  /**
   * A well-formed record whose URL parses is reported back unchanged: the
   * checks reject nothing valid and the clamps move nothing in range.
   */
  lemma SanitizeRecord(p: PhotoRecord, parses: UrlParser)
    requires WellFormed(p) && parses(p.storageUrl)
    ensures Sanitize(RecordJson(p), parses) == Ok(p)
  {
    RecordJsonFields(p);
    SanitizeFrom(RecordJson(p), p, parses);
  }

  /** Each field of the reported body holds the matching column. */
  lemma RecordJsonFields(p: PhotoRecord)
    ensures Field(RecordJson(p), "publicId") == Some(JStr(p.publicId))
    ensures Field(RecordJson(p), "secureUrl") == Some(JStr(p.storageUrl))
    ensures Field(RecordJson(p), "width") == Some(NumJson(p.width))
    ensures Field(RecordJson(p), "height") == Some(NumJson(p.height))
    ensures Field(RecordJson(p), "bytes") == Some(NumJson(p.bytes))
    ensures Field(RecordJson(p), "format") == Some(StrJson(p.format))
    ensures Field(RecordJson(p), "folder") == Some(StrJson(p.folder))
    ensures Field(RecordJson(p), "ownerHandle") == Some(JStr(p.ownerHandle))
    ensures Field(RecordJson(p), "roomCode") == Some(JStr(p.roomCode))
  {
  }

  /** A body whose fields hold a well-formed record's columns sanitizes to that record. */
  lemma SanitizeFrom(v: Json, p: PhotoRecord, parses: UrlParser)
    requires WellFormed(p) && parses(p.storageUrl)
    requires Field(v, "publicId") == Some(JStr(p.publicId))
    requires Field(v, "secureUrl") == Some(JStr(p.storageUrl))
    requires Field(v, "width") == Some(NumJson(p.width))
    requires Field(v, "height") == Some(NumJson(p.height))
    requires Field(v, "bytes") == Some(NumJson(p.bytes))
    requires Field(v, "format") == Some(StrJson(p.format))
    requires Field(v, "folder") == Some(StrJson(p.folder))
    requires Field(v, "ownerHandle") == Some(JStr(p.ownerHandle))
    requires Field(v, "roomCode") == Some(JStr(p.roomCode))
    ensures Sanitize(v, parses) == Ok(p)
  {
    assert ClampedNumber(Field(v, "width"), DimensionMax) == p.width;
    assert ClampedNumber(Field(v, "height"), DimensionMax) == p.height;
    assert ClampedNumber(Field(v, "bytes"), BytesMax) == p.bytes;
  }

  /** Reporting a stored record again stores the same record. */
  lemma SanitizeIdempotent(data: Json, parses: UrlParser)
    requires Sanitize(data, parses).Ok?
    ensures Sanitize(RecordJson(Sanitize(data, parses).value), parses) == Sanitize(data, parses)
  {
    SanitizeRecord(Sanitize(data, parses).value, parses);
  }

  /**
   * Out-of-range numbers are pulled to the nearest bound, non-numbers become
   * null, and over-long or non-text owner and room fall back to the seeds.
   */
  lemma SanitizeDefaults(data: Json, parses: UrlParser)
    requires Sanitize(data, parses).Ok?
    ensures var w := Field(data, "width");
      w.Some? && w.value.JNum? && w.value.n > DimensionMax ==> Sanitize(data, parses).value.width == Some(DimensionMax)
    ensures var b := Field(data, "bytes");
      b.Some? && b.value.JNum? && b.value.n < 0.0 ==> Sanitize(data, parses).value.bytes == Some(0.0)
    ensures !IsOptionalShort(Field(data, "ownerHandle"), HandleMax) ==> Sanitize(data, parses).value.ownerHandle == DefaultOwner
    ensures Field(data, "roomCode").None? ==> Sanitize(data, parses).value.roomCode == DefaultRoom
    ensures !IsOptionalShort(Field(data, "format"), FormatMax) ==> Sanitize(data, parses).value.format.None?
  {
  }
}
