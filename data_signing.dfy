/** Signed tokens `payload.signature`: the payload is base64 of a JSON object that carries its own
    expiry time; the signature is base64 of an HMAC over (base64 of) the payload's base64.
    HMAC-SHA256, base64, JSON and ISO-8601 are not modelled: a `Codec` supplies them, and the
    round trip is proved for any codec whose parts invert each other (`WellBehaved`). */
module DataSigning {
  import opened Wrappers

  newtype byte = x: int | 0 <= x < 256

  type Bytes = seq<byte>

  /** A JSON value as `json.loads` returns it. */
  datatype Json = JObject(fields: map<string, Json>) | JString(s: string) | JNumber(n: int) | JOther

  /** A `datetime` as the signer compares it: microseconds since the Unix epoch and whether it
      carries a time zone. `Clock.DateTime` is the same Python value as calendar fields, the form
      `strftime` needs; here only the instant and the awareness matter. */
  datatype Stamp = Stamp(micros: int, aware: bool)

  /** The exceptions `encode` and `decode` let through. */
  datatype Raised = UnicodeEncodeError | ValueError | BinasciiError | JsonDecodeError | TypeError | OverflowError

  /** The first and last instants a `datetime` can hold, 0001-01-01 00:00:00 and
      9999-12-31 23:59:59.999999 UTC, in microseconds since the epoch. */
  const MinMicros: int := -62135596800 * 1000000
  const MaxMicros: int := 253402300800 * 1000000 - 1

  /** An instant a `datetime` can represent. Any `timedelta` that lands inside this range from a
      representable `now` is itself inside `timedelta`'s own range, so this one test decides
      whether `now + timedelta(seconds=…)` raises `OverflowError`. */
  predicate InDatetimeRange(t: int)
  {
    MinMicros <= t <= MaxMicros
  }

  /** The library functions the signer calls. */
  datatype Codec = Codec(
    hmac: (Bytes, Bytes) -> Bytes,
    b64encode: Bytes -> Bytes,
    b64decode: Bytes -> Option<Bytes>,
    dumps: map<string, Json> -> string,
    loads: Bytes -> Option<Json>,
    isoformat: int -> string,
    fromisoformat: string -> Option<Stamp>)

  const Dot: byte := 46

  /** Bytes base64 may produce: ASCII, and never a '.'. */
  predicate Base64Text(b: Bytes)
  {
    forall i :: 0 <= i < |b| ==> b[i] < 128 && b[i] != Dot
  }

  predicate IsAscii(s: string)
  {
    forall i :: 0 <= i < |s| ==> s[i] < 128 as char
  }

  /** What the round trip needs of the libraries: each decoder inverts its encoder, base64
      writes ASCII without dots, JSON is ASCII, and an ISO time of `now` reads back aware. */
  ghost predicate WellBehaved(c: Codec)
  {
    (forall b :: c.b64decode(c.b64encode(b)) == Some(b)) &&
    (forall b :: Base64Text(c.b64encode(b))) &&
    (forall m :: IsAscii(c.dumps(m))) &&
    (forall m, raw :: AsciiEncode(c.dumps(m)) == Some(raw) ==> c.loads(raw) == Some(JObject(m))) &&
    (forall t :: c.fromisoformat(c.isoformat(t)) == Some(Stamp(t, true)))
  }

  /** `str.encode('ascii')`. */
  function AsciiEncode(s: string): Option<Bytes>
  {
    if IsAscii(s) then Some(seq(|s|, i requires 0 <= i < |s| && IsAscii(s) => (s[i] as int) as byte)) else None
  }

  predicate AsciiBytes(b: Bytes)
  {
    forall i :: 0 <= i < |b| ==> b[i] < 128
  }

  /** `bytes.decode('ascii')`. */
  function AsciiDecode(b: Bytes): Option<string>
  {
    if AsciiBytes(b) then Some(seq(|b|, i requires 0 <= i < |b| => (b[i] as int) as char)) else None
  }

  lemma AsciiRoundTrip(b: Bytes)
    requires AsciiBytes(b)
    ensures AsciiDecode(b).Some? && IsAscii(AsciiDecode(b).value)
    ensures AsciiEncode(AsciiDecode(b).value) == Some(b)
  {
    var s := AsciiDecode(b).value;
    assert forall i :: 0 <= i < |s| ==> s[i] == (b[i] as int) as char;
    assert IsAscii(s);
    var e := AsciiEncode(s).value;
    forall i | 0 <= i < |b| ensures e[i] == b[i] {
      assert s[i] as int == b[i] as int;
    }
    assert e == b;
  }

  /** `str.split(sep)`. */
  function Split(s: string, sep: char): (parts: seq<string>)
    ensures |parts| >= 1
  {
    if |s| == 0 then [""]
    else
      var rest := Split(s[1..], sep);
      if s[0] == sep then [""] + rest else [[s[0]] + rest[0]] + rest[1..]
  }

  lemma {:induction false} SplitNoSep(a: string, t: string, sep: char)
    requires sep !in a
    ensures Split(a + t, sep) == [a + Split(t, sep)[0]] + Split(t, sep)[1..]
  {
    if |a| > 0 {
      assert (a + t)[1..] == a[1..] + t;
      SplitNoSep(a[1..], t, sep);
      assert [a[0]] + (a[1..] + Split(t, sep)[0]) == a + Split(t, sep)[0];
    } else {
      var parts := Split(t, sep);
      assert a + t == t;
      assert a + parts[0] == parts[0];
      assert parts == [parts[0]] + parts[1..];
    }
  }

  /** Two dot-free strings joined by a dot split back into the two. */
  lemma SplitJoin(a: string, b: string)
    requires '.' !in a && '.' !in b
    ensures Split(a + "." + b, '.') == [a, b]
  {
    SplitNoSep(b, "", '.');
    assert b + "" == b;
    var t := "." + b;
    assert t[1..] == b;
    assert Split(t, '.') == [""] + [b];
    assert a + "." + b == a + t;
    SplitNoSep(a, t, '.');
    assert a + "" == a;
  }

  /** DecodingResult; `data` is empty unless the settings say otherwise. */
  datatype DecodingResult = DecodingResult(validSignature: bool, expired: bool, data: map<string, Json>)
  {
    /** `ok`. */
    predicate IsOk()
    {
      validSignature && !expired
    }
  }

  /** `DecodingResult(valid_signature=False)`: the defaults mark it expired, with no data. */
  const BadSignature := DecodingResult(false, true, map[])

  /** `DecodingResult(valid_signature=True, expired=True)`. */
  const SignedButExpired := DecodingResult(true, true, map[])

  /** `__get_signature`: the HMAC of the base64 of the (already base64) payload. */
  function Signature(c: Codec, key: string, payloadB64: Bytes): Result<Bytes, Raised>
  {
    match AsciiEncode(key)
    case None => Err(UnicodeEncodeError)
    case Some(k) => Ok(c.hmac(k, c.b64encode(payloadB64)))
  }

  /** The payload as `encode` writes it: the caller's data (or none) plus "expires". */
  function Stamped(c: Codec, data: Option<map<string, Json>>, expires: int): map<string, Json>
  {
    var base := if data.Some? then data.value else map[];
    base["expires" := JString(c.isoformat(expires))]
  }

  /** `encode`. Time is in microseconds and `now` is the current UTC time. An expiry outside
      `datetime`'s range raises `OverflowError` before anything is serialised. The caller's map is a
      value here, so it cannot be changed. */
  function Encode(c: Codec, key: string, now: int, expiresInSeconds: int, data: Option<map<string, Json>>)
    : Result<string, Raised>
  {
    var expires := now + expiresInSeconds * 1000000;
    if !InDatetimeRange(expires) then Err(OverflowError)
    else
    var payload := c.dumps(Stamped(c, data, expires));
    match AsciiEncode(payload)
    case None => Err(UnicodeEncodeError)
    case Some(raw) =>
      var payloadB64 := c.b64encode(raw);
      match Signature(c, key, payloadB64)
      case Err(e) => Err(e)
      case Ok(sig) =>
        var sigB64 := c.b64encode(sig);
        match (AsciiDecode(payloadB64), AsciiDecode(sigB64))
        case (Some(p), Some(s)) => Ok(p + "." + s)
        case _ => Err(ValueError)
  }

  /** `decode` against the current UTC time `now`: the decision ladder. */
  function Decode(c: Codec, key: string, now: int, token: string): Result<DecodingResult, Raised>
  {
    var parts := Split(token, '.');
    if |parts| != 2 then Ok(BadSignature)
    else match AsciiEncode(parts[0])
      case None => Err(UnicodeEncodeError)
      case Some(payloadB64) =>
        match Signature(c, key, payloadB64)
        case Err(e) => Err(e)
        case Ok(actual) =>
          match AsciiEncode(parts[1])
          case None => Err(ValueError)
          case Some(sigB64) =>
            match c.b64decode(sigB64)
            case None => Err(BinasciiError)
            case Some(toTest) =>
              if actual != toTest then Ok(BadSignature)
              else match c.b64decode(payloadB64)
                case None => Err(BinasciiError)
                case Some(raw) =>
                  match c.loads(raw)
                  case None => Err(JsonDecodeError)
                  case Some(json) => Expiry(c, now, json)
  }

  /** The rest of the ladder, once the signature is known to be valid. */
  function Expiry(c: Codec, now: int, json: Json): (r: Result<DecodingResult, Raised>)
    ensures r.Ok? ==> r.value.validSignature
  {
    if !json.JObject? || "expires" !in json.fields then Ok(SignedButExpired)
    else match json.fields["expires"]
      case JString(text) =>
        (match c.fromisoformat(text)
         case None => Ok(SignedButExpired)
         case Some(t) =>
           if !t.aware then Err(TypeError)
           else if t.micros < now then Ok(SignedButExpired)
           else Ok(DecodingResult(true, false, json.fields)))
      case _ => Err(TypeError)
  }

  /** `ok` holds exactly for a valid signature that has not expired; the defaults are not ok. */
  lemma OkMeans(r: DecodingResult)
    ensures r.IsOk() <==> r.validSignature && !r.expired
    ensures !BadSignature.IsOk() && BadSignature.data == map[]
    ensures !SignedButExpired.IsOk() && SignedButExpired.data == map[]
  {
  }

  /** Every outcome of `decode` other than ok carries no data: the data is released only on the ok path. */
  lemma DataOnlyWhenOk(c: Codec, key: string, now: int, token: string)
    ensures Decode(c, key, now, token).Ok? && !Decode(c, key, now, token).value.IsOk() ==>
      Decode(c, key, now, token).value.data == map[]
  {
  }

  /** A token that is not two dot-separated parts is rejected as badly signed. */
  lemma WrongShape(c: Codec, key: string, now: int, token: string)
    requires |Split(token, '.')| != 2
    ensures Decode(c, key, now, token) == Ok(BadSignature)
  {
  }

  /** A signature that does not match is rejected as badly signed. */
  lemma Mismatch(c: Codec, key: string, now: int, token: string, payloadB64: Bytes, sigB64: Bytes, toTest: Bytes)
    requires |Split(token, '.')| == 2
    requires AsciiEncode(Split(token, '.')[0]) == Some(payloadB64)
    requires AsciiEncode(Split(token, '.')[1]) == Some(sigB64)
    requires c.b64decode(sigB64) == Some(toTest)
    requires Signature(c, key, payloadB64).Ok? && Signature(c, key, payloadB64).value != toTest
    ensures Decode(c, key, now, token) == Ok(BadSignature)
  {
  }

  /** With a valid signature: a payload that is not an object, has no "expires", whose "expires"
      does not parse, or whose expiry lies before now, is signed but expired, with no data;
      an aware expiry at or after now is ok and returns the whole payload. */
  lemma ExpiryLadder(c: Codec, now: int, json: Json)
    ensures !json.JObject? ==> Expiry(c, now, json) == Ok(SignedButExpired)
    ensures json.JObject? && "expires" !in json.fields ==> Expiry(c, now, json) == Ok(SignedButExpired)
    ensures json.JObject? && "expires" in json.fields && json.fields["expires"].JString? ==>
      var parsed := c.fromisoformat(json.fields["expires"].s);
      (parsed.None? ==> Expiry(c, now, json) == Ok(SignedButExpired)) &&
      (parsed.Some? && parsed.value.aware && parsed.value.micros < now ==> Expiry(c, now, json) == Ok(SignedButExpired)) &&
      (parsed.Some? && parsed.value.aware && parsed.value.micros >= now ==>
        Expiry(c, now, json) == Ok(DecodingResult(true, false, json.fields)))
  {
  }

  /** With well-behaved libraries and an ASCII key, encoding succeeds exactly when the expiry lies
      in `datetime`'s range, and otherwise raises `OverflowError`. */
  lemma EncodeShape(c: Codec, key: string, now: int, expiresInSeconds: int, data: Option<map<string, Json>>)
    requires WellBehaved(c) && IsAscii(key)
    ensures Encode(c, key, now, expiresInSeconds, data).Ok? <==> InDatetimeRange(now + expiresInSeconds * 1000000)
    ensures !InDatetimeRange(now + expiresInSeconds * 1000000) ==>
      Encode(c, key, now, expiresInSeconds, data) == Err(OverflowError)
  {
    if !InDatetimeRange(now + expiresInSeconds * 1000000) {
      return;
    }
    var payload := c.dumps(Stamped(c, data, now + expiresInSeconds * 1000000));
    assert IsAscii(payload);
    var raw := AsciiEncode(payload).value;
    var payloadB64 := c.b64encode(raw);
    assert Base64Text(payloadB64);
    var sigB64 := c.b64encode(Signature(c, key, payloadB64).value);
    assert Base64Text(sigB64);
  }

  /** Round trip: a token whose expiry `datetime` can hold, decoded no later than that expiry, is ok and returns the caller's data
      plus "expires"; an expiry exactly at `now` still counts as not expired. */
  lemma RoundTrip(c: Codec, key: string, issued: int, expiresInSeconds: int, data: Option<map<string, Json>>, now: int)
    requires WellBehaved(c) && IsAscii(key)
    requires InDatetimeRange(issued + expiresInSeconds * 1000000)
    requires now <= issued + expiresInSeconds * 1000000
    ensures Encode(c, key, issued, expiresInSeconds, data).Ok?
    ensures Decode(c, key, now, Encode(c, key, issued, expiresInSeconds, data).value) ==
      Ok(DecodingResult(true, false, Stamped(c, data, issued + expiresInSeconds * 1000000)))
  {
    EncodeShape(c, key, issued, expiresInSeconds, data);
    var fields := Stamped(c, data, issued + expiresInSeconds * 1000000);
    var raw := AsciiEncode(c.dumps(fields)).value;
    var payloadB64 := c.b64encode(raw);
    var sig := Signature(c, key, payloadB64).value;
    var sigB64 := c.b64encode(sig);
    AsciiRoundTrip(payloadB64);
    AsciiRoundTrip(sigB64);
    var p := AsciiDecode(payloadB64).value;
    var s := AsciiDecode(sigB64).value;
    DotFree(payloadB64);
    DotFree(sigB64);
    SplitJoin(p, s);
    assert Encode(c, key, issued, expiresInSeconds, data).value == p + "." + s;
    assert c.b64decode(sigB64) == Some(sig);
    assert c.b64decode(payloadB64) == Some(raw);
    assert c.loads(raw) == Some(JObject(fields));
    assert c.fromisoformat(c.isoformat(issued + expiresInSeconds * 1000000)) ==
      Some(Stamp(issued + expiresInSeconds * 1000000, true));
  }

  /** Base64 text read as characters holds no '.'. */
  lemma DotFree(b: Bytes)
    requires Base64Text(b)
    ensures AsciiDecode(b).Some? && '.' !in AsciiDecode(b).value
  {
    var s := AsciiDecode(b).value;
    forall i | 0 <= i < |s| ensures s[i] != '.' {
      assert s[i] == (b[i] as int) as char;
    }
  }
}
