/**
 * The viewer's access token (viewer/index.js:21-40): JWT claims (section 4.1
 * of RFC 7519) in a JWS compact serialization (section 7.1 of RFC 7515),
 * `header.payload.signature`, each segment produced by `b64`. JSON text
 * encoding and the HMAC are not modelled: they are passed in as functions.
 */
module Token {
  import opened Wrappers
  import opened Base64

  /** `JSON.stringify({ alg: 'HS256', typ: 'JWT' })`. */
  const HeaderJson: string := "{\"alg\":\"HS256\",\"typ\":\"JWT\"}"

  /** Seconds between issue and expiry. */
  const Lifetime: int := 86400

  datatype VideoGrant = VideoGrant(room: string, roomJoin: bool, canSubscribe: bool, canPublish: bool)

  datatype Claims = Claims(iss: string, sub: string, jti: string, iat: int, exp: int, nbf: int, video: VideoGrant)

  /** `Math.floor(Date.now() / 1000)`: the clock reading in whole seconds. */
  function NowSeconds(ms: int): (now: int)
    ensures now * 1000 <= ms < now * 1000 + 1000
  {
    ms / 1000
  }

  /** The claims `makeToken` signs for a subscribe-only viewer. */
  function ViewerClaims(apiKey: string, identity: string, roomName: string, jti: string, now: int): (c: Claims)
    ensures c.iss == apiKey && c.sub == identity && c.jti == jti
    ensures c.video.room == roomName && c.video.roomJoin && c.video.canSubscribe && !c.video.canPublish
  {
    Claims(apiKey, identity, jti, now, now + Lifetime, now, VideoGrant(roomName, true, true, false))
  }

  /**
   * A verifier accepts the claims at time `t` when `t` is not before `nbf`
   * (section 4.1.5 of RFC 7519) and is before `exp` (section 4.1.4).
   */
  predicate AcceptableAt(c: Claims, t: int)
  {
    c.nbf <= t < c.exp
  }

  /** The viewer's token is accepted for exactly one day from the moment it is made. */
  lemma ViewerTokenWindow(apiKey: string, identity: string, roomName: string, jti: string, now: int, t: int)
    ensures AcceptableAt(ViewerClaims(apiKey, identity, roomName, jti, now), t) <==> now <= t < now + 86400
    ensures ViewerClaims(apiKey, identity, roomName, jti, now).iat == now
  {
  }

  /** `s.split(sep)`: the pieces between occurrences of `sep`. */
  function Split(s: string, sep: char): (parts: seq<string>)
    ensures |parts| >= 1
    decreases |s|
  {
    if |s| == 0 then [""]
    else if s[0] == sep then [""] + Split(s[1..], sep)
    else
      var rest := Split(s[1..], sep);
      [[s[0]] + rest[0]] + rest[1..]
  }

  lemma {:induction false} SplitNoSeparator(s: string, sep: char)
    requires forall i :: 0 <= i < |s| ==> s[i] != sep
    ensures Split(s, sep) == [s]
    decreases |s|
  {
    if |s| > 0 {
      SplitNoSeparator(s[1..], sep);
      assert [s[0]] + s[1..] == s;
    }
  }

  lemma {:induction false} SplitAtFirst(a: string, sep: char, b: string)
    requires forall i :: 0 <= i < |a| ==> a[i] != sep
    ensures Split(a + [sep] + b, sep) == [a] + Split(b, sep)
    decreases |a|
  {
    if |a| == 0 {
      assert a + [sep] + b == [sep] + b;
      assert ([sep] + b)[1..] == b;
    } else {
      assert (a + [sep] + b)[1..] == a[1..] + [sep] + b;
      SplitAtFirst(a[1..], sep, b);
      assert [a[0]] + a[1..] == a;
    }
  }

  /** The three segments of a compact JWS, for segments free of `.`. */
  lemma ThreeSegments(h: string, p: string, s: string)
    requires forall i :: 0 <= i < |h| ==> h[i] != '.'
    requires forall i :: 0 <= i < |p| ==> p[i] != '.'
    requires forall i :: 0 <= i < |s| ==> s[i] != '.'
    ensures Split(h + "." + p + "." + s, '.') == [h, p, s]
  {
    assert h + "." + p + "." + s == h + ['.'] + (p + ['.'] + s);
    SplitAtFirst(h, '.', p + ['.'] + s);
    SplitAtFirst(p, '.', s);
    SplitNoSeparator(s, '.');
  }

  lemma HeaderIsBinary()
    ensures IsBinaryString(HeaderJson)
  {
  }

  /** base64url text never contains the segment separator. */
  lemma EncodeUrlHasNoDot(b: seq<Byte>)
    ensures forall i :: 0 <= i < |EncodeUrl(b)| ==> EncodeUrl(b)[i] != '.'
  {
  }

  /**
   * `makeToken`, given the JSON text of the claims and the HMAC as functions:
   * `b64(header) + "." + b64(payload)` is the signing input, and the token is
   * the signing input, a `.`, and `b64` of the signature bytes (turned back
   * into a binary string first). It fails exactly when `btoa` rejects the
   * payload text, which has a code unit above 0xFF.
   */
  function MakeToken(claims: Claims, stringify: Claims -> string, sign: string -> seq<Byte>): (token: Option<string>)
    ensures token.Some? <==> IsBinaryString(stringify(claims))
  {
    HeaderIsBinary();
    match B64(stringify(claims))
    case None => None
    case Some(payload) =>
      var data := B64(HeaderJson).value + "." + payload;
      match B64(FromBytes(sign(data)))
      case None => None
      case Some(signature) => Some(data + "." + signature)
  }

  /** The segments `makeToken` produces, spelled out. */
  lemma MakeTokenValue(claims: Claims, stringify: Claims -> string, sign: string -> seq<Byte>)
    requires IsBinaryString(stringify(claims))
    ensures
      var input := EncodeUrl(Bytes(HeaderJson)) + "." + EncodeUrl(Bytes(stringify(claims)));
      MakeToken(claims, stringify, sign) == Some(input + "." + EncodeUrl(sign(input)))
  {
    HeaderIsBinary();
    B64IsUnpaddedBase64Url(HeaderJson);
    B64IsUnpaddedBase64Url(stringify(claims));
    var input := EncodeUrl(Bytes(HeaderJson)) + "." + EncodeUrl(Bytes(stringify(claims)));
    B64IsUnpaddedBase64Url(FromBytes(sign(input)));
  }

  /**
   * A token is exactly three `.`-separated segments: the base64url header,
   * the base64url claims, and the base64url signature over the first two
   * joined by `.`, which is also the token's prefix.
   */
  lemma TokenIsCompactJws(claims: Claims, stringify: Claims -> string, sign: string -> seq<Byte>)
    requires IsBinaryString(stringify(claims))
    ensures MakeToken(claims, stringify, sign).Some?
    ensures
      var token := MakeToken(claims, stringify, sign).value;
      var header := EncodeUrl(Bytes(HeaderJson));
      var payload := EncodeUrl(Bytes(stringify(claims)));
      var input := header + "." + payload;
      Split(token, '.') == [header, payload, EncodeUrl(sign(input))] &&
      |input| <= |token| && token[..|input|] == input
  {
    HeaderIsBinary();
    MakeTokenValue(claims, stringify, sign);
    var header := EncodeUrl(Bytes(HeaderJson));
    var payload := EncodeUrl(Bytes(stringify(claims)));
    var input := header + "." + payload;
    var signature := EncodeUrl(sign(input));
    EncodeUrlHasNoDot(Bytes(HeaderJson));
    EncodeUrlHasNoDot(Bytes(stringify(claims)));
    EncodeUrlHasNoDot(sign(input));
    ThreeSegments(header, payload, signature);
    assert (input + "." + signature)[..|input|] == input;
  }

  /**
   * `makeToken` as the viewer calls it: the claims are the subscribe-only
   * viewer claims issued at the clock reading in whole seconds, the payload
   * segment is their base64url JSON text, and the token is accepted for the
   * day that starts at that second.
   */
  lemma ViewerToken(apiKey: string, identity: string, roomName: string, jti: string, ms: int,
                    stringify: Claims -> string, sign: string -> seq<Byte>)
    requires IsBinaryString(stringify(ViewerClaims(apiKey, identity, roomName, jti, NowSeconds(ms))))
    ensures
      var claims := ViewerClaims(apiKey, identity, roomName, jti, NowSeconds(ms));
      var token := MakeToken(claims, stringify, sign);
      token.Some? && |Split(token.value, '.')| == 3 &&
      Split(token.value, '.')[1] == EncodeUrl(Bytes(stringify(claims))) &&
      (forall t :: AcceptableAt(claims, t) <==> NowSeconds(ms) <= t < NowSeconds(ms) + Lifetime)
  {
    var claims := ViewerClaims(apiKey, identity, roomName, jti, NowSeconds(ms));
    TokenIsCompactJws(claims, stringify, sign);
  }
}
