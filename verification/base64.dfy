/**
 * The viewer's `b64` (viewer/index.js:19): `btoa`, then `+` to `-` and `/` to
 * `_`, then the trailing `=` run removed. `btoa` is standard base64 (section 4
 * of RFC 4648) over a string whose code units are bytes; the result is proved
 * to be the unpadded base64url encoding of section 5 of RFC 4648, given here
 * as an independent reference definition with its decoder.
 */
module Base64 {
  import opened Wrappers

  type Byte = x: int | 0 <= x < 256

  /** The standard alphabet (section 4 of RFC 4648). */
  function StdChar(k: nat): (c: char)
    requires k < 64
  {
    if k < 26 then (65 + k) as char
    else if k < 52 then (97 + k - 26) as char
    else if k < 62 then (48 + k - 52) as char
    else if k == 62 then '+'
    else '/'
  }

  /** The URL- and filename-safe alphabet (section 5 of RFC 4648). */
  function UrlChar(k: nat): (c: char)
    requires k < 64
  {
    if k < 62 then StdChar(k) else if k == 62 then '-' else '_'
  }

  /** A character that may appear in base64url text: never `+`, `/`, `=` or `.`. */
  predicate IsUrlSafe(c: char)
  {
    c != '+' && c != '/' && c != '=' && c != '.'
  }

  lemma UrlCharIsSafe(k: nat)
    requires k < 64
    ensures IsUrlSafe(UrlChar(k))
  {
  }

  /** Standard base64 with `=` padding: what `btoa` produces for the bytes. */
  function EncodeStd(s: seq<Byte>): (r: string)
    ensures |r| == 4 * ((|s| + 2) / 3)
    decreases |s|
  {
    if |s| == 0 then ""
    else if |s| == 1 then
      [StdChar(s[0] / 4), StdChar(s[0] % 4 * 16), '=', '=']
    else if |s| == 2 then
      [StdChar(s[0] / 4), StdChar(s[0] % 4 * 16 + s[1] / 16), StdChar(s[1] % 16 * 4), '=']
    else
      [StdChar(s[0] / 4), StdChar(s[0] % 4 * 16 + s[1] / 16),
       StdChar(s[1] % 16 * 4 + s[2] / 64), StdChar(s[2] % 64)] + EncodeStd(s[3..])
  }

  /**
   * Reference definition: base64url without padding (sections 5 and 3.2 of
   * RFC 4648). Its text uses only URL-safe characters and is as long as the
   * bits need: ceil(8n / 6) characters for n bytes.
   */
  function EncodeUrl(s: seq<Byte>): (r: string)
    ensures |r| == (4 * |s| + 2) / 3
    ensures forall i :: 0 <= i < |r| ==> IsUrlSafe(r[i])
    decreases |s|
  {
    if |s| == 0 then ""
    else if |s| == 1 then
      [UrlChar(s[0] / 4), UrlChar(s[0] % 4 * 16)]
    else if |s| == 2 then
      [UrlChar(s[0] / 4), UrlChar(s[0] % 4 * 16 + s[1] / 16), UrlChar(s[1] % 16 * 4)]
    else
      [UrlChar(s[0] / 4), UrlChar(s[0] % 4 * 16 + s[1] / 16),
       UrlChar(s[1] % 16 * 4 + s[2] / 64), UrlChar(s[2] % 64)] + EncodeUrl(s[3..])
  }

  /** The position of a character in the URL-safe alphabet. */
  function UrlIndex(c: char): (k: Option<nat>)
    ensures k.Some? ==> k.value < 64 && UrlChar(k.value) == c
  {
    if 'A' <= c <= 'Z' then Some(c as int - 65)
    else if 'a' <= c <= 'z' then Some(c as int - 97 + 26)
    else if '0' <= c <= '9' then Some(c as int - 48 + 52)
    else if c == '-' then Some(62)
    else if c == '_' then Some(63)
    else None
  }

  lemma UrlIndexInverts(k: nat)
    requires k < 64
    ensures UrlIndex(UrlChar(k)) == Some(k)
  {
  }

  /** Decoder for unpadded base64url; the unused low bits of a final group are ignored. */
  function DecodeUrl(t: string): Option<seq<Byte>>
    decreases |t|
  {
    if |t| == 0 then Some([])
    else if |t| == 1 then None
    else
      var c0, c1 := UrlIndex(t[0]), UrlIndex(t[1]);
      if c0.None? || c1.None? then None
      else if |t| == 2 then
        Some([c0.value * 4 + c1.value / 16])
      else
        var c2 := UrlIndex(t[2]);
        if c2.None? then None
        else if |t| == 3 then
          Some([c0.value * 4 + c1.value / 16, c1.value % 16 * 16 + c2.value / 4])
        else
          var c3 := UrlIndex(t[3]);
          if c3.None? then None
          else
            match DecodeUrl(t[4..])
            case None => None
            case Some(rest) =>
              Some([c0.value * 4 + c1.value / 16, c1.value % 16 * 16 + c2.value / 4,
                    c2.value % 4 * 64 + c3.value] + rest)
  }

  /** One group of three bytes decodes back to itself. */
  lemma GroupRoundTrip(b0: Byte, b1: Byte, b2: Byte)
    ensures (b0 / 4) * 4 + (b0 % 4 * 16 + b1 / 16) / 16 == b0
    ensures (b0 % 4 * 16 + b1 / 16) % 16 * 16 + (b1 % 16 * 4 + b2 / 64) / 4 == b1
    ensures (b1 % 16 * 4 + b2 / 64) % 4 * 64 + b2 % 64 == b2
  {
  }

  lemma DecodeOneByte(b0: Byte)
    ensures DecodeUrl([UrlChar(b0 / 4), UrlChar(b0 % 4 * 16)]) == Some([b0])
  {
    var k0, k1 := b0 / 4, b0 % 4 * 16;
    UrlIndexInverts(k0);
    UrlIndexInverts(k1);
    var t := [UrlChar(k0), UrlChar(k1)];
    assert UrlIndex(t[0]) == Some(k0) && UrlIndex(t[1]) == Some(k1);
    assert k1 / 16 == b0 % 4;
    assert k0 * 4 + k1 / 16 == b0;
  }

  lemma DecodeTwoBytes(b0: Byte, b1: Byte)
    ensures DecodeUrl([UrlChar(b0 / 4), UrlChar(b0 % 4 * 16 + b1 / 16), UrlChar(b1 % 16 * 4)]) == Some([b0, b1])
  {
    var k0, k1, k2 := b0 / 4, b0 % 4 * 16 + b1 / 16, b1 % 16 * 4;
    UrlIndexInverts(k0);
    UrlIndexInverts(k1);
    UrlIndexInverts(k2);
    var t := [UrlChar(k0), UrlChar(k1), UrlChar(k2)];
    assert UrlIndex(t[0]) == Some(k0) && UrlIndex(t[1]) == Some(k1) && UrlIndex(t[2]) == Some(k2);
    GroupRoundTrip(b0, b1, 0);
    assert k0 * 4 + k1 / 16 == b0;
    assert k2 / 4 == b1 % 16;
    assert k1 % 16 * 16 + k2 / 4 == b1;
  }

  lemma DecodeGroup(b0: Byte, b1: Byte, b2: Byte, rest: string, tail: seq<Byte>)
    requires DecodeUrl(rest) == Some(tail)
    ensures DecodeUrl([UrlChar(b0 / 4), UrlChar(b0 % 4 * 16 + b1 / 16),
                       UrlChar(b1 % 16 * 4 + b2 / 64), UrlChar(b2 % 64)] + rest) == Some([b0, b1, b2] + tail)
  {
    var k0, k1, k2, k3 := b0 / 4, b0 % 4 * 16 + b1 / 16, b1 % 16 * 4 + b2 / 64, b2 % 64;
    UrlIndexInverts(k0);
    UrlIndexInverts(k1);
    UrlIndexInverts(k2);
    UrlIndexInverts(k3);
    var t := [UrlChar(k0), UrlChar(k1), UrlChar(k2), UrlChar(k3)] + rest;
    assert UrlIndex(t[0]) == Some(k0) && UrlIndex(t[1]) == Some(k1);
    assert UrlIndex(t[2]) == Some(k2) && UrlIndex(t[3]) == Some(k3);
    assert t[4..] == rest;
    GroupRoundTrip(b0, b1, b2);
  }

  lemma RoundTripShort(s: seq<Byte>)
    requires 1 <= |s| <= 2
    ensures DecodeUrl(EncodeUrl(s)) == Some(s)
  {
    if |s| == 1 {
      DecodeOneByte(s[0]);
      assert s == [s[0]];
    } else {
      DecodeTwoBytes(s[0], s[1]);
      assert s == [s[0], s[1]];
    }
  }

  lemma SplitGroup(s: seq<Byte>)
    requires |s| >= 3
    ensures [s[0], s[1], s[2]] + s[3..] == s
  {
  }

  lemma RoundTripStep(s: seq<Byte>)
    requires |s| >= 3 && DecodeUrl(EncodeUrl(s[3..])) == Some(s[3..])
    ensures DecodeUrl(EncodeUrl(s)) == Some(s)
  {
    var rest := s[3..];
    var b0, b1, b2 := s[0], s[1], s[2];
    var q := [UrlChar(b0 / 4), UrlChar(b0 % 4 * 16 + b1 / 16), UrlChar(b1 % 16 * 4 + b2 / 64), UrlChar(b2 % 64)];
    assert EncodeUrl(s) == q + EncodeUrl(rest);
    DecodeGroup(b0, b1, b2, EncodeUrl(rest), rest);
    SplitGroup(s);
  }

  /** base64url is lossless: decoding the encoding gives the bytes back. */
  lemma {:induction false} UrlRoundTrip(s: seq<Byte>)
    ensures DecodeUrl(EncodeUrl(s)) == Some(s)
    decreases |s|
  {
    if |s| == 0 {
    } else if |s| <= 2 {
      RoundTripShort(s);
    } else {
      UrlRoundTrip(s[3..]);
      RoundTripStep(s);
    }
  }

  /** A string `btoa` accepts: every code unit fits in a byte. */
  predicate IsBinaryString(s: string)
  {
    forall i :: 0 <= i < |s| ==> s[i] as int < 256
  }

  /** The bytes of a binary string. */
  function Bytes(s: string): (b: seq<Byte>)
    requires IsBinaryString(s)
    ensures |b| == |s| && forall i :: 0 <= i < |s| ==> b[i] == s[i] as int
  {
    seq(|s|, i requires 0 <= i < |s| && IsBinaryString(s) => s[i] as int)
  }

  /** `String.fromCharCode(...bytes)`: the binary string of a byte sequence. */
  function FromBytes(b: seq<Byte>): (s: string)
    ensures IsBinaryString(s) && Bytes(s) == b
  {
    seq(|b|, i requires 0 <= i < |b| => b[i] as char)
  }

  /** `btoa`: fails (throws) when some code unit is above 0xFF. */
  function Btoa(s: string): (r: Option<string>)
    ensures r.Some? <==> IsBinaryString(s)
  {
    if IsBinaryString(s) then Some(EncodeStd(Bytes(s))) else None
  }

  /** `.replace(/x/g, y)` for single characters. */
  function ReplaceChar(t: string, x: char, y: char): (r: string)
    ensures |r| == |t|
    ensures forall i :: 0 <= i < |t| ==> r[i] == (if t[i] == x then y else t[i])
  {
    seq(|t|, i requires 0 <= i < |t| => if t[i] == x then y else t[i])
  }

  /**
   * `.replace(/=+$/, '')`: the leftmost match of `=+` that reaches the end is
   * the whole trailing run of `=`, and it is removed.
   */
  function StripPadding(t: string): (r: string)
    decreases |t|
  {
    if |t| > 0 && t[|t| - 1] == '=' then StripPadding(t[..|t| - 1]) else t
  }

  /** The two substitutions of `b64`. */
  function ToUrlAlphabet(t: string): string
  {
    ReplaceChar(ReplaceChar(t, '+', '-'), '/', '_')
  }

  /** `b64(s)`; `None` where `btoa` throws. */
  function B64(s: string): Option<string>
  {
    match Btoa(s)
    case None => None
    case Some(t) => Some(StripPadding(ToUrlAlphabet(t)))
  }

  lemma ToUrlAlphabetAppend(a: string, b: string)
    ensures ToUrlAlphabet(a + b) == ToUrlAlphabet(a) + ToUrlAlphabet(b)
  {
  }

  lemma StdToUrl(k: nat)
    requires k < 64
    ensures ToUrlAlphabet([StdChar(k)]) == [UrlChar(k)]
  {
  }

  /** Stripping a padding run never reaches into a prefix that ends in something other than `=`. */
  lemma {:induction false} StripPaddingAppend(x: string, y: string)
    requires |x| > 0 && x[|x| - 1] != '='
    ensures StripPadding(x + y) == x + StripPadding(y)
    decreases |y|
  {
    if |y| == 0 {
      assert x + y == x;
    } else if y[|y| - 1] == '=' {
      assert (x + y)[..|x + y| - 1] == x + y[..|y| - 1];
      StripPaddingAppend(x, y[..|y| - 1]);
    }
  }

  /** `b64` on bytes is exactly the unpadded base64url encoding. */
  lemma {:induction false} B64BytesIsEncodeUrl(s: seq<Byte>)
    ensures StripPadding(ToUrlAlphabet(EncodeStd(s))) == EncodeUrl(s)
    decreases |s|
  {
    if |s| == 0 {
    } else if |s| == 1 {
      var k0, k1 := s[0] / 4, s[0] % 4 * 16;
      assert EncodeStd(s) == [StdChar(k0)] + [StdChar(k1)] + ['='] + ['='];
      StdToUrl(k0);
      StdToUrl(k1);
      ToUrlAlphabetAppend([StdChar(k0)] + [StdChar(k1)] + ['='], ['=']);
      ToUrlAlphabetAppend([StdChar(k0)] + [StdChar(k1)], ['=']);
      ToUrlAlphabetAppend([StdChar(k0)], [StdChar(k1)]);
      var u := [UrlChar(k0), UrlChar(k1)];
      assert ToUrlAlphabet(EncodeStd(s)) == u + ['=', '='];
      StripPaddingAppend(u, ['=', '=']);
      assert StripPadding(['=', '=']) == StripPadding(['=']) == StripPadding([]);
    } else if |s| == 2 {
      var k0, k1, k2 := s[0] / 4, s[0] % 4 * 16 + s[1] / 16, s[1] % 16 * 4;
      assert EncodeStd(s) == [StdChar(k0)] + [StdChar(k1)] + [StdChar(k2)] + ['='];
      StdToUrl(k0);
      StdToUrl(k1);
      StdToUrl(k2);
      ToUrlAlphabetAppend([StdChar(k0)] + [StdChar(k1)] + [StdChar(k2)], ['=']);
      ToUrlAlphabetAppend([StdChar(k0)] + [StdChar(k1)], [StdChar(k2)]);
      ToUrlAlphabetAppend([StdChar(k0)], [StdChar(k1)]);
      var u := [UrlChar(k0), UrlChar(k1), UrlChar(k2)];
      assert ToUrlAlphabet(EncodeStd(s)) == u + ['='];
      StripPaddingAppend(u, ['=']);
      assert StripPadding(['=']) == StripPadding([]);
    } else {
      var k0, k1, k2, k3 := s[0] / 4, s[0] % 4 * 16 + s[1] / 16, s[1] % 16 * 4 + s[2] / 64, s[2] % 64;
      var q := [StdChar(k0)] + [StdChar(k1)] + [StdChar(k2)] + [StdChar(k3)];
      assert EncodeStd(s) == q + EncodeStd(s[3..]);
      StdToUrl(k0);
      StdToUrl(k1);
      StdToUrl(k2);
      StdToUrl(k3);
      ToUrlAlphabetAppend(q, EncodeStd(s[3..]));
      ToUrlAlphabetAppend([StdChar(k0)] + [StdChar(k1)] + [StdChar(k2)], [StdChar(k3)]);
      ToUrlAlphabetAppend([StdChar(k0)] + [StdChar(k1)], [StdChar(k2)]);
      ToUrlAlphabetAppend([StdChar(k0)], [StdChar(k1)]);
      var u := [UrlChar(k0), UrlChar(k1), UrlChar(k2), UrlChar(k3)];
      assert ToUrlAlphabet(q) == u;
      UrlCharIsSafe(k3);
      StripPaddingAppend(u, ToUrlAlphabet(EncodeStd(s[3..])));
      B64BytesIsEncodeUrl(s[3..]);
    }
  }

  /**
   * `b64(s)` succeeds exactly on binary strings, and then is the unpadded
   * base64url encoding of the bytes: no `+`, no `/`, no `=` anywhere, and as
   * long as the unpadded standard encoding.
   */
  lemma B64IsUnpaddedBase64Url(s: string)
    ensures B64(s).Some? <==> IsBinaryString(s)
    ensures B64(s).Some? ==> B64(s).value == EncodeUrl(Bytes(s))
    ensures B64(s).Some? ==> forall i :: 0 <= i < |B64(s).value| ==> IsUrlSafe(B64(s).value[i])
    ensures B64(s).Some? ==> |B64(s).value| == (4 * |s| + 2) / 3
  {
    if IsBinaryString(s) {
      B64BytesIsEncodeUrl(Bytes(s));
    }
  }

  /** The number of `=` characters standard base64 appends for n bytes. */
  function PadLength(n: nat): nat
  {
    (3 - n % 3) % 3
  }

  lemma {:induction false} EncodeStdPadding(s: seq<Byte>)
    ensures |EncodeStd(s)| == |EncodeUrl(s)| + PadLength(|s|)
    ensures forall i :: |EncodeUrl(s)| <= i < |EncodeStd(s)| ==> EncodeStd(s)[i] == '='
    decreases |s|
  {
    if |s| >= 3 {
      var std, url := EncodeStd(s), EncodeUrl(s);
      var std', url' := EncodeStd(s[3..]), EncodeUrl(s[3..]);
      EncodeStdPadding(s[3..]);
      assert std == std[..4] + std' && url == url[..4] + url';
      assert PadLength(|s|) == PadLength(|s| - 3);
      forall i | |url| <= i < |std|
        ensures std[i] == '='
      {
        assert std[i] == std'[i - 4];
      }
    }
  }

  /**
   * `b64` is `btoa` with the two characters substituted one for one and only
   * the padding removed: putting the padding back gives the substituted
   * standard encoding.
   */
  lemma B64PlusPaddingIsSubstitutedBtoa(s: string)
    requires IsBinaryString(s)
    ensures B64(s).Some? && Btoa(s).Some?
    ensures B64(s).value + seq(PadLength(|s|), _ => '=') == ToUrlAlphabet(Btoa(s).value)
  {
    var b := Bytes(s);
    var std := EncodeStd(b);
    B64BytesIsEncodeUrl(b);
    EncodeStdPadding(b);
    var url := EncodeUrl(b);
    var pad := seq(PadLength(|s|), _ => '=');
    forall i | 0 <= i < |std|
      ensures (url + pad)[i] == ToUrlAlphabet(std)[i]
    {
      if i < |url| {
        // the characters before the padding are the substituted ones
        StripPrefixAgrees(ToUrlAlphabet(std), i);
      }
    }
  }

  /** What `StripPadding` keeps is a prefix of its input. */
  lemma {:induction false} StripPrefixAgrees(t: string, i: nat)
    requires i < |StripPadding(t)|
    ensures |StripPadding(t)| <= |t| && StripPadding(t)[i] == t[i]
    decreases |t|
  {
    if |t| > 0 && t[|t| - 1] == '=' {
      StripPrefixAgrees(t[..|t| - 1], i);
    }
  }
}
