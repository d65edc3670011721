/** init_spotify_api.py: the strings the client-credentials flow sends, the
    Bearer header every later request carries, and the user id cut from the
    profile link. The Basic credentials are HTTP Basic (section 2 of RFC 7617):
    the UTF-8 bytes of `id:secret` in the base64 alphabet of section 4 of
    RFC 4648. Environment variables are inputs (`None` when unset); the POST to
    the token endpoint is left out. */
module SpotifyAuth {
  import opened Wrappers
  import opened Text
  import opened Dict

  type Byte = b: int | 0 <= b < 256

  // ---------------------------------------------------------------------------
  // UTF-8 (line 26)

  /** A continuation byte `10xxxxxx`. */
  predicate IsContinuation(b: Byte)
  {
    0x80 <= b < 0xC0
  }

  /** The UTF-8 bytes of one scalar value: one byte below 0x80, then two,
      three or four bytes with the value's bits spread six at a time over the
      continuation bytes. */
  function EncodeChar(c: char): (r: seq<Byte>)
    ensures 1 <= |r| <= 4
    ensures |r| == 1 <==> (c as int) < 0x80
  {
    var v := c as int;
    var v6 := v / 64;
    var v12 := v6 / 64;
    var v18 := v12 / 64;
    if v < 0x80 then [v]
    else if v < 0x800 then [0xC0 + v6, 0x80 + v % 64]
    else if v < 0x10000 then [0xE0 + v12, 0x80 + v6 % 64, 0x80 + v % 64]
    else [0xF0 + v18, 0x80 + v12 % 64, 0x80 + v6 % 64, 0x80 + v % 64]
  }

  /** `s.encode("utf-8")`. */
  function Utf8(s: string): (r: seq<Byte>)
    ensures |s| <= |r| <= 4 * |s|
  {
    if s == [] then [] else EncodeChar(s[0]) + Utf8(s[1..])
  }

  /** The scalar value `v`, when it is one. */
  function ScalarChar(v: int): Option<char>
  {
    if 0 <= v < 0xD800 || 0xE000 <= v < 0x110000 then Some(v as char) else None
  }

  /** The character at the front of `b` and the number of bytes it takes, or
      `None` when the front is not a shortest-form UTF-8 sequence. */
  function DecodeChar(b: seq<Byte>): (r: Option<(char, nat)>)
    requires b != []
    ensures r.Some? ==> 1 <= r.value.1 <= |b|
  {
    var b0: int := b[0];
    if b0 < 0x80 then Some((b0 as char, 1))
    else if 0xC0 <= b0 < 0xE0 && |b| >= 2 && IsContinuation(b[1]) then
      var v := TwoByteValue(b0, b[1]);
      if 0x80 <= v then Some((v as char, 2)) else None
    else if 0xE0 <= b0 < 0xF0 && |b| >= 3 && IsContinuation(b[1]) && IsContinuation(b[2]) then
      var v := ThreeByteValue(b0, b[1], b[2]);
      var c := ScalarChar(v);
      if 0x800 <= v && c.Some? then Some((c.value, 3)) else None
    else if 0xF0 <= b0 < 0xF8 && |b| >= 4 && IsContinuation(b[1]) && IsContinuation(b[2]) && IsContinuation(b[3]) then
      var v := FourByteValue(b0, b[1], b[2], b[3]);
      var c := ScalarChar(v);
      if 0x10000 <= v && c.Some? then Some((c.value, 4)) else None
    else None
  }

  /** The value bits of a two-, three- or four-byte sequence, lead byte first. */
  function TwoByteValue(b0: int, b1: int): (v: int)
    requires 0xC0 <= b0 < 0xE0 && 0x80 <= b1 < 0xC0
    ensures 0 <= v < 0x800
  {
    (b0 - 0xC0) * 64 + (b1 - 0x80)
  }

  function ThreeByteValue(b0: int, b1: int, b2: int): (v: int)
    requires 0xE0 <= b0 < 0xF0 && 0x80 <= b1 < 0xC0 && 0x80 <= b2 < 0xC0
    ensures 0 <= v < 0x10000
  {
    ((b0 - 0xE0) * 64 + (b1 - 0x80)) * 64 + (b2 - 0x80)
  }

  function FourByteValue(b0: int, b1: int, b2: int, b3: int): (v: int)
    requires 0xF0 <= b0 < 0xF8 && 0x80 <= b1 < 0xC0 && 0x80 <= b2 < 0xC0 && 0x80 <= b3 < 0xC0
    ensures 0 <= v < 0x200000
  {
    (((b0 - 0xF0) * 64 + (b1 - 0x80)) * 64 + (b2 - 0x80)) * 64 + (b3 - 0x80)
  }

  /** Strict UTF-8 decoding: the string the bytes spell, or `None`. */
  function DecodeUtf8(b: seq<Byte>): Option<string>
    decreases |b|
  {
    if b == [] then Some([])
    else
      match DecodeChar(b)
      case None => None
      case Some((c, n)) =>
        match DecodeUtf8(b[n..])
        case None => None
        case Some(rest) => Some([c] + rest)
  }

  /** Decoding reads back one encoded character and no more. */
  lemma DecodeEncodedChar(c: char, rest: seq<Byte>)
    ensures DecodeChar(EncodeChar(c) + rest) == Some((c, |EncodeChar(c)|))
  {
    var v := c as int;
    if v < 0x80 {
    } else if v < 0x800 {
      DecodeTwo(c, rest);
    } else if v < 0x10000 {
      DecodeThree(c, rest);
    } else {
      DecodeFour(c, rest);
    }
  }

  lemma DecodeTwo(c: char, rest: seq<Byte>)
    requires 0x80 <= c as int < 0x800
    ensures DecodeChar(EncodeChar(c) + rest) == Some((c, 2))
  {
    var v := c as int;
    var b := EncodeChar(c) + rest;
    assert b[0] == 0xC0 + v / 64 && b[1] == 0x80 + v % 64;
    assert TwoByteValue(b[0], b[1]) == v;
  }

  lemma DecodeThree(c: char, rest: seq<Byte>)
    requires 0x800 <= c as int < 0x10000
    ensures DecodeChar(EncodeChar(c) + rest) == Some((c, 3))
  {
    var v := c as int;
    var b := EncodeChar(c) + rest;
    var v6 := v / 64;
    var v12 := v6 / 64;
    assert b[0] == 0xE0 + v12 && b[1] == 0x80 + v6 % 64 && b[2] == 0x80 + v % 64;
    assert v12 * 64 + v6 % 64 == v6;
    assert v6 * 64 + v % 64 == v;
    assert ThreeByteValue(b[0], b[1], b[2]) == v;
    assert ScalarChar(v) == Some(c);
  }

  lemma DecodeFour(c: char, rest: seq<Byte>)
    requires 0x10000 <= c as int
    ensures DecodeChar(EncodeChar(c) + rest) == Some((c, 4))
  {
    var v := c as int;
    var b := EncodeChar(c) + rest;
    var v6 := v / 64;
    var v12 := v6 / 64;
    var v18 := v12 / 64;
    assert b[0] == 0xF0 + v18 && b[1] == 0x80 + v12 % 64;
    assert b[2] == 0x80 + v6 % 64 && b[3] == 0x80 + v % 64;
    assert v18 * 64 + v12 % 64 == v12;
    assert v12 * 64 + v6 % 64 == v6;
    assert v6 * 64 + v % 64 == v;
    assert FourByteValue(b[0], b[1], b[2], b[3]) == v;
    assert ScalarChar(v) == Some(c);
  }

  /** UTF-8 decoding undoes the encoding. */
  lemma {:induction false} Utf8RoundTrip(s: string)
    ensures DecodeUtf8(Utf8(s)) == Some(s)
  {
    if s != [] {
      var e := EncodeChar(s[0]);
      var rest := Utf8(s[1..]);
      DecodeEncodedChar(s[0], rest);
      assert (e + rest)[|e|..] == rest;
      Utf8RoundTrip(s[1..]);
      assert [s[0]] + s[1..] == s;
    }
  }

  /** ASCII credentials encode to one byte per character, the character's code. */
  lemma {:induction false} Utf8Ascii(s: string)
    requires forall i :: 0 <= i < |s| ==> (s[i] as int) < 0x80
    ensures |Utf8(s)| == |s|
    ensures forall i :: 0 <= i < |s| ==> Utf8(s)[i] == s[i] as int
  {
    if s != [] {
      Utf8Ascii(s[1..]);
    }
  }

  // ---------------------------------------------------------------------------
  // Base64 (line 27)

  /** Table 1 of section 4 of RFC 4648. */
  function SextetChar(v: nat): (c: char)
    requires v < 64
    ensures c != '='
  {
    if v < 26 then ('A' as int + v) as char
    else if v < 52 then ('a' as int + (v - 26)) as char
    else if v < 62 then ('0' as int + (v - 52)) as char
    else if v == 62 then '+'
    else '/'
  }

  /** The inverse of the alphabet table. */
  function CharSextet(c: char): (r: Option<nat>)
    ensures r.Some? ==> r.value < 64
  {
    if 'A' <= c <= 'Z' then Some(c as int - 'A' as int)
    else if 'a' <= c <= 'z' then Some(c as int - 'a' as int + 26)
    else if '0' <= c <= '9' then Some(c as int - '0' as int + 52)
    else if c == '+' then Some(62)
    else if c == '/' then Some(63)
    else None
  }

  lemma SextetRoundTrip(v: nat)
    requires v < 64
    ensures CharSextet(SextetChar(v)) == Some(v)
  {
  }

  /** `base64.b64encode`: every three bytes become four characters, and a final
      one or two bytes become two or three characters padded with `=` to four. */
  function Base64Encode(b: seq<Byte>): (r: string)
    ensures |r| == 4 * ((|b| + 2) / 3)
  {
    if b == [] then ""
    else if |b| == 1 then
      [SextetChar(b[0] / 4), SextetChar((b[0] % 4) * 16)] + "=="
    else if |b| == 2 then
      [SextetChar(b[0] / 4), SextetChar((b[0] % 4) * 16 + b[1] / 16), SextetChar((b[1] % 16) * 4)] + "="
    else Group(b[0], b[1], b[2]) + Base64Encode(b[3..])
  }

  /** Three bytes as four characters, six bits each. */
  function Group(b0: Byte, b1: Byte, b2: Byte): (r: string)
    ensures |r| == 4
  {
    [SextetChar(b0 / 4), SextetChar((b0 % 4) * 16 + b1 / 16),
     SextetChar((b1 % 16) * 4 + b2 / 64), SextetChar(b2 % 64)]
  }

  /** Strict base64 decoding: groups of four characters of the alphabet, the
      last of which may end in `=` or `==`; `None` for anything else. */
  function Base64Decode(s: string): Option<seq<Byte>>
  {
    if s == [] then Some([])
    else if |s| < 4 then None
    else
      var v0, v1, v2, v3 := CharSextet(s[0]), CharSextet(s[1]), CharSextet(s[2]), CharSextet(s[3]);
      if v0.None? || v1.None? then None
      else if s[2] == '=' && s[3] == '=' then
        if |s| == 4 then Some([v0.value * 4 + v1.value / 16]) else None
      else if v2.None? then None
      else if s[3] == '=' then
        if |s| == 4 then Some([v0.value * 4 + v1.value / 16, (v1.value % 16) * 16 + v2.value / 4]) else None
      else if v3.None? then None
      else
        match Base64Decode(s[4..])
        case None => None
        case Some(rest) => Some(Bytes3(v0.value, v1.value, v2.value, v3.value) + rest)
  }

  /** Four sextets as the three bytes they carry. */
  function Bytes3(x0: nat, x1: nat, x2: nat, x3: nat): seq<Byte>
    requires x0 < 64 && x1 < 64 && x2 < 64 && x3 < 64
  {
    [x0 * 4 + x1 / 16, (x1 % 16) * 16 + x2 / 4, (x2 % 4) * 64 + x3]
  }

  /** How a group of four alphabet characters in front of more text decodes. */
  lemma DecodeFullGroup(s: string, x0: nat, x1: nat, x2: nat, x3: nat)
    requires |s| >= 4 && x0 < 64 && x1 < 64 && x2 < 64 && x3 < 64
    requires CharSextet(s[0]) == Some(x0) && CharSextet(s[1]) == Some(x1)
    requires CharSextet(s[2]) == Some(x2) && CharSextet(s[3]) == Some(x3)
    requires s[2] != '=' && s[3] != '=' && Base64Decode(s[4..]).Some?
    ensures Base64Decode(s) == Some(Bytes3(x0, x1, x2, x3) + Base64Decode(s[4..]).value)
  {
  }

  /** The bits of three bytes survive their split into four sextets. */
  lemma SextetsRejoin(b0: Byte, b1: Byte, b2: Byte)
    ensures (b0 / 4) * 4 + ((b0 % 4) * 16 + b1 / 16) / 16 == b0
    ensures (((b0 % 4) * 16 + b1 / 16) % 16) * 16 + ((b1 % 16) * 4 + b2 / 64) / 4 == b1
    ensures (((b1 % 16) * 4 + b2 / 64) % 4) * 64 + b2 % 64 == b2
  {
  }

  /** Base64 decoding undoes the encoding. */
  lemma {:induction false} Base64RoundTrip(b: seq<Byte>)
    ensures Base64Decode(Base64Encode(b)) == Some(b)
  {
    if b == [] {
    } else if |b| == 1 {
      DecodeLastOne(b[0]);
      assert b == [b[0]];
    } else if |b| == 2 {
      DecodeLastTwo(b[0], b[1]);
      assert b == [b[0], b[1]];
    } else {
      var t := Base64Encode(b[3..]);
      Base64RoundTrip(b[3..]);
      DecodeGroup(b[0], b[1], b[2], t);
      assert b == [b[0], b[1], b[2]] + b[3..];
    }
  }

  lemma DecodeLastOne(b0: Byte)
    ensures Base64Decode(Base64Encode([b0])) == Some([b0])
  {
    var s := Base64Encode([b0]);
    SextetRoundTrip(b0 / 4);
    SextetRoundTrip((b0 % 4) * 16);
    SextetsRejoin(b0, 0, 0);
    assert s[2] == '=' && s[3] == '=' && |s| == 4;
  }

  lemma DecodeLastTwo(b0: Byte, b1: Byte)
    ensures Base64Decode(Base64Encode([b0, b1])) == Some([b0, b1])
  {
    var s := Base64Encode([b0, b1]);
    SextetRoundTrip(b0 / 4);
    SextetRoundTrip((b0 % 4) * 16 + b1 / 16);
    SextetRoundTrip((b1 % 16) * 4);
    SextetsRejoin(b0, b1, 0);
    assert s[3] == '=' && s[2] != '=' && |s| == 4;
  }

  /** A full group of four characters decodes to its three bytes, in front of
      whatever the rest decodes to. */
  lemma DecodeGroup(b0: Byte, b1: Byte, b2: Byte, t: string)
    requires Base64Decode(t).Some?
    ensures Base64Decode(Group(b0, b1, b2) + t) == Some([b0, b1, b2] + Base64Decode(t).value)
  {
    var g := Group(b0, b1, b2);
    var s := g + t;
    var x0, x1, x2, x3 := b0 / 4, (b0 % 4) * 16 + b1 / 16, (b1 % 16) * 4 + b2 / 64, b2 % 64;
    GroupSextets(b0, b1, b2);
    BytesRejoin(b0, b1, b2);
    assert s[0] == g[0] && s[1] == g[1] && s[2] == g[2] && s[3] == g[3];
    assert s[4..] == t;
    DecodeFullGroup(s, x0, x1, x2, x3);
  }

  /** The characters of a group read back as its four sextets. */
  lemma GroupSextets(b0: Byte, b1: Byte, b2: Byte)
    ensures var g := Group(b0, b1, b2);
      && CharSextet(g[0]) == Some(b0 / 4) && CharSextet(g[1]) == Some((b0 % 4) * 16 + b1 / 16)
      && CharSextet(g[2]) == Some((b1 % 16) * 4 + b2 / 64) && CharSextet(g[3]) == Some(b2 % 64)
      && g[2] != '=' && g[3] != '='
  {
    SextetRoundTrip(b0 / 4);
    SextetRoundTrip((b0 % 4) * 16 + b1 / 16);
    SextetRoundTrip((b1 % 16) * 4 + b2 / 64);
    SextetRoundTrip(b2 % 64);
  }

  /** The sextets of three bytes carry those three bytes. */
  lemma BytesRejoin(b0: Byte, b1: Byte, b2: Byte)
    ensures Bytes3(b0 / 4, (b0 % 4) * 16 + b1 / 16, (b1 % 16) * 4 + b2 / 64, b2 % 64) == [b0, b1, b2]
  {
    SextetsRejoin(b0, b1, b2);
  }

  /** Every character of an encoding is in the alphabet or is padding, and
      padding comes only at the end. */
  lemma {:induction false} Base64Alphabet(b: seq<Byte>)
    ensures forall i :: 0 <= i < |Base64Encode(b)| ==>
      CharSextet(Base64Encode(b)[i]).Some? || (Base64Encode(b)[i] == '=' && i >= |Base64Encode(b)| - 2)
  {
    var s := Base64Encode(b);
    if |b| == 1 {
      SextetRoundTrip(b[0] / 4);
      SextetRoundTrip((b[0] % 4) * 16);
    } else if |b| == 2 {
      SextetRoundTrip(b[0] / 4);
      SextetRoundTrip((b[0] % 4) * 16 + b[1] / 16);
      SextetRoundTrip((b[1] % 16) * 4);
    } else if |b| >= 3 {
      SextetRoundTrip(b[0] / 4);
      SextetRoundTrip((b[0] % 4) * 16 + b[1] / 16);
      SextetRoundTrip((b[1] % 16) * 4 + b[2] / 64);
      SextetRoundTrip(b[2] % 64);
      Base64Alphabet(b[3..]);
      var t := Base64Encode(b[3..]);
      assert s == s[..4] + t;
      forall i | 4 <= i < |s|
        ensures CharSextet(s[i]).Some? || (s[i] == '=' && i >= |s| - 2)
      {
        assert s[i] == t[i - 4];
      }
    }
  }

  // ---------------------------------------------------------------------------
  // The token request (lines 22-38)

  /** Line 25: `client_id + ":" + client_secret`; an unset variable is `None`,
      and adding it to a string raises TypeError. */
  function AuthString(clientId: Option<string>, clientSecret: Option<string>): (r: Result<string>)
    ensures r.Ok? <==> clientId.Some? && clientSecret.Some?
    ensures r.Raised? ==> r.error == TypeError
  {
    if clientId.None? || clientSecret.None? then Raised(TypeError)
    else Ok(clientId.value + ":" + clientSecret.value)
  }

  /** Lines 26-27 and 34. */
  function BasicAuthorization(authString: string): string
  {
    "Basic " + Base64Encode(Utf8(authString))
  }

  const TokenUrl := "https://accounts.spotify.com/api/token"

  /** What the POST of line 40 sends: URL, headers and form data. */
  datatype Request = Request(url: string, headers: Dict<string, string>, data: Dict<string, string>)

  /** `get_token` up to the POST (lines 22-38). */
  function TokenRequest(clientId: Option<string>, clientSecret: Option<string>): (r: Result<Request>)
    ensures r.Ok? <==> clientId.Some? && clientSecret.Some?
    ensures r.Raised? ==> r.error == TypeError
    ensures r.Ok? ==> r.value.url == TokenUrl
    ensures r.Ok? ==> Keys(r.value.headers) == ["Authorization", "Content-Type"]
    ensures r.Ok? ==> Get(r.value.headers, "Content-Type") == Some("application/x-www-form-urlencoded")
    ensures r.Ok? ==> r.value.data == [("grant_type", "client_credentials")]
  {
    match AuthString(clientId, clientSecret)
    case Raised(e) => Raised(e)
    case Ok(authString) =>
      Ok(Request(TokenUrl,
                 [("Authorization", BasicAuthorization(authString)),
                  ("Content-Type", "application/x-www-form-urlencoded")],
                 [("grant_type", "client_credentials")]))
  }

  /** The Basic header has the length base64 gives the encoded credentials. */
  lemma BasicLength(authString: string)
    ensures |BasicAuthorization(authString)| == 6 + 4 * ((|Utf8(authString)| + 2) / 3)
  {
  }

  /** A server reading the header as section 2 of RFC 7617 describes gets the
      credentials back: strip `Basic `, decode base64, decode UTF-8, and the
      first colon separates a user id that has none from the secret. */
  lemma CredentialsRecoverable(clientId: string, clientSecret: string)
    requires ':' !in clientId
    ensures TokenRequest(Some(clientId), Some(clientSecret)).Ok?
    ensures var value := Get(TokenRequest(Some(clientId), Some(clientSecret)).value.headers, "Authorization");
      && value.Some? && value.value[..6] == "Basic "
      && Base64Decode(value.value[6..]).Some?
      && DecodeUtf8(Base64Decode(value.value[6..]).value) == Some(clientId + ":" + clientSecret)
      && Split(clientId + ":" + clientSecret, ':') == [clientId] + Split(clientSecret, ':')
  {
    var authString := clientId + ":" + clientSecret;
    var value := BasicAuthorization(authString);
    assert value[6..] == Base64Encode(Utf8(authString));
    Base64RoundTrip(Utf8(authString));
    Utf8RoundTrip(authString);
    assert authString == clientId + [':'] + clientSecret;
    SplitAtFirst(clientId, ':', clientSecret);
  }

  // ---------------------------------------------------------------------------
  // Headers and user id (lines 49-76)

  /** `get_auth_headers` (line 59). */
  function AuthHeaders(token: string): (r: Dict<string, string>)
  {
    [("Authorization", "Bearer " + token)]
  }

  /** The headers hold one entry, and its value carries the token behind the
      Bearer scheme. */
  lemma AuthHeadersCarryToken(token: string)
    ensures Keys(AuthHeaders(token)) == ["Authorization"]
    ensures var v := Get(AuthHeaders(token), "Authorization");
      v.Some? && v.value[..7] == "Bearer " && v.value[7..] == token
  {
  }

  /** Python's `s[start:]` for a possibly negative start. */
  function SliceFrom(s: string, start: int): string
  {
    if start < 0 then s[(if |s| + start < 0 then 0 else |s| + start)..]
    else s[(if start > |s| then |s| else start)..]
  }

  /** `get_user_id` (lines 73-76): the last sixteen characters of the profile
      link; an unset variable is `None`, and slicing it raises TypeError. */
  function UserId(profileLink: Option<string>): (r: Result<string>)
    ensures r.Raised? <==> profileLink.None?
    ensures r.Raised? ==> r.error == TypeError
  {
    if profileLink.None? then Raised(TypeError) else Ok(SliceFrom(profileLink.value, -16))
  }

  /** The user id is the link's suffix of sixteen characters, or the whole link
      when it is shorter. */
  lemma UserIdSuffix(link: string)
    ensures var id := UserId(Some(link)).value;
      |id| == (if |link| < 16 then |link| else 16)
      && link == link[..|link| - |id|] + id
  {
  }

  /** Cutting the id from an id changes nothing. */
  lemma UserIdIdempotent(link: string)
    ensures UserId(Some(UserId(Some(link)).value)) == UserId(Some(link))
  {
  }
}
