/**
 * Signed sandbox tokens (control/sandbox_tokens.py, lines 36-85): a JSON payload in unpadded
 * base64url (sections 3.2 and 5 of RFC 4648), a dot, and the encoded HMAC of the first part.
 *
 * The JSON writer and reader and the keyed HMAC are parameters. Credits are scaled integers. The
 * decoder is the lenient one of CPython: it skips characters outside the alphabet and stops at a
 * completed padding.
 */
module SandboxTokens {
  import opened Prelude

  type Byte = n: nat | n < 256 witness 0

  // ---------------------------------------------------------------- base64url

  function Letter(n: nat): char
    requires n < 64
  {
    if n < 26 then 'A' + (n as char)
    else if n < 52 then 'a' + ((n - 26) as char)
    else if n < 62 then '0' + ((n - 52) as char)
    else if n == 62 then '-'
    else '_'
  }

  /** The six bits of a letter; the letters of the standard alphabet are accepted too. */
  function Bits(c: char): (r: Option<nat>)
    ensures r.Some? ==> r.value < 64
  {
    if 'A' <= c <= 'Z' then Some((c - 'A') as nat)
    else if 'a' <= c <= 'z' then Some((c - 'a') as nat + 26)
    else if '0' <= c <= '9' then Some((c - '0') as nat + 52)
    else if c == '-' || c == '+' then Some(62)
    else if c == '_' || c == '/' then Some(63)
    else None
  }

  function Quad(a: Byte, b: Byte, c: Byte): string {
    [Letter(a / 4), Letter(a % 4 * 16 + b / 16), Letter(b % 16 * 4 + c / 64), Letter(c % 64)]
  }

  function UrlsafeEncode(data: seq<Byte>): string {
    if |data| == 0 then ""
    else if |data| == 1 then [Letter(data[0] / 4), Letter(data[0] % 4 * 16), '=', '=']
    else if |data| == 2 then
      [Letter(data[0] / 4), Letter(data[0] % 4 * 16 + data[1] / 16), Letter(data[1] % 16 * 4), '=']
    else Quad(data[0], data[1], data[2]) + UrlsafeEncode(data[3..])
  }

  function StripPadding(s: string): string {
    if s != "" && s[|s| - 1] == '=' then StripPadding(s[..|s| - 1]) else s
  }

  function B64(data: seq<Byte>): string {
    StripPadding(UrlsafeEncode(data))
  }

  function Padding(length: nat): string {
    if length % 4 == 0 then "" else if length % 4 == 1 then "===" else if length % 4 == 2 then "==" else "="
  }

  /** The decoder's state: position in the group, bits left over, padding seen, bytes written. */
  datatype Scan = Scan(quad: nat, left: nat, pads: nat, out: seq<Byte>)

  predicate InRange(s: Scan) {
    && s.quad < 4
    && s.left < if s.quad == 0 then 1 else if s.quad == 1 then 64 else if s.quad == 2 then 16 else 4
  }

  function Take(s: Scan, bits: nat): (t: Scan)
    requires InRange(s) && bits < 64
    ensures InRange(t)
  {
    match s.quad
    case 0 => Scan(1, bits, 0, s.out)
    case 1 => Scan(2, bits % 16, 0, s.out + [s.left * 4 + bits / 16])
    case 2 => Scan(3, bits % 4, 0, s.out + [s.left * 16 + bits / 4])
    case _ => Scan(0, 0, 0, s.out + [s.left * 64 + bits])
  }

  /** None: incorrect padding, or a character outside ASCII. */
  function DecodeFrom(text: string, s: Scan): Option<seq<Byte>>
    requires InRange(s)
  {
    if text == "" then if s.quad == 0 then Some(s.out) else None
    else if text[0] == '=' then
      if s.quad >= 2 && s.quad + s.pads + 1 >= 4 then Some(s.out)
      else DecodeFrom(text[1..], if s.quad >= 2 then s.(pads := s.pads + 1) else s)
    else if Bits(text[0]).Some? then DecodeFrom(text[1..], Take(s, Bits(text[0]).value))
    else DecodeFrom(text[1..], s)
  }

  predicate Ascii(s: string) {
    forall i | 0 <= i < |s| :: s[i] < 128 as char
  }

  function Unb64(s: string): Option<seq<Byte>> {
    if Ascii(s) then DecodeFrom(s + Padding(|s|), Scan(0, 0, 0, [])) else None
  }

  /** What the encoder writes before stripping: letters, then the padding. */
  function Letters(data: seq<Byte>): string {
    if |data| == 0 then ""
    else if |data| == 1 then [Letter(data[0] / 4), Letter(data[0] % 4 * 16)]
    else if |data| == 2 then [Letter(data[0] / 4), Letter(data[0] % 4 * 16 + data[1] / 16), Letter(data[1] % 16 * 4)]
    else Quad(data[0], data[1], data[2]) + Letters(data[3..])
  }

  /** The alphabet of the decoder: the 64 letters, and the two of the standard alphabet that differ. */
  lemma BitsIs(c: char, n: nat)
    ensures Bits(c) == Some(n) <==>
              n < 64 && (c == Letter(n) || (n == 62 && c == '+') || (n == 63 && c == '/'))
  {
  }

  /** A letter moves on in its group, forgets padding seen before it, and completes a byte unless it is the first. */
  lemma TakeMovesOn(s: Scan, bits: nat)
    requires InRange(s) && bits < 64
    ensures var t := Take(s, bits);
            && t.pads == 0 && s.out <= t.out
            && (s.quad < 3 ==> t.quad == s.quad + 1) && (s.quad == 3 ==> t.quad == 0)
            && (s.quad == 0 ==> t.out == s.out) && (s.quad > 0 ==> |t.out| == |s.out| + 1)
  {
  }

  /** Padding completes a group of four and is nothing but equals signs. */
  lemma PaddingCompletes(length: nat)
    ensures length % 4 + |Padding(length)| in {0, 4}
    ensures forall i :: 0 <= i < |Padding(length)| ==> Padding(length)[i] == '='
  {
  }

  /** A character that is neither a letter nor padding changes nothing, wherever it stands. */
  lemma {:induction false} ForeignCharactersAreSkipped(a: string, c: char, b: string, s: Scan)
    requires InRange(s) && Bits(c) == None && c != '='
    ensures DecodeFrom(a + [c] + b, s) == DecodeFrom(a + b, s)
    decreases |a|
  {
    hide Bits, Take;
    if a == "" {
      assert (a + [c] + b)[1..] == b && a + b == b;
    } else {
      var x, y := a + [c] + b, a + b;
      assert x[0] == y[0] == a[0] && x[1..] == a[1..] + [c] + b && y[1..] == a[1..] + b;
      if a[0] == '=' {
        if !(s.quad >= 2 && s.quad + s.pads + 1 >= 4) {
          ForeignCharactersAreSkipped(a[1..], c, b, if s.quad >= 2 then s.(pads := s.pads + 1) else s);
        }
      } else if Bits(a[0]).Some? {
        ForeignCharactersAreSkipped(a[1..], c, b, Take(s, Bits(a[0]).value));
      } else {
        ForeignCharactersAreSkipped(a[1..], c, b, s);
      }
    }
  }

  /**
   * Padding: before the second letter of a group it is skipped, and what completes the group ends the
   * text, whatever follows. A text that ends inside a group is an error.
   */
  lemma PaddingEndsGroup(rest: string, s: Scan)
    requires InRange(s)
    ensures s.quad < 2 ==> DecodeFrom("=" + rest, s) == DecodeFrom(rest, s)
    ensures s.quad == 3 ==> DecodeFrom("=" + rest, s) == Some(s.out)
    ensures s.quad == 2 && s.pads == 0 ==> DecodeFrom("==" + rest, s) == Some(s.out)
    ensures s.quad == 2 && s.pads == 0 ==> DecodeFrom("=", s) == None
    ensures s.quad == 0 ==> DecodeFrom("", s) == Some(s.out)
    ensures s.quad > 0 ==> DecodeFrom("", s) == None
  {
    hide Bits, Take;
    assert ("=" + rest)[1..] == rest && ("==" + rest)[1..] == "=" + rest && "="[1..] == "";
  }

  /** A character outside ASCII is an error, and nothing else is refused before decoding. */
  lemma AsciiOnly(s: string)
    ensures (exists c :: c in s && c as int >= 128) ==> Unb64(s) == None
    ensures (forall c :: c in s ==> c as int < 128) ==> Unb64(s) == DecodeFrom(s + Padding(|s|), Scan(0, 0, 0, []))
  {
    hide DecodeFrom, Padding;
    if c :| c in s && c as int >= 128 {
      var i :| 0 <= i < |s| && s[i] == c;
    } else {
      assert forall i :: 0 <= i < |s| ==> s[i] in s;
    }
  }

  predicate IsLetter(c: char) {
    c < 128 as char && c != '=' && c != '.' && Bits(c).Some?
  }

  lemma LetterIsLetter(n: nat)
    requires n < 64
    ensures IsLetter(Letter(n)) && Bits(Letter(n)) == Some(n)
  {
  }

  lemma QuadIsLetters(a: Byte, b: Byte, c: Byte)
    ensures |Quad(a, b, c)| == 4 && forall i :: 0 <= i < 4 ==> IsLetter(Quad(a, b, c)[i])
  {
  }

  lemma {:induction false} EncodingIsLetters(data: seq<Byte>)
    ensures forall i :: 0 <= i < |Letters(data)| ==> IsLetter(Letters(data)[i])
    ensures UrlsafeEncode(data) == Letters(data) + Padding(|Letters(data)|)
  {
    hide Letter, IsLetter, Quad;
    if |data| == 1 {
      LetterIsLetter(data[0] / 4);
      LetterIsLetter(data[0] % 4 * 16);
    } else if |data| == 2 {
      LetterIsLetter(data[0] / 4);
      LetterIsLetter(data[0] % 4 * 16 + data[1] / 16);
      LetterIsLetter(data[1] % 16 * 4);
    } else if |data| > 2 {
      var q := Quad(data[0], data[1], data[2]);
      EncodingIsLetters(data[3..]);
      QuadIsLetters(data[0], data[1], data[2]);
      QuadLength(data[0], data[1], data[2]);
      assert |Letters(data)| == 4 + |Letters(data[3..])|;
      assert q + (Letters(data[3..]) + Padding(|Letters(data)|)) == Letters(data) + Padding(|Letters(data)|);
    }
  }

  lemma OneLess(s: string, n: nat)
    requires 0 < n <= 3
    ensures StripPadding(s + "==="[..n]) == StripPadding(s + "==="[..n - 1])
  {
    var t := s + "==="[..n];
    assert "==="[..n][n - 1] == '=' && t[|t| - 1] == '=' && t[..|t| - 1] == s + "==="[..n - 1];
  }

  lemma {:induction false} StrippingRemovesPadding(s: string, n: nat)
    requires n <= 3 && (s != "" ==> s[|s| - 1] != '=')
    ensures StripPadding(s + ("==="[..n])) == s
  {
    if n == 0 {
      assert s + "==="[..0] == s;
    } else {
      OneLess(s, n);
      StrippingRemovesPadding(s, n - 1);
    }
  }

  lemma B64IsLetters(data: seq<Byte>)
    ensures B64(data) == Letters(data)
  {
    hide Letter;
    EncodingIsLetters(data);
    var s := Letters(data);
    if s != "" { assert IsLetter(s[|s| - 1]); }
    var n := |Padding(|s|)|;
    assert Padding(|s|) == "==="[..n];
    StrippingRemovesPadding(s, n);
  }

  lemma Drop1(c: char, rest: string)
    ensures ([c] + rest)[1..] == rest && ([c] + rest)[0] == c
  {
  }

  lemma DecodeLetter(n: nat, rest: string, s: Scan)
    requires n < 64 && InRange(s)
    ensures DecodeFrom([Letter(n)] + rest, s) == DecodeFrom(rest, Take(s, n))
  {
    hide Letter, Take;
    LetterIsLetter(n);
    Drop1(Letter(n), rest);
  }

  lemma DecodeQuad(a: Byte, b: Byte, c: Byte, rest: string, out: seq<Byte>)
    ensures DecodeFrom(Quad(a, b, c) + rest, Scan(0, 0, 0, out)) == DecodeFrom(rest, Scan(0, 0, 0, out + [a, b, c]))
  {
    hide Letter, DecodeFrom;
    var n0, n1, n2, n3 := a / 4, a % 4 * 16 + b / 16, b % 16 * 4 + c / 64, c % 64;
    var s0 := Scan(0, 0, 0, out);
    var s1 := Take(s0, n0);
    var s2 := Take(s1, n1);
    var s3 := Take(s2, n2);
    assert Quad(a, b, c) + rest == [Letter(n0)] + ([Letter(n1)] + ([Letter(n2)] + ([Letter(n3)] + rest)));
    DecodeLetter(n0, [Letter(n1)] + ([Letter(n2)] + ([Letter(n3)] + rest)), s0);
    DecodeLetter(n1, [Letter(n2)] + ([Letter(n3)] + rest), s1);
    DecodeLetter(n2, [Letter(n3)] + rest, s2);
    DecodeLetter(n3, rest, s3);
    assert Take(s3, n3).out == out + [a, b, c];
  }

  lemma DecodeOne(a: Byte, out: seq<Byte>)
    ensures DecodeFrom([Letter(a / 4), Letter(a % 4 * 16)] + "==", Scan(0, 0, 0, out)) == Some(out + [a])
  {
    var s0 := Scan(0, 0, 0, out);
    var s1 := Take(s0, a / 4);
    var s2 := Take(s1, a % 4 * 16);
    assert s2.out == out + [a];
    assert "=="[1..] == "=";
    hide Letter;
    assert [Letter(a / 4), Letter(a % 4 * 16)] + "==" == [Letter(a / 4)] + ([Letter(a % 4 * 16)] + "==");
    DecodeLetter(a / 4, [Letter(a % 4 * 16)] + "==", s0);
    DecodeLetter(a % 4 * 16, "==", s1);
  }

  lemma DecodeTwo(a: Byte, b: Byte, out: seq<Byte>)
    ensures DecodeFrom([Letter(a / 4), Letter(a % 4 * 16 + b / 16), Letter(b % 16 * 4)] + "=", Scan(0, 0, 0, out))
         == Some(out + [a, b])
  {
    hide Letter;
    var n0, n1, n2 := a / 4, a % 4 * 16 + b / 16, b % 16 * 4;
    var s0 := Scan(0, 0, 0, out);
    var s1 := Take(s0, n0);
    var s2 := Take(s1, n1);
    assert [Letter(n0), Letter(n1), Letter(n2)] + "=" == [Letter(n0)] + ([Letter(n1)] + ([Letter(n2)] + "="));
    DecodeLetter(n0, [Letter(n1)] + ([Letter(n2)] + "="), s0);
    DecodeLetter(n1, [Letter(n2)] + "=", s1);
    DecodeLetter(n2, "=", s2);
    assert Take(s2, n2).out == out + [a, b];
  }

  lemma {:induction false} DecodeLetters(data: seq<Byte>, out: seq<Byte>)
    ensures DecodeFrom(Letters(data) + Padding(|Letters(data)|), Scan(0, 0, 0, out)) == Some(out + data)
  {
    hide Letter, DecodeFrom, Quad;
    if |data| == 0 {
      NothingToDecode(out);
    } else if |data| == 1 {
      DecodeOne(data[0], out);
      assert out + data == out + [data[0]];
    } else if |data| == 2 {
      DecodeTwo(data[0], data[1], out);
      assert out + data == out + [data[0], data[1]];
    } else {
      var rest := Letters(data[3..]) + Padding(|Letters(data[3..])|);
      QuadLength(data[0], data[1], data[2]);
      assert |Letters(data)| == 4 + |Letters(data[3..])|;
      assert Letters(data) + Padding(|Letters(data)|) == Quad(data[0], data[1], data[2]) + rest;
      DecodeQuad(data[0], data[1], data[2], rest, out);
      DecodeLetters(data[3..], out + [data[0], data[1], data[2]]);
      assert out + [data[0], data[1], data[2]] + data[3..] == out + data;
    }
  }

  lemma QuadLength(a: Byte, b: Byte, c: Byte)
    ensures |Quad(a, b, c)| == 4
  {
  }

  lemma NothingToDecode(out: seq<Byte>)
    ensures DecodeFrom("", Scan(0, 0, 0, out)) == Some(out) && "" + Padding(0) == "" && out + [] == out
  {
  }

  /** Decoding what was encoded gives the bytes back, for every byte string. */
  lemma DecodeUndoesEncode(data: seq<Byte>)
    ensures Unb64(B64(data)) == Some(data)
  {
    hide Letter, DecodeFrom, Letters, UrlsafeEncode, StripPadding;
    B64IsLetters(data);
    EncodingIsLetters(data);
    DecodeLetters(data, []);
    assert Ascii(B64(data)) by {
      forall i | 0 <= i < |B64(data)| ensures B64(data)[i] < 128 as char { assert IsLetter(Letters(data)[i]); }
    }
    assert [] + data == data;
  }

  lemma EncodeIsInjective(a: seq<Byte>, b: seq<Byte>)
    requires B64(a) == B64(b)
    ensures a == b
  {
    hide B64, Unb64;
    DecodeUndoesEncode(a);
    DecodeUndoesEncode(b);
  }

  // ---------------------------------------------------------------- tokens

  datatype Payload = Payload(version: int, job: string, worker: string, model: string, credits: int, expiresAt: int,
                             nonce: string)

  datatype Claims = Claims(job: string, worker: string, model: string, credits: int, expiresAt: int, nonce: string)

  datatype TokenError = BadSignature | BadVersion | Expired | NoCredits | Incomplete | Undecodable

  /** The JSON writer and reader, and the HMAC under the server's secret. */
  datatype Codec = Codec(dumps: Payload -> seq<Byte>, loads: seq<Byte> -> Option<Payload>, mac: string -> seq<Byte>)

  ghost predicate ReadsBack(codec: Codec) {
    forall p: Payload :: codec.loads(codec.dumps(p)) == Some(p)
  }

  function Lifetime(ttl: int): int {
    var capped := if ttl < 7200 then ttl else 7200;
    if capped > 60 then capped else 60
  }

  function Signed(encoded: string, codec: Codec): string {
    encoded + "." + B64(codec.mac(encoded))
  }

  function Issue(job: string, worker: string, model: string, credits: int, ttl: int, now: int, nonce: string,
                 codec: Codec): string {
    Signed(B64(codec.dumps(Payload(1, job, worker, model, credits, now + Lifetime(ttl), nonce))), codec)
  }

  /** The position of the first dot, or the length. */
  function FirstDot(s: string): (n: nat)
    ensures n <= |s| && (n < |s| ==> s[n] == '.') && forall i :: 0 <= i < n ==> s[i] != '.'
  {
    if s == "" || s[0] == '.' then 0 else 1 + FirstDot(s[1..])
  }

  function Checked(p: Payload, now: int): Result<Claims, TokenError> {
    if p.version != 1 then Err(BadVersion)
    else if p.expiresAt <= now then Err(Expired)
    else if p.credits <= 0 then Err(NoCredits)
    else if p.job == "" || p.worker == "" || p.model == "" || p.nonce == "" then Err(Incomplete)
    else Ok(Claims(p.job, p.worker, p.model, p.credits, p.expiresAt, p.nonce))
  }

  function Verify(token: string, now: int, codec: Codec): Result<Claims, TokenError> {
    var n := FirstDot(token);
    if n == |token| then Err(Undecodable)
    else
      var encoded, signature := token[..n], token[n + 1..];
      if signature != B64(codec.mac(encoded)) then Err(BadSignature)
      else
        var data := Unb64(encoded);
        if data.None? then Err(Undecodable)
        else
          var payload := codec.loads(data.value);
          if payload.None? then Err(Undecodable) else Checked(payload.value, now)
  }

  /** The lifetime asked for, between a minute and two hours. */
  lemma LifetimeIs(ttl: int)
    ensures ttl < 60 ==> Lifetime(ttl) == 60
    ensures ttl > 2 * 3600 ==> Lifetime(ttl) == 2 * 3600
    ensures 60 <= ttl <= 2 * 3600 ==> Lifetime(ttl) == ttl
  {
  }

  /** Which payloads are accepted, with which claims, and which error comes first otherwise. */
  lemma CheckedSays(p: Payload, now: int)
    ensures var r := Checked(p, now);
            var complete := |p.job| > 0 && |p.worker| > 0 && |p.model| > 0 && |p.nonce| > 0;
            && (r.Ok? <==> p.version == 1 && now < p.expiresAt && 0 < p.credits && complete)
            && (r.Ok? ==>
                  && r.value.job == p.job && r.value.worker == p.worker && r.value.model == p.model
                  && r.value.credits == p.credits && r.value.expiresAt == p.expiresAt && r.value.nonce == p.nonce)
            && (r == Err(BadVersion) <==> p.version != 1)
            && (r == Err(Expired) <==> p.version == 1 && p.expiresAt <= now)
            && (r == Err(NoCredits) <==> p.version == 1 && now < p.expiresAt && p.credits <= 0)
            && (r == Err(Incomplete) <==> p.version == 1 && now < p.expiresAt && 0 < p.credits && !complete)
  {
  }

  lemma {:induction false} DotAfterLetters(encoded: string, rest: string)
    requires forall i :: 0 <= i < |encoded| ==> encoded[i] != '.'
    ensures FirstDot(encoded + "." + rest) == |encoded|
  {
    var s := encoded + "." + rest;
    assert s[|encoded|] == '.';
    assert forall i :: 0 <= i < |encoded| ==> s[i] == encoded[i];
  }

  lemma B64HasNoDot(data: seq<Byte>)
    ensures forall i :: 0 <= i < |B64(data)| ==> B64(data)[i] != '.'
  {
    hide Letter, Letters, UrlsafeEncode, StripPadding;
    B64IsLetters(data);
    EncodingIsLetters(data);
    forall i | 0 <= i < |B64(data)| ensures B64(data)[i] != '.' { assert IsLetter(Letters(data)[i]); }
  }

  lemma SplitSigned(encoded: string, codec: Codec)
    requires forall i :: 0 <= i < |encoded| ==> encoded[i] != '.'
    ensures var t, n := Signed(encoded, codec), FirstDot(Signed(encoded, codec));
            n == |encoded| < |t| && t[..n] == encoded && t[n + 1..] == B64(codec.mac(encoded))
  {
    DotAfterLetters(encoded, B64(codec.mac(encoded)));
    var t := Signed(encoded, codec);
    assert t == encoded + ("." + B64(codec.mac(encoded)));
  }

  /**
   * Whatever was issued verifies to the same claims strictly before expiry and is rejected as
   * expired from then on; only empty claims or credits that are not positive are rejected earlier.
   */
  lemma IssuedTokensVerify(job: string, worker: string, model: string, credits: int, ttl: int, now: int, nonce: string,
                           later: int, codec: Codec)
    requires ReadsBack(codec)
    ensures var r := Verify(Issue(job, worker, model, credits, ttl, now, nonce, codec), later, codec);
            var expiry := now + Lifetime(ttl);
            && (later >= expiry ==> r == Err(Expired))
            && (later < expiry && credits > 0 && job != "" && worker != "" && model != "" && nonce != "" ==>
                  r == Ok(Claims(job, worker, model, credits, expiry, nonce)))
            && (r.Ok? ==> later < expiry && credits > 0 && job != "" && worker != "" && model != "" && nonce != "")
            && 60 <= Lifetime(ttl) <= 7200
  {
    hide B64, Unb64;
    var payload := Payload(1, job, worker, model, credits, now + Lifetime(ttl), nonce);
    var encoded := B64(codec.dumps(payload));
    B64HasNoDot(codec.dumps(payload));
    SplitSigned(encoded, codec);
    DecodeUndoesEncode(codec.dumps(payload));
    assert codec.loads(codec.dumps(payload)) == Some(payload);
  }

  /** An accepted token is the signed form of its first part: no second token passes with that part. */
  lemma AcceptedTokensAreSigned(token: string, now: int, codec: Codec)
    requires Verify(token, now, codec).Ok?
    ensures token == Signed(token[..FirstDot(token)], codec)
    ensures Verify(token, now, codec).value.expiresAt > now && Verify(token, now, codec).value.credits > 0
  {
  }

  /** Changing an issued token's first part needs the HMAC of the new part. */
  lemma TamperedTokensAreRejected(encoded: string, other: string, now: int, codec: Codec)
    requires forall i :: 0 <= i < |encoded| ==> encoded[i] != '.'
    requires codec.mac(other) != codec.mac(encoded)
    ensures Verify(encoded + "." + B64(codec.mac(other)), now, codec) == Err(BadSignature)
  {
    DotAfterLetters(encoded, B64(codec.mac(other)));
    var t := encoded + "." + B64(codec.mac(other));
    assert t[..|encoded|] == encoded && t[|encoded| + 1..] == B64(codec.mac(other));
    if B64(codec.mac(other)) == B64(codec.mac(encoded)) {
      EncodeIsInjective(codec.mac(other), codec.mac(encoded));
    }
  }
}
