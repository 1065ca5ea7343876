/** The four base64 encodings of RFC 4648 (sections 4 and 5, padded or not) as Go decodes them, and the
    chains of decoders the subscription parsers try. */
module Base64 {
  import opened Text

  type Byte = b: nat | b < 256

  type Sextet = v: nat | v < 64

  /** Which alphabet, and whether the text is padded. */
  datatype Encoding = Encoding(url: bool, padded: bool)

  const STD := Encoding(false, true)

  const RAW_STD := Encoding(false, false)

  const URL := Encoding(true, true)

  const RAW_URL := Encoding(true, false)

  // ---------------------------------------------------------------- bits

  function Triple(a: Byte, b: Byte, c: Byte): seq<Sextet> {
    [a / 4, a % 4 * 16 + b / 16, b % 16 * 4 + c / 64, c % 64]
  }

  /** Three bytes and four sextets are the same 24 bits, as RFC 4648 (section 4) groups them. */
  lemma TripleIs(a: Byte, b: Byte, c: Byte)
    ensures var t := Triple(a, b, c);
         var x: int, y: int, z: int, w: int := t[0], t[1], t[2], t[3];
         ((x * 64 + y) * 64 + z) * 64 + w == (a as int * 256 + b) * 256 + c
  {
  }

  function Sextets(bytes: seq<Byte>): seq<Sextet> {
    if |bytes| == 0 then []
    else if |bytes| == 1 then Triple(bytes[0], 0, 0)[..2]
    else if |bytes| == 2 then Triple(bytes[0], bytes[1], 0)[..3]
    else Triple(bytes[0], bytes[1], bytes[2]) + Sextets(bytes[3..])
  }

  /** One or two bytes at the end are followed by zero bits up to the next sextet. */
  lemma LastGroupIs(a: Byte, b: Byte)
    ensures var vs := Sextets([a]);
         |vs| == 2 && vs[0] as int * 64 + vs[1] == a * 16
    ensures var vs := Sextets([a, b]);
         |vs| == 3 && (vs[0] as int * 64 + vs[1]) * 64 + vs[2] == (a as int * 256 + b) * 4
  {
  }

  /** Four for each full group, two or three for what is left. */
  lemma {:induction false} SextetsLength(bytes: seq<Byte>) returns (groups: nat, rest: nat)
    ensures |Sextets(bytes)| == 4 * groups + rest && rest in {0, 2, 3}
    ensures |bytes| > 0 ==> |Sextets(bytes)| > 0
  {
    if |bytes| <= 2 {
      groups, rest := 0, if |bytes| == 0 then 0 else |bytes| + 1;
    } else {
      groups, rest := SextetsLength(bytes[3..]);
      groups := groups + 1;
    }
  }

  function FirstByte(a: Sextet, b: Sextet): Byte {
    a * 4 + b / 16
  }

  function SecondByte(b: Sextet, c: Sextet): Byte {
    b % 16 * 16 + c / 4
  }

  function ThirdByte(c: Sextet, d: Sextet): Byte {
    c % 4 * 64 + d
  }

  /** What is left over in the last group is not looked at. */
  function Bytes(vs: seq<Sextet>): seq<Byte> {
    if |vs| < 2 then []
    else if |vs| == 2 then [FirstByte(vs[0], vs[1])]
    else if |vs| == 3 then [FirstByte(vs[0], vs[1]), SecondByte(vs[1], vs[2])]
    else [FirstByte(vs[0], vs[1]), SecondByte(vs[1], vs[2]), ThirdByte(vs[2], vs[3])] + Bytes(vs[4..])
  }

  lemma TripleBack(a: Byte, b: Byte, c: Byte)
    ensures var t := Triple(a, b, c);
         FirstByte(t[0], t[1]) == a && SecondByte(t[1], t[2]) == b && ThirdByte(t[2], t[3]) == c
  {
  }

  lemma {:induction false} BytesOfSextets(bytes: seq<Byte>)
    ensures Bytes(Sextets(bytes)) == bytes
  {
    if |bytes| == 1 {
      TripleBack(bytes[0], 0, 0);
    } else if |bytes| == 2 {
      TripleBack(bytes[0], bytes[1], 0);
    } else if |bytes| > 2 {
      BytesOfSextets(bytes[3..]);
      TripleBack(bytes[0], bytes[1], bytes[2]);
      assert Sextets(bytes)[4..] == Sextets(bytes[3..]);
      assert bytes == bytes[..3] + bytes[3..];
    }
  }

  // ---------------------------------------------------------------- characters

  function CharOf(url: bool, v: Sextet): char {
    if v < 26 then 'A' + v as char
    else if v < 52 then 'a' + (v - 26) as char
    else if v < 62 then '0' + (v - 52) as char
    else if v == 62 then (if url then '-' else '+')
    else (if url then '_' else '/')
  }

  /** The two alphabets of RFC 4648 (sections 4 and 5), written out. */
  lemma AlphabetIs(url: bool, v: Sextet)
    ensures CharOf(url, v) == ("ABCDEFGHIJKLMNOPQRSTUVWXYZ" + "abcdefghijklmnopqrstuvwxyz" + "0123456789"
                               + if url then "-_" else "+/")[v]
  {
    assert forall i :: 0 <= i < 26 ==> "ABCDEFGHIJKLMNOPQRSTUVWXYZ"[i] == 'A' + i as char;
    assert forall i :: 0 <= i < 26 ==> "abcdefghijklmnopqrstuvwxyz"[i] == 'a' + i as char;
    assert forall i :: 0 <= i < 10 ==> "0123456789"[i] == '0' + i as char;
  }

  predicate InAlphabet(url: bool, c: char) {
    || 'A' <= c <= 'Z' || 'a' <= c <= 'z' || '0' <= c <= '9'
    || (if url then c == '-' || c == '_' else c == '+' || c == '/')
  }

  /** The value of a character in either alphabet. */
  function ValueOf(c: char): Sextet {
    if 'A' <= c <= 'Z' then (c - 'A') as nat
    else if 'a' <= c <= 'z' then (c - 'a') as nat + 26
    else if '0' <= c <= '9' then (c - '0') as nat + 52
    else if c == '-' || c == '+' then 62
    else 63
  }

  lemma ValueOfChar(url: bool, v: Sextet)
    ensures InAlphabet(url, CharOf(url, v)) && ValueOf(CharOf(url, v)) == v
    ensures CharOf(url, v) != '=' && CharOf(url, v) != ':' && !IsSpace(CharOf(url, v))
  {
  }

  function Values(s: string): (vs: seq<Sextet>)
    ensures |vs| == |s|
  {
    if s == [] then [] else [ValueOf(s[0])] + Values(s[1..])
  }

  function CharsOf(url: bool, vs: seq<Sextet>): (s: string)
    ensures |s| == |vs|
  {
    if vs == [] then [] else [CharOf(url, vs[0])] + CharsOf(url, vs[1..])
  }

  lemma {:induction false} ValuesOfChars(url: bool, vs: seq<Sextet>)
    ensures Values(CharsOf(url, vs)) == vs
    ensures forall c :: c in CharsOf(url, vs) ==> InAlphabet(url, c) && c != '=' && c != ':' && !IsSpace(c)
  {
    if vs != [] {
      ValueOfChar(url, vs[0]);
      ValuesOfChars(url, vs[1..]);
    }
  }

  // ---------------------------------------------------------------- encoding and decoding

  function Padding(n: nat): string {
    if n % 4 == 2 then "==" else if n % 4 == 3 then "=" else ""
  }

  function Encode(e: Encoding, bytes: seq<Byte>): string {
    var vs := Sextets(bytes);
    CharsOf(e.url, vs) + if e.padded then Padding(|vs|) else ""
  }

  /** Line breaks are skipped wherever they are. */
  function Unwrapped(s: string): string {
    if s == [] then [] else (if s[0] == '\r' || s[0] == '\n' then [] else [s[0]]) + Unwrapped(s[1..])
  }

  /** How many characters come before the first one that is not of the alphabet. */
  function BodyLength(url: bool, s: string): (n: nat)
    ensures n <= |s|
    ensures n < |s| ==> !InAlphabet(url, s[n])
  {
    if s != [] && InAlphabet(url, s[0]) then 1 + BodyLength(url, s[1..]) else 0
  }

  /** `DecodeString`: the alphabet, then exactly the padding the encoding asks for. */
  function Decode(e: Encoding, text: string): Option<seq<Byte>> {
    var s := Unwrapped(text);
    var n := BodyLength(e.url, s);
    if n % 4 == 1 || s[n..] != (if e.padded then Padding(n) else "") then None
    else Some(Bytes(Values(s[..n])))
  }

  lemma {:induction false} NothingToUnwrap(s: string)
    requires forall c :: c in s ==> !IsSpace(c)
    ensures Unwrapped(s) == s
  {
    if s != [] {
      assert s[0] in s;
      NothingToUnwrap(s[1..]);
    }
  }

  lemma {:induction false} BodyOfJoined(url: bool, body: string, tail: string)
    requires forall c :: c in body ==> InAlphabet(url, c)
    requires tail == "" || !InAlphabet(url, tail[0])
    ensures BodyLength(url, body + tail) == |body|
  {
    if body == [] {
      assert body + tail == tail;
    } else {
      assert body[0] in body;
      assert (body + tail)[1..] == body[1..] + tail;
      BodyOfJoined(url, body[1..], tail);
    }
  }

  lemma EncodedChars(e: Encoding, bytes: seq<Byte>)
    ensures forall c :: c in Encode(e, bytes) ==> !IsSpace(c) && c != ':'
  {
    ValuesOfChars(e.url, Sextets(bytes));
  }

  /** Every encoding is undone by its own decoder. */
  lemma DecodeEncode(e: Encoding, bytes: seq<Byte>)
    ensures Decode(e, Encode(e, bytes)) == Some(bytes)
  {
    var vs := Sextets(bytes);
    var body, tail := CharsOf(e.url, vs), if e.padded then Padding(|vs|) else "";
    var groups, rest := SextetsLength(bytes);
    assert |vs| % 4 == rest;
    ValuesOfChars(e.url, vs);
    EncodedChars(e, bytes);
    NothingToUnwrap(body + tail);
    BodyOfJoined(e.url, body, tail);
    assert (body + tail)[..|body|] == body && (body + tail)[|body|..] == tail;
    BytesOfSextets(bytes);
  }

  // ---------------------------------------------------------------- chains of decoders

  /** `padBase64` */
  function Padded(s: string): string {
    if |s| % 4 == 0 then s else s + Equals(4 - |s| % 4)
  }

  function Equals(n: nat): string {
    if n == 0 then "" else "=" + Equals(n - 1)
  }

  /** The text before the first padding character, decoded with either alphabet. */
  function Loose(text: string): seq<Byte> {
    var s := Unwrapped(text);
    Bytes(Values(s[..BeforeEquals(s)]))
  }

  function BeforeEquals(s: string): (n: nat)
    ensures n <= |s|
  {
    if s == [] || s[0] == '=' then 0 else 1 + BeforeEquals(s[1..])
  }

  lemma {:induction false} BeforeEqualsIs(body: string, tail: string)
    requires '=' !in body && (tail == "" || tail[0] == '=')
    ensures BeforeEquals(body + tail) == |body|
  {
    if body == [] {
      assert body + tail == tail;
    } else {
      assert (body + tail)[1..] == body[1..] + tail;
      BeforeEqualsIs(body[1..], tail);
    }
  }

  lemma {:induction false} BodyHoldsNoEquals(url: bool, s: string)
    ensures '=' !in s[..BodyLength(url, s)]
  {
    if s != [] && InAlphabet(url, s[0]) {
      BodyHoldsNoEquals(url, s[1..]);
      var n := BodyLength(url, s[1..]);
      assert s[..n + 1] == [s[0]] + s[1..][..n];
    }
  }

  /** Whichever decoder accepts a text, it reads the same bytes. */
  lemma DecodeIsLoose(e: Encoding, text: string)
    requires Decode(e, text).Some?
    ensures Decode(e, text).value == Loose(text)
  {
    var s := Unwrapped(text);
    var n := BodyLength(e.url, s);
    BodyHoldsNoEquals(e.url, s);
    assert s == s[..n] + s[n..];
    BeforeEqualsIs(s[..n], s[n..]);
  }

  lemma {:induction false} UnwrappedJoined(s: string, n: nat)
    ensures Unwrapped(s + Equals(n)) == Unwrapped(s) + Equals(n)
  {
    if s == [] {
      assert s + Equals(n) == Equals(n);
      EqualsUnwrapped(n);
    } else {
      assert (s + Equals(n))[1..] == s[1..] + Equals(n);
      UnwrappedJoined(s[1..], n);
    }
  }

  lemma {:induction false} EqualsUnwrapped(n: nat)
    ensures Unwrapped(Equals(n)) == Equals(n)
  {
    if n > 0 {
      assert Equals(n)[1..] == Equals(n - 1);
      EqualsUnwrapped(n - 1);
    }
  }

  lemma {:induction false} EqualsAfter(s: string, n: nat)
    ensures BeforeEquals(s + Equals(n)) == BeforeEquals(s)
  {
    if s == [] {
      assert s + Equals(n) == Equals(n);
    } else {
      assert (s + Equals(n))[1..] == s[1..] + Equals(n);
      EqualsAfter(s[1..], n);
    }
  }

  /** Padding a text does not change what it reads as. */
  lemma LooseOfPadded(text: string)
    ensures Loose(Padded(text)) == Loose(text)
  {
    if |text| % 4 != 0 {
      var n := 4 - |text| % 4;
      UnwrappedJoined(text, n);
      EqualsAfter(Unwrapped(text), n);
      var s := Unwrapped(text);
      assert (s + Equals(n))[..BeforeEquals(s)] == s[..BeforeEquals(s)];
    }
  }

  /** The first of two decoders that accepts. */
  function OrElse(first: Option<seq<Byte>>, second: Option<seq<Byte>>): Option<seq<Byte>> {
    if first.Some? then first else second
  }

  /** `decodeBase64Text` */
  function DecodeText(text: string): Option<seq<Byte>> {
    var t := TrimSpace(text);
    OrElse(Decode(RAW_URL, t), OrElse(Decode(URL, Padded(t)), OrElse(Decode(RAW_STD, t), Decode(STD, Padded(t)))))
  }

  /** An encoded text after `padBase64` is the padded encoding. */
  lemma PaddedEncoding(e: Encoding, bytes: seq<Byte>)
    ensures Padded(Encode(e, bytes)) == Encode(e.(padded := true), bytes)
  {
    var groups, rest := SextetsLength(bytes);
    PaddedBody(CharsOf(e.url, Sextets(bytes)), groups, rest);
  }

  lemma PaddedBody(body: string, groups: nat, rest: nat)
    requires |body| == 4 * groups + rest && rest in {0, 2, 3}
    ensures Padded(body) == body + Padding(|body|) && Padded(body + Padding(|body|)) == body + Padding(|body|)
  {
    assert |body| % 4 == rest;
    assert Equals(1) == "=" && Equals(2) == "==" by {
      assert Equals(0) == "";
    }
    assert |body + Padding(|body|)| == 4 * (groups + if rest == 0 then 0 else 1);
    if rest == 0 { assert body + Padding(|body|) == body; }
  }

  /** Whatever the chain returns for a text, it is what the text reads as. */
  lemma TextIsLoose(text: string)
    ensures DecodeText(text).Some? ==> DecodeText(text).value == Loose(TrimSpace(text))
  {
    var t := TrimSpace(text);
    LooseOfPadded(t);
    if Decode(RAW_URL, t).Some? { DecodeIsLoose(RAW_URL, t); }
    if Decode(URL, Padded(t)).Some? { DecodeIsLoose(URL, Padded(t)); }
    if Decode(RAW_STD, t).Some? { DecodeIsLoose(RAW_STD, t); }
    if Decode(STD, Padded(t)).Some? { DecodeIsLoose(STD, Padded(t)); }
  }

  /** Some decoder of the chain accepts: the padded one of the alphabet the text was written in. */
  lemma SomeDecoderAccepts(e: Encoding, bytes: seq<Byte>)
    ensures var t := Encode(e, bytes); Decode(e.(padded := true), Padded(t)) == Some(bytes)
  {
    PaddedEncoding(e, bytes);
    DecodeEncode(e.(padded := true), bytes);
  }

  /** Under all four encodings, padded or not, with white space around the text or not, the chain gives
      back the bytes, whichever of its decoders accepts first. */
  lemma DecodeTextInverts(e: Encoding, bytes: seq<Byte>, text: string)
    requires TrimSpace(text) == Encode(e, bytes)
    ensures DecodeText(text) == Some(bytes)
  {
    var t := Encode(e, bytes);
    SomeDecoderAccepts(e, bytes);
    DecodeIsLoose(e.(padded := true), Padded(t));
    LooseOfPadded(t);
    TextIsLoose(text);
    assert e.(padded := true) == if e.url then URL else STD;
  }

  // ---------------------------------------------------------------- lines of a subscription

  /** Bytes as the characters of a text. */
  function Characters(bytes: seq<Byte>): (s: string)
    ensures |s| == |bytes|
  {
    seq(|bytes|, i requires 0 <= i < |bytes| => bytes[i] as char)
  }

  function ShadowrocketChain(t: string): Option<seq<Byte>> {
    OrElse(Decode(STD, Padded(t)), OrElse(Decode(RAW_STD, t), Decode(URL, Padded(t))))
  }

  /** `decodeShadowrocketLine`: links as they are, anything else decoded and trimmed. */
  function ShadowrocketLine(line: string): Option<string> {
    var t := TrimSpace(line);
    if t == "" then None
    else if Contains(t, "://") then Some(t)
    else match ShadowrocketChain(t)
      case None => None
      case Some(bytes) => Some(TrimSpace(Characters(bytes)))
  }

  /** A line that is a link is kept as it is, but for white space around it. */
  lemma ShadowrocketKeepsLinks(line: string)
    requires Contains(TrimSpace(line), "://")
    ensures ShadowrocketLine(line) == Some(TrimSpace(line))
  {
    assert |TrimSpace(line)| >= |"://"|;
  }

  lemma ChainInverts(e: Encoding, bytes: seq<Byte>)
    ensures ShadowrocketChain(Encode(e, bytes)) == Some(bytes)
  {
    var t := Encode(e, bytes);
    SomeDecoderAccepts(e, bytes);
    LooseOfPadded(t);
    DecodeIsLoose(e.(padded := true), Padded(t));
    if Decode(STD, Padded(t)).Some? { DecodeIsLoose(STD, Padded(t)); }
    if Decode(RAW_STD, t).Some? { DecodeIsLoose(RAW_STD, t); }
    assert e.(padded := true) == if e.url then URL else STD;
  }

  /** No encoded text is taken for a link. */
  lemma EncodedIsNoLink(e: Encoding, bytes: seq<Byte>)
    ensures !Contains(Encode(e, bytes), "://")
  {
    var t := Encode(e, bytes);
    EncodedChars(e, bytes);
    LinksHoldColons(t);
  }

  lemma LinksHoldColons(t: string)
    ensures Contains(t, "://") ==> ':' in t
  {
    var i := Index(t, "://");
    if i != -1 {
      assert t[i] == t[i..i + 3][0];
    }
  }

  lemma EncodedLength(e: Encoding, bytes: seq<Byte>)
    ensures Encode(e, bytes) == "" <==> bytes == []
  {
    var _, _ := SextetsLength(bytes);
  }

  /** An encoded line is given back, trimmed, unless it is empty. */
  lemma ShadowrocketLineInverts(e: Encoding, bytes: seq<Byte>, line: string)
    requires TrimSpace(line) == Encode(e, bytes)
    ensures ShadowrocketLine(line) == if bytes == [] then None else Some(TrimSpace(Characters(bytes)))
  {
    EncodedIsNoLink(e, bytes);
    EncodedLength(e, bytes);
    ChainInverts(e, bytes);
  }
}
