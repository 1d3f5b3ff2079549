/** Base64 without padding, as in sections 4 and 5 of RFC 4648: the text form of salts, key
    material, nonces and signatures. */
module Base64 {
  import opened Results
  import opened Bytes

  datatype Alphabet = Standard | UrlSafe

  type Sextet = v: int | 0 <= v < 64

  function SextetChar(alphabet: Alphabet, v: Sextet): char {
    if v < 26 then (v + 'A' as int) as char
    else if v < 52 then (v - 26 + 'a' as int) as char
    else if v < 62 then (v - 52 + '0' as int) as char
    else if v == 62 then (if alphabet.Standard? then '+' else '-')
    else (if alphabet.Standard? then '/' else '_')
  }

  function CharSextet(alphabet: Alphabet, c: char): Option<Sextet> {
    if 'A' <= c <= 'Z' then Some(c as int - 'A' as int)
    else if 'a' <= c <= 'z' then Some(c as int - 'a' as int + 26)
    else if '0' <= c <= '9' then Some(c as int - '0' as int + 52)
    else if c == (if alphabet.Standard? then '+' else '-') then Some(62)
    else if c == (if alphabet.Standard? then '/' else '_') then Some(63)
    else None
  }

  lemma CharSextetOfSextet(alphabet: Alphabet, v: Sextet)
    ensures CharSextet(alphabet, SextetChar(alphabet, v)) == Some(v)
  {}

  /** The characters base64 text is made of; every separator used around it is outside. */
  predicate IsBase64Char(c: char) {
    || 'A' <= c <= 'Z' || 'a' <= c <= 'z' || '0' <= c <= '9'
    || c == '+' || c == '/' || c == '-' || c == '_'
  }

  predicate IsBase64Text(s: string) {
    forall i :: 0 <= i < |s| ==> IsBase64Char(s[i])
  }

  // The four sextets of three bytes, and the three bytes of four sextets. A missing byte
  // counts as 0.

  function Sextet1(x: Byte): Sextet { x / 4 }

  function Sextet2(x: Byte, y: Byte): Sextet { x % 4 * 16 + y / 16 }

  function Sextet3(y: Byte, z: Byte): Sextet { y % 16 * 4 + z / 64 }

  function Sextet4(z: Byte): Sextet { z % 64 }

  function Byte1(a: Sextet, b: Sextet): Byte { a * 4 + b / 16 }

  function Byte2(b: Sextet, c: Sextet): Byte { b % 16 * 16 + c / 4 }

  function Byte3(c: Sextet, d: Sextet): Byte { c % 4 * 64 + d }

  lemma BytesOfSextets(x: Byte, y: Byte, z: Byte)
    ensures Byte1(Sextet1(x), Sextet2(x, y)) == x
    ensures Byte2(Sextet2(x, y), Sextet3(y, z)) == y
    ensures Byte3(Sextet3(y, z), Sextet4(z)) == z
  {}

  /** The sextets of the text: four for every three bytes, two or three for what is left. */
  function Pack(b: seq<Byte>): seq<Sextet> {
    if |b| == 0 then []
    else if |b| == 1 then [Sextet1(b[0]), Sextet2(b[0], 0)]
    else if |b| == 2 then [Sextet1(b[0]), Sextet2(b[0], b[1]), Sextet3(b[1], 0)]
    else [Sextet1(b[0]), Sextet2(b[0], b[1]), Sextet3(b[1], b[2]), Sextet4(b[2])] + Pack(b[3..])
  }

  function SextetText(alphabet: Alphabet, v: seq<Sextet>): (s: string)
    ensures |s| == |v|
  {
    seq(|v|, i requires 0 <= i < |v| => SextetChar(alphabet, v[i]))
  }

  function Encode(alphabet: Alphabet, b: seq<Byte>): string {
    SextetText(alphabet, Pack(b))
  }

  function Sextets(alphabet: Alphabet, s: string): (r: Option<seq<Sextet>>)
    ensures r.Some? ==> |r.value| == |s|
  {
    if s == "" then Some([])
    else
      match CharSextet(alphabet, s[0])
      case None => None
      case Some(v) =>
        match Sextets(alphabet, s[1..])
        case None => None
        case Some(rest) => Some([v] + rest)
  }

  /** The bytes of a sequence of sextets; leftover low bits are ignored, as Go's decoder does
      without its strict mode, and a lone trailing sextet is an error. */
  function Unpack(v: seq<Sextet>): Option<seq<Byte>> {
    if |v| == 0 then Some([])
    else if |v| == 1 then None
    else if |v| == 2 then Some([Byte1(v[0], v[1])])
    else if |v| == 3 then Some([Byte1(v[0], v[1]), Byte2(v[1], v[2])])
    else
      match Unpack(v[4..])
      case None => None
      case Some(rest) =>
        Some([Byte1(v[0], v[1]), Byte2(v[1], v[2]), Byte3(v[2], v[3])] + rest)
  }

  /** Go's decoder skips carriage returns and line feeds wherever they stand. */
  function StripNewlines(s: string): string {
    if s == "" then ""
    else if s[0] == '\r' || s[0] == '\n' then StripNewlines(s[1..])
    else [s[0]] + StripNewlines(s[1..])
  }

  function Decode(alphabet: Alphabet, s: string): Option<seq<Byte>> {
    match Sextets(alphabet, StripNewlines(s))
    case None => None
    case Some(v) => Unpack(v)
  }

  lemma {:induction false} StripNewlinesOfBase64(s: string)
    requires IsBase64Text(s)
    ensures StripNewlines(s) == s
  {
    if s != "" {
      assert IsBase64Char(s[0]);
      StripNewlinesOfBase64(s[1..]);
    }
  }

  lemma EncodeIsBase64(alphabet: Alphabet, b: seq<Byte>)
    ensures IsBase64Text(Encode(alphabet, b))
    ensures b != [] ==> Encode(alphabet, b) != ""
  {}

  lemma {:induction false} UnpackPack(b: seq<Byte>)
    ensures Unpack(Pack(b)) == Some(b)
  {
    hide Byte1, Byte2, Byte3, Sextet1, Sextet2, Sextet3, Sextet4;
    if |b| == 1 {
      BytesOfSextets(b[0], 0, 0);
      assert b == [b[0]];
    } else if |b| == 2 {
      BytesOfSextets(b[0], b[1], 0);
      assert b == [b[0], b[1]];
    } else if |b| >= 3 {
      UnpackPack(b[3..]);
      BytesOfSextets(b[0], b[1], b[2]);
      assert Pack(b)[4..] == Pack(b[3..]);
      assert b == [b[0], b[1], b[2]] + b[3..];
    }
  }

  lemma {:induction false} SextetsOfText(alphabet: Alphabet, v: seq<Sextet>)
    ensures Sextets(alphabet, SextetText(alphabet, v)) == Some(v)
  {
    if v != [] {
      CharSextetOfSextet(alphabet, v[0]);
      assert SextetText(alphabet, v)[1..] == SextetText(alphabet, v[1..]);
      SextetsOfText(alphabet, v[1..]);
      assert v == [v[0]] + v[1..];
    }
  }

  /** Decoding what was encoded, in the same alphabet, gives the bytes back. */
  lemma DecodeEncode(alphabet: Alphabet, b: seq<Byte>)
    ensures Decode(alphabet, Encode(alphabet, b)) == Some(b)
  {
    EncodeIsBase64(alphabet, b);
    StripNewlinesOfBase64(Encode(alphabet, b));
    SextetsOfText(alphabet, Pack(b));
    UnpackPack(b);
  }

  /** The two alphabets of RFC 4648. */
  lemma AlphabetMeaning(v: Sextet)
    ensures v < 26 ==> SextetChar(Standard, v) == "ABCDEFGHIJKLMNOPQRSTUVWXYZ"[v]
    ensures 26 <= v < 52 ==> SextetChar(Standard, v) == "abcdefghijklmnopqrstuvwxyz"[v - 26]
    ensures 52 <= v < 62 ==> SextetChar(Standard, v) == "0123456789"[v - 52]
    ensures 62 <= v ==> SextetChar(Standard, v) == "+/"[v - 62] && SextetChar(UrlSafe, v) == "-_"[v - 62]
    ensures v < 62 ==> SextetChar(UrlSafe, v) == SextetChar(Standard, v)
  {}

  /** Three bytes and their four sextets are the same number, in base 256 and in base 64, and they
      come before those of the bytes behind. */
  lemma PackMeaning(x: Byte, y: Byte, z: Byte, rest: seq<Byte>)
    ensures var v := Pack([x, y, z] + rest);
            |v| >= 4 && v[4..] == Pack(rest)
    ensures var v := Pack([x, y, z] + rest);
            var a: int, b: int, c: int, d: int := v[0], v[1], v[2], v[3];
            (x * 256 + y) * 256 + z == ((a * 64 + b) * 64 + c) * 64 + d
  {
    assert ([x, y, z] + rest)[3..] == rest;
  }
}
