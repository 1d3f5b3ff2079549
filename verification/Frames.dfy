/** WebSocket frames on the wire (section 5.2 of RFC 6455): the unmasked frames the server
    sends, and how a client must read them back. */
module Frames {
  import opened Results
  import opened Bytes

  type Opcode = o: int | 0 <= o < 16

  const TEXT: Opcode := 1
  const BINARY: Opcode := 2
  const CLOSE: Opcode := 8
  const PING: Opcode := 9
  const PONG: Opcode := 10

  datatype Frame = Frame(opcode: Opcode, payload: seq<Byte>)

  /** The length as 7 bits, 7+16 bits or 7+64 bits. The last form holds 32 bits of it. */
  function LengthField(length: nat): seq<Byte> {
    if length < 126 then [length]
    else if length <= 65535 then [126] + BigEndianBytes(length, 2)
    else [127, 0, 0, 0, 0] + BigEndianBytes(length, 4)
  }

  /** FIN set, reserved bits clear, no mask. */
  function Header(f: Frame): seq<Byte> {
    [128 + f.opcode] + LengthField(|f.payload|)
  }

  function Encode(f: Frame): seq<Byte> {
    Header(f) + f.payload
  }

  function Stream(fs: seq<Frame>): seq<Byte> {
    if fs == [] then [] else Stream(fs[..|fs| - 1]) + Encode(fs[|fs| - 1])
  }

  // ----- the receiving side -----

  /** A length field at the start of b: its value and its size in bytes. The mask bit is
      ignored; nothing is returned while bytes are missing. */
  function ReadLength(b: seq<Byte>): (r: Option<(nat, nat)>)
    ensures r.Some? ==> 1 <= r.value.1 <= |b|
  {
    if |b| < 1 then None
    else
      var n := b[0] % 128;
      if n < 126 then Some((n, 1))
      else if n == 126 then (if |b| < 3 then None else Some((BigEndian(b[1..3]), 3)))
      else (if |b| < 9 then None else Some((BigEndian(b[1..9]), 9)))
  }

  /** The RFC asks for the shortest form that fits. */
  predicate IsMinimal(length: nat, size: nat) {
    (size == 1) || (size == 3 && length >= 126) || (size == 9 && length >= 65536)
  }

  /** The first frame of the bytes and how many bytes it takes: a server frame is unmasked and
      final, has clear reserved bits, and its length is in the shortest form. */
  function Decode(b: seq<Byte>): (r: Option<(Frame, nat)>)
    ensures r.Some? ==> 2 <= r.value.1 <= |b|
  {
    if |b| < 2 || b[0] / 16 != 8 || b[1] >= 128 then None
    else
      match ReadLength(b[1..])
      case None => None
      case Some((length, size)) =>
        if !IsMinimal(length, size) || |b| < 1 + size + length then None
        else Some((Frame(b[0] % 16, b[1 + size..1 + size + length]), 1 + size + length))
  }

  function DecodeAll(b: seq<Byte>): Option<seq<Frame>> {
    if b == [] then Some([])
    else
      match Decode(b)
      case None => None
      case Some((f, n)) =>
        match DecodeAll(b[n..])
        case None => None
        case Some(rest) => Some([f] + rest)
  }

  const MAX_LENGTH := 0x1_0000_0000

  lemma ZeroesAreNoValue(tail: seq<Byte>)
    requires |tail| == 4
    ensures BigEndian([0, 0, 0, 0] + tail) == BigEndian(tail)
  {
    var b := [0, 0, 0, 0] + tail;
    BigEndianZero();
    BigEndianTail([0, 0, 0, 0], tail);
  }

  lemma BigEndianZero()
    ensures BigEndian([0, 0, 0, 0]) == 0
  {
    assert [0, 0, 0, 0][..3] == [0, 0, 0] && [0, 0, 0][..2] == [0, 0] && [0, 0][..1] == [0] && [0][..0] == [];
    assert BigEndian([0]) == 0;
    assert BigEndian([0, 0]) == 0;
    assert BigEndian([0, 0, 0]) == 0;
  }

  lemma {:induction false} BigEndianTail(zeroes: seq<Byte>, tail: seq<Byte>)
    requires BigEndian(zeroes) == 0
    ensures BigEndian(zeroes + tail) == BigEndian(tail)
  {
    if tail == [] {
      assert zeroes + tail == zeroes;
    } else {
      assert (zeroes + tail)[..|zeroes + tail| - 1] == zeroes + tail[..|tail| - 1];
      BigEndianTail(zeroes, tail[..|tail| - 1]);
    }
  }

  /** The length field reads back as the length below 2^32, and as something smaller above. */
  lemma ReadLengthOfField(length: nat, rest: seq<Byte>)
    ensures ReadLength(LengthField(length) + rest).Some?
    ensures var (read, size) := ReadLength(LengthField(length) + rest).value;
            && size == |LengthField(length)| && IsMinimal(length, size)
            && (if length < MAX_LENGTH then read == length else read < MAX_LENGTH)
    ensures LengthField(length)[0] < 128
  {
    var b := LengthField(length) + rest;
    assert PowerOf256(2) == 65536 && PowerOf256(4) == MAX_LENGTH;
    if 126 <= length <= 65535 {
      assert b[1..3] == BigEndianBytes(length, 2);
      BigEndianRoundTrip(length, 2);
    } else if length >= 65536 {
      var low := BigEndianBytes(length, 4);
      assert b[1..9] == [0, 0, 0, 0] + low;
      ZeroesAreNoValue(low);
      BigEndianBound(low);
      if length < MAX_LENGTH { BigEndianRoundTrip(length, 4); }
    }
  }

  /** A frame reads back from its bytes, whatever follows them, exactly when its payload is
      shorter than 2^32 bytes. */
  lemma DecodeEncode(f: Frame, rest: seq<Byte>)
    ensures Decode(Encode(f) + rest) == Some((f, |Encode(f)|)) <==> |f.payload| < MAX_LENGTH
  {
    var b := Encode(f) + rest;
    var length := |f.payload|;
    ReadLengthOfField(length, f.payload + rest);
    assert b[1..] == LengthField(length) + (f.payload + rest);
    var size := |LengthField(length)|;
    if length < MAX_LENGTH {
      assert b[1 + size..1 + size + length] == f.payload;
    }
  }

  /** Bytes that read as a frame below 2^32 bytes are the bytes that frame is sent as. */
  lemma EncodeDecode(b: seq<Byte>)
    requires Decode(b).Some? && |Decode(b).value.0.payload| < MAX_LENGTH
    ensures b[..Decode(b).value.1] == Encode(Decode(b).value.0)
  {
    hide BigEndian, ReadLength, LengthField;
    var (f, n) := Decode(b).value;
    var (length, size) := ReadLength(b[1..]).value;
    assert n == 1 + size + length && f.payload == b[1 + size..n];
    FieldOfLength(b[1..], length, size);
    assert b[1..1 + size] == b[1..][..size];
    assert b[..n] == [b[0]] + b[1..1 + size] + b[1 + size..n];
  }

  lemma FieldOfLength(b: seq<Byte>, length: nat, size: nat)
    requires |b| >= 1 && b[0] < 128 && ReadLength(b) == Some((length, size))
    requires IsMinimal(length, size) && length < MAX_LENGTH
    ensures size <= |b| && b[..size] == LengthField(length)
  {
    if size == 3 {
      BigEndianInjective(b[1..3]);
      BigEndianBound(b[1..3]);
      assert PowerOf256(2) == 65536;
      assert b[..3] == [126] + b[1..3];
    } else if size == 9 {
      HighZero(b[1..9]);
      assert b[1..9] == [0, 0, 0, 0] + b[5..9];
      ZeroesAreNoValue(b[5..9]);
      BigEndianInjective(b[5..9]);
      assert b[..9] == [127] + b[1..9];
    }
  }

  lemma HighZero(b: seq<Byte>)
    requires |b| == 8 && BigEndian(b) < MAX_LENGTH
    ensures b[..4] == [0, 0, 0, 0]
  {
    var h := BigEndian(b[..4]);
    assert b[..7][..6] == b[..6] && b[..6][..5] == b[..5] && b[..5][..4] == b[..4];
    assert BigEndian(b[..5]) == 256 * h + b[4];
    assert BigEndian(b[..6]) == 256 * BigEndian(b[..5]) + b[5];
    assert BigEndian(b[..7]) == 256 * BigEndian(b[..6]) + b[6];
    assert BigEndian(b) == 256 * BigEndian(b[..7]) + b[7];
    assert h == 0;
    BigEndianInjective(b[..4]);
    BigEndian4(0);
  }

  lemma {:induction false} StreamAppend(fs: seq<Frame>, gs: seq<Frame>)
    ensures Stream(fs + gs) == Stream(fs) + Stream(gs)
  {
    hide Encode;
    if gs == [] {
      assert fs + gs == fs && Stream(fs) + [] == Stream(fs);
    } else {
      assert (fs + gs)[..|fs + gs| - 1] == fs + gs[..|gs| - 1];
      StreamAppend(fs, gs[..|gs| - 1]);
    }
  }

  predicate AllShort(fs: seq<Frame>) {
    forall i :: 0 <= i < |fs| ==> |fs[i].payload| < MAX_LENGTH
  }

  /** A stream of frames reads back as exactly those frames. */
  lemma {:induction false} DecodeAllStream(fs: seq<Frame>)
    requires AllShort(fs)
    ensures DecodeAll(Stream(fs)) == Some(fs)
  {
    if fs != [] {
      assert fs == [fs[0]] + fs[1..];
      StreamAppend([fs[0]], fs[1..]);
      assert Stream([fs[0]]) == Encode(fs[0]) by {
        assert [fs[0]][..0] == [];
      }
      DecodeEncode(fs[0], Stream(fs[1..]));
      var b := Encode(fs[0]) + Stream(fs[1..]);
      assert b[|Encode(fs[0])|..] == Stream(fs[1..]);
      DecodeAllStream(fs[1..]);
    }
  }

  /** Different frames never make the same stream. */
  lemma StreamIsUnique(fs: seq<Frame>, gs: seq<Frame>)
    requires AllShort(fs) && AllShort(gs) && Stream(fs) == Stream(gs)
    ensures fs == gs
  {
    DecodeAllStream(fs);
    DecodeAllStream(gs);
  }
}
