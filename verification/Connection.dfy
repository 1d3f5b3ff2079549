/** One upgraded connection: the frame writer, and the loop that reads the browser's frames
    (sections 5.2, 5.3 and 5.5 of RFC 6455). */
module Connection {
  import opened Results
  import opened Bytes
  import opened Frames

  // ----- writing -----

  /** What one call of Write on the connection did: all of it, or an error after n bytes. */
  datatype WriteResult = Complete | Partial(n: nat)

  /** The bytes written so far, and what the next writes will do; complete when none is left. */
  datatype Pipe = Pipe(sent: seq<Byte>, plan: seq<WriteResult>)

  /** One Write. */
  function Push(p: Pipe, data: seq<Byte>): (Pipe, bool) {
    if p.plan == [] then (p.(sent := p.sent + data), true)
    else if p.plan[0].Complete? then (Pipe(p.sent + data, p.plan[1..]), true)
    else
      var n := if p.plan[0].n < |data| then p.plan[0].n else |data|;
      (Pipe(p.sent + data[..n], p.plan[1..]), false)
  }

  /** A frame goes out as two writes; a failed header keeps the payload back. */
  function PushFrame(p: Pipe, f: Frame): (Pipe, bool) {
    var (afterHeader, ok) := Push(p, Header(f));
    if !ok then (afterHeader, false) else Push(afterHeader, f.payload)
  }

  /** A frame reported as written is in the stream whole, right behind what was there. */
  lemma PushFrameWhole(p: Pipe, f: Frame)
    ensures PushFrame(p, f).1 ==> PushFrame(p, f).0.sent == p.sent + Encode(f)
    ensures p.plan == [] ==> PushFrame(p, f) == (Pipe(p.sent + Encode(f), []), true)
    ensures p.sent <= PushFrame(p, f).0.sent <= p.sent + Encode(f)
  {
    assert p.sent + Header(f) + f.payload == p.sent + Encode(f);
  }

  // ----- reading -----

  const MAX_CLIENT_PAYLOAD := 4096

  datatype ReadError = EndOfStream | Fragmented | NotMasked | TooLarge

  /** Exclusive or with the four mask bytes in turn. */
  function Masked(payload: seq<Byte>, mask: seq<Byte>): (r: seq<Byte>)
    requires |mask| == 4
    ensures |r| == |payload|
    ensures forall i :: 0 <= i < |payload| ==> r[i] == Xor(payload[i], mask[i % 4])
  {
    seq(|payload|, i requires 0 <= i < |payload| => Xor(payload[i], mask[i % 4]))
  }

  lemma MaskedTwice(payload: seq<Byte>, mask: seq<Byte>)
    requires |mask| == 4
    ensures Masked(Masked(payload, mask), mask) == payload
  {
    forall i | 0 <= i < |payload| ensures Masked(Masked(payload, mask), mask)[i] == payload[i] {
      XorTwice(payload[i], mask[i % 4]);
    }
  }

  /** What one pass of the loop takes from the stream: the frame, unmasked, and its size. */
  function ReadFrame(b: seq<Byte>): (r: Result<(Frame, nat), ReadError>)
    ensures r.Ok? ==> 2 <= r.value.1 <= |b|
  {
    if |b| < 2 then Err(EndOfStream)
    else if b[0] < 128 then Err(Fragmented)
    else if b[1] < 128 then Err(NotMasked)
    else
      match ReadLength(b[1..])
      case None => Err(EndOfStream)
      case Some((length, size)) =>
        if length > MAX_CLIENT_PAYLOAD then Err(TooLarge)
        else if |b| < 1 + size + 4 + length then Err(EndOfStream)
        else
          var at := 1 + size + 4;
          Ok((Frame(b[0] % 16, Masked(b[at..at + length], b[1 + size..at])), at + length))
  }

  datatype LoopEnd =
    | ClosedByPeer
    | ReadFailed(error: ReadError)
    | WriteFailed
    | UnsupportedOpcode

  function Later(n: nat, r: (Pipe, LoopEnd, nat)): (Pipe, LoopEnd, nat) {
    (r.0, r.1, n + r.2)
  }

  /** The whole loop: the pipe afterwards, why it ended, and how many bytes of whole frames
      it took from the stream. */
  function Serve(b: seq<Byte>, p: Pipe): (Pipe, LoopEnd, nat)
    decreases |b|
  {
    match ReadFrame(b)
    case Err(e) => (p, ReadFailed(e), 0)
    case Ok((f, n)) =>
      if f.opcode == CLOSE then (PushFrame(p, f).0, ClosedByPeer, n)
      else if f.opcode == PING then
        var (pipe, ok) := PushFrame(p, Frame(PONG, f.payload));
        if !ok then (pipe, WriteFailed, n) else Later(n, Serve(b[n..], pipe))
      else if f.opcode == PONG || f.opcode == TEXT || f.opcode == BINARY then Later(n, Serve(b[n..], p))
      else (p, UnsupportedOpcode, n)
  }

  class WsClient {
    /** The bytes the browser will have sent by the end of the connection. */
    const input: seq<Byte>
    var position: nat
    var pipe: Pipe
    /** How often the hub closed the connection. */
    var closes: nat

    constructor (input: seq<Byte>, plan: seq<WriteResult>)
      ensures this.input == input && position == 0 && pipe == Pipe([], plan) && closes == 0
    {
      this.input := input;
      position := 0;
      pipe := Pipe([], plan);
      closes := 0;
    }

    method Write(data: seq<Byte>) returns (ok: bool)
      modifies this`pipe
      ensures (pipe, ok) == Push(old(pipe), data)
    {
      if pipe.plan == [] {
        pipe := Pipe(pipe.sent + data, []);
        return true;
      }
      var outcome := pipe.plan[0];
      pipe := pipe.(plan := pipe.plan[1..]);
      if outcome.Complete? {
        pipe := pipe.(sent := pipe.sent + data);
        return true;
      }
      pipe := pipe.(sent := pipe.sent + data[..if outcome.n < |data| then outcome.n else |data|]);
      return false;
    }

    method WriteFrame(opcode: Opcode, payload: seq<Byte>) returns (ok: bool)
      modifies this`pipe
      ensures (pipe, ok) == PushFrame(old(pipe), Frame(opcode, payload))
    {
      var header: seq<Byte> := [128 + opcode];
      var length := |payload|;
      if length < 126 {
        header := header + [length];
      } else if length <= 65535 {
        header := header + [126, length / 0x100 % 256, length % 256];
        BigEndian2(length);
        assert header == Header(Frame(opcode, payload));
      } else {
        header := header + [127, 0, 0, 0, 0, length / 0x100_0000 % 256, length / 0x1_0000 % 256,
                            length / 0x100 % 256, length % 256];
        BigEndian4(length);
        assert header == Header(Frame(opcode, payload));
      }
      ok := Write(header);
      if ok {
        ok := Write(payload);
      }
    }

    /** io.ReadFull: the next n bytes, or an error that leaves the stream at its end. */
    method ReadFull(n: nat) returns (r: Option<seq<Byte>>)
      requires position <= |input|
      modifies this`position
      ensures old(position) <= position <= |input|
      ensures r.Some? <==> old(position) + n <= |input|
      ensures r.Some? ==> position == old(position) + n && r.value == input[old(position)..position]
    {
      if position + n > |input| {
        position := |input|;
        return None;
      }
      r := Some(input[position..position + n]);
      position := position + n;
    }

    /** The length announced by the second byte, with the bytes of its longer forms. */
    method LengthAfter(second: Byte) returns (r: Option<nat>)
      requires position <= |input|
      modifies this`position
      ensures old(position) <= position <= |input|
      ensures match ReadLength([second] + old(input[position..]))
              case None => r == None
              case Some((length, size)) => r == Some(length) && position == old(position) + size - 1
    {
      ghost var rest := [second] + input[position..];
      var length: nat := second % 128;
      if length == 126 {
        var field := ReadFull(2);
        if field.None? { return None; }
        length := BigEndian(field.value);
        assert field.value == rest[1..3];
      } else if length == 127 {
        var field := ReadFull(8);
        if field.None? { return None; }
        length := BigEndian(field.value);
        assert field.value == rest[1..9];
      }
      return Some(length);
    }

    /** The mask and the payload, unmasked in place. */
    method UnmaskedPayload(length: nat) returns (r: Option<seq<Byte>>)
      requires position <= |input|
      modifies this`position
      ensures old(position) <= position <= |input|
      ensures var rest := old(input[position..]);
              if |rest| < 4 + length then r == None
              else r == Some(Masked(rest[4..4 + length], rest[..4])) && position == old(position) + 4 + length
    {
      ghost var rest := input[position..];
      var mask := ReadFull(4);
      if mask.None? { return None; }
      var read := ReadFull(length);
      if read.None? { return None; }
      var payload: array<Byte> := new Byte[length](i requires 0 <= i < |read.value| => read.value[i]);
      assert payload[..] == read.value;
      Unmask(payload, mask.value);
      assert mask.value == rest[..4] && read.value == rest[4..4 + length];
      return Some(payload[..]);
    }

    /** The part of a pass that takes a frame off the stream. */
    method NextFrame() returns (r: Result<Frame, ReadError>)
      requires position <= |input|
      modifies this`position
      ensures old(position) <= position <= |input|
      ensures match ReadFrame(old(input[position..]))
              case Err(e) => r == Err(e)
              case Ok((f, n)) => r == Ok(f) && position == old(position) + n
    {
      hide Masked, ReadLength;
      ghost var rest := input[position..];
      var one := ReadFull(1);
      if one.None? { return Err(EndOfStream); }
      var two := ReadFull(1);
      if two.None? { return Err(EndOfStream); }
      var first, second := one.value[0], two.value[0];
      if first < 128 { return Err(Fragmented); }
      var opcode: Opcode := first % 16;
      if second < 128 { return Err(NotMasked); }
      assert [second] + input[position..] == rest[1..];
      var length := LengthAfter(second);
      if length.None? { return Err(EndOfStream); }
      ghost var size := ReadLength(rest[1..]).value.1;
      assert input[position..] == rest[1 + size..];
      if length.value > MAX_CLIENT_PAYLOAD { return Err(TooLarge); }
      var payload := UnmaskedPayload(length.value);
      if payload.None? { return Err(EndOfStream); }
      assert rest[1 + size..][..4] == rest[1 + size..1 + size + 4];
      assert rest[1 + size..][4..4 + length.value] == rest[1 + size + 4..1 + size + 4 + length.value];
      return Ok(Frame(opcode, payload.value));
    }

    method ReadLoop() returns (end: LoopEnd)
      requires position <= |input|
      modifies this`position, this`pipe
      ensures position <= |input|
      ensures var (final, stop, taken) := Serve(old(input[position..]), old(pipe));
              pipe == final && end == stop && (!end.ReadFailed? ==> position == old(position) + taken)
    {
      hide ReadFrame, PushFrame;
      ghost var taken: nat := 0;
      while true
        invariant position <= |input| && position == old(position) + taken
        invariant Serve(old(input[position..]), old(pipe)) == Later(taken, Serve(input[position..], pipe))
        decreases |input| - position
      {
        ghost var rest := input[position..];
        var frame := NextFrame();
        if frame.Err? { return ReadFailed(frame.error); }
        ghost var n := ReadFrame(rest).value.1;
        assert rest[n..] == input[position..];
        taken := taken + n;
        var opcode, payload := frame.value.opcode, frame.value.payload;
        if opcode == CLOSE {
          var _ := WriteFrame(CLOSE, payload);
          return ClosedByPeer;
        } else if opcode == PING {
          var ok := WriteFrame(PONG, payload);
          if !ok { return WriteFailed; }
        } else if opcode != PONG && opcode != TEXT && opcode != BINARY {
          return UnsupportedOpcode;
        }
      }
    }
  }

  /** payload[i] ^= mask[i%4] for every i. */
  method Unmask(payload: array<Byte>, mask: seq<Byte>)
    requires |mask| == 4
    modifies payload
    ensures payload[..] == Masked(old(payload[..]), mask)
  {
    for i := 0 to payload.Length
      invariant forall k :: 0 <= k < i ==> payload[k] == Xor(old(payload[k]), mask[k % 4])
      invariant forall k :: i <= k < payload.Length ==> payload[k] == old(payload[k])
    {
      payload[i] := Xor(payload[i], mask[i % 4]);
    }
  }

  // ----- the browser's frames -----

  datatype LengthForm = Short | Medium | Long

  /** A frame as a browser sends it: final, masked, with its length in any form that fits. */
  datatype ClientFrame = ClientFrame(frame: Frame, mask: seq<Byte>, form: LengthForm) {
    predicate Valid() {
      && |mask| == 4
      && |frame.payload| <= MAX_CLIENT_PAYLOAD
      && (form.Short? ==> |frame.payload| < 126)
      && frame.opcode in {TEXT, BINARY, CLOSE, PING, PONG}
    }

    function Length(): seq<Byte>
      requires Valid()
    {
      match form
      case Short => [128 + |frame.payload|]
      case Medium => [128 + 126] + BigEndianBytes(|frame.payload|, 2)
      case Long => [128 + 127] + BigEndianBytes(|frame.payload|, 8)
    }

    function Wire(): seq<Byte>
      requires Valid()
    {
      [128 + frame.opcode] + Length() + mask + Masked(frame.payload, mask)
    }
  }

  predicate AllValid(fs: seq<ClientFrame>) {
    forall i :: 0 <= i < |fs| ==> fs[i].Valid()
  }

  function ClientStream(fs: seq<ClientFrame>): seq<Byte>
    requires AllValid(fs)
  {
    if fs == [] then [] else fs[0].Wire() + ClientStream(fs[1..])
  }

  lemma ReadLengthOfForm(f: ClientFrame, rest: seq<Byte>)
    requires f.Valid()
    ensures ReadLength(f.Length() + rest) == Some((|f.frame.payload|, |f.Length()|))
    ensures f.Length()[0] >= 128
  {
    hide BigEndianBytes, BigEndian, PowerOf256;
    var b, length := f.Length() + rest, |f.frame.payload|;
    match f.form {
      case Short =>
      case Medium =>
        assert b[1..3] == BigEndianBytes(length, 2);
        LengthFits(length, 2);
      case Long =>
        assert b[1..9] == BigEndianBytes(length, 8);
        LengthFits(length, 8);
    }
  }

  lemma LengthFits(length: nat, size: nat)
    requires length < 65536 && size >= 2
    ensures BigEndian(BigEndianBytes(length, size)) == length
  {
    assert PowerOf256(2) == 65536;
    PowersGrow(2, size);
    BigEndianRoundTrip(length, size);
  }

  lemma {:induction false} PowersGrow(a: nat, b: nat)
    requires a <= b
    ensures PowerOf256(a) <= PowerOf256(b)
  {
    if a < b { PowersGrow(a, b - 1); }
  }

  /** One pass of the loop takes exactly one frame, in each of the three length forms, and
      sees the payload the browser masked. */
  lemma ReadFrameOfWire(f: ClientFrame, rest: seq<Byte>)
    requires f.Valid()
    ensures ReadFrame(f.Wire() + rest) == Ok((f.frame, |f.Wire()|))
  {
    hide Masked, BigEndian, BigEndianBytes, ReadLength, ClientFrame.Length;
    var masked := Masked(f.frame.payload, f.mask);
    ReadLengthOfForm(f, f.mask + masked + rest);
    WireParts(128 + f.frame.opcode, f.Length(), f.mask, masked, rest);
    MaskedTwice(f.frame.payload, f.mask);
  }

  lemma WireParts(first: Byte, length: seq<Byte>, mask: seq<Byte>, masked: seq<Byte>, rest: seq<Byte>)
    requires length != []
    ensures var b := [first] + length + mask + masked + rest;
            var at := 1 + |length| + |mask|;
            && b[0] == first && b[1] == length[0]
            && b[1..] == length + (mask + masked + rest)
            && b[1 + |length|..at] == mask
            && b[at..at + |masked|] == masked
  {}

  /** The replies owed: a pong for every ping, in order, up to the first close, and its echo. */
  function Replies(fs: seq<ClientFrame>): seq<Frame> {
    if fs == [] then []
    else if fs[0].frame.opcode == CLOSE then [fs[0].frame]
    else if fs[0].frame.opcode == PING then [Frame(PONG, fs[0].frame.payload)] + Replies(fs[1..])
    else Replies(fs[1..])
  }

  predicate HasClose(fs: seq<ClientFrame>) {
    exists i :: 0 <= i < |fs| && fs[i].frame.opcode == CLOSE
  }

  /** The frames up to and including the first close. */
  function UpToClose(fs: seq<ClientFrame>): (r: seq<ClientFrame>)
    ensures AllValid(fs) ==> AllValid(r)
  {
    if fs == [] then []
    else if fs[0].frame.opcode == CLOSE then [fs[0]]
    else [fs[0]] + UpToClose(fs[1..])
  }

  lemma StreamCons(f: Frame, fs: seq<Frame>)
    ensures Stream([f] + fs) == Encode(f) + Stream(fs)
  {
    StreamAppend([f], fs);
    assert [f][..0] == [];
    assert Stream([f]) == Encode(f);
  }

  /** One pass of the loop over one frame, with successful writes. */
  lemma ServeStep(f: ClientFrame, rest: seq<Byte>, p: Pipe)
    requires f.Valid() && p.plan == []
    ensures Serve(f.Wire() + rest, p) ==
            if f.frame.opcode == CLOSE then (Pipe(p.sent + Encode(f.frame), []), ClosedByPeer, |f.Wire()|)
            else if f.frame.opcode == PING then
              Later(|f.Wire()|, Serve(rest, Pipe(p.sent + Encode(Frame(PONG, f.frame.payload)), [])))
            else Later(|f.Wire()|, Serve(rest, p))
  {
    hide ReadFrame, PushFrame, Encode, ClientFrame.Wire;
    var b := f.Wire() + rest;
    ReadFrameOfWire(f, rest);
    assert b[|f.Wire()|..] == rest;
    PushFrameWhole(p, f.frame);
    PushFrameWhole(p, Frame(PONG, f.frame.payload));
  }

  lemma ClientStreamCons(f: ClientFrame, fs: seq<ClientFrame>)
    requires f.Valid() && AllValid(fs)
    ensures AllValid([f] + fs)
    ensures ClientStream([f] + fs) == f.Wire() + ClientStream(fs)
  {
    assert ([f] + fs)[1..] == fs;
  }

  /** With successful writes, the loop answers any sequence of browser frames with exactly the
      replies owed, takes exactly the frames up to the first close, and ends there, or at the
      end of the stream when there is none. Bytes behind a close are never looked at. */
  lemma {:induction false} ServeReplies(fs: seq<ClientFrame>, tail: seq<Byte>, p: Pipe)
    requires AllValid(fs) && p.plan == []
    requires !HasClose(fs) ==> tail == []
    ensures Serve(ClientStream(fs) + tail, p) ==
            (Pipe(p.sent + Stream(Replies(fs)), []),
             if HasClose(fs) then ClosedByPeer else ReadFailed(EndOfStream),
             |ClientStream(UpToClose(fs))|)
  {
    hide Serve, Stream, Encode, ClientFrame.Wire;
    if fs == [] {
      EmptyStream(p);
    } else {
      var f, rest := fs[0], ClientStream(fs[1..]) + tail;
      assert fs == [f] + fs[1..];
      ClientStreamCons(f, fs[1..]);
      assert ClientStream(fs) + tail == f.Wire() + rest;
      ServeStep(f, rest, p);
      assert HasClose(fs) <==> f.frame.opcode == CLOSE || HasClose(fs[1..]);
      if f.frame.opcode == CLOSE {
        OneFrame(f.frame);
        ClientStreamCons(f, []);
        assert [f] + [] == [f];
      } else {
        ClientStreamCons(f, UpToClose(fs[1..]));
        if f.frame.opcode == PING {
          var pong := Frame(PONG, f.frame.payload);
          ServeReplies(fs[1..], tail, Pipe(p.sent + Encode(pong), []));
          StreamCons(pong, Replies(fs[1..]));
          assert p.sent + Encode(pong) + Stream(Replies(fs[1..])) == p.sent + Stream(Replies(fs));
        } else {
          ServeReplies(fs[1..], tail, p);
        }
      }
    }
  }

  lemma EmptyStream(p: Pipe)
    requires p.plan == []
    ensures Serve([] + [], p) == (Pipe(p.sent + Stream([]), []), ReadFailed(EndOfStream), 0)
  {
    assert p.sent + [] == p.sent;
  }

  lemma OneFrame(f: Frame)
    ensures Stream([f]) == Encode(f)
  {
    assert [f][..0] == [];
  }

  /** The browser reads the replies back as the frames they are. */
  lemma RepliesReadBack(fs: seq<ClientFrame>, tail: seq<Byte>)
    requires AllValid(fs) && (!HasClose(fs) ==> tail == [])
    ensures DecodeAll(Serve(ClientStream(fs) + tail, Pipe([], [])).0.sent) == Some(Replies(fs))
  {
    ServeReplies(fs, tail, Pipe([], []));
    RepliesAreShort(fs);
    DecodeAllStream(Replies(fs));
    assert [] + Stream(Replies(fs)) == Stream(Replies(fs));
  }

  lemma {:induction false} RepliesAreShort(fs: seq<ClientFrame>)
    requires AllValid(fs)
    ensures AllShort(Replies(fs))
  {
    if fs != [] { RepliesAreShort(fs[1..]); }
  }

  // ----- the control limit -----

  /** Section 5.5 of RFC 6455: the payload of a control frame. */
  const MAX_CONTROL_PAYLOAD := 125

  predicate IsAnswered(f: ClientFrame) {
    f.frame.opcode == PING || f.frame.opcode == CLOSE
  }

  ghost predicate RepliesKeepLimit(fs: seq<ClientFrame>) {
    forall i :: 0 <= i < |Replies(fs)| ==> |Replies(fs)[i].payload| <= MAX_CONTROL_PAYLOAD
  }

  ghost predicate AnsweredKeepLimit(fs: seq<ClientFrame>) {
    forall i :: 0 <= i < |UpToClose(fs)| && IsAnswered(UpToClose(fs)[i]) ==>
      |UpToClose(fs)[i].frame.payload| <= MAX_CONTROL_PAYLOAD
  }

  /** The replies keep to it exactly when the pings and the close they answer do. */
  lemma {:induction false} ControlLimit(fs: seq<ClientFrame>)
    ensures RepliesKeepLimit(fs) <==> AnsweredKeepLimit(fs)
  {
    if fs != [] && fs[0].frame.opcode != CLOSE {
      var rest := fs[1..];
      ControlLimit(rest);
      var heard := UpToClose(rest);
      assert UpToClose(fs) == [fs[0]] + heard;
      assert forall i :: 0 <= i < |heard| ==> UpToClose(fs)[i + 1] == heard[i];
      if fs[0].frame.opcode == PING {
        var replies := Replies(rest);
        assert Replies(fs) == [Frame(PONG, fs[0].frame.payload)] + replies;
        assert forall i :: 0 <= i < |replies| ==> Replies(fs)[i + 1] == replies[i];
      }
    } else if fs != [] {
      assert UpToClose(fs)[0] == fs[0] && Replies(fs)[0] == fs[0].frame;
    }
  }

  /** The longest ping the loop accepts. */
  function LongPing(): ClientFrame {
    ClientFrame(Frame(PING, seq(MAX_CLIENT_PAYLOAD, i => 0)), [0, 0, 0, 0], Medium)
  }

  /** It is accepted, and the pong is more than 32 times as long as a control frame may be. */
  lemma LongPingIsEchoed()
    ensures LongPing().Valid()
    ensures Serve(ClientStream([LongPing()]), Pipe([], [])).0.sent == Encode(Frame(PONG, LongPing().frame.payload))
    ensures !RepliesKeepLimit([LongPing()])
  {
    hide Serve, Encode, ClientStream, LongPing, Stream;
    LongPingShape();
    var fs := [LongPing()];
    assert fs[1..] == [] && Replies([]) == [];
    ServeReplies(fs, [], Pipe([], []));
    OneFrame(Frame(PONG, LongPing().frame.payload));
    assert ClientStream(fs) + [] == ClientStream(fs);
    assert Replies(fs) == [Frame(PONG, LongPing().frame.payload)];
    assert |Replies(fs)[0].payload| > MAX_CONTROL_PAYLOAD;
  }

  lemma LongPingShape()
    ensures LongPing().Valid() && LongPing().frame.opcode == PING && |LongPing().frame.payload| == MAX_CLIENT_PAYLOAD
  {}

  // ----- any bytes at all -----

  /** The payload length a masked frame announces, and where its mask begins, if that much of it is
      there: the length in the second byte, or in two or in eight bytes behind it. */
  function Announced(b: seq<Byte>): Option<(nat, nat)>
    requires |b| >= 2 && b[1] >= 128
  {
    if b[1] < 254 then Some((b[1] - 128, 2))
    else if b[1] == 254 then
      if |b| < 4 then None
      else
        var high: nat, low: nat := b[2], b[3];
        Some((256 * high + low, 4))
    else (if |b| < 10 then None else Some((BigEndian(b[2..10]), 10)))
  }

  lemma AnnouncedIsRead(b: seq<Byte>)
    requires |b| >= 2 && b[1] >= 128
    ensures match Announced(b)
            case None => ReadLength(b[1..]) == None
            case Some((length, at)) => ReadLength(b[1..]) == Some((length, at - 1))
  {
    if b[1] == 254 && |b| >= 4 {
      var two := b[1..][1..3];
      assert two == [b[2], b[3]] && two[..1] == [b[2]] && two[..1][..0] == [];
      assert BigEndian(two[..1]) == b[2];
    } else if b[1] == 255 && |b| >= 10 {
      assert b[1..][1..9] == b[2..10];
    }
  }

  /** The bytes begin with a final, masked frame, as far as their first two tell. */
  predicate IsFinalAndMasked(b: seq<Byte>) {
    |b| >= 2 && b[0] >= 128 && b[1] >= 128
  }

  /** What any bytes are taken for: each error in exactly one case, and otherwise the whole frame
      that was announced, with at most 4096 bytes of payload, unmasked. */
  lemma ReadFrameMeaning(b: seq<Byte>)
    ensures ReadFrame(b) == Err(Fragmented) <==> |b| >= 2 && b[0] < 128
    ensures ReadFrame(b) == Err(NotMasked) <==> |b| >= 2 && b[0] >= 128 && b[1] < 128
    ensures ReadFrame(b) == Err(TooLarge) <==>
            IsFinalAndMasked(b) && Announced(b).Some? && Announced(b).value.0 > 4096
    ensures ReadFrame(b) == Err(EndOfStream) <==>
            || |b| < 2
            || (IsFinalAndMasked(b) && Announced(b).None?)
            || (IsFinalAndMasked(b) && Announced(b).value.0 <= 4096 &&
                |b| < Announced(b).value.1 + 4 + Announced(b).value.0)
    ensures ReadFrame(b).Ok? ==>
              && IsFinalAndMasked(b) && Announced(b).Some?
              && var (f, n) := ReadFrame(b).value;
                 var (length, at) := Announced(b).value;
              && |f.payload| == length <= 4096 && n == at + 4 + length <= |b| && f.opcode == b[0] % 16
              && forall i :: 0 <= i < length ==> f.payload[i] == Xor(b[at + 4 + i], b[at + i % 4])
  {
    hide ReadLength;
    if IsFinalAndMasked(b) { AnnouncedIsRead(b); }
  }

  /** The loop comes to byte n of the stream: all before it are whole frames that it answers or
      ignores and goes on, with opcodes 1, 2, 9 and 10. */
  predicate ComesTo(b: seq<Byte>, n: nat) {
    n == 0 ||
    match ReadFrame(b)
    case Err(_) => false
    case Ok((f, m)) =>
      (f.opcode == 1 || f.opcode == 2 || f.opcode == 9 || f.opcode == 10) && m <= n && ComesTo(b[m..], n - m)
  }

  /** With successful writes the loop ends, on any stream, at a place it comes to and cannot go
      on from: at an error of the frame there, at a close, or at any other opcode. */
  lemma {:induction false} ServeEnds(b: seq<Byte>, p: Pipe) returns (n: nat)
    requires p.plan == []
    ensures n <= |b| && ComesTo(b, n)
    ensures var end := Serve(b, p).1;
            match ReadFrame(b[n..])
            case Err(e) => end == ReadFailed(e)
            case Ok((f, _)) =>
              && f.opcode != 1 && f.opcode != 2 && f.opcode != 9 && f.opcode != 10
              && end == if f.opcode == 8 then ClosedByPeer else UnsupportedOpcode
    decreases |b|
  {
    hide ReadFrame;
    n := 0;
    assert b[0..] == b;
    if ReadFrame(b).Ok? {
      var (f, m) := ReadFrame(b).value;
      PushFrameWhole(p, Frame(PONG, f.payload));
      if f.opcode == 1 || f.opcode == 2 || f.opcode == 9 || f.opcode == 10 {
        var q := if f.opcode == 9 then PushFrame(p, Frame(PONG, f.payload)).0 else p;
        var k := ServeEnds(b[m..], q);
        assert b[m..][k..] == b[m + k..];
        n := m + k;
      }
    }
  }
}
