/** The texts the kernel attributes hold: fan speeds, keyboard effects and zone colours. */
module Codecs {
  import opened Results
  import opened Text

  datatype CodecError =
    | WrongArity
    | NotAnInteger(part: string)
    | OutOfRange(part: string)
    | BadColour

  /** The bounds a numeric part must lie in, with the name used in its error. */
  datatype Limit = Limit(name: string, min: int, max: int)

  function ParseRange(raw: string, limit: Limit): Result<int, CodecError> {
    match Atoi(TrimSpace(raw))
    case None => Err(NotAnInteger(limit.name))
    case Some(n) => if n < limit.min || n > limit.max then Err(OutOfRange(limit.name)) else Ok(n)
  }

  predicate InRange(n: int, limit: Limit) {
    limit.min <= n <= limit.max
  }

  /** Every limit below is well inside int64, so a number in range is one Atoi can return. */
  predicate IsInt64Limit(limit: Limit) {
    MIN_INT64 <= limit.min && limit.max <= MAX_INT64
  }

  lemma ParseRangeItoa(n: int, limit: Limit)
    requires IsInt64Limit(limit)
    ensures ParseRange(Itoa(n), limit).Ok? <==> InRange(n, limit)
    ensures InRange(n, limit) ==> ParseRange(Itoa(n), limit) == Ok(n)
  {
    ItoaCharacters(n);
    TrimSpaceOfTrimmed(Itoa(n));
    AtoiItoa(n);
  }

  // ----- numeric lists -----

  /** The parts read in order against their limits; the first bad part decides the error. */
  function ParseAll(parts: seq<string>, limits: seq<Limit>): Result<seq<int>, CodecError>
    requires |parts| == |limits|
  {
    if parts == [] then Ok([])
    else
      match ParseRange(parts[0], limits[0])
      case Err(e) => Err(e)
      case Ok(n) =>
        match ParseAll(parts[1..], limits[1..])
        case Err(e) => Err(e)
        case Ok(rest) => Ok([n] + rest)
  }

  predicate AllInRange(ns: seq<int>, limits: seq<Limit>)
    requires |ns| == |limits|
  {
    forall i :: 0 <= i < |ns| ==> InRange(ns[i], limits[i])
  }

  function Texts(ns: seq<int>): (r: seq<string>)
    ensures |r| == |ns|
    ensures forall i :: 0 <= i < |ns| ==> r[i] == Itoa(ns[i])
  {
    seq(|ns|, i requires 0 <= i < |ns| => Itoa(ns[i]))
  }

  lemma {:induction false} ParseAllTexts(ns: seq<int>, limits: seq<Limit>)
    requires |ns| == |limits|
    requires forall i :: 0 <= i < |limits| ==> IsInt64Limit(limits[i])
    ensures ParseAll(Texts(ns), limits).Ok? <==> AllInRange(ns, limits)
    ensures AllInRange(ns, limits) ==> ParseAll(Texts(ns), limits) == Ok(ns)
  {
    hide ParseRange, Itoa;
    if ns != [] {
      ParseRangeItoa(ns[0], limits[0]);
      assert Texts(ns)[1..] == Texts(ns[1..]);
      ParseAllTexts(ns[1..], limits[1..]);
      assert ns == [ns[0]] + ns[1..];
      if AllInRange(ns[1..], limits[1..]) && InRange(ns[0], limits[0]) {
        forall i | 0 <= i < |ns| ensures InRange(ns[i], limits[i]) {
          if i > 0 { assert InRange(ns[1..][i - 1], limits[1..][i - 1]); }
        }
      }
    }
  }

  lemma {:induction false} ParseAllInRange(parts: seq<string>, limits: seq<Limit>)
    requires |parts| == |limits|
    ensures ParseAll(parts, limits).Ok? ==>
              |ParseAll(parts, limits).value| == |limits| && AllInRange(ParseAll(parts, limits).value, limits)
  {
    if parts != [] {
      ParseAllInRange(parts[1..], limits[1..]);
    }
  }

  /** A comma-separated list of integers of fixed length. */
  function ParseList(raw: string, limits: seq<Limit>): Result<seq<int>, CodecError> {
    var parts := Split(TrimSpace(raw), ',');
    if |parts| != |limits| then Err(WrongArity) else ParseAll(parts, limits)
  }

  function ListText(ns: seq<int>): string
    requires |ns| >= 1
  {
    Join(Texts(ns), ',')
  }

  lemma {:induction false} JoinTrimmed(parts: seq<string>)
    requires |parts| >= 1
    requires forall i :: 0 <= i < |parts| ==> parts[i] != "" && IsTrimmed(parts[i])
    ensures Join(parts, ',') != "" && IsTrimmed(Join(parts, ','))
  {
    if |parts| > 1 {
      JoinTrimmed(parts[1..]);
    }
  }

  lemma ListTextParts(ns: seq<int>)
    requires |ns| >= 1
    ensures IsTrimmed(ListText(ns))
    ensures Split(TrimSpace(ListText(ns)), ',') == Texts(ns)
  {
    forall i | 0 <= i < |ns|
      ensures Itoa(ns[i]) != "" && IsTrimmed(Itoa(ns[i])) && FreeOf(Itoa(ns[i]), ',')
    {
      ItoaCharacters(ns[i]);
    }
    JoinTrimmed(Texts(ns));
    TrimSpaceOfTrimmed(ListText(ns));
    SplitJoin(Texts(ns), ',');
  }

  /** Reading back a printed list: it succeeds exactly for numbers in range, and returns them. */
  lemma ParseListText(ns: seq<int>, limits: seq<Limit>)
    requires |ns| == |limits| >= 1
    requires forall i :: 0 <= i < |limits| ==> IsInt64Limit(limits[i])
    ensures ParseList(ListText(ns), limits).Ok? <==> AllInRange(ns, limits)
    ensures AllInRange(ns, limits) ==> ParseList(ListText(ns), limits) == Ok(ns)
  {
    ListTextParts(ns);
    ParseAllTexts(ns, limits);
  }

  function Prepend(ns: seq<int>, r: Result<seq<int>, CodecError>): Result<seq<int>, CodecError> {
    match r
    case Err(e) => Err(e)
    case Ok(rest) => Ok(ns + rest)
  }

  /** Parts already read in order are the head of the whole result. */
  lemma {:induction false} ParseAllPrefix(parts: seq<string>, limits: seq<Limit>, ns: seq<int>)
    requires |parts| == |limits| && |ns| <= |parts|
    requires forall i :: 0 <= i < |ns| ==> ParseRange(parts[i], limits[i]) == Ok(ns[i])
    ensures ParseAll(parts, limits) == Prepend(ns, ParseAll(parts[|ns|..], limits[|ns|..]))
  {
    hide ParseRange;
    if ns == [] {
      assert parts[0..] == parts && limits[0..] == limits;
      PrependNothing(ParseAll(parts, limits));
    } else {
      assert ParseRange(parts[0], limits[0]) == Ok(ns[0]);
      forall i | 0 <= i < |ns[1..]| ensures ParseRange(parts[1..][i], limits[1..][i]) == Ok(ns[1..][i]) {
        assert ParseRange(parts[i + 1], limits[i + 1]) == Ok(ns[i + 1]);
      }
      ParseAllPrefix(parts[1..], limits[1..], ns[1..]);
      assert parts[1..][|ns| - 1..] == parts[|ns|..] && limits[1..][|ns| - 1..] == limits[|ns|..];
      PrependTwice(ns[0], ns[1..], ParseAll(parts[|ns|..], limits[|ns|..]));
      assert [ns[0]] + ns[1..] == ns;
    }
  }

  lemma PrependNothing(r: Result<seq<int>, CodecError>)
    ensures Prepend([], r) == r
  {
    if r.Ok? { assert [] + r.value == r.value; }
  }

  lemma PrependTwice(n: int, ns: seq<int>, r: Result<seq<int>, CodecError>)
    ensures Prepend([n], Prepend(ns, r)) == Prepend([n] + ns, r)
  {
    if r.Ok? { assert [n] + (ns + r.value) == [n] + ns + r.value; }
  }

  // ----- fan speeds -----

  datatype FanSetting = FanSetting(cpu: int, gpu: int) {
    predicate Valid() {
      0 <= cpu <= 100 && 0 <= gpu <= 100
    }

    function ToText(): string {
      ListText([cpu, gpu])
    }
  }

  const FAN_LIMITS: seq<Limit> := [Limit("CPU fan", 0, 100), Limit("GPU fan", 0, 100)]

  function ParseFanSetting(raw: string): Result<FanSetting, CodecError> {
    var parts := Split(TrimSpace(raw), ',');
    if |parts| != 2 then Err(WrongArity)
    else
      match ParseRange(parts[0], FAN_LIMITS[0])
      case Err(e) => Err(e)
      case Ok(cpu) =>
        match ParseRange(parts[1], FAN_LIMITS[1])
        case Err(e) => Err(e)
        case Ok(gpu) => Ok(FanSetting(cpu, gpu))
  }

  lemma ParseFanSettingIsParseList(raw: string)
    ensures ParseFanSetting(raw) ==
            match ParseList(raw, FAN_LIMITS)
            case Err(e) => Err(e)
            case Ok(ns) => if |ns| == 2 then Ok(FanSetting(ns[0], ns[1])) else Err(WrongArity)
  {
    var parts := Split(TrimSpace(raw), ',');
    if |parts| == 2 {
      var cpu, gpu := ParseRange(parts[0], FAN_LIMITS[0]), ParseRange(parts[1], FAN_LIMITS[1]);
      if cpu.Ok? && gpu.Ok? {
        ParseAllPrefix(parts, FAN_LIMITS, [cpu.value, gpu.value]);
      } else if cpu.Ok? {
        ParseAllPrefix(parts, FAN_LIMITS, [cpu.value]);
      }
    }
  }

  /** A fan setting reads back from its own text exactly when it validates. */
  lemma FanRoundTrip(f: FanSetting)
    ensures ParseFanSetting(f.ToText()).Ok? <==> f.Valid()
    ensures f.Valid() ==> ParseFanSetting(f.ToText()) == Ok(f)
    ensures IsTrimmed(f.ToText())
  {
    ParseFanSettingIsParseList(f.ToText());
    ParseListText([f.cpu, f.gpu], FAN_LIMITS);
    ListTextParts([f.cpu, f.gpu]);
    assert AllInRange([f.cpu, f.gpu], FAN_LIMITS) <==>
           InRange(f.cpu, FAN_LIMITS[0]) && InRange(f.gpu, FAN_LIMITS[1]);
  }

  /** Whatever spelling was accepted, its canonical text is accepted with the same meaning. */
  lemma FanReparse(raw: string)
    requires ParseFanSetting(raw).Ok?
    ensures ParseFanSetting(raw).value.Valid()
    ensures ParseFanSetting(ParseFanSetting(raw).value.ToText()) == ParseFanSetting(raw)
  {
    FanRoundTrip(ParseFanSetting(raw).value);
  }

  // ----- keyboard effects -----

  datatype EffectSetting = EffectSetting(mode: int, speed: int, brightness: int, direction: int,
                                         red: int, green: int, blue: int) {
    /** What a write must satisfy: unlike a read, it needs direction 1 or 2. */
    predicate Valid() {
      && 0 <= mode <= 7
      && 0 <= speed <= 9
      && 0 <= brightness <= 100
      && 1 <= direction <= 2
      && 0 <= red <= 255
      && 0 <= green <= 255
      && 0 <= blue <= 255
    }

    function Numbers(): (ns: seq<int>)
      ensures |ns| == 7
    {
      [mode, speed, brightness, direction, red, green, blue]
    }

    function ToText(): string {
      ListText(Numbers())
    }
  }

  const EFFECT_LIMITS: seq<Limit> := [
    Limit("mode", 0, 7), Limit("speed", 0, 9), Limit("brightness", 0, 100), Limit("direction", 0, 2),
    Limit("red", 0, 255), Limit("green", 0, 255), Limit("blue", 0, 255)]

  function EffectOfNumbers(ns: seq<int>): EffectSetting
    requires |ns| == 7
  {
    EffectSetting(ns[0], ns[1], ns[2], ns[3], ns[4], ns[5], ns[6])
  }

  /** What ParseEffectSetting computes. */
  function EffectOf(raw: string): Result<EffectSetting, CodecError> {
    match ParseList(raw, EFFECT_LIMITS)
    case Err(e) => Err(e)
    case Ok(ns) => if |ns| == 7 then Ok(EffectOfNumbers(ns)) else Err(WrongArity)
  }

  method ParseEffectSetting(raw: string) returns (r: Result<EffectSetting, CodecError>)
    ensures r == EffectOf(raw)
  {
    hide ParseRange, Split, TrimSpace;
    var parts := Split(TrimSpace(raw), ',');
    if |parts| != 7 {
      return Err(WrongArity);
    }
    var values := new int[|parts|];
    for i := 0 to |parts|
      invariant forall k :: 0 <= k < i ==> ParseRange(parts[k], EFFECT_LIMITS[k]) == Ok(values[k])
    {
      var value := ParseRange(parts[i], EFFECT_LIMITS[i]);
      if value.Err? {
        ParseAllPrefix(parts, EFFECT_LIMITS, values[..i]);
        return Err(value.error);
      }
      values[i] := value.value;
    }
    ParseAllPrefix(parts, EFFECT_LIMITS, values[..]);
    assert values[..] + [] == values[..];
    return Ok(EffectSetting(values[0], values[1], values[2], values[3], values[4], values[5], values[6]));
  }

  /** An effect reads back from its own text exactly when its parts are in the read limits:
      when it validates, or would but for a direction of 0. */
  lemma EffectRoundTrip(e: EffectSetting)
    ensures EffectOf(e.ToText()).Ok? <==> e.Valid() || (e.direction == 0 && e.(direction := 1).Valid())
    ensures EffectOf(e.ToText()).Ok? ==> EffectOf(e.ToText()) == Ok(e)
    ensures IsTrimmed(e.ToText())
  {
    var ns := e.Numbers();
    ParseListText(ns, EFFECT_LIMITS);
    ListTextParts(ns);
    EffectInRange(e);
  }

  lemma EffectInRange(e: EffectSetting)
    ensures AllInRange(e.Numbers(), EFFECT_LIMITS) <==>
            e.Valid() || (e.direction == 0 && e.(direction := 1).Valid())
  {
    var ns := e.Numbers();
    if AllInRange(ns, EFFECT_LIMITS) {
      assert InRange(ns[0], EFFECT_LIMITS[0]) && InRange(ns[1], EFFECT_LIMITS[1])
          && InRange(ns[2], EFFECT_LIMITS[2]) && InRange(ns[3], EFFECT_LIMITS[3])
          && InRange(ns[4], EFFECT_LIMITS[4]) && InRange(ns[5], EFFECT_LIMITS[5])
          && InRange(ns[6], EFFECT_LIMITS[6]);
    }
  }

  /** The device may report direction 0, which is read but must not be written back. Any
      other effect that was read can be written, and every effect read survives reprinting. */
  lemma EffectReparse(raw: string)
    requires EffectOf(raw).Ok?
    ensures EffectOf(raw).value.Valid() <==> EffectOf(raw).value.direction != 0
    ensures EffectOf(EffectOf(raw).value.ToText()) == EffectOf(raw)
  {
    var e := EffectOf(raw).value;
    var parts := Split(TrimSpace(raw), ',');
    ParseAllInRange(parts, EFFECT_LIMITS);
    assert e.Numbers() == ParseAll(parts, EFFECT_LIMITS).value;
    EffectInRange(e);
    EffectRoundTrip(e);
  }

  // ----- keyboard zones -----

  predicate IsHexDigit(c: char) {
    '0' <= c <= '9' || 'a' <= c <= 'f' || 'A' <= c <= 'F'
  }

  /** What IsHexColor decides. */
  predicate HexColor(value: string) {
    |value| == 6 && forall i :: 0 <= i < 6 ==> IsHexDigit(value[i])
  }

  method IsHexColor(value: string) returns (r: bool)
    ensures r == HexColor(value)
  {
    if |value| != 6 {
      return false;
    }
    for i := 0 to |value|
      invariant forall k :: 0 <= k < i ==> IsHexDigit(value[k])
    {
      if !IsHexDigit(value[i]) {
        return false;
      }
    }
    return true;
  }

  datatype ZoneSetting = ZoneSetting(zone1: string, zone2: string, zone3: string, zone4: string, brightness: int) {
    function Zones(): (zs: seq<string>)
      ensures |zs| == 4
    {
      [zone1, zone2, zone3, zone4]
    }

    predicate Valid() {
      (forall i :: 0 <= i < 4 ==> HexColor(Zones()[i])) && 0 <= brightness <= 100
    }

    /** The colours in lower case, which is how they are stored and reported. */
    function Normalised(): ZoneSetting {
      ZoneSetting(ToLower(zone1), ToLower(zone2), ToLower(zone3), ToLower(zone4), brightness)
    }

    function Parts(): (ps: seq<string>)
      ensures |ps| == 5
    {
      [ToLower(zone1), ToLower(zone2), ToLower(zone3), ToLower(zone4), Itoa(brightness)]
    }

    function ToText(): string {
      Join(Parts(), ',')
    }
  }

  const BRIGHTNESS := Limit("brightness", 0, 100)

  /** What ParseZoneSetting computes. */
  function ZoneOf(raw: string): Result<ZoneSetting, CodecError> {
    var parts := Split(TrimSpace(raw), ',');
    if |parts| != 5 then Err(WrongArity)
    else
      var z := ZoneSetting(ToLower(parts[0]), ToLower(parts[1]), ToLower(parts[2]), ToLower(parts[3]), 0);
      if exists i :: 0 <= i < 4 && !HexColor(z.Zones()[i]) then Err(BadColour)
      else
        match ParseRange(parts[4], BRIGHTNESS)
        case Err(e) => Err(e)
        case Ok(n) => Ok(z.(brightness := n))
  }

  method ParseZoneSetting(raw: string) returns (r: Result<ZoneSetting, CodecError>)
    ensures r == ZoneOf(raw)
  {
    var parts := Split(TrimSpace(raw), ',');
    if |parts| != 5 {
      return Err(WrongArity);
    }
    var z := ZoneSetting(ToLower(parts[0]), ToLower(parts[1]), ToLower(parts[2]), ToLower(parts[3]), 0);
    var zones := z.Zones();
    for i := 0 to 4
      invariant forall k :: 0 <= k < i ==> HexColor(zones[k])
    {
      var ok := IsHexColor(zones[i]);
      if !ok {
        return Err(BadColour);
      }
    }
    var brightness := ParseRange(parts[4], BRIGHTNESS);
    if brightness.Err? {
      return Err(brightness.error);
    }
    z := z.(brightness := brightness.value);
    return Ok(z);
  }

  lemma HexColorLower(s: string)
    ensures HexColor(ToLower(s)) <==> HexColor(s)
  {}

  lemma HexColorText(s: string)
    requires HexColor(s)
    ensures s != "" && IsTrimmed(s) && FreeOf(s, ',')
  {}

  lemma ZoneTextParts(z: ZoneSetting)
    requires z.Valid()
    ensures IsTrimmed(z.ToText())
    ensures Split(TrimSpace(z.ToText()), ',') == z.Parts()
  {
    var ps := z.Parts();
    forall i | 0 <= i < 5
      ensures ps[i] != "" && IsTrimmed(ps[i]) && FreeOf(ps[i], ',')
    {
      if i < 4 {
        assert HexColor(z.Zones()[i]);
        HexColorLower(z.Zones()[i]);
        HexColorText(ps[i]);
      } else {
        ItoaCharacters(z.brightness);
      }
    }
    JoinTrimmed(ps);
    TrimSpaceOfTrimmed(z.ToText());
    SplitJoin(ps, ',');
  }

  /** A valid zone setting reads back from its own text with its colours in lower case. */
  lemma ZoneRoundTrip(z: ZoneSetting)
    requires z.Valid()
    ensures ZoneOf(z.ToText()) == Ok(z.Normalised())
    ensures IsTrimmed(z.ToText())
  {
    ZoneTextParts(z);
    var parts := z.Parts();
    var y := ZoneSetting(ToLower(parts[0]), ToLower(parts[1]), ToLower(parts[2]), ToLower(parts[3]), 0);
    forall i | 0 <= i < 4 ensures HexColor(y.Zones()[i]) && y.Zones()[i] == ToLower(z.Zones()[i]) {
      assert HexColor(z.Zones()[i]);
      HexColorLower(z.Zones()[i]);
      ToLowerIdempotent(z.Zones()[i]);
      HexColorLower(ToLower(z.Zones()[i]));
    }
    assert y.Zones()[0] == ToLower(z.zone1) && y.Zones()[1] == ToLower(z.zone2)
        && y.Zones()[2] == ToLower(z.zone3) && y.Zones()[3] == ToLower(z.zone4);
    ParseRangeItoa(z.brightness, BRIGHTNESS);
  }

  /** What was read is valid and in lower case, and survives reprinting. */
  lemma ZoneReparse(raw: string)
    requires ZoneOf(raw).Ok?
    ensures ZoneOf(raw).value.Valid()
    ensures ZoneOf(raw).value.Normalised() == ZoneOf(raw).value
    ensures ZoneOf(ZoneOf(raw).value.ToText()) == ZoneOf(raw)
  {
    var z := ZoneOf(raw).value;
    var parts := Split(TrimSpace(raw), ',');
    var y := z.(brightness := 0);
    assert forall i :: 0 <= i < 4 ==> z.Zones()[i] == y.Zones()[i];
    ToLowerIdempotent(parts[0]);
    ToLowerIdempotent(parts[1]);
    ToLowerIdempotent(parts[2]);
    ToLowerIdempotent(parts[3]);
    ZoneRoundTrip(z);
  }
}
