/** Exactly which texts the three codecs accept, and as what. */
module Formats {
  import opened Results
  import opened Text
  import opened Codecs

  /** A part of a list: an integer within bounds, with white space allowed around it. */
  ghost predicate IsPart(part: string, n: int, min: int, max: int) {
    Atoi(TrimSpace(part)) == Some(n) && min <= n <= max
  }

  lemma {:induction false} ParseAllMeaning(parts: seq<string>, limits: seq<Limit>, ns: seq<int>)
    requires |parts| == |limits|
    ensures ParseAll(parts, limits) == Ok(ns) <==>
            |ns| == |parts| && forall i :: 0 <= i < |parts| ==> ParseRange(parts[i], limits[i]) == Ok(ns[i])
  {
    hide ParseRange;
    if |ns| == |parts| && forall i :: 0 <= i < |parts| ==> ParseRange(parts[i], limits[i]) == Ok(ns[i]) {
      ParseAllPrefix(parts, limits, ns);
      assert ns + [] == ns;
    }
    if ParseAll(parts, limits) == Ok(ns) && parts != [] {
      assert ns == [ns[0]] + ns[1..];
      ParseAllMeaning(parts[1..], limits[1..], ns[1..]);
      forall i | 0 <= i < |parts| ensures ParseRange(parts[i], limits[i]) == Ok(ns[i]) {
        if i > 0 { assert parts[1..][i - 1] == parts[i] && limits[1..][i - 1] == limits[i] && ns[1..][i - 1] == ns[i]; }
      }
    }
  }

  /** Two speeds of 0 to 100 with a comma between them. */
  lemma FanAccepts(raw: string, f: FanSetting)
    ensures ParseFanSetting(raw) == Ok(f) <==>
            exists a: string, b: string ::
              && FreeOf(a, ',') && FreeOf(b, ',') && TrimSpace(raw) == a + "," + b
              && IsPart(a, f.cpu, 0, 100) && IsPart(b, f.gpu, 0, 100)
  {
    hide Split, TrimSpace, Atoi;
    var parts := Split(TrimSpace(raw), ',');
    JoinSplit(TrimSpace(raw), ',');
    if ParseFanSetting(raw) == Ok(f) {
      assert parts == [parts[0]] + [parts[1]];
      assert TrimSpace(raw) == parts[0] + "," + parts[1];
    }
    forall a: string, b: string |
      && FreeOf(a, ',') && FreeOf(b, ',') && TrimSpace(raw) == a + "," + b
      && IsPart(a, f.cpu, 0, 100) && IsPart(b, f.gpu, 0, 100)
      ensures ParseFanSetting(raw) == Ok(f)
    {
      assert [a, b][1..] == [b] && Join([a, b], ',') == a + "," + b;
      SplitJoin([a, b], ',');
    }
  }

  ghost predicate AreEffectParts(parts: seq<string>, e: EffectSetting) {
    && |parts| == 7 && (forall i :: 0 <= i < 7 ==> FreeOf(parts[i], ','))
    && IsPart(parts[0], e.mode, 0, 7) && IsPart(parts[1], e.speed, 0, 9) && IsPart(parts[2], e.brightness, 0, 100)
    && IsPart(parts[3], e.direction, 0, 2)
    && IsPart(parts[4], e.red, 0, 255) && IsPart(parts[5], e.green, 0, 255) && IsPart(parts[6], e.blue, 0, 255)
  }

  lemma PartsInLimits(parts: seq<string>, e: EffectSetting)
    requires |parts| == 7 && forall i :: 0 <= i < 7 ==> FreeOf(parts[i], ',')
    ensures AreEffectParts(parts, e) <==>
            forall i :: 0 <= i < 7 ==> ParseRange(parts[i], EFFECT_LIMITS[i]) == Ok(e.Numbers()[i])
  {
    hide TrimSpace, Atoi, FreeOf;
    var ns := e.Numbers();
    if forall i :: 0 <= i < 7 ==> ParseRange(parts[i], EFFECT_LIMITS[i]) == Ok(ns[i]) {
      assert ParseRange(parts[0], EFFECT_LIMITS[0]) == Ok(ns[0]) && ParseRange(parts[1], EFFECT_LIMITS[1]) == Ok(ns[1]);
      assert ParseRange(parts[2], EFFECT_LIMITS[2]) == Ok(ns[2]) && ParseRange(parts[3], EFFECT_LIMITS[3]) == Ok(ns[3]);
      assert ParseRange(parts[4], EFFECT_LIMITS[4]) == Ok(ns[4]) && ParseRange(parts[5], EFFECT_LIMITS[5]) == Ok(ns[5]);
      assert ParseRange(parts[6], EFFECT_LIMITS[6]) == Ok(ns[6]);
    }
  }

  /** Seven numbers: mode, speed, brightness, direction and three colour channels. A direction of 0
      is read, though it is not written. */
  lemma EffectAccepts(raw: string, e: EffectSetting)
    ensures EffectOf(raw) == Ok(e) <==>
            exists parts :: AreEffectParts(parts, e) && TrimSpace(raw) == Join(parts, ',')
  {
    hide Split, TrimSpace, Atoi, Join, ParseRange, ParseAll;
    var split := Split(TrimSpace(raw), ',');
    JoinSplit(TrimSpace(raw), ',');
    if EffectOf(raw) == Ok(e) {
      ParseAllMeaning(split, EFFECT_LIMITS, ParseAll(split, EFFECT_LIMITS).value);
      assert ParseAll(split, EFFECT_LIMITS).value == e.Numbers();
      PartsInLimits(split, e);
    }
    forall parts | AreEffectParts(parts, e) && TrimSpace(raw) == Join(parts, ',') ensures EffectOf(raw) == Ok(e) {
      SplitJoin(parts, ',');
      PartsInLimits(parts, e);
      ParseAllMeaning(parts, EFFECT_LIMITS, e.Numbers());
    }
  }

  predicate IsColour(s: string) {
    |s| == 6 && forall i :: 0 <= i < 6 ==> s[i] in "0123456789abcdefABCDEF"
  }

  lemma ColourMeaning(s: string)
    ensures HexColor(s) <==> IsColour(s)
  {
    forall i | 0 <= i < |s| ensures IsHexDigit(s[i]) <==> s[i] in "0123456789abcdefABCDEF" {
      HexDigitMeaning(s[i]);
    }
  }

  lemma HexDigitMeaning(c: char)
    ensures IsHexDigit(c) <==> c in "0123456789abcdefABCDEF"
  {
    var all := "0123456789abcdefABCDEF";
    if '0' <= c <= '9' { assert all[c as int - '0' as int] == c; }
    if 'a' <= c <= 'f' { assert all[c as int - 'a' as int + 10] == c; }
    if 'A' <= c <= 'F' { assert all[c as int - 'A' as int + 16] == c; }
  }

  ghost predicate AreZoneParts(parts: seq<string>, z: ZoneSetting) {
    && |parts| == 5 && (forall i :: 0 <= i < 5 ==> FreeOf(parts[i], ','))
    && IsColour(parts[0]) && IsColour(parts[1]) && IsColour(parts[2]) && IsColour(parts[3])
    && z.zone1 == ToLower(parts[0]) && z.zone2 == ToLower(parts[1])
    && z.zone3 == ToLower(parts[2]) && z.zone4 == ToLower(parts[3])
    && IsPart(parts[4], z.brightness, 0, 100)
  }

  lemma ZonePartsRead(raw: string, z: ZoneSetting)
    ensures ZoneOf(raw) == Ok(z) <==> AreZoneParts(Split(TrimSpace(raw), ','), z)
  {
    hide Split, TrimSpace, Atoi, ToLower, HexColor, IsColour;
    var parts := Split(TrimSpace(raw), ',');
    JoinSplit(TrimSpace(raw), ',');
    if |parts| == 5 {
      forall i | 0 <= i < 4 ensures HexColor(ToLower(parts[i])) <==> IsColour(parts[i]) {
        HexColorLower(parts[i]);
        ColourMeaning(parts[i]);
      }
      var y := ZoneSetting(ToLower(parts[0]), ToLower(parts[1]), ToLower(parts[2]), ToLower(parts[3]), 0);
      var zs := y.Zones();
      assert zs[0] == y.zone1 && zs[1] == y.zone2 && zs[2] == y.zone3 && zs[3] == y.zone4;
    }
  }

  /** Four colours of six hexadecimal digits in either case, read in lower case, and a brightness. */
  lemma ZoneAccepts(raw: string, z: ZoneSetting)
    ensures ZoneOf(raw) == Ok(z) <==> exists parts :: AreZoneParts(parts, z) && TrimSpace(raw) == Join(parts, ',')
  {
    hide Split, TrimSpace, Join, ZoneOf, IsPart, IsColour, ToLower;
    ZonePartsRead(raw, z);
    JoinSplit(TrimSpace(raw), ',');
    forall parts | AreZoneParts(parts, z) && TrimSpace(raw) == Join(parts, ',') ensures ZoneOf(raw) == Ok(z) {
      SplitJoin(parts, ',');
    }
  }
}
