/** Which requests are refused, and why, in terms of the files and of the request alone: the
    policy of every setter, value by value. */
module Refusals {
  import opened Results
  import opened Text
  import opened Codecs
  import opened Formats
  import opened Store
  import opened Hardware
  import opened ReadBack
  import opened Runs

  predicate Reads(t: Tree, a: Attribute, text: string) {
    ReadText(t, Fixed(a)) == Some(text)
  }

  /** The call is refused for this reason, and nothing is written or changed. */
  predicate IsRefusedAs(t: Tree, c: Core, r: Outcome, why: Refusal) {
    r == Outcome(Err(why), c, t, [])
  }

  // ----- profiles -----

  /** The profiles a power source allows. */
  lemma AllowedProfiles(choices: seq<string>, v: string)
    ensures HasValue(AvailableProfiles(choices, Battery), v) <==> v in choices && (v == "low-power" || v == "balanced")
    ensures HasValue(AvailableProfiles(choices, Ac), v) <==>
            v in choices && (v == "quiet" || v == "balanced" || v == "balanced-performance" || v == "performance")
    ensures HasValue(AvailableProfiles(choices, UnknownPower), v) <==> v in choices && v == "balanced"
  {
    hide Offered;
    OfferedAreOptions(PROFILE_OPTIONS, choices, Battery, v);
    OfferedAreOptions(PROFILE_OPTIONS, choices, Ac, v);
    OfferedAreOptions(PROFILE_OPTIONS, choices, UnknownPower, v);
    KnownProfiles(v);
  }

  /** The options, with the names they are shown under. */
  lemma KnownProfiles(v: string)
    ensures HasValue(PROFILE_OPTIONS, v) <==>
            v == "low-power" || v == "quiet" || v == "balanced" || v == "balanced-performance" || v == "performance"
    ensures forall o :: o in PROFILE_OPTIONS ==>
              o.name == (if o.value == "low-power" then "Eco" else if o.value == "quiet" then "Silent"
                         else if o.value == "balanced" then "Balanced"
                         else if o.value == "balanced-performance" then "Performance" else "Turbo")
  {
    assert PROFILE_OPTIONS[0].value == "low-power" && PROFILE_OPTIONS[1].value == "quiet";
    assert PROFILE_OPTIONS[2].value == "balanced" && PROFILE_OPTIONS[3].value == "balanced-performance";
    assert PROFILE_OPTIONS[4].value == "performance";
  }

  /** The values the power source of the machine leaves of the driver's choices. */
  ghost predicate IsAllowed(t: Tree, v: string) {
    || (IsSource(t, Battery) && (v == "low-power" || v == "balanced"))
    || (IsSource(t, Ac) && (v == "quiet" || v == "balanced" || v == "balanced-performance" || v == "performance"))
    || (IsSource(t, UnknownPower) && v == "balanced")
  }

  ghost predicate IsChosen(t: Tree, v: string) {
    var text := ReadText(t, Fixed(Attribute.ProfileChoices));
    text.Some? && v in Fields(text.value)
  }

  lemma ProfileRefusals(t: Tree, c: Core, k: Ticks, v: string, w: WriteResult)
    ensures var r := SetProfile(t, c, k, v, w);
            var readable := ReadText(t, Fixed(Attribute.ProfileChoices)).Some?;
            && (!c.caps.thermalProfile ==> IsRefusedAs(t, c, r, Unsupported))
            && (c.caps.thermalProfile && !readable ==> IsRefusedAs(t, c, r, ReadFailed))
            && (c.caps.thermalProfile && readable && !(IsChosen(t, v) && IsAllowed(t, v)) ==>
                  IsRefusedAs(t, c, r, NotAvailable))
            && (c.caps.thermalProfile && IsChosen(t, v) && IsAllowed(t, v) ==>
                  r.writes == [(Fixed(Attribute.PlatformProfile), v)] && (r.result.Ok? <==> w.ok))
  {
    hide Snapshot, AvailableProfiles, PowerSourceOf, IsSource, Fields, HasValue, IsOld;
    if ReadText(t, Fixed(Attribute.ProfileChoices)).Some? {
      AllowedProfiles(Fields(ReadText(t, Fixed(Attribute.ProfileChoices)).value), v);
    }
    PowerMeaning(t, Battery);
    PowerMeaning(t, Ac);
    PowerMeaning(t, UnknownPower);
  }

  // ----- fans -----

  predicate AreSpeeds(f: FanSetting) {
    0 <= f.cpu <= 100 && 0 <= f.gpu <= 100
  }

  predicate NotBothZero(f: FanSetting) {
    f.cpu != 0 || f.gpu != 0
  }

  predicate SomeBelowTwenty(f: FanSetting) {
    f.cpu < 20 || f.gpu < 20
  }

  /** The two interlocks: no manual fans in Silent mode, and no slow ones in the two fast modes
      without consent. */
  lemma FansRefusals(t: Tree, c: Core, k: Ticks, f: FanSetting, confirmed: bool, w: WriteResult)
    ensures var r := SetFans(t, c, k, f, confirmed, w);
            var silent := Reads(t, Attribute.PlatformProfile, "quiet") && NotBothZero(f);
            var risky := (Reads(t, Attribute.PlatformProfile, "balanced-performance") ||
                          Reads(t, Attribute.PlatformProfile, "performance")) &&
                         NotBothZero(f) && SomeBelowTwenty(f) && !confirmed;
            && (!c.caps.fanControl <==> r.result == Err(Unsupported))
            && (c.caps.fanControl && !AreSpeeds(f) <==> r.result == Err(Invalid))
            && (c.caps.fanControl && AreSpeeds(f) && silent <==> r.result == Err(Conflict))
            && (c.caps.fanControl && AreSpeeds(f) && risky <==> r.result == Err(ConfirmationRequired))
            && (c.caps.fanControl && AreSpeeds(f) && !silent && !risky ==>
                  && r.writes == [(Fixed(Attribute.FanSpeed), Itoa(f.cpu) + "," + Itoa(f.gpu))]
                  && (r.result.Ok? <==> w.ok))
            && (r.writes == [] ==> r.result.Err? && IsRefusedAs(t, c, r, r.result.error))
  {
    hide Snapshot, ReadText, IsOld, Itoa;
    FanText(f);
  }

  // ----- switches -----

  predicate IsSwitchName(name: string) {
    || name == "battery-limiter" || name == "battery-calibration" || name == "backlight-timeout"
    || name == "lcd-override" || name == "boot-animation-sound"
  }

  /** The five switches, the files they stand for and whether they were probed. */
  lemma SwitchRefusals(t: Tree, c: Core, k: Ticks, name: string, on: bool, confirmed: bool, w: WriteResult)
    ensures var r := SetBoolean(t, c, k, name, on, confirmed, w);
            && (name == "battery-limiter" ==> IsSwitch(t, c, w, r, Attribute.BatteryLimiter, c.caps.batteryLimiter, on))
            && (name == "battery-calibration" ==>
                  if on && !confirmed then IsRefusedAs(t, c, r, ConfirmationRequired)
                  else IsSwitch(t, c, w, r, Attribute.BatteryCalibration, c.caps.batteryCalibration, on))
            && (name == "backlight-timeout" ==>
                  IsSwitch(t, c, w, r, Attribute.BacklightTimeout, c.caps.backlightTimeout, on))
            && (name == "lcd-override" ==> IsSwitch(t, c, w, r, Attribute.LcdOverride, c.caps.lcdOverride, on))
            && (name == "boot-animation-sound" ==>
                  IsSwitch(t, c, w, r, Attribute.BootAnimationSound, c.caps.bootAnimationSound, on))
            && (!IsSwitchName(name) ==> IsRefusedAs(t, c, r, Unsupported))
  {
    hide Snapshot, IsOld;
  }

  /** A switch that was probed is written as 1 or as 0; any other is refused. */
  predicate IsSwitch(t: Tree, c: Core, w: WriteResult, r: Outcome, a: Attribute, probed: bool, on: bool) {
    if probed then r.writes == [(Fixed(a), if on then "1" else "0")] && (r.result.Ok? <==> w.ok)
    else IsRefusedAs(t, c, r, Unsupported)
  }

  // ----- the others -----

  lemma UsbRefusals(t: Tree, c: Core, k: Ticks, level: int, w: WriteResult)
    ensures var r := SetUsbCharging(t, c, k, level, w);
            if !c.caps.usbCharging then IsRefusedAs(t, c, r, Unsupported)
            else if level !in {0, 10, 20, 30} then IsRefusedAs(t, c, r, Invalid)
            else r.writes == [(Fixed(Attribute.UsbCharging), Itoa(level))] && (r.result.Ok? <==> w.ok)
  {
    hide Snapshot, IsOld, Itoa;
  }

  lemma ZoneRefusals(t: Tree, c: Core, k: Ticks, z: ZoneSetting, w: WriteResult)
    ensures var r := SetPerZone(t, c, k, z, w);
            if !c.caps.keyboardPerZone then IsRefusedAs(t, c, r, Unsupported)
            else if !AreZones(z) then IsRefusedAs(t, c, r, Invalid)
            else
              && r.writes == [(Fixed(Attribute.PerZoneMode), ToLower(z.zone1) + "," + ToLower(z.zone2) + "," +
                               ToLower(z.zone3) + "," + ToLower(z.zone4) + "," + Itoa(z.brightness))]
              && (r.result.Ok? <==> w.ok)
  {
    hide Snapshot, IsOld, Itoa, ToLower, HexColor, IsColour;
    ZoneText(z);
    ColourMeaning(z.zone1);
    ColourMeaning(z.zone2);
    ColourMeaning(z.zone3);
    ColourMeaning(z.zone4);
    ZonesAreZones(z);
  }

  predicate AreZones(z: ZoneSetting) {
    IsColour(z.zone1) && IsColour(z.zone2) && IsColour(z.zone3) && IsColour(z.zone4) && 0 <= z.brightness <= 100
  }

  lemma ZonesAreZones(z: ZoneSetting)
    ensures z.Valid() <==> HexColor(z.zone1) && HexColor(z.zone2) && HexColor(z.zone3) && HexColor(z.zone4) &&
                           0 <= z.brightness <= 100
  {
    hide HexColor;
    var zs := z.Zones();
    assert zs[0] == z.zone1 && zs[1] == z.zone2 && zs[2] == z.zone3 && zs[3] == z.zone4;
  }

  lemma EffectRefusals(t: Tree, c: Core, k: Ticks, e: EffectSetting, w: WriteResult)
    ensures var r := SetEffect(t, c, k, e, w);
            if !c.caps.keyboardEffects then IsRefusedAs(t, c, r, Unsupported)
            else if !IsEffect(e) then IsRefusedAs(t, c, r, Invalid)
            else
              && r.writes == [(Fixed(Attribute.FourZoneMode), Itoa(e.mode) + "," + Itoa(e.speed) + "," +
                               Itoa(e.brightness) + "," + Itoa(e.direction) + "," + Itoa(e.red) + "," +
                               Itoa(e.green) + "," + Itoa(e.blue))]
              && (r.result.Ok? <==> w.ok)
  {
    hide Snapshot, IsOld, Itoa, ListText;
    EffectText(e);
  }

  predicate IsEffect(e: EffectSetting) {
    && 0 <= e.mode <= 7 && 0 <= e.speed <= 9 && 0 <= e.brightness <= 100 && (e.direction == 1 || e.direction == 2)
    && 0 <= e.red <= 255 && 0 <= e.green <= 255 && 0 <= e.blue <= 255
  }

  // ----- the texts -----

  lemma FanText(f: FanSetting)
    ensures f.ToText() == Itoa(f.cpu) + "," + Itoa(f.gpu)
  {
    hide Itoa, Join;
    assert Texts([f.cpu, f.gpu]) == [Itoa(f.cpu)] + [Itoa(f.gpu)];
    JoinStep(Itoa(f.cpu), [Itoa(f.gpu)]);
    JoinOne(Itoa(f.gpu));
  }

  lemma JoinStep(first: string, rest: seq<string>)
    requires rest != []
    ensures Join([first] + rest, ',') == first + "," + Join(rest, ',')
  {
    assert ([first] + rest)[1..] == rest;
  }

  lemma JoinOne(last: string)
    ensures Join([last], ',') == last
  {}

  lemma JoinFive(a: string, b: string, c: string, d: string, e: string)
    ensures Join([a, b, c, d, e], ',') == a + "," + b + "," + c + "," + d + "," + e
  {
    hide Join;
    JoinOne(e);
    JoinStep(d, [e]);
    JoinStep(c, [d] + [e]);
    JoinStep(b, [c] + ([d] + [e]));
    JoinStep(a, [b] + ([c] + ([d] + [e])));
    assert [a, b, c, d, e] == [a] + ([b] + ([c] + ([d] + [e])));
    assert a + "," + (b + "," + (c + "," + (d + "," + e))) == a + "," + b + "," + c + "," + d + "," + e;
  }

  lemma ZoneText(z: ZoneSetting)
    ensures z.ToText() == ToLower(z.zone1) + "," + ToLower(z.zone2) + "," + ToLower(z.zone3) + "," +
                          ToLower(z.zone4) + "," + Itoa(z.brightness)
  {
    hide Itoa, ToLower, Join;
    JoinFive(ToLower(z.zone1), ToLower(z.zone2), ToLower(z.zone3), ToLower(z.zone4), Itoa(z.brightness));
  }

  lemma EffectText(e: EffectSetting)
    ensures e.ToText() == Itoa(e.mode) + "," + Itoa(e.speed) + "," + Itoa(e.brightness) + "," + Itoa(e.direction) +
                          "," + Itoa(e.red) + "," + Itoa(e.green) + "," + Itoa(e.blue)
  {
    hide Itoa, Join;
    var m, s, ts := Itoa(e.mode), Itoa(e.speed), Texts(e.Numbers());
    var tail := [Itoa(e.brightness), Itoa(e.direction), Itoa(e.red), Itoa(e.green), Itoa(e.blue)];
    assert ts == [m] + ([s] + tail);
    JoinFive(Itoa(e.brightness), Itoa(e.direction), Itoa(e.red), Itoa(e.green), Itoa(e.blue));
    JoinStep(s, tail);
    JoinStep(m, [s] + tail);
  }
}
