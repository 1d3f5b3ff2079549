/** A setter that reports success returns a state with the value it was asked to set. */
module ReadBack {
  import opened Results
  import opened Text
  import opened Clock
  import opened Codecs
  import opened Store
  import opened SensorCache
  import opened Hardware
  import opened Degradation

  /** The clock is at least the lifetime of the slow cache past its zero. */
  predicate IsPlausible(k: Ticks) {
    k.check - ZERO_TIME > SLOW_TTL
  }

  lemma InvalidatedIsOld(c: Core, k: Ticks)
    requires IsPlausible(k)
    ensures IsOld(Invalidated(c).slow, k)
  {}

  /** What a successful write reads back is sound for the tree after the write. */
  lemma WrittenStateIsSound(c: Core, k: Ticks, a: Attribute, data: string, w: WriteResult)
    requires IsPlausible(k) && WriteAndReadBack(c, k, a, data, w).result.Ok?
    ensures var s := WriteAndReadBack(c, k, a, data, w).result.value;
            && ProfileAndFansSound(w.tree, c.caps, s)
            && SettingsSound(w.tree, c.caps, s) && KeyboardSound(w.tree, c.caps, s)
            && s.fans.mode == (match Gate(c.caps.fanControl, FansAt(w.tree)) case Good(f) => ModeOf(f) case _ => NoMode)
  {
    hide ReadFans, ReadTemperatures, FastDegraded, SlowDegraded, ProfilePart, FansAt, ProfileAt, IsOld, Settings,
         Keyboard, ProfileAndFansSound, SettingsSound, KeyboardSound;
    InvalidatedIsOld(c, k);
    SnapshotIsSound(w.tree, Invalidated(c), k);
  }

  lemma {:induction false} OfferedAreOptions(options: seq<ProfileOption>, choices: seq<string>, power: PowerSource,
                                             value: string)
    ensures HasValue(Offered(options, choices, power), value) <==>
            HasValue(options, value) && IsOffered(value, choices, power)
  {
    hide IsOffered;
    if options != [] {
      var before, last := options[..|options| - 1], options[|options| - 1];
      var kept := Offered(before, choices, power);
      OfferedAreOptions(before, choices, power, value);
      assert options == before + [last];
      HasValueSnoc(before, last, value);
      HasValueSnoc(kept, last, value);
      if IsOffered(last.value, choices, power) {
        assert Offered(options, choices, power) == kept + [last];
      } else {
        assert Offered(options, choices, power) == kept + [] == kept;
      }
    }
  }

  lemma HasValueSnoc(options: seq<ProfileOption>, last: ProfileOption, value: string)
    ensures HasValue(options + [last], value) <==> HasValue(options, value) || last.value == value
  {
    if HasValue(options, value) {
      var i :| 0 <= i < |options| && options[i].value == value;
      assert (options + [last])[i].value == value;
    }
    if last.value == value {
      assert (options + [last])[|options|].value == value;
    }
  }

  lemma OptionsAreTrimmed(value: string)
    requires HasValue(PROFILE_OPTIONS, value)
    ensures IsTrimmed(value)
  {}

  lemma ProfileReadBack(t: Tree, c: Core, k: Ticks, value: string, w: WriteResult)
    requires IsPlausible(k) && SetProfile(t, c, k, value, w).result.Ok?
    requires Echoes(w, Fixed(Attribute.PlatformProfile), value)
    ensures var s := SetProfile(t, c, k, value, w).result.value;
            s.profile.value == value && Section.ThermalProfile !in s.degraded
  {
    hide WriteAndReadBack, PowerSourceOf, ChoicesAt, HasValue, Offered, IsTrimmed, Echoes;
    OfferedAreOptions(PROFILE_OPTIONS, ChoicesAt(t).value, PowerSourceOf(t), value);
    OptionsAreTrimmed(value);
    EchoedText(w, Fixed(Attribute.PlatformProfile), value);
    WrittenStateIsSound(c, k, Attribute.PlatformProfile, value, w);
  }

  lemma FansReadBack(t: Tree, c: Core, k: Ticks, setting: FanSetting, confirmed: bool, w: WriteResult)
    requires IsPlausible(k) && SetFans(t, c, k, setting, confirmed, w).result.Ok?
    requires Echoes(w, Fixed(Attribute.FanSpeed), setting.ToText())
    ensures var s := SetFans(t, c, k, setting, confirmed, w).result.value;
            && s.fans.cpu == setting.cpu && s.fans.gpu == setting.gpu && s.fans.mode == ModeOf(setting)
            && Section.FanControl !in s.degraded
  {
    hide WriteAndReadBack, Echoes, ParseFanSetting, FanSetting.ToText, ProfileAt, IsTrimmed;
    FanRoundTrip(setting);
    EchoedText(w, Fixed(Attribute.FanSpeed), setting.ToText());
    WrittenStateIsSound(c, k, Attribute.FanSpeed, setting.ToText(), w);
  }

  /** The setting and the section of a switch. */
  function SwitchState(s: State, a: Attribute): bool {
    match a
    case BatteryLimiter => s.settings.batteryLimiter
    case BatteryCalibration => s.settings.batteryCalibration
    case BacklightTimeout => s.settings.backlightTimeout
    case LcdOverride => s.settings.lcdOverride
    case _ => s.settings.bootAnimationSound
  }

  lemma FlagTextReads(w: WriteResult, a: Attribute, value: bool)
    requires Echoes(w, Fixed(a), FlagText(value))
    ensures FlagAt(w.tree, a) == Some(value)
  {
    EchoedText(w, Fixed(a), FlagText(value));
  }

  lemma SwitchIsSound(t: Tree, caps: Capabilities, s: State, name: string)
    requires SettingsSound(t, caps, s)
    requires SwitchOf(caps, name).Some? && SwitchOf(caps, name).value.1 && FlagAt(t, SwitchOf(caps, name).value.0).Some?
    ensures var a := SwitchOf(caps, name).value.0;
            && SwitchState(s, a) == FlagAt(t, a).value
            && SectionOf(a).Some? && SectionOf(a).value !in s.degraded
  {
    hide FlagAt, UsbAt;
  }

  lemma BooleanReadBack(t: Tree, c: Core, k: Ticks, name: string, value: bool, confirmed: bool, w: WriteResult)
    requires IsPlausible(k) && SetBoolean(t, c, k, name, value, confirmed, w).result.Ok?
    requires SwitchOf(c.caps, name).Some? ==> Echoes(w, Fixed(SwitchOf(c.caps, name).value.0), FlagText(value))
    ensures SwitchOf(c.caps, name).Some?
    ensures var s := SetBoolean(t, c, k, name, value, confirmed, w).result.value;
            var a := SwitchOf(c.caps, name).value.0;
            && SwitchState(s, a) == value
            && SectionOf(a).Some? && SectionOf(a).value !in s.degraded
  {
    hide WriteAndReadBack, Echoes, FlagAt, FlagText, SettingsSound, ProfileAndFansSound, KeyboardSound, SwitchOf,
         SwitchState;
    var a := SwitchOf(c.caps, name).value.0;
    FlagTextReads(w, a, value);
    WrittenStateIsSound(c, k, a, FlagText(value), w);
    SwitchIsSound(w.tree, c.caps, SetBoolean(t, c, k, name, value, confirmed, w).result.value, name);
  }

  lemma UsbReadBack(t: Tree, c: Core, k: Ticks, value: int, w: WriteResult)
    requires IsPlausible(k) && SetUsbCharging(t, c, k, value, w).result.Ok?
    requires Echoes(w, Fixed(Attribute.UsbCharging), Itoa(value))
    ensures var s := SetUsbCharging(t, c, k, value, w).result.value;
            s.settings.usbCharging == value && Section.UsbCharging !in s.degraded
  {
    hide WriteAndReadBack, Echoes, Itoa, Atoi, IsTrimmed;
    ItoaCharacters(value);
    AtoiItoa(value);
    EchoedText(w, Fixed(Attribute.UsbCharging), Itoa(value));
    WrittenStateIsSound(c, k, Attribute.UsbCharging, Itoa(value), w);
  }

  lemma ZonesReadBack(t: Tree, c: Core, k: Ticks, value: ZoneSetting, w: WriteResult)
    requires IsPlausible(k) && SetPerZone(t, c, k, value, w).result.Ok?
    requires Echoes(w, Fixed(Attribute.PerZoneMode), value.ToText())
    ensures var s := SetPerZone(t, c, k, value, w).result.value;
            s.keyboard.perZone == Some(value.Normalised()) && Section.KeyboardPerZone !in s.degraded
  {
    hide WriteAndReadBack, Echoes, ZoneOf, ZoneSetting.ToText, ZoneSetting.Normalised, ZoneSetting.Valid, IsTrimmed;
    ZoneRoundTrip(value);
    EchoedText(w, Fixed(Attribute.PerZoneMode), value.ToText());
    WrittenStateIsSound(c, k, Attribute.PerZoneMode, value.ToText(), w);
  }

  lemma EffectReadBack(t: Tree, c: Core, k: Ticks, value: EffectSetting, w: WriteResult)
    requires IsPlausible(k) && SetEffect(t, c, k, value, w).result.Ok?
    requires Echoes(w, Fixed(Attribute.FourZoneMode), value.ToText())
    ensures var s := SetEffect(t, c, k, value, w).result.value;
            s.keyboard.effect == Some(value) && Section.KeyboardEffects !in s.degraded
  {
    hide WriteAndReadBack, Echoes, EffectOf, EffectSetting.ToText, EffectSetting.Valid, IsTrimmed;
    EffectRoundTrip(value);
    EchoedText(w, Fixed(Attribute.FourZoneMode), value.ToText());
    WrittenStateIsSound(c, k, Attribute.FourZoneMode, value.ToText(), w);
  }
}
