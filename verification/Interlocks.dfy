/** What may reach the hardware. */
module Interlocks {
  import opened Results
  import opened Text
  import opened Codecs
  import opened Store
  import opened SensorCache
  import opened Hardware
  import opened Degradation
  import opened Offers
  import opened ReadBack
  import opened Refusals
  import opened Runs

  /** Some call asked for the confirmed form of a risky request. */
  predicate Confirms(op: Op) {
    (op.Fans? && op.confirmed) || (op.Switch? && op.agreed)
  }

  /** The text is one the driver's own format reads back, and it is not one that the state of the
      machine forbids: manual fans in Silent mode, slow fans in a fast mode without consent, the
      start of a calibration without consent, a profile the power source does not allow. */
  ghost predicate IsSafeWrite(t: Tree, op: Op, a: Attribute, data: string) {
    match a
    case FanSpeed =>
      && ParseFanSetting(data).Ok?
      && var f := ParseFanSetting(data).value;
      && (Reads(t, Attribute.PlatformProfile, "quiet") ==> !NotBothZero(f))
      && (Reads(t, Attribute.PlatformProfile, "balanced-performance") ||
          Reads(t, Attribute.PlatformProfile, "performance") ==>
            !NotBothZero(f) || !SomeBelowTwenty(f) || Confirms(op))
    case PlatformProfile => IsChosen(t, data) && IsAllowed(t, data)
    case BatteryCalibration => data == "0" || (data == "1" && Confirms(op))
    case BatteryLimiter => data == "0" || data == "1"
    case BacklightTimeout => data == "0" || data == "1"
    case LcdOverride => data == "0" || data == "1"
    case BootAnimationSound => data == "0" || data == "1"
    case UsbCharging => Atoi(data) in {Some(0), Some(10), Some(20), Some(30)}
    case PerZoneMode => ZoneOf(data).Ok?
    case FourZoneMode => EffectOf(data).Ok? && EffectOf(data).value.direction != 0
    case ProfileChoices => false
    case Version => false
  }

  predicate IsSupported(caps: Capabilities, op: Op) {
    match op
    case Look => false
    case Profile(_) => caps.thermalProfile
    case Fans(_, _) => caps.fanControl
    case Switch(name, _, _) => SwitchOf(caps, name).Some? && SwitchOf(caps, name).value.1
    case Usb(_) => caps.usbCharging
    case Zones(_) => caps.keyboardPerZone
    case Effect(_) => caps.keyboardEffects
  }

  /** The call makes the write if that is allowed, and is refused outright if not. */
  ghost predicate WritesIf(allowed: bool, t: Tree, c: Core, k: Ticks, a: Attribute, data: string, w: WriteResult,
                           r: Outcome) {
    if allowed then r == WriteAndReadBack(c, k, a, data, w) else IsRefusal(t, c, r)
  }

  lemma ProfileWrites(t: Tree, c: Core, k: Ticks, value: string, w: WriteResult)
    ensures var allowed := c.caps.thermalProfile && IsSafeWrite(t, Profile(value), Attribute.PlatformProfile, value);
            WritesIf(allowed, t, c, k, Attribute.PlatformProfile, value, w, SetProfile(t, c, k, value, w))
  {
    hide WriteAndReadBack, HasValue, AvailableProfiles, PowerSourceOf, IsSource, Fields;
    if ReadText(t, Fixed(Attribute.ProfileChoices)).Some? {
      AllowedProfiles(Fields(ReadText(t, Fixed(Attribute.ProfileChoices)).value), value);
    }
    PowerMeaning(t, Battery);
    PowerMeaning(t, Ac);
    PowerMeaning(t, UnknownPower);
  }

  lemma FansWrite(t: Tree, c: Core, k: Ticks, setting: FanSetting, confirmed: bool, w: WriteResult)
    ensures var op := Fans(setting, confirmed);
            var allowed := c.caps.fanControl && IsSafeWrite(t, op, Attribute.FanSpeed, setting.ToText());
            WritesIf(allowed, t, c, k, Attribute.FanSpeed, setting.ToText(), w, SetFans(t, c, k, setting, confirmed, w))
  {
    hide WriteAndReadBack, ReadText, ParseFanSetting, FanSetting.ToText, FanSetting.Valid, IsTrimmed;
    FanRoundTrip(setting);
  }

  lemma SwitchWrites(t: Tree, c: Core, k: Ticks, name: string, value: bool, confirmed: bool, w: WriteResult)
    ensures var op := Switch(name, value, confirmed);
            var r := SetBoolean(t, c, k, name, value, confirmed, w);
            match SwitchOf(c.caps, name)
            case None => IsRefusal(t, c, r)
            case Some((a, supported)) =>
              WritesIf(supported && IsSafeWrite(t, op, a, FlagText(value)), t, c, k, a, FlagText(value), w, r)
  {
    hide WriteAndReadBack;
  }

  lemma UsbWrites(t: Tree, c: Core, k: Ticks, value: int, w: WriteResult)
    ensures var allowed := c.caps.usbCharging && IsSafeWrite(t, Usb(value), Attribute.UsbCharging, Itoa(value));
            WritesIf(allowed, t, c, k, Attribute.UsbCharging, Itoa(value), w, SetUsbCharging(t, c, k, value, w))
  {
    hide WriteAndReadBack, Atoi, Itoa;
    AtoiItoa(value);
  }

  /** A colour that does not validate may still print a text that parses, so here the value
      itself must be valid. */
  lemma ZonesWrite(t: Tree, c: Core, k: Ticks, value: ZoneSetting, w: WriteResult)
    ensures value.Valid() ==> IsSafeWrite(t, Zones(value), Attribute.PerZoneMode, value.ToText())
    ensures var allowed := c.caps.keyboardPerZone && value.Valid();
            WritesIf(allowed, t, c, k, Attribute.PerZoneMode, value.ToText(), w, SetPerZone(t, c, k, value, w))
  {
    hide WriteAndReadBack, ZoneOf, ZoneSetting.ToText, ZoneSetting.Normalised, ZoneSetting.Valid, IsTrimmed;
    if value.Valid() { ZoneRoundTrip(value); }
  }

  lemma EffectWrites(t: Tree, c: Core, k: Ticks, value: EffectSetting, w: WriteResult)
    ensures var op := Effect(value);
            var allowed := c.caps.keyboardEffects && IsSafeWrite(t, op, Attribute.FourZoneMode, value.ToText());
            WritesIf(allowed, t, c, k, Attribute.FourZoneMode, value.ToText(), w, SetEffect(t, c, k, value, w))
  {
    hide WriteAndReadBack, EffectOf, EffectSetting.ToText, IsTrimmed;
    EffectRoundTrip(value);
  }

  /** Whatever is asked, in whatever state, the hardware is written exactly when the attribute is
      supported and the write is safe; in every other case the call is refused and nothing has
      changed. */
  lemma WritesExactlyWhenSafe(t: Tree, c: Core, k: Ticks, op: Op, w: WriteResult)
    requires !op.Look?
    ensures var target := Target(c, op);
            var r := Perform(t, c, k, op, w);
            if IsSupported(c.caps, op) && IsSafeWrite(t, op, target.value.0, target.value.1) &&
               (op.Zones? ==> op.zones.Valid())
            then r == WriteAndReadBack(c, k, target.value.0, target.value.1, w)
            else IsRefusal(t, c, r)
  {
    hide WriteAndReadBack, IsRefusal, IsSafeWrite, SetProfile, SetFans, SetBoolean, SetUsbCharging, SetPerZone,
         SetEffect, FanSetting.ToText, ZoneSetting.ToText, ZoneSetting.Valid, EffectSetting.ToText, SwitchOf,
         FlagText, Itoa;
    match op
    case Profile(value) => ProfileWrites(t, c, k, value, w);
    case Fans(setting, confirmed) => FansWrite(t, c, k, setting, confirmed, w);
    case Switch(name, enabled, agreed) => SwitchWrites(t, c, k, name, enabled, agreed, w);
    case Usb(level) => UsbWrites(t, c, k, level, w);
    case Zones(zones) => ZonesWrite(t, c, k, zones, w);
    case Effect(effect) => EffectWrites(t, c, k, effect, w);
  }

  /** Going Silent does not hand the fans back: on a device where the write changes the profile
      alone, the fans keep the speeds they had, manual or full; they are automatic afterwards
      exactly when they were before. */
  lemma SilentKeepsFans(t: Tree, c: Core, k: Ticks, w: WriteResult, node: Node, f: FanSetting)
    requires IsPlausible(k) && c.caps.fanControl && FansAt(t) == Some(f)
    requires SetProfile(t, c, k, "quiet", w).result.Ok?
    requires Echoes(w, Fixed(Attribute.PlatformProfile), "quiet")
    requires w.tree == Changed(t, Attribute.PlatformProfile, node)
    ensures var s := SetProfile(t, c, k, "quiet", w).result.value;
            && s.profile.value == "quiet" && s.fans.cpu == f.cpu && s.fans.gpu == f.gpu && !s.fans.manualAllowed
            && (s.fans.mode == Auto <==> IsAuto(f))
            && (s.fans.mode == Manual <==> ModeOf(f) == Manual)
            && (s.fans.mode == Max <==> ModeOf(f) == Max)
  {
    hide FansAt, ProfileAt, Echoes, Changed, HasValue, Offered, ChoicesAt, PowerSourceOf, ProfileAndFansSound,
         SettingsSound, KeyboardSound, ReadFans, ReadTemperatures, FastDegraded, Settings, Keyboard, SlowDegraded,
         IsPlausible, IsOld, AvailableProfiles;
    ProfileReadBack(t, c, k, "quiet", w);
    ChangedAttributes(t, Attribute.PlatformProfile, node);
  }

  lemma FansReadAreValid(t: Tree, f: FanSetting)
    requires FansAt(t) == Some(f)
    ensures f.Valid()
  {
    hide ParseFanSetting, FanSetting.ToText, ReadText;
    FanReparse(ReadText(t, Fixed(Attribute.FanSpeed)).value);
  }

  /** So the fans then run as a request in Silent mode would be let through, exactly when they
      were automatic before. */
  lemma SilentFansAllowed(t: Tree, c: Core, k: Ticks, w: WriteResult, node: Node, f: FanSetting, later: Ticks,
                          v: WriteResult)
    requires IsPlausible(k) && c.caps.fanControl && FansAt(t) == Some(f)
    requires SetProfile(t, c, k, "quiet", w).result.Ok?
    requires Echoes(w, Fixed(Attribute.PlatformProfile), "quiet")
    requires w.tree == Changed(t, Attribute.PlatformProfile, node)
    ensures var r := SetProfile(t, c, k, "quiet", w);
            var s := r.result.value;
            SetFans(r.tree, r.core, later, FanSetting(s.fans.cpu, s.fans.gpu), true, v).result != Err(Conflict) <==>
            IsAuto(f)
  {
    hide FansAt, ReadText, Echoes, Changed, HasValue, Offered, ChoicesAt, PowerSourceOf, Snapshot, IsPlausible, IsOld,
         FanSetting.ToText, AvailableProfiles;
    SilentKeepsFans(t, c, k, w, node, f);
    EchoedText(w, Fixed(Attribute.PlatformProfile), "quiet");
    SnapshotKeepsCaps(w.tree, Invalidated(c), k);
    FansReadAreValid(t, f);
  }

  // ----- a case -----

  /** A machine on mains, its fans at half speed, whose driver offers the quiet profile. */
  function HalfSpeedMachine(): Tree {
    Tree(map[Fixed(Attribute.FanSpeed) := Node(FanSetting(50, 50).ToText(), true),
             Fixed(Attribute.PlatformProfile) := Node("balanced", true),
             Fixed(Attribute.ProfileChoices) := Node("quiet", true),
             Supply("AC", "online") := Node("1", true)],
         None, Some(["AC"]), map[])
  }

  /** The profile file takes what is written; nothing else changes. */
  function QuietWritten(): WriteResult {
    WriteResult(true, Changed(HalfSpeedMachine(), Attribute.PlatformProfile, Node("quiet", true)))
  }

  lemma QuietIsOffered()
    ensures var t := HalfSpeedMachine();
            && ChoicesAt(t).Some? && HasValue(AvailableProfiles(ChoicesAt(t).value, PowerSourceOf(t)), "quiet")
  {
    hide Offered, TrimSpace, FanSetting.ToText;
    var t := HalfSpeedMachine();
    QuietIsTrimmed();
    FieldsSpread(["quiet"], ["", ""]);
    assert Spread(["quiet"], ["", ""]) == "quiet" by { assert ["quiet"][1..] == [] && ["", ""][1..] == [""]; }
    assert ChoicesAt(t) == Some(["quiet"]);
    TrimSpaceOfTrimmed("1");
    assert IsMains(t, "AC") && IsOnline(t, "AC");
    assert PowerSourceOf(t) == Ac;
    assert HasValue(PROFILE_OPTIONS, "quiet") by { assert PROFILE_OPTIONS[1].value == "quiet"; }
    OfferedAreOptions(PROFILE_OPTIONS, ["quiet"], Ac, "quiet");
  }

  lemma HalfSpeedRead()
    ensures FansAt(HalfSpeedMachine()) == Some(FanSetting(50, 50))
  {
    hide ParseFanSetting, FanSetting.ToText, TrimSpace, IsTrimmed;
    FanRoundTrip(FanSetting(50, 50));
    TrimSpaceOfTrimmed(FanSetting(50, 50).ToText());
  }

  /** It goes Silent with its fans at half speed, where the same request is then refused. */
  lemma SilentMachineKeepsFans(k: Ticks, w: WriteResult)
    requires IsPlausible(k)
    ensures var t := HalfSpeedMachine();
            var r := SetProfile(t, NewCore(t), k, "quiet", QuietWritten());
            && r.result.Ok? && r.result.value.fans.mode == Manual && !r.result.value.fans.manualAllowed
            && SetFans(r.tree, r.core, k, FanSetting(50, 50), true, w).result == Err(Conflict)
  {
    hide Echoes, HasValue, AvailableProfiles, ChoicesAt, PowerSourceOf, ProfileAt, FansAt, Snapshot, Changed, IsOld,
         IsPlausible, HalfSpeedMachine, FanSetting.ToText;
    var t, node := HalfSpeedMachine(), Node("quiet", true);
    QuietIsOffered();
    HalfSpeedRead();
    HalfSpeedCapabilities();
    QuietEchoes();
    SilentKeepsFans(t, NewCore(t), k, QuietWritten(), node, FanSetting(50, 50));
    SilentFansAllowed(t, NewCore(t), k, QuietWritten(), node, FanSetting(50, 50), k, w);
  }

  lemma HalfSpeedCapabilities()
    ensures NewCore(HalfSpeedMachine()).caps.fanControl && NewCore(HalfSpeedMachine()).caps.thermalProfile
  {
    hide ReadFans, ReadTemperatures, Sensors.Resolve, FanSetting.ToText;
  }

  lemma QuietEchoes()
    ensures Echoes(QuietWritten(), Fixed(Attribute.PlatformProfile), "quiet")
  {
    hide FanSetting.ToText;
    var none: string := "";
    assert none + "quiet" + none == "quiet";
    assert AllSpace(none) && Read(QuietWritten().tree, Fixed(Attribute.PlatformProfile)) == Some(none + "quiet" + none);
  }
}
