/** One failing attribute spoils its own part of a snapshot and is named; nothing else is. */
module Degradation {
  import opened Results
  import opened Text
  import opened Codecs
  import opened Store
  import opened Sensors
  import opened SensorCache
  import opened Hardware

  // ----- what the degraded list says -----

  /** The section of a gated attribute is listed exactly when its read failed, and its value is
      the parsed one or else zero. */
  ghost predicate Reported<T>(degraded: seq<Section>, section: Section, r: Reading<T>, value: T, zero: T) {
    (section in degraded <==> r.Bad?) && value == Or(r, zero)
  }

  predicate Lists(s: seq<Section>, x: Section) {
    x in s
  }

  lemma InConcat(a: seq<Section>, b: seq<Section>, x: Section)
    ensures Lists(a + b, x) <==> Lists(a, x) || Lists(b, x)
  {}

  /** The section an attribute is noted under when its read fails; the version has none. */
  function SectionOf(a: Attribute): Option<Section> {
    match a
    case FanSpeed => Some(Section.FanControl)
    case BatteryLimiter => Some(Section.BatteryLimiter)
    case BatteryCalibration => Some(Section.BatteryCalibration)
    case BacklightTimeout => Some(Section.BacklightTimeout)
    case LcdOverride => Some(Section.LcdOverride)
    case UsbCharging => Some(Section.UsbCharging)
    case BootAnimationSound => Some(Section.BootAnimationSound)
    case Version => None
    case PerZoneMode => Some(Section.KeyboardPerZone)
    case FourZoneMode => Some(Section.KeyboardEffects)
    case PlatformProfile => Some(Section.ThermalProfile)
    case ProfileChoices => Some(Section.ProfileChoices)
  }

  /** The attributes read with the cache: all but the fan speeds and the profile. */
  predicate IsSlow(a: Attribute) {
    !a.FanSpeed? && !a.PlatformProfile?
  }

  predicate IsSetting(a: Attribute) {
    || a.BatteryLimiter? || a.BatteryCalibration? || a.BacklightTimeout? || a.LcdOverride? || a.BootAnimationSound?
    || a.UsbCharging?
  }

  /** The attribute was probed, and cannot be read or parsed. */
  predicate Fails(t: Tree, caps: Capabilities, a: Attribute) {
    match a
    case PlatformProfile => Gate(caps.thermalProfile, ProfileAt(t)).Bad?
    case ProfileChoices => Gate(caps.thermalProfile, ChoicesAt(t)).Bad?
    case FanSpeed => Gate(caps.fanControl, FansAt(t)).Bad?
    case BatteryLimiter => Gate(caps.batteryLimiter, FlagAt(t, a)).Bad?
    case BatteryCalibration => Gate(caps.batteryCalibration, FlagAt(t, a)).Bad?
    case BacklightTimeout => Gate(caps.backlightTimeout, FlagAt(t, a)).Bad?
    case LcdOverride => Gate(caps.lcdOverride, FlagAt(t, a)).Bad?
    case BootAnimationSound => Gate(caps.bootAnimationSound, FlagAt(t, a)).Bad?
    case UsbCharging => Gate(caps.usbCharging, UsbAt(t)).Bad?
    case PerZoneMode => Gate(caps.keyboardPerZone, ZonesAt(t)).Bad?
    case FourZoneMode => Gate(caps.keyboardEffects, EffectAt(t)).Bad?
    case Version => false
  }

  /** The attribute noted under a section; the three sensor sections have none. */
  function AttributeOf(x: Section): Option<Attribute> {
    match x
    case ThermalProfile => Some(Attribute.PlatformProfile)
    case FanControl => Some(Attribute.FanSpeed)
    case FanTelemetry => None
    case CpuTemperature => None
    case GpuTemperature => None
    case ProfileChoices => Some(Attribute.ProfileChoices)
    case BatteryLimiter => Some(Attribute.BatteryLimiter)
    case BatteryCalibration => Some(Attribute.BatteryCalibration)
    case BacklightTimeout => Some(Attribute.BacklightTimeout)
    case LcdOverride => Some(Attribute.LcdOverride)
    case BootAnimationSound => Some(Attribute.BootAnimationSound)
    case UsbCharging => Some(Attribute.UsbCharging)
    case KeyboardPerZone => Some(Attribute.PerZoneMode)
    case KeyboardEffects => Some(Attribute.FourZoneMode)
  }

  lemma SectionsMatch(a: Attribute, x: Section)
    ensures SectionOf(a) == Some(x) <==> AttributeOf(x) == Some(a)
  {}

  /** A sensor was there when the capabilities were probed, and has gone silent. */
  predicate SensorFails(caps: Capabilities, rpm: PairRead, temperatures: PairRead, x: Section) {
    || (x.FanTelemetry? && caps.fanTelemetry && rpm.cpu.None? && rpm.gpu.None?)
    || (x.CpuTemperature? && caps.cpuTemperature && temperatures.cpu.None?)
    || (x.GpuTemperature? && caps.gpuTemperature && temperatures.gpu.None?)
  }

  lemma NoteMember<T>(r: Reading<T>, y: Section, x: Section)
    ensures Lists(Note(r, y), x) <==> r.Bad? && x == y
  {}

  /** In terms of the attribute noted under the section. */
  lemma NoteOf<T>(r: Reading<T>, a: Attribute, y: Section, x: Section)
    requires SectionOf(a) == Some(y)
    ensures Lists(Note(r, y), x) <==> r.Bad? && AttributeOf(x) == Some(a)
  {
    SectionsMatch(a, x);
    NoteMember(r, y, x);
  }

  lemma IfMember(condition: bool, y: Section, x: Section)
    ensures Lists(If(condition, y), x) <==> condition && x == y
  {}

  lemma InThree(a: seq<Section>, b: seq<Section>, c: seq<Section>, x: Section)
    ensures Lists(a + b + c, x) <==> Lists(a, x) || Lists(b, x) || Lists(c, x)
  {
    hide Lists;
    InConcat(a + b, c, x);
    InConcat(a, b, x);
  }

  lemma InSix(a: seq<Section>, b: seq<Section>, c: seq<Section>, d: seq<Section>, e: seq<Section>, f: seq<Section>,
              x: Section)
    ensures Lists(a + b + c + d + e + f, x) <==>
            Lists(a, x) || Lists(b, x) || Lists(c, x) || Lists(d, x) || Lists(e, x) || Lists(f, x)
  {
    hide Lists;
    InThree(a, b, c, x);
    InThree(a + b + c, d, e, x);
    InConcat(a + b + c + d + e, f, x);
  }

  function FlagNote(t: Tree, enabled: bool, b: Attribute, y: Section): seq<Section> {
    Note(Gate(enabled, FlagAt(t, b)), y)
  }

  lemma SettingsListed(t: Tree, caps: Capabilities, x: Section)
    ensures Lists(SettingsDegraded(t, caps), x) <==>
            || Lists(FlagNote(t, caps.batteryLimiter, Attribute.BatteryLimiter, Section.BatteryLimiter), x)
            || Lists(FlagNote(t, caps.batteryCalibration, Attribute.BatteryCalibration, Section.BatteryCalibration), x)
            || Lists(FlagNote(t, caps.backlightTimeout, Attribute.BacklightTimeout, Section.BacklightTimeout), x)
            || Lists(FlagNote(t, caps.lcdOverride, Attribute.LcdOverride, Section.LcdOverride), x)
            || Lists(FlagNote(t, caps.bootAnimationSound, Attribute.BootAnimationSound, Section.BootAnimationSound), x)
            || Lists(Note(Gate(caps.usbCharging, UsbAt(t)), Section.UsbCharging), x)
  {
    hide Lists, Gate, Note, FlagAt, UsbAt;
    InSix(FlagNote(t, caps.batteryLimiter, Attribute.BatteryLimiter, Section.BatteryLimiter),
          FlagNote(t, caps.batteryCalibration, Attribute.BatteryCalibration, Section.BatteryCalibration),
          FlagNote(t, caps.backlightTimeout, Attribute.BacklightTimeout, Section.BacklightTimeout),
          FlagNote(t, caps.lcdOverride, Attribute.LcdOverride, Section.LcdOverride),
          FlagNote(t, caps.bootAnimationSound, Attribute.BootAnimationSound, Section.BootAnimationSound),
          Note(Gate(caps.usbCharging, UsbAt(t)), Section.UsbCharging), x);
  }

  lemma SettingsDegradedMeaning(t: Tree, caps: Capabilities, x: Section)
    ensures Lists(SettingsDegraded(t, caps), x) <==>
            AttributeOf(x).Some? && IsSetting(AttributeOf(x).value) && Fails(t, caps, AttributeOf(x).value)
  {
    hide Lists, Gate, Note, FlagAt, UsbAt, AttributeOf, SettingsDegraded;
    SettingsListed(t, caps, x);
    NoteOf(Gate(caps.batteryLimiter, FlagAt(t, Attribute.BatteryLimiter)),
           Attribute.BatteryLimiter, Section.BatteryLimiter, x);
    NoteOf(Gate(caps.batteryCalibration, FlagAt(t, Attribute.BatteryCalibration)),
           Attribute.BatteryCalibration, Section.BatteryCalibration, x);
    NoteOf(Gate(caps.backlightTimeout, FlagAt(t, Attribute.BacklightTimeout)),
           Attribute.BacklightTimeout, Section.BacklightTimeout, x);
    NoteOf(Gate(caps.lcdOverride, FlagAt(t, Attribute.LcdOverride)), Attribute.LcdOverride, Section.LcdOverride, x);
    NoteOf(Gate(caps.bootAnimationSound, FlagAt(t, Attribute.BootAnimationSound)),
           Attribute.BootAnimationSound, Section.BootAnimationSound, x);
    NoteOf(Gate(caps.usbCharging, UsbAt(t)), Attribute.UsbCharging, Section.UsbCharging, x);
  }

  lemma SlowDegradedMeaning(t: Tree, caps: Capabilities, x: Section)
    ensures Lists(SlowDegraded(t, caps), x) <==>
            AttributeOf(x).Some? && IsSlow(AttributeOf(x).value) && Fails(t, caps, AttributeOf(x).value)
  {
    hide Lists, Gate, Note, FlagAt, UsbAt, ZonesAt, EffectAt, ChoicesAt, SettingsDegraded,
         AttributeOf;
    var r0 := Gate(caps.thermalProfile, ChoicesAt(t));
    var r1, r2 := Gate(caps.keyboardPerZone, ZonesAt(t)), Gate(caps.keyboardEffects, EffectAt(t));
    NoteOf(r0, Attribute.ProfileChoices, Section.ProfileChoices, x);
    NoteOf(r1, Attribute.PerZoneMode, Section.KeyboardPerZone, x);
    NoteOf(r2, Attribute.FourZoneMode, Section.KeyboardEffects, x);
    SettingsDegradedMeaning(t, caps, x);
    InConcat(Note(r1, Section.KeyboardPerZone), Note(r2, Section.KeyboardEffects), x);
    InThree(Note(r0, Section.ProfileChoices), SettingsDegraded(t, caps), KeyboardDegraded(t, caps), x);
  }

  lemma FastDegradedMeaning(t: Tree, caps: Capabilities, rpm: PairRead, temperatures: PairRead, x: Section)
    ensures Lists(FastDegraded(t, caps, rpm, temperatures), x) <==>
            if AttributeOf(x).Some? then !IsSlow(AttributeOf(x).value) && Fails(t, caps, AttributeOf(x).value)
            else SensorFails(caps, rpm, temperatures, x)
  {
    hide Lists, Gate, Note, If, FansAt, ProfileAt;
    var r1, r2 := Gate(caps.thermalProfile, ProfileAt(t)), Gate(caps.fanControl, FansAt(t));
    var c1 := caps.fanTelemetry && rpm.cpu.None? && rpm.gpu.None?;
    var c2, c3 := caps.cpuTemperature && temperatures.cpu.None?, caps.gpuTemperature && temperatures.gpu.None?;
    NoteOf(r1, Attribute.PlatformProfile, Section.ThermalProfile, x);
    NoteOf(r2, Attribute.FanSpeed, Section.FanControl, x);
    IfMember(c1, Section.FanTelemetry, x);
    IfMember(c2, Section.CpuTemperature, x);
    IfMember(c3, Section.GpuTemperature, x);
    var n1, n2, e1 := Note(r1, Section.ThermalProfile), Note(r2, Section.FanControl), If(c1, Section.FanTelemetry);
    InThree(n1, n2, e1, x);
    InThree(n1 + n2 + e1, If(c2, Section.CpuTemperature), If(c3, Section.GpuTemperature), x);
  }

  /** When everything is read again, each section is listed exactly when its attribute fails. */
  lemma DegradedMeaning(t: Tree, c: Core, k: Ticks, x: Section)
    requires IsOld(c.slow, k)
    ensures var rpm := ReadFans(t, c.sensors);
            var temperatures := ReadTemperatures(t, rpm.sensors);
            x in Snapshot(t, c, k).0.degraded <==>
            if AttributeOf(x).Some? then Fails(t, c.caps, AttributeOf(x).value)
            else SensorFails(c.caps, rpm, temperatures, x)
  {
    hide Fails, SensorFails, AttributeOf, FastDegraded, SlowDegraded, ReadFans, ReadTemperatures;
    var rpm := ReadFans(t, c.sensors);
    var temperatures := ReadTemperatures(t, rpm.sensors);
    SlowDegradedMeaning(t, c.caps, x);
    FastDegradedMeaning(t, c.caps, rpm, temperatures, x);
    InConcat(FastDegraded(t, c.caps, rpm, temperatures), SlowDegraded(t, c.caps), x);
  }

  /** The section of a single attribute. */
  lemma AttributeSection(t: Tree, c: Core, k: Ticks, a: Attribute, x: Section)
    requires IsOld(c.slow, k) && SectionOf(a) == Some(x)
    ensures x in Snapshot(t, c, k).0.degraded <==> Fails(t, c.caps, a)
  {
    hide Snapshot, Fails, SensorFails, ReadFans, ReadTemperatures;
    SectionsMatch(a, x);
    DegradedMeaning(t, c, k, x);
  }

  ghost predicate ProfileAndFansSound(t: Tree, caps: Capabilities, s: State) {
    && Reported(s.degraded, Section.ThermalProfile, Gate(caps.thermalProfile, ProfileAt(t)), s.profile.value, "")
    && Reported(s.degraded, Section.FanControl, Gate(caps.fanControl, FansAt(t)),
                FanSetting(s.fans.cpu, s.fans.gpu), FanSetting(0, 0))
    && (Section.ProfileChoices in s.degraded <==> Gate(caps.thermalProfile, ChoicesAt(t)).Bad?)
  }

  ghost predicate SettingsSound(t: Tree, caps: Capabilities, s: State) {
    && Reported(s.degraded, Section.BatteryLimiter, Gate(caps.batteryLimiter, FlagAt(t, Attribute.BatteryLimiter)),
                s.settings.batteryLimiter, false)
    && Reported(s.degraded, Section.BatteryCalibration,
                Gate(caps.batteryCalibration, FlagAt(t, Attribute.BatteryCalibration)),
                s.settings.batteryCalibration, false)
    && Reported(s.degraded, Section.BacklightTimeout,
                Gate(caps.backlightTimeout, FlagAt(t, Attribute.BacklightTimeout)), s.settings.backlightTimeout, false)
    && Reported(s.degraded, Section.LcdOverride, Gate(caps.lcdOverride, FlagAt(t, Attribute.LcdOverride)),
                s.settings.lcdOverride, false)
    && Reported(s.degraded, Section.BootAnimationSound,
                Gate(caps.bootAnimationSound, FlagAt(t, Attribute.BootAnimationSound)),
                s.settings.bootAnimationSound, false)
    && Reported(s.degraded, Section.UsbCharging, Gate(caps.usbCharging, UsbAt(t)), s.settings.usbCharging, 0)
  }

  ghost predicate KeyboardSound(t: Tree, caps: Capabilities, s: State) {
    && (Section.KeyboardPerZone in s.degraded <==> Gate(caps.keyboardPerZone, ZonesAt(t)).Bad?)
    && s.keyboard.perZone == Pointer(Gate(caps.keyboardPerZone, ZonesAt(t)))
    && (Section.KeyboardEffects in s.degraded <==> Gate(caps.keyboardEffects, EffectAt(t)).Bad?)
    && s.keyboard.effect == Pointer(Gate(caps.keyboardEffects, EffectAt(t)))
  }

  lemma SnapshotParts(t: Tree, c: Core, k: Ticks)
    requires IsOld(c.slow, k)
    ensures var s := Snapshot(t, c, k).0;
            && s.settings == Settings(t, c.caps) && s.keyboard == Keyboard(t, c.caps)
            && s.profile.value == Or(Gate(c.caps.thermalProfile, ProfileAt(t)), "")
            && FanSetting(s.fans.cpu, s.fans.gpu) == Or(Gate(c.caps.fanControl, FansAt(t)), FanSetting(0, 0))
  {
    hide Settings, Keyboard, ProfileAt, FansAt, ReadFans, ReadTemperatures, FastDegraded, SlowDegraded;
  }

  lemma ProfileAndFansAreSound(t: Tree, c: Core, k: Ticks)
    requires IsOld(c.slow, k)
    ensures ProfileAndFansSound(t, c.caps, Snapshot(t, c, k).0)
  {
    hide Snapshot, FlagAt, UsbAt, ZonesAt, EffectAt, ChoicesAt, FansAt, ProfileAt, Gate, Or, Pointer, IsOld;
    SnapshotParts(t, c, k);
    AttributeSection(t, c, k, Attribute.PlatformProfile, Section.ThermalProfile);
    AttributeSection(t, c, k, Attribute.FanSpeed, Section.FanControl);
    AttributeSection(t, c, k, Attribute.ProfileChoices, Section.ProfileChoices);
  }

  lemma SettingsAreSound(t: Tree, c: Core, k: Ticks)
    requires IsOld(c.slow, k)
    ensures SettingsSound(t, c.caps, Snapshot(t, c, k).0)
  {
    hide Snapshot, FlagAt, UsbAt, ZonesAt, EffectAt, ChoicesAt, FansAt, ProfileAt, Gate, Or, Pointer, IsOld;
    SnapshotParts(t, c, k);
    AttributeSection(t, c, k, Attribute.BatteryLimiter, Section.BatteryLimiter);
    AttributeSection(t, c, k, Attribute.BatteryCalibration, Section.BatteryCalibration);
    AttributeSection(t, c, k, Attribute.BacklightTimeout, Section.BacklightTimeout);
    AttributeSection(t, c, k, Attribute.LcdOverride, Section.LcdOverride);
    AttributeSection(t, c, k, Attribute.BootAnimationSound, Section.BootAnimationSound);
    AttributeSection(t, c, k, Attribute.UsbCharging, Section.UsbCharging);
  }

  lemma KeyboardIsSound(t: Tree, c: Core, k: Ticks)
    requires IsOld(c.slow, k)
    ensures KeyboardSound(t, c.caps, Snapshot(t, c, k).0)
  {
    hide Snapshot, FlagAt, UsbAt, ZonesAt, EffectAt, ChoicesAt, FansAt, ProfileAt, Gate, Or, Pointer, IsOld;
    SnapshotParts(t, c, k);
    AttributeSection(t, c, k, Attribute.PerZoneMode, Section.KeyboardPerZone);
    AttributeSection(t, c, k, Attribute.FourZoneMode, Section.KeyboardEffects);
  }

  /** Every gated attribute of a snapshot that reads everything is the parse of its file with
      its section unlisted, or zero with its section listed if it was probed. */
  lemma SnapshotIsSound(t: Tree, c: Core, k: Ticks)
    requires IsOld(c.slow, k)
    ensures var s := Snapshot(t, c, k).0;
            ProfileAndFansSound(t, c.caps, s) && SettingsSound(t, c.caps, s) && KeyboardSound(t, c.caps, s)
  {
    hide Snapshot, ProfileAndFansSound, SettingsSound, KeyboardSound;
    ProfileAndFansAreSound(t, c, k);
    SettingsAreSound(t, c, k);
    KeyboardIsSound(t, c, k);
  }

  // ----- what one attribute can touch -----

  function Without(s: seq<Section>, x: Section): seq<Section> {
    if s == [] then [] else Without(s[..|s| - 1], x) + if s[|s| - 1] == x then [] else [s[|s| - 1]]
  }

  /** The two lists differ in one section at most. */
  ghost predicate SameBut(a: seq<Section>, b: seq<Section>, x: Section) {
    Without(a, x) == Without(b, x)
  }

  lemma {:induction false} WithoutConcat(a: seq<Section>, b: seq<Section>, x: Section)
    ensures Without(a + b, x) == Without(a, x) + Without(b, x)
  {
    if b == [] {
      assert a + b == a;
    } else {
      assert (a + b)[..|a + b| - 1] == a + b[..|b| - 1];
      WithoutConcat(a, b[..|b| - 1], x);
    }
  }

  lemma SameButConcat(a: seq<Section>, b: seq<Section>, c: seq<Section>, d: seq<Section>, x: Section)
    requires SameBut(a, c, x) && SameBut(b, d, x)
    ensures SameBut(a + b, c + d, x)
  {
    WithoutConcat(a, b, x);
    WithoutConcat(c, d, x);
  }

  /** Settings without the one an attribute feeds; for any other attribute, as they are. */
  function Blanked(s: SettingsState, a: Attribute): SettingsState {
    match a
    case BatteryLimiter => s.(batteryLimiter := false)
    case BatteryCalibration => s.(batteryCalibration := false)
    case BacklightTimeout => s.(backlightTimeout := false)
    case LcdOverride => s.(lcdOverride := false)
    case BootAnimationSound => s.(bootAnimationSound := false)
    case UsbCharging => s.(usbCharging := 0)
    case _ => s
  }

  /** A state with the fields an attribute feeds, and its section, blanked out. */
  function Masked(s: State, a: Attribute): State {
    var fields :=
      match a
      case FanSpeed => s.(fans := s.fans.(mode := NoMode, cpu := 0, gpu := 0, manualAllowed := false))
      case PlatformProfile =>
        s.(profile := s.profile.(value := "", name := ""), fans := s.fans.(manualAllowed := false))
      case ProfileChoices => s.(profile := s.profile.(available := []))
      case PerZoneMode => s.(keyboard := s.keyboard.(perZone := None))
      case FourZoneMode => s.(keyboard := s.keyboard.(effect := None))
      case Version => s.(driverVersion := "")
      case _ => s.(settings := Blanked(s.settings, a));
    if SectionOf(a).Some? then fields.(degraded := Without(s.degraded, SectionOf(a).value)) else fields
  }

  function Changed(t: Tree, a: Attribute, node: Node): Tree {
    t.(files := t.files[Fixed(a) := node])
  }

  ghost predicate OnHwmon(s: SensorPaths) {
    && (s.cpuTemp.Some? ==> s.cpuTemp.value.Hwmon?) && (s.gpuTemp.Some? ==> s.gpuTemp.value.Hwmon?)
    && (s.cpuFan.Some? ==> s.cpuFan.value.Hwmon?) && (s.gpuFan.Some? ==> s.gpuFan.value.Hwmon?)
  }

  lemma ChangedText(t: Tree, a: Attribute, node: Node, p: Path)
    requires p != Fixed(a)
    ensures ReadText(Changed(t, a, node), p) == ReadText(t, p)
  {}

  lemma ChangedPower(t: Tree, a: Attribute, node: Node)
    ensures PowerSourceOf(Changed(t, a, node)) == PowerSourceOf(t)
  {
    var u := Changed(t, a, node);
    forall s ensures IsMains(u, s) == IsMains(t, s) && IsOnline(u, s) == IsOnline(t, s) {
      ChangedText(t, a, node, Supply(s, "type"));
      ChangedText(t, a, node, Supply(s, "online"));
    }
  }

  lemma ChangedReadings(t: Tree, a: Attribute, node: Node, s: SensorPaths)
    requires OnHwmon(s)
    ensures ReadFans(Changed(t, a, node), s) == ReadFans(t, s)
    ensures ReadTemperatures(Changed(t, a, node), s) == ReadTemperatures(t, s)
    ensures OnHwmon(ReadFans(t, s).sensors)
  {
    hide Resolve;
    var u := Changed(t, a, node);
    assert SameStructure(t, u);
    ResolveIsStructural(t, u);
    ResolvedPathsExist(t);
    forall p: Option<Path> | p.Some? ==> p.value.Hwmon? ensures ReadInt(u, p) == ReadInt(t, p) {
      if p.Some? { ChangedText(t, a, node, p.value); }
    }
  }

  /** Every attribute but the changed one reads the same. */
  lemma ChangedAttributes(t: Tree, a: Attribute, node: Node)
    ensures var u := Changed(t, a, node);
            && (forall b :: b != a ==> FlagAt(u, b) == FlagAt(t, b))
            && (a != Attribute.UsbCharging ==> UsbAt(u) == UsbAt(t))
            && (a != Attribute.FanSpeed ==> FansAt(u) == FansAt(t))
            && (a != Attribute.PerZoneMode ==> ZonesAt(u) == ZonesAt(t))
            && (a != Attribute.FourZoneMode ==> EffectAt(u) == EffectAt(t))
            && (a != Attribute.PlatformProfile ==> ProfileAt(u) == ProfileAt(t))
            && (a != Attribute.ProfileChoices ==> ChoicesAt(u) == ChoicesAt(t))
            && (a != Attribute.Version ==> VersionAt(u) == VersionAt(t))
  {
    hide ReadText, ParseFanSetting, ZoneOf, EffectOf, Atoi, Fields;
    forall b | b != a ensures ReadText(Changed(t, a, node), Fixed(b)) == ReadText(t, Fixed(b)) {
      ChangedText(t, a, node, Fixed(b));
    }
  }

  lemma NotesSame<T>(r: Reading<T>, q: Reading<T>, y: Section, x: Section)
    requires r == q || y == x
    ensures SameBut(Note(r, y), Note(q, y), x)
  {}

  /** No other section comes or goes among the slow ones. */
  lemma SlowDegradedLocal(t: Tree, a: Attribute, node: Node, caps: Capabilities, x: Section)
    requires SectionOf(a) == None || SectionOf(a) == Some(x)
    ensures SameBut(SlowDegraded(t, caps), SlowDegraded(Changed(t, a, node), caps), x)
  {
    hide SameBut, FlagAt, UsbAt, ZonesAt, EffectAt, ChoicesAt, Gate, Note;
    var u := Changed(t, a, node);
    ChangedAttributes(t, a, node);
    var r0, q0 := Gate(caps.thermalProfile, ChoicesAt(t)), Gate(caps.thermalProfile, ChoicesAt(u));
    var r1, q1 := Gate(caps.keyboardPerZone, ZonesAt(t)), Gate(caps.keyboardPerZone, ZonesAt(u));
    var r2, q2 := Gate(caps.keyboardEffects, EffectAt(t)), Gate(caps.keyboardEffects, EffectAt(u));
    var c0, d0 := Note(r0, Section.ProfileChoices), Note(q0, Section.ProfileChoices);
    var c1, d1 := Note(r1, Section.KeyboardPerZone), Note(q1, Section.KeyboardPerZone);
    var c2, d2 := Note(r2, Section.KeyboardEffects), Note(q2, Section.KeyboardEffects);
    NotesSame(r0, q0, Section.ProfileChoices, x);
    NotesSame(r1, q1, Section.KeyboardPerZone, x);
    NotesSame(r2, q2, Section.KeyboardEffects, x);
    var c, d := SettingsDegraded(t, caps), SettingsDegraded(u, caps);
    SettingsDegradedLocal(t, a, node, caps, x);
    SameButConcat(c0, c, d0, d, x);
    SameButConcat(c1, c2, d1, d2, x);
    SameButConcat(c0 + c, KeyboardDegraded(t, caps), d0 + d, KeyboardDegraded(u, caps), x);
  }

  lemma SettingsDegradedLocal(t: Tree, a: Attribute, node: Node, caps: Capabilities, x: Section)
    requires SectionOf(a) == None || SectionOf(a) == Some(x)
    ensures SameBut(SettingsDegraded(t, caps), SettingsDegraded(Changed(t, a, node), caps), x)
  {
    hide SameBut, FlagAt, UsbAt, Gate, Note, Without;
    var u := Changed(t, a, node);
    ChangedAttributes(t, a, node);
    var c1, d1 := FlagNote(t, caps.batteryLimiter, Attribute.BatteryLimiter, Section.BatteryLimiter),
                  FlagNote(u, caps.batteryLimiter, Attribute.BatteryLimiter, Section.BatteryLimiter);
    var c2, d2 := FlagNote(t, caps.batteryCalibration, Attribute.BatteryCalibration, Section.BatteryCalibration),
                  FlagNote(u, caps.batteryCalibration, Attribute.BatteryCalibration, Section.BatteryCalibration);
    var c3, d3 := FlagNote(t, caps.backlightTimeout, Attribute.BacklightTimeout, Section.BacklightTimeout),
                  FlagNote(u, caps.backlightTimeout, Attribute.BacklightTimeout, Section.BacklightTimeout);
    var c4, d4 := FlagNote(t, caps.lcdOverride, Attribute.LcdOverride, Section.LcdOverride),
                  FlagNote(u, caps.lcdOverride, Attribute.LcdOverride, Section.LcdOverride);
    var c5, d5 := FlagNote(t, caps.bootAnimationSound, Attribute.BootAnimationSound, Section.BootAnimationSound),
                  FlagNote(u, caps.bootAnimationSound, Attribute.BootAnimationSound, Section.BootAnimationSound);
    var r6, q6 := Gate(caps.usbCharging, UsbAt(t)), Gate(caps.usbCharging, UsbAt(u));
    var c6, d6 := Note(r6, Section.UsbCharging), Note(q6, Section.UsbCharging);
    SwitchLocal(t, a, node, caps.batteryLimiter, Attribute.BatteryLimiter, Section.BatteryLimiter, x);
    SwitchLocal(t, a, node, caps.batteryCalibration, Attribute.BatteryCalibration, Section.BatteryCalibration, x);
    SwitchLocal(t, a, node, caps.backlightTimeout, Attribute.BacklightTimeout, Section.BacklightTimeout, x);
    SwitchLocal(t, a, node, caps.lcdOverride, Attribute.LcdOverride, Section.LcdOverride, x);
    SwitchLocal(t, a, node, caps.bootAnimationSound, Attribute.BootAnimationSound, Section.BootAnimationSound, x);
    NotesSame(r6, q6, Section.UsbCharging, x);
    SameButConcat(c1, c2, d1, d2, x);
    SameButConcat(c1 + c2, c3, d1 + d2, d3, x);
    SameButConcat(c1 + c2 + c3, c4, d1 + d2 + d3, d4, x);
    SameButConcat(c1 + c2 + c3 + c4, c5, d1 + d2 + d3 + d4, d5, x);
    SameButConcat(c1 + c2 + c3 + c4 + c5, c6, d1 + d2 + d3 + d4 + d5, d6, x);
  }

  lemma SwitchLocal(t: Tree, a: Attribute, node: Node, enabled: bool, b: Attribute, y: Section, x: Section)
    requires SectionOf(b) == Some(y) && (SectionOf(a) == None || SectionOf(a) == Some(x))
    ensures SameBut(FlagNote(t, enabled, b, y), FlagNote(Changed(t, a, node), enabled, b, y), x)
  {
    hide FlagAt, SameBut;
    ChangedAttributes(t, a, node);
    NotesSame(Gate(enabled, FlagAt(t, b)), Gate(enabled, FlagAt(Changed(t, a, node), b)), y, x);
  }

  /** Nor among the others. */
  lemma FastDegradedLocal(t: Tree, a: Attribute, node: Node, caps: Capabilities, rpm: PairRead, temperatures: PairRead,
                          x: Section)
    requires SectionOf(a) == None || SectionOf(a) == Some(x)
    ensures var u := Changed(t, a, node);
            SameBut(FastDegraded(t, caps, rpm, temperatures), FastDegraded(u, caps, rpm, temperatures), x)
  {
    hide SameBut, FansAt, ProfileAt, Gate, Note, If, Without, Changed, FlagAt, UsbAt, ZonesAt, EffectAt, ChoicesAt;
    var u := Changed(t, a, node);
    ChangedAttributes(t, a, node);
    var r1, q1 := Gate(caps.thermalProfile, ProfileAt(t)), Gate(caps.thermalProfile, ProfileAt(u));
    var r2, q2 := Gate(caps.fanControl, FansAt(t)), Gate(caps.fanControl, FansAt(u));
    var c1, d1 := Note(r1, Section.ThermalProfile), Note(q1, Section.ThermalProfile);
    var c2, d2 := Note(r2, Section.FanControl), Note(q2, Section.FanControl);
    NotesSame(r1, q1, Section.ThermalProfile, x);
    NotesSame(r2, q2, Section.FanControl, x);
    SameButConcat(c1, c2, d1, d2, x);
    var e1 := If(caps.fanTelemetry && rpm.cpu.None? && rpm.gpu.None?, Section.FanTelemetry);
    var e2 := If(caps.cpuTemperature && temperatures.cpu.None?, Section.CpuTemperature);
    var e3 := If(caps.gpuTemperature && temperatures.gpu.None?, Section.GpuTemperature);
    SameButRefl(e1, x);
    SameButRefl(e2, x);
    SameButRefl(e3, x);
    SameButConcat(c1 + c2, e1, d1 + d2, e1, x);
    SameButConcat(c1 + c2 + e1, e2, d1 + d2 + e1, e2, x);
    SameButConcat(c1 + c2 + e1 + e2, e3, d1 + d2 + e1 + e2, e3, x);
  }

  lemma SameButRefl(s: seq<Section>, x: Section)
    ensures SameBut(s, s, x)
  {}

  /** The version has no section: the lists are then equal outright. */
  lemma VersionDegraded(t: Tree, node: Node, caps: Capabilities, rpm: PairRead, temperatures: PairRead)
    ensures var u := Changed(t, Attribute.Version, node);
            && SlowDegraded(u, caps) == SlowDegraded(t, caps)
            && FastDegraded(u, caps, rpm, temperatures) == FastDegraded(t, caps, rpm, temperatures)
  {
    hide FlagAt, UsbAt, ZonesAt, EffectAt, ChoicesAt, FansAt, ProfileAt, Gate, Note, If;
    ChangedAttributes(t, Attribute.Version, node);
  }

  /** Settings, keyboard and version: only the field the attribute feeds can differ. */
  lemma SlowFieldsLocal(t: Tree, a: Attribute, node: Node, caps: Capabilities, s: State)
    ensures var u := Changed(t, a, node);
            var was := s.(settings := Settings(t, caps), keyboard := Keyboard(t, caps), driverVersion := VersionAt(t));
            var now := s.(settings := Settings(u, caps), keyboard := Keyboard(u, caps), driverVersion := VersionAt(u));
            Masked(now, a) == Masked(was, a)
  {
    hide Settings, Keyboard, VersionAt, Masked, Changed;
    var u := Changed(t, a, node);
    var s1 := s.(keyboard := Keyboard(u, caps), driverVersion := VersionAt(u));
    SettingsLocal(t, a, node, caps, s1);
    KeyboardLocal(t, a, node, caps, s.(settings := Settings(t, caps)));
  }

  lemma SettingsBlanked(t: Tree, a: Attribute, node: Node, caps: Capabilities)
    ensures Blanked(Settings(Changed(t, a, node), caps), a) == Blanked(Settings(t, caps), a)
  {
    hide FlagAt, UsbAt, Gate, Or, Changed, Blanked;
    FlagKept(t, a, node, caps.batteryLimiter, Attribute.BatteryLimiter);
    FlagKept(t, a, node, caps.batteryCalibration, Attribute.BatteryCalibration);
    FlagKept(t, a, node, caps.backlightTimeout, Attribute.BacklightTimeout);
    FlagKept(t, a, node, caps.lcdOverride, Attribute.LcdOverride);
    FlagKept(t, a, node, caps.bootAnimationSound, Attribute.BootAnimationSound);
    UsbKept(t, a, node, caps.usbCharging);
    BlankedAlike(Settings(Changed(t, a, node), caps), Settings(t, caps), a);
  }

  lemma BlankedAlike(p: SettingsState, q: SettingsState, a: Attribute)
    requires !a.BatteryLimiter? ==> p.batteryLimiter == q.batteryLimiter
    requires !a.BatteryCalibration? ==> p.batteryCalibration == q.batteryCalibration
    requires !a.BacklightTimeout? ==> p.backlightTimeout == q.backlightTimeout
    requires !a.LcdOverride? ==> p.lcdOverride == q.lcdOverride
    requires !a.BootAnimationSound? ==> p.bootAnimationSound == q.bootAnimationSound
    requires !a.UsbCharging? ==> p.usbCharging == q.usbCharging
    ensures Blanked(p, a) == Blanked(q, a)
  {}

  lemma FlagKept(t: Tree, a: Attribute, node: Node, enabled: bool, b: Attribute)
    ensures a != b ==>
              Or(Gate(enabled, FlagAt(Changed(t, a, node), b)), false) == Or(Gate(enabled, FlagAt(t, b)), false)
  {
    hide ReadText;
    if a != b { ChangedText(t, a, node, Fixed(b)); }
  }

  lemma UsbKept(t: Tree, a: Attribute, node: Node, enabled: bool)
    ensures !a.UsbCharging? ==> Or(Gate(enabled, UsbAt(Changed(t, a, node))), 0) == Or(Gate(enabled, UsbAt(t)), 0)
  {
    hide ReadText, Atoi;
    if !a.UsbCharging? { ChangedText(t, a, node, Fixed(Attribute.UsbCharging)); }
  }

  lemma SettingsLocal(t: Tree, a: Attribute, node: Node, caps: Capabilities, s: State)
    ensures var u := Changed(t, a, node);
            Masked(s.(settings := Settings(u, caps)), a) == Masked(s.(settings := Settings(t, caps)), a)
  {
    hide Settings, Without, Changed, SectionOf;
    SettingsBlanked(t, a, node, caps);
  }

  lemma KeyboardLocal(t: Tree, a: Attribute, node: Node, caps: Capabilities, s: State)
    ensures var u := Changed(t, a, node);
            Masked(s.(keyboard := Keyboard(u, caps), driverVersion := VersionAt(u)), a) ==
            Masked(s.(keyboard := Keyboard(t, caps), driverVersion := VersionAt(t)), a)
  {
    hide ZonesAt, EffectAt, VersionAt, Gate, Pointer, Without, Changed;
    ChangedAttributes(t, a, node);
  }

  /** Profile and fans: the same. */
  lemma FastFieldsLocal(t: Tree, a: Attribute, node: Node, caps: Capabilities, rpm: PairRead,
                        slow: SlowState, slower: SlowState, s: State)
    requires a != Attribute.ProfileChoices ==> slow.profileChoices == slower.profileChoices
    ensures var u := Changed(t, a, node);
            Masked(s.(profile := ProfilePart(u, caps, slower), fans := FanPart(u, caps, rpm)), a) ==
            Masked(s.(profile := ProfilePart(t, caps, slow), fans := FanPart(t, caps, rpm)), a)
  {
    hide FansAt, ProfileAt, PowerSourceOf, AvailableProfiles, ProfileName, Without, ModeOf;
    ChangedAttributes(t, a, node);
    ChangedPower(t, a, node);
  }

  /** Changing the content or the readability of one attribute changes, in a snapshot, only the
      fields that attribute feeds and its own section, and leaves the sensor paths alone. */
  lemma ChangeIsLocal(t: Tree, a: Attribute, node: Node, c: Core, k: Ticks)
    requires OnHwmon(c.sensors)
    ensures var u := Changed(t, a, node);
            && Masked(Snapshot(u, c, k).0, a) == Masked(Snapshot(t, c, k).0, a)
            && Snapshot(u, c, k).1.sensors == Snapshot(t, c, k).1.sensors
  {
    hide ReadFans, ReadTemperatures, FastDegraded, SlowDegraded, Settings, Keyboard, VersionAt, ProfilePart, FanPart,
         PowerSourceOf, ChoicesAt, SectionOf, Masked, Without, Changed, OnHwmon, IsOld;
    var u := Changed(t, a, node);
    ChangedReadings(t, a, node, c.sensors);
    var rpm := ReadFans(t, c.sensors);
    ChangedReadings(t, a, node, rpm.sensors);
    var temperatures := ReadTemperatures(t, rpm.sensors);
    ChangedPower(t, a, node);
    var slow, slower := SlowNow(t, c, k), SlowNow(u, c, k);
    ChoicesLocal(t, a, node, c, k);
    var s := Snapshot(t, c, k).0;
    var s1 := s.(profile := ProfilePart(u, c.caps, slower), fans := FanPart(u, c.caps, rpm));
    FastFieldsLocal(t, a, node, c.caps, rpm, slow, slower, s);
    assert Masked(s1, a) == Masked(s, a);
    var s2 := s1.(settings := slower.settings, keyboard := slower.keyboard, driverVersion := slower.driverVersion);
    if IsOld(c.slow, k) { SlowFieldsLocal(t, a, node, c.caps, s1); }
    assert Masked(s2, a) == Masked(s1, a);
    var list := FastDegraded(u, c.caps, rpm, temperatures) + slower.degraded;
    assert Snapshot(u, c, k).0 == s2.(degraded := list);
    DegradedLocal(t, a, node, c, k, rpm, temperatures);
    MaskDegraded(s2, a, list);
  }

  lemma ChoicesLocal(t: Tree, a: Attribute, node: Node, c: Core, k: Ticks)
    ensures a != Attribute.ProfileChoices ==>
              SlowNow(Changed(t, a, node), c, k).profileChoices == SlowNow(t, c, k).profileChoices
  {
    hide ChoicesAt;
    ChangedAttributes(t, a, node);
  }

  ghost predicate SameMasked(a: Attribute, s: seq<Section>, r: seq<Section>) {
    if SectionOf(a).Some? then SameBut(s, r, SectionOf(a).value) else s == r
  }

  lemma MaskDegraded(s: State, a: Attribute, list: seq<Section>)
    requires SameMasked(a, s.degraded, list)
    ensures Masked(s.(degraded := list), a) == Masked(s, a)
  {}

  lemma DegradedLocal(t: Tree, a: Attribute, node: Node, c: Core, k: Ticks, rpm: PairRead, temperatures: PairRead)
    ensures var u := Changed(t, a, node);
            SameMasked(a, FastDegraded(t, c.caps, rpm, temperatures) + SlowNow(t, c, k).degraded,
                       FastDegraded(u, c.caps, rpm, temperatures) + SlowNow(u, c, k).degraded)
  {
    hide FastDegraded, SlowDegraded, Settings, Keyboard, VersionAt, ChoicesAt, Changed, IsOld, SameBut;
    var u := Changed(t, a, node);
    if SectionOf(a).Some? {
      var x := SectionOf(a).value;
      FastDegradedLocal(t, a, node, c.caps, rpm, temperatures, x);
      SlowDegradedLocal(t, a, node, c.caps, x);
      SameButRefl(c.slow.degraded, x);
      SameButConcat(FastDegraded(t, c.caps, rpm, temperatures), SlowNow(t, c, k).degraded,
                    FastDegraded(u, c.caps, rpm, temperatures), SlowNow(u, c, k).degraded, x);
    } else {
      VersionDegraded(t, node, c.caps, rpm, temperatures);
    }
  }
}
