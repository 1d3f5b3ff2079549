/** What the controller reports and what its calls compute, as functions of the tree, of the
    controller's own caches and of the clock. */
module Hardware {
  import opened Results
  import opened Text
  import opened Clock
  import opened Codecs
  import opened Store
  import opened Sensors
  import opened SensorCache

  // ----- the reported state -----

  datatype Capabilities = Capabilities(
    fanControl: bool, fanTelemetry: bool, thermalProfile: bool, batteryLimiter: bool,
    batteryCalibration: bool, backlightTimeout: bool, lcdOverride: bool, usbCharging: bool,
    bootAnimationSound: bool, keyboardPerZone: bool, keyboardEffects: bool,
    cpuTemperature: bool, gpuTemperature: bool)

  const NO_CAPABILITIES := Capabilities(false, false, false, false, false, false, false, false, false, false, false,
                                        false, false)

  /** The sections a failed read is recorded under. */
  datatype Section =
    | ThermalProfile | FanControl | FanTelemetry | CpuTemperature | GpuTemperature
    | ProfileChoices | BatteryLimiter | BatteryCalibration | BacklightTimeout | LcdOverride
    | BootAnimationSound | UsbCharging | KeyboardPerZone | KeyboardEffects

  datatype PowerSource = UnknownPower | Ac | Battery

  datatype ProfileOption = ProfileOption(value: string, name: string)

  datatype ProfileState = ProfileState(value: string, name: string, available: seq<ProfileOption>)

  datatype FanMode = NoMode | Auto | Max | Manual

  datatype FanState = FanState(mode: FanMode, cpu: int, gpu: int, cpuRpm: Option<int>, gpuRpm: Option<int>,
                               manualAllowed: bool)

  datatype SettingsState = SettingsState(batteryLimiter: bool, batteryCalibration: bool, backlightTimeout: bool,
                                         lcdOverride: bool, usbCharging: int, bootAnimationSound: bool)

  datatype KeyboardState = KeyboardState(perZone: Option<ZoneSetting>, effect: Option<EffectSetting>)

  /** Temperatures are in thousandths of a degree. */
  datatype State = State(
    timestamp: int, powerSource: PowerSource, profile: ProfileState, fans: FanState,
    cpuTemperature: Option<int>, gpuTemperature: Option<int>, settings: SettingsState,
    keyboard: KeyboardState, capabilities: Capabilities, driverVersion: string, degraded: seq<Section>)

  const SLOW_TTL := 30 * SECOND

  /** The values that only change when this service writes them, and when they were read. */
  datatype SlowState = SlowState(stamp: int, settings: SettingsState, keyboard: KeyboardState,
                                 profileChoices: seq<string>, driverVersion: string, degraded: seq<Section>)

  const NO_SETTINGS := SettingsState(false, false, false, false, 0, false)
  const NO_SLOW := SlowState(ZERO_TIME, NO_SETTINGS, KeyboardState(None, None), [], "", [])

  /** The fields of the controller that its calls change. */
  datatype Core = Core(caps: Capabilities, sensors: SensorPaths, slow: SlowState)

  // ----- reading one attribute -----

  /** A gated attribute: not probed, read and parsed, or failed. */
  datatype Reading<+T> = Off | Good(value: T) | Bad

  function Gate<T>(enabled: bool, r: Option<T>): Reading<T> {
    if !enabled then Off else if r.Some? then Good(r.value) else Bad
  }

  function Or<T>(r: Reading<T>, zero: T): T {
    if r.Good? then r.value else zero
  }

  function Note<T>(r: Reading<T>, section: Section): seq<Section> {
    if r.Bad? then [section] else []
  }

  function FlagAt(t: Tree, a: Attribute): Option<bool> {
    match ReadText(t, Fixed(a))
    case None => None
    case Some(raw) => if raw == "0" then Some(false) else if raw == "1" then Some(true) else None
  }

  predicate IsUsbLevel(n: int) {
    n == 0 || n == 10 || n == 20 || n == 30
  }

  function UsbAt(t: Tree): Option<int> {
    match ReadText(t, Fixed(Attribute.UsbCharging))
    case None => None
    case Some(raw) => if Atoi(raw).Some? && IsUsbLevel(Atoi(raw).value) then Atoi(raw) else None
  }

  function FansAt(t: Tree): Option<FanSetting> {
    match ReadText(t, Fixed(Attribute.FanSpeed))
    case None => None
    case Some(raw) => if ParseFanSetting(raw).Ok? then Some(ParseFanSetting(raw).value) else None
  }

  function ZonesAt(t: Tree): Option<ZoneSetting> {
    match ReadText(t, Fixed(Attribute.PerZoneMode))
    case None => None
    case Some(raw) => if ZoneOf(raw).Ok? then Some(ZoneOf(raw).value) else None
  }

  function EffectAt(t: Tree): Option<EffectSetting> {
    match ReadText(t, Fixed(Attribute.FourZoneMode))
    case None => None
    case Some(raw) => if EffectOf(raw).Ok? then Some(EffectOf(raw).value) else None
  }

  function ProfileAt(t: Tree): Option<string> {
    ReadText(t, Fixed(Attribute.PlatformProfile))
  }

  function ChoicesAt(t: Tree): Option<seq<string>> {
    match ReadText(t, Fixed(Attribute.ProfileChoices))
    case None => None
    case Some(raw) => Some(Fields(raw))
  }

  function VersionAt(t: Tree): string {
    match ReadText(t, Fixed(Attribute.Version))
    case None => ""
    case Some(raw) => raw
  }

  // ----- power and profiles -----

  predicate IsMains(t: Tree, supply: string) {
    ReadText(t, Supply(supply, "type")) == Some("Mains") || HasPrefix(ToUpper(supply), "AC")
  }

  predicate IsOnline(t: Tree, supply: string) {
    ReadText(t, Supply(supply, "online")) == Some("1")
  }

  /** On mains if some mains supply is online, on battery if there is one but none is. */
  function PowerSourceOf(t: Tree): PowerSource {
    if t.supplies.None? then UnknownPower
    else if exists s :: s in t.supplies.value && IsMains(t, s) && IsOnline(t, s) then Ac
    else if exists s :: s in t.supplies.value && IsMains(t, s) then Battery
    else UnknownPower
  }

  /** A supply is mains by its type, or by a name that begins with AC in either case. */
  predicate LooksLikeMains(t: Tree, supply: string) {
    || ReadText(t, Supply(supply, "type")) == Some("Mains")
    || (|supply| >= 2 && supply[0] in {'A', 'a'} && supply[1] in {'C', 'c'})
  }

  predicate GivesPower(t: Tree, supply: string) {
    LooksLikeMains(t, supply) && ReadText(t, Supply(supply, "online")) == Some("1")
  }

  /** Which source the supplies, their names and their files make for. */
  predicate IsSource(t: Tree, power: PowerSource) {
    match power
    case Ac => t.supplies.Some? && exists s :: s in t.supplies.value && GivesPower(t, s)
    case Battery =>
      && t.supplies.Some?
      && (exists s :: s in t.supplies.value && LooksLikeMains(t, s))
      && forall s :: s in t.supplies.value ==> !GivesPower(t, s)
    case UnknownPower => t.supplies.None? || forall s :: s in t.supplies.value ==> !LooksLikeMains(t, s)
  }

  lemma MainsMeaning(t: Tree, supply: string)
    ensures IsMains(t, supply) <==> LooksLikeMains(t, supply)
    ensures IsMains(t, supply) && IsOnline(t, supply) <==> GivesPower(t, supply)
  {
    hide ReadText;
    if |supply| >= 2 {
      var upper := ToUpper(supply);
      assert upper[..2] == [upper[0], upper[1]] && "AC" == ['A', 'C'];
      assert upper[0] == UpperChar(supply[0]) && upper[1] == UpperChar(supply[1]);
    }
  }

  /** The reported source is the one they make for, and no other. */
  lemma PowerMeaning(t: Tree, power: PowerSource)
    ensures IsSource(t, power) <==> PowerSourceOf(t) == power
  {
    hide IsMains, IsOnline, LooksLikeMains, GivesPower;
    forall s
      ensures IsMains(t, s) <==> LooksLikeMains(t, s)
      ensures IsMains(t, s) && IsOnline(t, s) <==> GivesPower(t, s)
    {
      MainsMeaning(t, s);
    }
  }

  const PROFILE_OPTIONS: seq<ProfileOption> := [
    ProfileOption("low-power", "Eco"),
    ProfileOption("quiet", "Silent"),
    ProfileOption("balanced", "Balanced"),
    ProfileOption("balanced-performance", "Performance"),
    ProfileOption("performance", "Turbo")]

  function OptionNamed(options: seq<ProfileOption>, value: string): ProfileOption {
    if options == [] then ProfileOption(value, value)
    else if options[0].value == value then options[0]
    else OptionNamed(options[1..], value)
  }

  function ProfileName(value: string): string {
    OptionNamed(PROFILE_OPTIONS, value).name
  }

  predicate Permitted(value: string, power: PowerSource) {
    match power
    case Battery => value == "low-power" || value == "balanced"
    case Ac => value == "quiet" || value == "balanced" || value == "balanced-performance" || value == "performance"
    case UnknownPower => value == "balanced"
  }

  predicate IsOffered(value: string, choices: seq<string>, power: PowerSource) {
    value in choices && Permitted(value, power)
  }

  /** The offered ones among the options, in their order. */
  function Offered(options: seq<ProfileOption>, choices: seq<string>, power: PowerSource): seq<ProfileOption> {
    if options == [] then []
    else
      Offered(options[..|options| - 1], choices, power) +
      if IsOffered(options[|options| - 1].value, choices, power) then [options[|options| - 1]] else []
  }

  function AvailableProfiles(choices: seq<string>, power: PowerSource): seq<ProfileOption> {
    Offered(PROFILE_OPTIONS, choices, power)
  }

  predicate HasValue(options: seq<ProfileOption>, value: string) {
    exists i :: 0 <= i < |options| && options[i].value == value
  }

  // ----- the calls -----

  /** The capabilities, and the sensor paths, which the probe may resolve again. */
  function Probe(t: Tree, s: SensorPaths): (Capabilities, SensorPaths) {
    var temperatures := ReadTemperatures(t, s);
    var rpm := ReadFans(t, temperatures.sensors);
    (Capabilities(
       Exists(t, Fixed(Attribute.FanSpeed)),
       rpm.cpu.Some? || rpm.gpu.Some?,
       Exists(t, Fixed(Attribute.PlatformProfile)) && Exists(t, Fixed(Attribute.ProfileChoices)),
       Exists(t, Fixed(Attribute.BatteryLimiter)),
       Exists(t, Fixed(Attribute.BatteryCalibration)),
       Exists(t, Fixed(Attribute.BacklightTimeout)),
       Exists(t, Fixed(Attribute.LcdOverride)),
       Exists(t, Fixed(Attribute.UsbCharging)),
       Exists(t, Fixed(Attribute.BootAnimationSound)),
       Exists(t, Fixed(Attribute.PerZoneMode)),
       Exists(t, Fixed(Attribute.FourZoneMode)),
       temperatures.cpu.Some?,
       temperatures.gpu.Some?),
     rpm.sensors)
  }

  function NewCore(t: Tree): Core {
    var (caps, sensors) := Probe(t, Resolve(t));
    Core(caps, sensors, NO_SLOW)
  }

  function Settings(t: Tree, caps: Capabilities): SettingsState {
    SettingsState(
      Or(Gate(caps.batteryLimiter, FlagAt(t, Attribute.BatteryLimiter)), false),
      Or(Gate(caps.batteryCalibration, FlagAt(t, Attribute.BatteryCalibration)), false),
      Or(Gate(caps.backlightTimeout, FlagAt(t, Attribute.BacklightTimeout)), false),
      Or(Gate(caps.lcdOverride, FlagAt(t, Attribute.LcdOverride)), false),
      Or(Gate(caps.usbCharging, UsbAt(t)), 0),
      Or(Gate(caps.bootAnimationSound, FlagAt(t, Attribute.BootAnimationSound)), false))
  }

  /** A parsed value reported through a pointer. */
  function Pointer<T>(r: Reading<T>): Option<T> {
    if r.Good? then Some(r.value) else None
  }

  function Keyboard(t: Tree, caps: Capabilities): KeyboardState {
    KeyboardState(Pointer(Gate(caps.keyboardPerZone, ZonesAt(t))), Pointer(Gate(caps.keyboardEffects, EffectAt(t))))
  }

  function SettingsDegraded(t: Tree, caps: Capabilities): seq<Section> {
    Note(Gate(caps.batteryLimiter, FlagAt(t, Attribute.BatteryLimiter)), Section.BatteryLimiter) +
    Note(Gate(caps.batteryCalibration, FlagAt(t, Attribute.BatteryCalibration)), Section.BatteryCalibration) +
    Note(Gate(caps.backlightTimeout, FlagAt(t, Attribute.BacklightTimeout)), Section.BacklightTimeout) +
    Note(Gate(caps.lcdOverride, FlagAt(t, Attribute.LcdOverride)), Section.LcdOverride) +
    Note(Gate(caps.bootAnimationSound, FlagAt(t, Attribute.BootAnimationSound)), Section.BootAnimationSound) +
    Note(Gate(caps.usbCharging, UsbAt(t)), Section.UsbCharging)
  }

  function KeyboardDegraded(t: Tree, caps: Capabilities): seq<Section> {
    Note(Gate(caps.keyboardPerZone, ZonesAt(t)), Section.KeyboardPerZone) +
    Note(Gate(caps.keyboardEffects, EffectAt(t)), Section.KeyboardEffects)
  }

  function SlowDegraded(t: Tree, caps: Capabilities): seq<Section> {
    Note(Gate(caps.thermalProfile, ChoicesAt(t)), Section.ProfileChoices) +
    SettingsDegraded(t, caps) +
    KeyboardDegraded(t, caps)
  }

  /** Everything slow, read now. */
  function RefreshSlow(t: Tree, caps: Capabilities, now: int): SlowState {
    SlowState(now, Settings(t, caps), Keyboard(t, caps), Or(Gate(caps.thermalProfile, ChoicesAt(t)), []),
              VersionAt(t), SlowDegraded(t, caps))
  }

  /** The clock readings of one snapshot: its timestamp, the check of the cache's age, and the
      stamp of a refresh. */
  datatype Ticks = Ticks(timestamp: int, check: int, stamp: int)

  predicate IsOld(slow: SlowState, k: Ticks) {
    Sub(k.check, slow.stamp) > SLOW_TTL
  }

  /** The slow values a snapshot reports. */
  function SlowNow(t: Tree, c: Core, k: Ticks): SlowState {
    if IsOld(c.slow, k) then RefreshSlow(t, c.caps, k.stamp) else c.slow
  }

  function ModeOf(f: FanSetting): FanMode {
    if f.cpu == 0 && f.gpu == 0 then Auto else if f.cpu == 100 && f.gpu == 100 then Max else Manual
  }

  function ProfilePart(t: Tree, caps: Capabilities, slow: SlowState): ProfileState {
    var current := Gate(caps.thermalProfile, ProfileAt(t));
    ProfileState(Or(current, ""), if current.Good? then ProfileName(current.value) else "",
                 if caps.thermalProfile then AvailableProfiles(slow.profileChoices, PowerSourceOf(t)) else [])
  }

  function FanPart(t: Tree, caps: Capabilities, rpm: PairRead): FanState {
    match Gate(caps.fanControl, FansAt(t))
    case Good(f) =>
      FanState(ModeOf(f), f.cpu, f.gpu, rpm.cpu, rpm.gpu, Or(Gate(caps.thermalProfile, ProfileAt(t)), "") != "quiet")
    case _ => FanState(NoMode, 0, 0, rpm.cpu, rpm.gpu, false)
  }

  function If(condition: bool, section: Section): seq<Section> {
    if condition then [section] else []
  }

  function FastDegraded(t: Tree, caps: Capabilities, rpm: PairRead, temperatures: PairRead): seq<Section> {
    Note(Gate(caps.thermalProfile, ProfileAt(t)), Section.ThermalProfile) +
    Note(Gate(caps.fanControl, FansAt(t)), Section.FanControl) +
    If(caps.fanTelemetry && rpm.cpu.None? && rpm.gpu.None?, Section.FanTelemetry) +
    If(caps.cpuTemperature && temperatures.cpu.None?, Section.CpuTemperature) +
    If(caps.gpuTemperature && temperatures.gpu.None?, Section.GpuTemperature)
  }

  /** A snapshot, and the caches it leaves behind. */
  function Snapshot(t: Tree, c: Core, k: Ticks): (State, Core) {
    var rpm := ReadFans(t, c.sensors);
    var temperatures := ReadTemperatures(t, rpm.sensors);
    var slow := SlowNow(t, c, k);
    (State(k.timestamp, PowerSourceOf(t), ProfilePart(t, c.caps, slow), FanPart(t, c.caps, rpm),
           temperatures.cpu, temperatures.gpu, slow.settings, slow.keyboard, c.caps, slow.driverVersion,
           FastDegraded(t, c.caps, rpm, temperatures) + slow.degraded),
     Core(c.caps, temperatures.sensors, slow))
  }

  function Invalidated(c: Core): Core {
    c.(slow := c.slow.(stamp := ZERO_TIME))
  }

  datatype Refusal =
    | Unsupported | Conflict | ConfirmationRequired | NotAvailable | Invalid | ReadFailed | WriteFailed

  /** What a call returns, the controller and the tree afterwards, and its WriteFile calls. */
  datatype Outcome = Outcome(result: Result<State, Refusal>, core: Core, tree: Tree, writes: seq<(Path, string)>)

  function Refuse(t: Tree, c: Core, why: Refusal): Outcome {
    Outcome(Err(why), c, t, [])
  }

  /** Write, and only after a success invalidate the slow cache and read everything back. */
  function WriteAndReadBack(c: Core, k: Ticks, a: Attribute, data: string, w: WriteResult): Outcome {
    if !w.ok then Outcome(Err(WriteFailed), c, w.tree, [(Fixed(a), data)])
    else
      var (state, core) := Snapshot(w.tree, Invalidated(c), k);
      Outcome(Ok(state), core, w.tree, [(Fixed(a), data)])
  }

  function SetProfile(t: Tree, c: Core, k: Ticks, value: string, w: WriteResult): Outcome {
    if !c.caps.thermalProfile then Refuse(t, c, Unsupported)
    else if ChoicesAt(t).None? then Refuse(t, c, ReadFailed)
    else if !HasValue(AvailableProfiles(ChoicesAt(t).value, PowerSourceOf(t)), value) then Refuse(t, c, NotAvailable)
    else WriteAndReadBack(c, k, Attribute.PlatformProfile, value, w)
  }

  predicate IsAuto(f: FanSetting) {
    f.cpu == 0 && f.gpu == 0
  }

  predicate IsHighPerformance(profile: Option<string>) {
    profile == Some("balanced-performance") || profile == Some("performance")
  }

  function SetFans(t: Tree, c: Core, k: Ticks, setting: FanSetting, confirmed: bool, w: WriteResult): Outcome {
    if !c.caps.fanControl then Refuse(t, c, Unsupported)
    else if !setting.Valid() then Refuse(t, c, Invalid)
    else if ProfileAt(t) == Some("quiet") && !IsAuto(setting) then Refuse(t, c, Conflict)
    else if IsHighPerformance(ProfileAt(t)) && !IsAuto(setting) && (setting.cpu < 20 || setting.gpu < 20) && !confirmed
    then Refuse(t, c, ConfirmationRequired)
    else WriteAndReadBack(c, k, Attribute.FanSpeed, setting.ToText(), w)
  }

  /** The attribute a switch name stands for, and whether it was probed. */
  function SwitchOf(caps: Capabilities, name: string): Option<(Attribute, bool)> {
    if name == "battery-limiter" then Some((Attribute.BatteryLimiter, caps.batteryLimiter))
    else if name == "battery-calibration" then Some((Attribute.BatteryCalibration, caps.batteryCalibration))
    else if name == "backlight-timeout" then Some((Attribute.BacklightTimeout, caps.backlightTimeout))
    else if name == "lcd-override" then Some((Attribute.LcdOverride, caps.lcdOverride))
    else if name == "boot-animation-sound" then Some((Attribute.BootAnimationSound, caps.bootAnimationSound))
    else None
  }

  function FlagText(value: bool): string {
    if value then "1" else "0"
  }

  function SetBoolean(t: Tree, c: Core, k: Ticks, name: string, value: bool, confirmed: bool, w: WriteResult): Outcome {
    match SwitchOf(c.caps, name)
    case None => Refuse(t, c, Unsupported)
    case Some((a, supported)) =>
      if a == Attribute.BatteryCalibration && value && !confirmed then Refuse(t, c, ConfirmationRequired)
      else if !supported then Refuse(t, c, Unsupported)
      else WriteAndReadBack(c, k, a, FlagText(value), w)
  }

  function SetUsbCharging(t: Tree, c: Core, k: Ticks, value: int, w: WriteResult): Outcome {
    if !c.caps.usbCharging then Refuse(t, c, Unsupported)
    else if !IsUsbLevel(value) then Refuse(t, c, Invalid)
    else WriteAndReadBack(c, k, Attribute.UsbCharging, Itoa(value), w)
  }

  function SetPerZone(t: Tree, c: Core, k: Ticks, value: ZoneSetting, w: WriteResult): Outcome {
    if !c.caps.keyboardPerZone then Refuse(t, c, Unsupported)
    else if !value.Valid() then Refuse(t, c, Invalid)
    else WriteAndReadBack(c, k, Attribute.PerZoneMode, value.ToText(), w)
  }

  function SetEffect(t: Tree, c: Core, k: Ticks, value: EffectSetting, w: WriteResult): Outcome {
    if !c.caps.keyboardEffects then Refuse(t, c, Unsupported)
    else if !value.Valid() then Refuse(t, c, Invalid)
    else WriteAndReadBack(c, k, Attribute.FourZoneMode, value.ToText(), w)
  }
}
