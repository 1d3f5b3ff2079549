/** The hardware controller: its fields, and the methods that update them under its lock. */
module Controller {
  import opened Results
  import opened Text
  import opened Clock
  import opened Codecs
  import opened Store
  import opened Sensors
  import opened SensorCache
  import opened Hardware

  class Controller {
    const fs: FileSystem
    var caps: Capabilities
    var sensors: SensorPaths
    var slow: SlowState
    /** How often the sensor paths were resolved. */
    ghost var resolutions: nat

    function View(): Core
      reads this
    {
      Core(caps, sensors, slow)
    }

    constructor (fs: FileSystem)
      ensures this.fs == fs && View() == NewCore(fs.tree)
    {
      this.fs := fs;
      slow := NO_SLOW;
      var resolved := ResolveSensors(fs);
      sensors := resolved;
      resolutions := 1;
      caps := NO_CAPABILITIES;
      new;
      var probed := ProbeCapabilities();
      caps := probed;
    }

    method RefreshCapabilities() returns (r: Capabilities)
      modifies this
      ensures (caps, sensors) == Probe(fs.tree, old(sensors)) && slow == old(slow) && r == caps
    {
      var probed := ProbeCapabilities();
      caps := probed;
      return caps;
    }

    method ProbeCapabilities() returns (r: Capabilities)
      modifies this`sensors, this`resolutions
      ensures (r, sensors) == Probe(fs.tree, old(sensors))
    {
      hide ReadFans, ReadTemperatures;
      var cpu, gpu := ReadTemperaturePair();
      var cpuRpm, gpuRpm := ReadFanRpm();
      var fanSpeed := fs.Stat(Fixed(Attribute.FanSpeed));
      var profile := fs.Stat(Fixed(Attribute.PlatformProfile));
      var choices := fs.Stat(Fixed(Attribute.ProfileChoices));
      var batteryLimiter := fs.Stat(Fixed(Attribute.BatteryLimiter));
      var batteryCalibration := fs.Stat(Fixed(Attribute.BatteryCalibration));
      var backlightTimeout := fs.Stat(Fixed(Attribute.BacklightTimeout));
      var lcdOverride := fs.Stat(Fixed(Attribute.LcdOverride));
      var usbCharging := fs.Stat(Fixed(Attribute.UsbCharging));
      var bootAnimationSound := fs.Stat(Fixed(Attribute.BootAnimationSound));
      var perZone := fs.Stat(Fixed(Attribute.PerZoneMode));
      var effects := fs.Stat(Fixed(Attribute.FourZoneMode));
      r := Capabilities(fanSpeed, cpuRpm.Some? || gpuRpm.Some?, profile && choices, batteryLimiter, batteryCalibration,
                        backlightTimeout, lcdOverride, usbCharging, bootAnimationSound, perZone, effects,
                        cpu.Some?, gpu.Some?);
    }

    // ----- sensors -----

    method ReadOptionalInt(path: Option<Path>) returns (r: Option<int>)
      ensures r == ReadInt(fs.tree, path)
    {
      if path.None? {
        return None;
      }
      var raw := fs.ReadTextFile(path.value);
      if raw.None? {
        return None;
      }
      return Atoi(raw.value);
    }

    /** Resolves the paths again when a stored one has stopped reading. */
    method SensorsWentStale(first: Option<Path>, firstFailed: bool, second: Option<Path>, secondFailed: bool)
      returns (resolved: bool)
      modifies this`sensors, this`resolutions
      ensures resolved == ((first.Some? && firstFailed) || (second.Some? && secondFailed))
      ensures if resolved then sensors == Resolve(fs.tree) && resolutions == old(resolutions) + 1
              else sensors == old(sensors) && resolutions == old(resolutions)
    {
      if (first.None? || !firstFailed) && (second.None? || !secondFailed) {
        return false;
      }
      sensors := ResolveSensors(fs);
      resolutions := resolutions + 1;
      return true;
    }

    method ReadFanRpm() returns (cpu: Option<int>, gpu: Option<int>)
      modifies this`sensors, this`resolutions
      ensures PairRead(cpu, gpu, sensors) == ReadFans(fs.tree, old(sensors))
      ensures resolutions <= old(resolutions) + 1
    {
      hide Resolve, ReadInt;
      cpu := ReadOptionalInt(sensors.cpuFan);
      gpu := ReadOptionalInt(sensors.gpuFan);
      var resolved := SensorsWentStale(sensors.cpuFan, cpu.None?, sensors.gpuFan, gpu.None?);
      if resolved {
        cpu := ReadOptionalInt(sensors.cpuFan);
        gpu := ReadOptionalInt(sensors.gpuFan);
      }
    }

    method ReadTemperaturePair() returns (cpu: Option<int>, gpu: Option<int>)
      modifies this`sensors, this`resolutions
      ensures PairRead(cpu, gpu, sensors) == ReadTemperatures(fs.tree, old(sensors))
      ensures resolutions <= old(resolutions) + 1
    {
      hide Resolve, ReadInt;
      cpu := ReadOptionalInt(sensors.cpuTemp);
      gpu := ReadOptionalInt(sensors.gpuTemp);
      var resolved := SensorsWentStale(sensors.cpuTemp, cpu.None?, sensors.gpuTemp, gpu.None?);
      if resolved {
        cpu := ReadOptionalInt(sensors.cpuTemp);
        gpu := ReadOptionalInt(sensors.gpuTemp);
      }
    }

    // ----- single attributes -----

    method ReadBool(a: Attribute) returns (r: Option<bool>)
      ensures r == FlagAt(fs.tree, a)
    {
      var raw := fs.ReadTextFile(Fixed(a));
      if raw.None? {
        return None;
      }
      match raw.value {
        case "0" => return Some(false);
        case "1" => return Some(true);
        case _ => return None;
      }
    }

    method ReadUsb() returns (r: Option<int>)
      ensures r == UsbAt(fs.tree)
    {
      var raw := fs.ReadTextFile(Fixed(Attribute.UsbCharging));
      if raw.None? {
        return None;
      }
      var value := Atoi(raw.value);
      if value.None? || (value.value != 0 && value.value != 10 && value.value != 20 && value.value != 30) {
        return None;
      }
      return value;
    }

    method ReadFanSetting() returns (r: Option<FanSetting>)
      ensures r == FansAt(fs.tree)
    {
      var raw := fs.ReadTextFile(Fixed(Attribute.FanSpeed));
      if raw.None? {
        return None;
      }
      var value := ParseFanSetting(raw.value);
      return if value.Ok? then Some(value.value) else None;
    }

    method ReadZones() returns (r: Option<ZoneSetting>)
      ensures r == ZonesAt(fs.tree)
    {
      hide ZoneOf;
      var raw := fs.ReadTextFile(Fixed(Attribute.PerZoneMode));
      if raw.None? {
        return None;
      }
      var value := ParseZoneSetting(raw.value);
      return if value.Ok? then Some(value.value) else None;
    }

    method ReadEffect() returns (r: Option<EffectSetting>)
      ensures r == EffectAt(fs.tree)
    {
      hide EffectOf;
      var raw := fs.ReadTextFile(Fixed(Attribute.FourZoneMode));
      if raw.None? {
        return None;
      }
      var value := ParseEffectSetting(raw.value);
      return if value.Ok? then Some(value.value) else None;
    }

    method ReadPowerSource() returns (r: PowerSource)
      ensures r == PowerSourceOf(fs.tree)
      ensures IsSource(fs.tree, r)
    {
      hide IsMains, IsOnline, IsSource;
      PowerMeaning(fs.tree, PowerSourceOf(fs.tree));
      var entries := fs.ReadSupplyClass();
      if entries.None? {
        return UnknownPower;
      }
      var names := entries.value;
      var foundMains := false;
      for i := 0 to |names|
        invariant foundMains <==> exists k :: 0 <= k < i && IsMains(fs.tree, names[k])
        invariant forall k :: 0 <= k < i ==> !(IsMains(fs.tree, names[k]) && IsOnline(fs.tree, names[k]))
      {
        var mains := SupplyIsMains(names[i]);
        if !mains {
          continue;
        }
        foundMains := true;
        var online := SupplyIsOnline(names[i]);
        if online {
          return Ac;
        }
      }
      return if foundMains then Battery else UnknownPower;
    }

    method SupplyIsMains(supply: string) returns (r: bool)
      ensures r == IsMains(fs.tree, supply)
    {
      var kind := fs.ReadTextFile(Supply(supply, "type"));
      return kind == Some("Mains") || HasPrefix(ToUpper(supply), "AC");
    }

    method SupplyIsOnline(supply: string) returns (r: bool)
      ensures r == IsOnline(fs.tree, supply)
    {
      var online := fs.ReadTextFile(Supply(supply, "online"));
      return online == Some("1");
    }

    // ----- snapshots -----

    method InvalidateSlow()
      modifies this`slow
      ensures View() == Invalidated(old(View()))
    {
      slow := slow.(stamp := ZERO_TIME);
    }

    /** One gated switch of refreshSlow: its value, with its section noted if the read failed. */
    method ReadSwitch(enabled: bool, a: Attribute, section: Section, degraded: seq<Section>)
      returns (value: bool, noted: seq<Section>)
      ensures value == Or(Gate(enabled, FlagAt(fs.tree, a)), false)
      ensures noted == degraded + Note(Gate(enabled, FlagAt(fs.tree, a)), section)
    {
      hide FlagAt;
      if !enabled {
        return false, degraded;
      }
      var r := ReadBool(a);
      if r.None? {
        return false, degraded + [section];
      }
      return r.value, degraded;
    }

    method ReadSettings() returns (settings: SettingsState, noted: seq<Section>)
      ensures settings == Settings(fs.tree, caps)
      ensures noted == SettingsDegraded(fs.tree, caps)
    {
      hide FlagAt, Note, Gate, Or;
      var limiter, calibration, timeout, lcd, sound;
      limiter, noted := ReadSwitch(caps.batteryLimiter, Attribute.BatteryLimiter, Section.BatteryLimiter, []);
      assert noted ==
             Note(Gate(caps.batteryLimiter, FlagAt(fs.tree, Attribute.BatteryLimiter)), Section.BatteryLimiter);
      calibration, noted :=
        ReadSwitch(caps.batteryCalibration, Attribute.BatteryCalibration, Section.BatteryCalibration, noted);
      timeout, noted := ReadSwitch(caps.backlightTimeout, Attribute.BacklightTimeout, Section.BacklightTimeout, noted);
      lcd, noted := ReadSwitch(caps.lcdOverride, Attribute.LcdOverride, Section.LcdOverride, noted);
      sound, noted :=
        ReadSwitch(caps.bootAnimationSound, Attribute.BootAnimationSound, Section.BootAnimationSound, noted);
      var usb;
      usb, noted := ReadUsbLevel(noted);
      settings := SettingsState(limiter, calibration, timeout, lcd, usb, sound);
    }

    method ReadUsbLevel(degraded: seq<Section>) returns (level: int, noted: seq<Section>)
      ensures level == Or(Gate(caps.usbCharging, UsbAt(fs.tree)), 0)
      ensures noted == degraded + Note(Gate(caps.usbCharging, UsbAt(fs.tree)), Section.UsbCharging)
    {
      hide UsbAt;
      if !caps.usbCharging {
        return 0, degraded;
      }
      var usb := ReadUsb();
      if usb.None? {
        return 0, degraded + [Section.UsbCharging];
      }
      return usb.value, degraded;
    }

    method ReadKeyboard() returns (keyboard: KeyboardState, noted: seq<Section>)
      ensures keyboard == Keyboard(fs.tree, caps)
      ensures noted == KeyboardDegraded(fs.tree, caps)
    {
      hide ZonesAt, EffectAt;
      keyboard := KeyboardState(None, None);
      noted := [];
      if caps.keyboardPerZone {
        var zones := ReadZones();
        if zones.None? {
          noted := noted + [Section.KeyboardPerZone];
        }
        keyboard := keyboard.(perZone := zones);
      }
      if caps.keyboardEffects {
        var effect := ReadEffect();
        if effect.None? {
          noted := noted + [Section.KeyboardEffects];
        }
        keyboard := keyboard.(effect := effect);
      }
    }

    method ReadChoices() returns (choices: seq<string>, noted: seq<Section>)
      ensures choices == Or(Gate(caps.thermalProfile, ChoicesAt(fs.tree)), [])
      ensures noted == Note(Gate(caps.thermalProfile, ChoicesAt(fs.tree)), Section.ProfileChoices)
    {
      if !caps.thermalProfile {
        return [], [];
      }
      var raw := fs.ReadTextFile(Fixed(Attribute.ProfileChoices));
      if raw.None? {
        return [], [Section.ProfileChoices];
      }
      return Fields(raw.value), [];
    }

    method RefreshSlowState(now: int)
      modifies this`slow
      ensures slow == RefreshSlow(fs.tree, caps, now)
    {
      hide Settings, Keyboard, SettingsDegraded, KeyboardDegraded, Gate, Or, Note;
      var next := NO_SLOW.(stamp := now);
      var choices, noChoices := ReadChoices();
      var settings, noSettings := ReadSettings();
      var keyboard, noKeyboard := ReadKeyboard();
      next := next.(profileChoices := choices, settings := settings, keyboard := keyboard,
                    degraded := noChoices + noSettings + noKeyboard);
      var version := fs.ReadTextFile(Fixed(Attribute.Version));
      if version.Some? {
        next := next.(driverVersion := version.value);
      }
      slow := next;
    }

    /** The profile and the fan setting, read on every snapshot. */
    method ReadFastSettings(cpuRpm: Option<int>, gpuRpm: Option<int>)
      returns (current: Option<string>, fans: FanState, degraded: seq<Section>)
      ensures current == (if caps.thermalProfile then ProfileAt(fs.tree) else None)
      ensures fans == FanPart(fs.tree, caps, PairRead(cpuRpm, gpuRpm, sensors))
      ensures degraded == Note(Gate(caps.thermalProfile, ProfileAt(fs.tree)), Section.ThermalProfile) +
                          Note(Gate(caps.fanControl, FansAt(fs.tree)), Section.FanControl)
    {
      hide FansAt, ReadText;
      degraded := [];
      current := None;
      if caps.thermalProfile {
        current := fs.ReadTextFile(Fixed(Attribute.PlatformProfile));
        if current.None? {
          degraded := degraded + [Section.ThermalProfile];
        }
      }
      fans := FanState(NoMode, 0, 0, cpuRpm, gpuRpm, false);
      if caps.fanControl {
        var setting := ReadFanSetting();
        if setting.None? {
          degraded := degraded + [Section.FanControl];
        } else {
          var f := setting.value;
          fans := fans.(cpu := f.cpu, gpu := f.gpu);
          if f.cpu == 0 && f.gpu == 0 {
            fans := fans.(mode := Auto);
          } else if f.cpu == 100 && f.gpu == 100 {
            fans := fans.(mode := Max);
          } else {
            fans := fans.(mode := Manual);
          }
          fans := fans.(manualAllowed := current != Some("quiet"));
        }
      }
    }

    /** Notes the sensors that were probed and have gone silent. */
    method NoteSilence(degraded: seq<Section>, rpm: PairRead, temperatures: PairRead) returns (noted: seq<Section>)
      requires degraded == Note(Gate(caps.thermalProfile, ProfileAt(fs.tree)), Section.ThermalProfile) +
                           Note(Gate(caps.fanControl, FansAt(fs.tree)), Section.FanControl)
      ensures noted == FastDegraded(fs.tree, caps, rpm, temperatures)
    {
      hide Note, Gate;
      noted := degraded;
      if caps.fanTelemetry && rpm.cpu.None? && rpm.gpu.None? {
        noted := noted + [Section.FanTelemetry];
      }
      if caps.cpuTemperature && temperatures.cpu.None? {
        noted := noted + [Section.CpuTemperature];
      }
      if caps.gpuTemperature && temperatures.gpu.None? {
        noted := noted + [Section.GpuTemperature];
      }
    }

    method DescribeProfile(current: Option<string>, power: PowerSource) returns (profile: ProfileState)
      requires current == (if caps.thermalProfile then ProfileAt(fs.tree) else None) && power == PowerSourceOf(fs.tree)
      ensures profile == ProfilePart(fs.tree, caps, slow)
    {
      hide ProfileName, AvailableProfiles, PowerSourceOf, ProfileAt;
      profile := ProfileState("", "", []);
      if current.Some? {
        profile := profile.(value := current.value, name := ProfileName(current.value));
      }
      if caps.thermalProfile {
        var available := ListAvailable(slow.profileChoices, power);
        profile := profile.(available := available);
      }
    }

    method TakeSnapshot(k: Ticks) returns (state: State)
      modifies this`sensors, this`resolutions, this`slow
      ensures (state, View()) == Snapshot(fs.tree, old(View()), k)
      ensures resolutions <= old(resolutions) + 2
    {
      hide ReadFans, ReadTemperatures, FanPart, ProfilePart, RefreshSlow, PowerSourceOf, FastDegraded, Note, Gate;
      var power := ReadPowerSource();
      var cpuRpm, gpuRpm := ReadFanRpm();
      ghost var rpm := PairRead(cpuRpm, gpuRpm, sensors);
      var current, fans, degraded := ReadFastSettings(cpuRpm, gpuRpm);
      var cpu, gpu := ReadTemperaturePair();
      degraded := NoteSilence(degraded, PairRead(cpuRpm, gpuRpm, sensors), PairRead(cpu, gpu, sensors));
      SilenceIgnoresPaths(fs.tree, caps, PairRead(cpuRpm, gpuRpm, sensors), rpm, PairRead(cpu, gpu, sensors));
      if Sub(k.check, slow.stamp) > SLOW_TTL {
        RefreshSlowState(k.stamp);
      }
      var profile := DescribeProfile(current, power);
      state := State(k.timestamp, power, profile, fans, cpu, gpu, slow.settings, slow.keyboard, caps,
                     slow.driverVersion, degraded + slow.degraded);
    }

    /** availableProfiles: the known options, in their order, that are chosen and permitted. */
    method ListAvailable(choices: seq<string>, power: PowerSource) returns (r: seq<ProfileOption>)
      ensures r == AvailableProfiles(choices, power)
    {
      var choiceSet := set choice | choice in choices;
      var permitted: set<string>;
      match power {
        case Battery => permitted := {"low-power", "balanced"};
        case Ac => permitted := {"quiet", "balanced", "balanced-performance", "performance"};
        case UnknownPower => permitted := {"balanced"};
      }
      assert forall value :: Permitted(value, power) <==> value in permitted;
      r := [];
      for i := 0 to |PROFILE_OPTIONS|
        invariant r == Offered(PROFILE_OPTIONS[..i], choices, power)
      {
        var option := PROFILE_OPTIONS[i];
        assert PROFILE_OPTIONS[..i + 1][..i] == PROFILE_OPTIONS[..i];
        assert IsOffered(option.value, choices, power) <==> option.value in choiceSet && option.value in permitted;
        if option.value in choiceSet && option.value in permitted {
          r := r + [option];
        }
      }
      assert PROFILE_OPTIONS[..|PROFILE_OPTIONS|] == PROFILE_OPTIONS;
    }

    // ----- writes -----

    /** The tail every setter shares: write, invalidate, read back. */
    method Commit(k: Ticks, a: Attribute, data: string, w: WriteResult) returns (r: Result<State, Refusal>)
      modifies this, fs
      ensures var o := WriteAndReadBack(old(View()), k, a, data, w);
              r == o.result && View() == o.core && fs.tree == o.tree && fs.writes == old(fs.writes) + o.writes
    {
      hide Hardware.Snapshot;
      var ok := fs.WriteFile(Fixed(a), data, w);
      if !ok {
        return Err(WriteFailed);
      }
      InvalidateSlow();
      var state := TakeSnapshot(k);
      return Ok(state);
    }

    method SetProfile(value: string, k: Ticks, w: WriteResult) returns (r: Result<State, Refusal>)
      modifies this, fs
      ensures var o := Hardware.SetProfile(old(fs.tree), old(View()), k, value, w);
              r == o.result && View() == o.core && fs.tree == o.tree && fs.writes == old(fs.writes) + o.writes
    {
      hide WriteAndReadBack, AvailableProfiles, PowerSourceOf;
      if !caps.thermalProfile {
        return Err(Unsupported);
      }
      var choices := fs.ReadTextFile(Fixed(Attribute.ProfileChoices));
      if choices.None? {
        return Err(ReadFailed);
      }
      var power := ReadPowerSource();
      var options := ListAvailable(Fields(choices.value), power);
      var allowed := false;
      for i := 0 to |options|
        invariant allowed <==> exists j :: 0 <= j < i && options[j].value == value
      {
        if options[i].value == value {
          allowed := true;
          break;
        }
      }
      if !allowed {
        return Err(NotAvailable);
      }
      r := Commit(k, Attribute.PlatformProfile, value, w);
    }

    method SetFans(setting: FanSetting, confirmed: bool, k: Ticks, w: WriteResult) returns (r: Result<State, Refusal>)
      modifies this, fs
      ensures var o := Hardware.SetFans(old(fs.tree), old(View()), k, setting, confirmed, w);
              r == o.result && View() == o.core && fs.tree == o.tree && fs.writes == old(fs.writes) + o.writes
    {
      hide WriteAndReadBack;
      if !caps.fanControl {
        return Err(Unsupported);
      }
      if !setting.Valid() {
        return Err(Invalid);
      }
      var profile := fs.ReadTextFile(Fixed(Attribute.PlatformProfile));
      var isAuto := setting.cpu == 0 && setting.gpu == 0;
      if profile == Some("quiet") && !isAuto {
        return Err(Conflict);
      }
      var isHighPerformance := profile == Some("balanced-performance") || profile == Some("performance");
      if isHighPerformance && !isAuto && (setting.cpu < 20 || setting.gpu < 20) && !confirmed {
        return Err(ConfirmationRequired);
      }
      r := Commit(k, Attribute.FanSpeed, setting.ToText(), w);
    }

    method SetBoolean(name: string, value: bool, confirmed: bool, k: Ticks, w: WriteResult)
      returns (r: Result<State, Refusal>)
      modifies this, fs
      ensures var o := Hardware.SetBoolean(old(fs.tree), old(View()), k, name, value, confirmed, w);
              r == o.result && View() == o.core && fs.tree == o.tree && fs.writes == old(fs.writes) + o.writes
    {
      hide WriteAndReadBack;
      var supported, a;
      match name {
        case "battery-limiter" =>
          supported, a := caps.batteryLimiter, Attribute.BatteryLimiter;
        case "battery-calibration" =>
          supported, a := caps.batteryCalibration, Attribute.BatteryCalibration;
          if value && !confirmed {
            return Err(ConfirmationRequired);
          }
        case "backlight-timeout" =>
          supported, a := caps.backlightTimeout, Attribute.BacklightTimeout;
        case "lcd-override" =>
          supported, a := caps.lcdOverride, Attribute.LcdOverride;
        case "boot-animation-sound" =>
          supported, a := caps.bootAnimationSound, Attribute.BootAnimationSound;
        case _ =>
          return Err(Unsupported);
      }
      if !supported {
        return Err(Unsupported);
      }
      r := Commit(k, a, if value then "1" else "0", w);
    }

    method SetUsbCharging(value: int, k: Ticks, w: WriteResult) returns (r: Result<State, Refusal>)
      modifies this, fs
      ensures var o := Hardware.SetUsbCharging(old(fs.tree), old(View()), k, value, w);
              r == o.result && View() == o.core && fs.tree == o.tree && fs.writes == old(fs.writes) + o.writes
    {
      hide WriteAndReadBack;
      if !caps.usbCharging {
        return Err(Unsupported);
      }
      if value != 0 && value != 10 && value != 20 && value != 30 {
        return Err(Invalid);
      }
      r := Commit(k, Attribute.UsbCharging, Itoa(value), w);
    }

    method SetPerZone(value: ZoneSetting, k: Ticks, w: WriteResult) returns (r: Result<State, Refusal>)
      modifies this, fs
      ensures var o := Hardware.SetPerZone(old(fs.tree), old(View()), k, value, w);
              r == o.result && View() == o.core && fs.tree == o.tree && fs.writes == old(fs.writes) + o.writes
    {
      hide WriteAndReadBack;
      if !caps.keyboardPerZone {
        return Err(Unsupported);
      }
      if !value.Valid() {
        return Err(Invalid);
      }
      r := Commit(k, Attribute.PerZoneMode, value.ToText(), w);
    }

    method SetEffect(value: EffectSetting, k: Ticks, w: WriteResult) returns (r: Result<State, Refusal>)
      modifies this, fs
      ensures var o := Hardware.SetEffect(old(fs.tree), old(View()), k, value, w);
              r == o.result && View() == o.core && fs.tree == o.tree && fs.writes == old(fs.writes) + o.writes
    {
      hide WriteAndReadBack;
      if !caps.keyboardEffects {
        return Err(Unsupported);
      }
      if !value.Valid() {
        return Err(Invalid);
      }
      r := Commit(k, Attribute.FourZoneMode, value.ToText(), w);
    }
  }

  lemma SilenceIgnoresPaths(t: Tree, caps: Capabilities, rpm: PairRead, same: PairRead, temperatures: PairRead)
    requires rpm.cpu == same.cpu && rpm.gpu == same.gpu
    ensures FastDegraded(t, caps, rpm, temperatures) == FastDegraded(t, caps, same, temperatures)
  {}
}
