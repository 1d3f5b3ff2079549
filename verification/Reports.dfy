/** What a snapshot and a probe report, read off the files. */
module Reports {
  import opened Results
  import opened Text
  import opened Clock
  import opened Codecs
  import opened Store
  import opened SensorCache
  import opened Hardware
  import opened Refusals

  // ----- single files -----

  lemma FlagMeaning(t: Tree, a: Attribute)
    ensures FlagAt(t, a) == Some(true) <==> Reads(t, a, "1")
    ensures FlagAt(t, a) == Some(false) <==> Reads(t, a, "0")
  {}

  lemma UsbMeaning(t: Tree, n: int)
    ensures UsbAt(t) == Some(n) <==>
            exists text :: Reads(t, Attribute.UsbCharging, text) && Atoi(text) == Some(n) && n in {0, 10, 20, 30}
  {
    hide Atoi;
    if UsbAt(t) == Some(n) { assert Reads(t, Attribute.UsbCharging, ReadText(t, Fixed(Attribute.UsbCharging)).value); }
  }

  /** A sensor file holds one integer, with white space allowed around it. */
  lemma ReadingMeaning(t: Tree, path: Path, n: int)
    requires IsInt64(n)
    ensures forall pre, post :: AllSpace(pre) && AllSpace(post) && Read(t, path) == Some(pre + Itoa(n) + post) ==>
              ReadInt(t, Some(path)) == Some(n)
    ensures Read(t, path).None? ==> ReadInt(t, Some(path)) == None
  {
    hide Itoa, Atoi, TrimSpace, IsTrimmed;
    AtoiItoa(n);
    ItoaCharacters(n);
    forall pre, post | AllSpace(pre) && AllSpace(post) && Read(t, path) == Some(pre + Itoa(n) + post)
      ensures ReadInt(t, Some(path)) == Some(n)
    {
      TrimSpacePadded(pre, Itoa(n), post);
    }
  }

  // ----- the snapshot -----

  /** The name a profile is shown under; one that is not known is shown by its value. */
  predicate IsShownAs(v: string, name: string) {
    name == (if v == "low-power" then "Eco" else if v == "quiet" then "Silent" else if v == "balanced" then "Balanced"
             else if v == "balanced-performance" then "Performance" else if v == "performance" then "Turbo" else v)
  }

  lemma NameMeaning(v: string)
    ensures IsShownAs(v, ProfileName(v))
  {
    OptionStep(PROFILE_OPTIONS, v);
    OptionStep(PROFILE_OPTIONS[1..], v);
    OptionStep(PROFILE_OPTIONS[2..], v);
    OptionStep(PROFILE_OPTIONS[3..], v);
    OptionStep(PROFILE_OPTIONS[4..], v);
    assert PROFILE_OPTIONS[1..][1..] == PROFILE_OPTIONS[2..] && PROFILE_OPTIONS[2..][1..] == PROFILE_OPTIONS[3..];
    assert PROFILE_OPTIONS[3..][1..] == PROFILE_OPTIONS[4..] && PROFILE_OPTIONS[4..][1..] == [];
  }

  lemma OptionStep(options: seq<ProfileOption>, v: string)
    requires options != []
    ensures OptionNamed(options, v) == if options[0].value == v then options[0] else OptionNamed(options[1..], v)
  {}

  /** The parts of a snapshot that are read every time. */
  lemma SnapshotReports(t: Tree, c: Core, k: Ticks)
    ensures var s := Snapshot(t, c, k).0;
            && s.timestamp == k.timestamp && IsSource(t, s.powerSource) && s.capabilities == c.caps
            && (forall v :: c.caps.thermalProfile && Reads(t, Attribute.PlatformProfile, v) ==>
                  s.profile.value == v && IsShownAs(v, s.profile.name))
            && (!c.caps.thermalProfile ==> s.profile == ProfileState("", "", []))
  {
    hide ReadFans, ReadTemperatures, SlowNow, FanPart, FastDegraded, PowerSourceOf, ReadText, AvailableProfiles,
         ProfileName, IsSource, IsShownAs;
    PowerMeaning(t, PowerSourceOf(t));
    forall v ensures IsShownAs(v, ProfileName(v)) { NameMeaning(v); }
  }

  /** The mode goes by the two speeds; there is none when they were not read. */
  lemma ModeMeaning(t: Tree, c: Core, k: Ticks)
    ensures var f := Snapshot(t, c, k).0.fans;
            var read := c.caps.fanControl && FansAt(t).Some?;
            && (f.mode == NoMode <==> !read)
            && (f.mode == Auto <==> read && f.cpu == 0 && f.gpu == 0)
            && (f.mode == Max <==> read && f.cpu == 100 && f.gpu == 100)
            && (f.mode == Manual <==> read && !(f.cpu == 0 && f.gpu == 0) && !(f.cpu == 100 && f.gpu == 100))
            && (read ==> FansAt(t) == Some(FanSetting(f.cpu, f.gpu)))
  {
    hide ReadFans, ReadTemperatures, SlowNow, ProfilePart, FastDegraded, PowerSourceOf, FansAt, ProfileAt;
  }

  /** Everything slow is read again exactly when it is more than 30 seconds old. */
  lemma RefreshedExactly(t: Tree, c: Core, k: Ticks)
    ensures Snapshot(t, c, k).1.slow ==
            if k.check - c.slow.stamp > 30_000_000_000 then RefreshSlow(t, c.caps, k.stamp) else c.slow
  {
    hide ReadFans, ReadTemperatures, RefreshSlow, ProfilePart, FanPart, FastDegraded, PowerSourceOf;
  }

  /** The driver version and the choices of a refresh. */
  lemma RefreshReports(t: Tree, caps: Capabilities, now: int)
    ensures var slow := RefreshSlow(t, caps, now);
            && slow.stamp == now
            && (forall v :: Reads(t, Attribute.Version, v) ==> slow.driverVersion == v)
            && (ReadText(t, Fixed(Attribute.Version)).None? ==> slow.driverVersion == "")
            && (forall v :: caps.thermalProfile && Reads(t, Attribute.ProfileChoices, v) ==>
                  slow.profileChoices == Fields(v))
            && (!caps.thermalProfile || ReadText(t, Fixed(Attribute.ProfileChoices)).None? ==>
                  slow.profileChoices == [])
  {
    hide ReadText, Settings, Keyboard, SlowDegraded, Fields;
  }

  // ----- the probe -----

  /** Which files and which readings make up the capabilities. */
  lemma ProbeMeaning(t: Tree)
    ensures var caps := NewCore(t).caps;
            && (caps.fanControl <==> Exists(t, Fixed(Attribute.FanSpeed)))
            && (caps.fanTelemetry <==> FreshFans(t).0.Some? || FreshFans(t).1.Some?)
            && (caps.thermalProfile <==>
                Exists(t, Fixed(Attribute.PlatformProfile)) && Exists(t, Fixed(Attribute.ProfileChoices)))
            && (caps.batteryLimiter <==> Exists(t, Fixed(Attribute.BatteryLimiter)))
            && (caps.batteryCalibration <==> Exists(t, Fixed(Attribute.BatteryCalibration)))
            && (caps.backlightTimeout <==> Exists(t, Fixed(Attribute.BacklightTimeout)))
            && (caps.lcdOverride <==> Exists(t, Fixed(Attribute.LcdOverride)))
            && (caps.usbCharging <==> Exists(t, Fixed(Attribute.UsbCharging)))
            && (caps.bootAnimationSound <==> Exists(t, Fixed(Attribute.BootAnimationSound)))
            && (caps.keyboardPerZone <==> Exists(t, Fixed(Attribute.PerZoneMode)))
            && (caps.keyboardEffects <==> Exists(t, Fixed(Attribute.FourZoneMode)))
            && (caps.cpuTemperature <==> FreshTemperatures(t).0.Some?)
            && (caps.gpuTemperature <==> FreshTemperatures(t).1.Some?)
  {
    hide Sensors.Resolve, ReadInt, Exists;
  }
}
