/** When the caches cannot be told from reading everything afresh. */
module Caches {
  import opened Text
  import opened Store
  import opened Sensors
  import opened SensorCache
  import opened Hardware
  import opened Degradation
  import opened ReadBack
  import opened Runs

  // ----- the slow values -----

  /** The slow attributes read alike. */
  ghost predicate SameSlow(t: Tree, u: Tree) {
    forall a :: IsSlow(a) ==> ReadText(t, Fixed(a)) == ReadText(u, Fixed(a))
  }

  ghost predicate SameFiles(t: Tree, u: Tree) {
    forall a :: Exists(t, Fixed(a)) <==> Exists(u, Fixed(a))
  }

  lemma RefreshReadsSlow(t: Tree, u: Tree, caps: Capabilities, now: int)
    requires SameSlow(t, u)
    ensures RefreshSlow(t, caps, now) == RefreshSlow(u, caps, now)
  {
    hide ReadText, Gate, Or, Note, Pointer, Fields, Codecs.ZoneOf, Codecs.EffectOf, Atoi, IsUsbLevel;
    assert forall a: Attribute :: a.Version? ==> ReadText(t, Fixed(a)) == ReadText(u, Fixed(a));
    assert forall a: Attribute :: IsSlow(a) ==> FlagAt(t, a) == FlagAt(u, a);
    assert UsbAt(t) == UsbAt(u) && ZonesAt(t) == ZonesAt(u) && EffectAt(t) == EffectAt(u);
    assert ChoicesAt(t) == ChoicesAt(u) && VersionAt(t) == VersionAt(u);
    RefreshOfReadings(t, u, caps, now);
  }

  lemma RefreshOfReadings(t: Tree, u: Tree, caps: Capabilities, now: int)
    requires forall a: Attribute :: IsSlow(a) ==> FlagAt(t, a) == FlagAt(u, a)
    requires UsbAt(t) == UsbAt(u) && ZonesAt(t) == ZonesAt(u) && EffectAt(t) == EffectAt(u)
    requires ChoicesAt(t) == ChoicesAt(u) && VersionAt(t) == VersionAt(u)
    ensures RefreshSlow(t, caps, now) == RefreshSlow(u, caps, now)
  {
    hide FlagAt, UsbAt, ZonesAt, EffectAt, ChoicesAt, VersionAt, Gate, Or, Note, Pointer;
  }

  /** The capabilities that gate the slow values are those of the files that exist. */
  ghost predicate GatesMatch(t: Tree, caps: Capabilities) {
    && caps.thermalProfile ==
       (Exists(t, Fixed(Attribute.PlatformProfile)) && Exists(t, Fixed(Attribute.ProfileChoices)))
    && caps.batteryLimiter == Exists(t, Fixed(Attribute.BatteryLimiter))
    && caps.batteryCalibration == Exists(t, Fixed(Attribute.BatteryCalibration))
    && caps.backlightTimeout == Exists(t, Fixed(Attribute.BacklightTimeout))
    && caps.lcdOverride == Exists(t, Fixed(Attribute.LcdOverride))
    && caps.usbCharging == Exists(t, Fixed(Attribute.UsbCharging))
    && caps.bootAnimationSound == Exists(t, Fixed(Attribute.BootAnimationSound))
    && caps.keyboardPerZone == Exists(t, Fixed(Attribute.PerZoneMode))
    && caps.keyboardEffects == Exists(t, Fixed(Attribute.FourZoneMode))
  }

  lemma ProbeMatches(t: Tree, s: SensorPaths)
    ensures GatesMatch(t, Probe(t, s).0)
  {
    hide ReadFans, ReadTemperatures;
  }

  lemma GatesDecideRefresh(t: Tree, caps: Capabilities, caps': Capabilities, now: int)
    requires GatesMatch(t, caps) && GatesMatch(t, caps')
    ensures RefreshSlow(t, caps, now) == RefreshSlow(t, caps', now)
  {
    hide FlagAt, UsbAt, ZonesAt, EffectAt, ChoicesAt, VersionAt, Gate, Or, Note, Pointer;
  }

  /** Only this controller changes what the slow attributes read: nothing else does, a call that
      fails does not, and none of the files appears or goes away. What a successful write does
      to them is left open. */
  ghost predicate OnlyOurs(xs: seq<World>, steps: seq<Step>)
    requires |xs| == |steps| + 1
  {
    forall i :: 0 <= i < |steps| ==>
      && SameFiles(xs[i].tree, xs[i + 1].tree)
      && (SameSlow(xs[i].tree, xs[i + 1].tree) || (steps[i].Call? && Answer(xs[i], steps[i]).Ok?))
  }

  /** The cached slow values are those of a refresh done now. */
  ghost predicate SlowIsNow(x: World) {
    x.core.slow == RefreshSlow(x.tree, x.core.caps, x.core.slow.stamp)
  }

  lemma {:induction false} SlowStaysCurrent(xs: seq<World>, steps: seq<Step>, n: nat)
    requires IsRun(xs, steps) && IsPlausibleRun(steps) && OnlyOurs(xs, steps) && n <= |steps|
    ensures GatesMatch(xs[n].tree, xs[n].core.caps)
    ensures xs[n].core.slow == NO_SLOW || SlowIsNow(xs[n])
  {
    hide Perform, Snapshot, Probe, RefreshSlow, IsOld, IsPlausible, Before, Invalidated, GatesMatch, SameSlow,
         SameFiles, Resolve;
    if n == 0 {
      ProbeMatches(xs[0].tree, Resolve(xs[0].tree));
    } else {
      SlowStaysCurrent(xs, steps, n - 1);
      var x, y, step := xs[n - 1], xs[n], steps[n - 1];
      assert y == Next(x, step) && SameFiles(x.tree, y.tree);
      if step.Call? && Answer(x, step).Ok? {
        CallStep(x, step);
        SnapshotCaches(y.tree, Before(x.core, step.op), step.k);
        BeforeCaps(x.core, step.op);
        BeforeIsOld(x.core, step.op, step.k);
        GatesKept(x.tree, y.tree, x.core.caps);
        if step.op.Look? { LookKeepsTree(x, step); }
        StampOf(y.tree, y.core.caps, step.k.stamp);
      } else {
        if step.Call? { CallStep(x, step); }
        GatesKept(x.tree, y.tree, x.core.caps);
        RefreshReadsSlow(x.tree, y.tree, x.core.caps, x.core.slow.stamp);
        if step.Reprobe? {
          ProbeMatches(x.tree, x.core.sensors);
          GatesDecideRefresh(y.tree, x.core.caps, y.core.caps, x.core.slow.stamp);
        }
      }
    }
  }

  lemma LookKeepsTree(x: World, step: Step)
    requires step.Call? && step.op.Look?
    ensures Next(x, step).tree == x.tree
  {
    hide Snapshot;
  }

  lemma GatesKept(t: Tree, u: Tree, caps: Capabilities)
    requires SameFiles(t, u) && GatesMatch(t, caps)
    ensures GatesMatch(u, caps)
  {}

  /** Two slow values that differ in their stamps alone are reported alike. */
  lemma StampIsUnreported(t: Tree, c: Core, k: Ticks)
    requires IsPlausible(k) && (IsOld(c.slow, k) || c.slow == RefreshSlow(t, c.caps, c.slow.stamp))
    ensures Snapshot(t, c, k).0 == Snapshot(t, Invalidated(c), k).0
  {
    hide ReadFans, ReadTemperatures, Settings, Keyboard, SlowDegraded, FastDegraded, PowerSourceOf, VersionAt,
         ChoicesAt, FanPart, AvailableProfiles;
  }

  /** When only this controller changes the slow attributes, every state a call returns is the
      one that a controller without the cache would return. */
  lemma CacheIsInvisible(xs: seq<World>, steps: seq<Step>, n: nat)
    requires IsRun(xs, steps) && IsPlausibleRun(steps) && OnlyOurs(xs, steps)
    requires n < |steps| && steps[n].Call?
    ensures var answer := Answer(xs[n], steps[n]);
            answer.Ok? ==> answer.value == Snapshot(xs[n + 1].tree, Invalidated(xs[n].core), steps[n].k).0
  {
    hide Perform, Snapshot, Probe, RefreshSlow, IsOld, IsPlausible, GatesMatch, OnlyOurs;
    var x, step := xs[n], steps[n];
    assert xs[n + 1] == Next(x, step);
    SlowStaysCurrent(xs, steps, n);
    CallStep(x, step);
    if step.op.Look? {
      LookKeepsTree(x, step);
      BeforeIsOld(x.core, step.op, step.k);
      StampIsUnreported(x.tree, x.core, step.k);
    }
  }

  // ----- the sensor paths -----

  /** In every reached state the sensor paths are those of some tree of the run. */
  lemma {:induction false} SensorsWereResolved(xs: seq<World>, steps: seq<Step>, n: nat)
    requires IsRun(xs, steps) && n <= |steps|
    ensures exists i :: 0 <= i <= n && xs[n].core.sensors == Resolve(xs[i].tree)
  {
    hide Perform, Snapshot, Resolve, Probe, Before;
    if n == 0 {
      ProbeSensors(xs[0].tree, Resolve(xs[0].tree));
    } else {
      SensorsWereResolved(xs, steps, n - 1);
      var j :| 0 <= j <= n - 1 && xs[n - 1].core.sensors == Resolve(xs[j].tree);
      var x, step := xs[n - 1], steps[n - 1];
      assert xs[n] == Next(x, step);
      if step.Call? {
        CallStep(x, step);
        BeforeCaps(x.core, step.op);
        SnapshotCaches(xs[n].tree, Before(x.core, step.op), step.k);
      } else if step.Reprobe? {
        ProbeSensors(x.tree, x.core.sensors);
      }
      assert xs[n].core.sensors == Resolve(xs[j].tree) || xs[n].core.sensors == Resolve(xs[n].tree);
    }
  }

  lemma ProbeSensors(t: Tree, s: SensorPaths)
    ensures Probe(t, s).1 == s || Probe(t, s).1 == Resolve(t)
  {
    hide Resolve;
  }

  /** So they always lie under hwmon, and each existed when it was stored. */
  lemma SensorsExisted(xs: seq<World>, steps: seq<Step>, n: nat)
    requires IsRun(xs, steps) && n <= |steps|
    ensures OnHwmon(xs[n].core.sensors)
    ensures var s := xs[n].core.sensors;
            exists i :: 0 <= i <= n &&
              forall path :: path in {s.cpuTemp, s.gpuTemp, s.cpuFan, s.gpuFan} && path.Some? ==>
                Exists(xs[i].tree, path.value)
  {
    hide Resolve, Exists, Perform, Probe;
    SensorsWereResolved(xs, steps, n);
    var i :| 0 <= i <= n && xs[n].core.sensors == Resolve(xs[i].tree);
    ResolvedPathsExist(xs[i].tree);
  }

  lemma SnapshotReadings(t: Tree, c: Core, k: Ticks)
    requires c.sensors == Resolve(t)
    ensures var s := Snapshot(t, c, k).0;
            && (s.fans.cpuRpm, s.fans.gpuRpm) == FreshFans(t)
            && (s.cpuTemperature, s.gpuTemperature) == FreshTemperatures(t)
  {
    hide Resolve, SlowNow, ReadInt, PowerSourceOf, ProfilePart, FastDegraded, FansAt, ProfileAt;
  }

  /** While the directories, names, labels and files of the sensors stay as they are, every state
      a call returns has the readings of a controller that resolves the sensors each time. */
  lemma ReadingsAreFresh(xs: seq<World>, steps: seq<Step>, n: nat)
    requires IsRun(xs, steps)
    requires forall i :: 0 <= i < |xs| ==> SameStructure(xs[0].tree, xs[i].tree)
    requires n < |steps| && steps[n].Call?
    ensures var answer := Answer(xs[n], steps[n]);
            answer.Ok? ==>
              && (answer.value.fans.cpuRpm, answer.value.fans.gpuRpm) == FreshFans(xs[n + 1].tree)
              && (answer.value.cpuTemperature, answer.value.gpuTemperature) == FreshTemperatures(xs[n + 1].tree)
  {
    hide Perform, Snapshot, Resolve, Probe, FreshFans, FreshTemperatures, SameStructure, Before;
    SensorsWereResolved(xs, steps, n);
    var j :| 0 <= j <= n && xs[n].core.sensors == Resolve(xs[j].tree);
    ResolveIsStructural(xs[0].tree, xs[j].tree);
    ResolveIsStructural(xs[0].tree, xs[n + 1].tree);
    assert xs[n + 1] == Next(xs[n], steps[n]);
    CallStep(xs[n], steps[n]);
    BeforeCaps(xs[n].core, steps[n].op);
    SnapshotReadings(xs[n + 1].tree, Before(xs[n].core, steps[n].op), steps[n].k);
  }
}
