/** Whole runs of the controller: any sequence of calls, with the device and other programs free
    to change the tree in between. */
module Runs {
  import opened Results
  import opened Text
  import opened Codecs
  import opened Store
  import opened Sensors
  import opened SensorCache
  import opened Hardware
  import opened ReadBack

  // ----- the calls -----

  datatype Op =
    | Look
    | Profile(value: string)
    | Fans(setting: FanSetting, confirmed: bool)
    | Switch(name: string, enabled: bool, agreed: bool)
    | Usb(level: int)
    | Zones(zones: ZoneSetting)
    | Effect(effect: EffectSetting)

  function Perform(t: Tree, c: Core, k: Ticks, op: Op, w: WriteResult): Outcome {
    match op
    case Look => var (s, after) := Snapshot(t, c, k); Outcome(Ok(s), after, t, [])
    case Profile(value) => SetProfile(t, c, k, value, w)
    case Fans(setting, confirmed) => SetFans(t, c, k, setting, confirmed, w)
    case Switch(name, enabled, agreed) => SetBoolean(t, c, k, name, enabled, agreed, w)
    case Usb(level) => SetUsbCharging(t, c, k, level, w)
    case Zones(zones) => SetPerZone(t, c, k, zones, w)
    case Effect(effect) => SetEffect(t, c, k, effect, w)
  }

  /** The attribute and the text of the one write a call can make. */
  function Target(c: Core, op: Op): Option<(Attribute, string)> {
    match op
    case Look => None
    case Profile(value) => Some((Attribute.PlatformProfile, value))
    case Fans(setting, _) => Some((Attribute.FanSpeed, setting.ToText()))
    case Switch(name, enabled, _) =>
      if SwitchOf(c.caps, name).Some? then Some((SwitchOf(c.caps, name).value.0, FlagText(enabled))) else None
    case Usb(level) => Some((Attribute.UsbCharging, Itoa(level)))
    case Zones(zones) => Some((Attribute.PerZoneMode, zones.ToText()))
    case Effect(effect) => Some((Attribute.FourZoneMode, effect.ToText()))
  }

  /** A refusal writes nothing and leaves the machine and the caches as they were. */
  predicate IsRefusal(t: Tree, c: Core, r: Outcome) {
    r.result.Err? && r == Refuse(t, c, r.result.error)
  }

  /** A call is a snapshot, or was refused and changed nothing, or made its one write; after a
      failed write the caches are as before, and after a successful one everything was read
      again from the tree the write left. */
  ghost predicate IsTransaction(t: Tree, c: Core, k: Ticks, op: Op, w: WriteResult, r: Outcome) {
    || (op.Look? && r == Outcome(Ok(Snapshot(t, c, k).0), Snapshot(t, c, k).1, t, []))
    || IsRefusal(t, c, r)
    || (Target(c, op).Some? && r == WriteAndReadBack(c, k, Target(c, op).value.0, Target(c, op).value.1, w))
  }

  lemma EveryCallIsTransaction(t: Tree, c: Core, k: Ticks, op: Op, w: WriteResult)
    ensures IsTransaction(t, c, k, op, w, Perform(t, c, k, op, w))
  {
    hide Snapshot, WriteAndReadBack, HasValue, AvailableProfiles, PowerSourceOf, ChoicesAt, ProfileAt,
         FanSetting.ToText, FanSetting.Valid, ZoneSetting.ToText, ZoneSetting.Valid, EffectSetting.ToText,
         EffectSetting.Valid, Itoa;
  }

  /** What the caches were when a call took its snapshot. */
  function Before(c: Core, op: Op): Core {
    if op.Look? then c else Invalidated(c)
  }

  /** What is left of that for the runs: at most one write, a snapshot of the tree the call
      left behind if it succeeded, and otherwise the caches as they were. */
  lemma CallEffect(t: Tree, c: Core, k: Ticks, op: Op, w: WriteResult)
    ensures var r := Perform(t, c, k, op, w);
            && |r.writes| <= 1 && (op.Look? ==> r.writes == [])
            && (r.result.Err? ==> r.core == c)
            && (r.result.Ok? ==>
              (r.result.value, r.core) == Snapshot(r.tree, Before(c, op), k))
  {
    hide Snapshot, Perform, SwitchOf, FlagText, Itoa, FanSetting.ToText, ZoneSetting.ToText, EffectSetting.ToText;
    EveryCallIsTransaction(t, c, k, op, w);
  }

  // ----- runs -----

  datatype World = World(tree: Tree, core: Core)

  datatype Step = Env(tree: Tree) | Reprobe | Call(k: Ticks, op: Op, w: WriteResult)

  function Next(x: World, step: Step): World {
    match step
    case Env(tree) => x.(tree := tree)
    case Reprobe => var (caps, sensors) := Probe(x.tree, x.core.sensors); x.(core := Core(caps, sensors, x.core.slow))
    case Call(k, op, w) => var r := Perform(x.tree, x.core, k, op, w); World(r.tree, r.core)
  }

  ghost predicate IsRun(xs: seq<World>, steps: seq<Step>) {
    && |xs| == |steps| + 1
    && xs[0].core == NewCore(xs[0].tree)
    && forall i :: 0 <= i < |steps| ==> xs[i + 1] == Next(xs[i], steps[i])
  }

  /** No call of the run finds the clock within the cache's lifetime of the zero time. */
  ghost predicate IsPlausibleRun(steps: seq<Step>) {
    forall i :: 0 <= i < |steps| && steps[i].Call? ==> IsPlausible(steps[i].k)
  }

  function Answer(x: World, step: Step): Result<State, Refusal>
    requires step.Call?
  {
    Perform(x.tree, x.core, step.k, step.op, step.w).result
  }

  lemma CallStep(x: World, step: Step)
    requires step.Call?
    ensures Answer(x, step).Err? ==> Next(x, step).core == x.core
    ensures Answer(x, step).Ok? ==>
              (Answer(x, step).value, Next(x, step).core) ==
              Snapshot(Next(x, step).tree, Before(x.core, step.op), step.k)
  {
    hide Perform, Snapshot;
    CallEffect(x.tree, x.core, step.k, step.op, step.w);
  }

  lemma SnapshotCaches(t: Tree, c: Core, k: Ticks)
    ensures var after := Snapshot(t, c, k).1;
            && after.caps == c.caps && after.slow == SlowNow(t, c, k)
            && (after.sensors == c.sensors || after.sensors == Resolve(t))
  {
    hide Resolve, SlowNow;
  }

  // ----- how old the slow values are -----

  /** The slow values were all read by call i, from the tree it left, after its stamp. */
  ghost predicate ReadBy(xs: seq<World>, steps: seq<Step>, i: int, slow: SlowState) {
    && 0 <= i < |steps| < |xs| && steps[i].Call?
    && slow == RefreshSlow(xs[i + 1].tree, xs[i].core.caps, steps[i].k.stamp)
  }

  lemma BeforeIsOld(c: Core, op: Op, k: Ticks)
    requires IsPlausible(k)
    ensures IsOld(Before(c, op).slow, k) || (op.Look? && !IsOld(c.slow, k) && c.slow != NO_SLOW)
  {}

  /** In every reached state the slow values were never read, or some one call read them. */
  lemma {:induction false} SlowWasRead(xs: seq<World>, steps: seq<Step>, n: nat)
    requires IsRun(xs, steps) && IsPlausibleRun(steps) && n <= |steps|
    ensures xs[n].core.slow == NO_SLOW || exists i :: i < n && ReadBy(xs, steps, i, xs[n].core.slow)
  {
    hide Perform, Snapshot, Probe, RefreshSlow, IsOld, IsPlausible, Before, Invalidated;
    if n == 0 {
      assert xs[0].core == NewCore(xs[0].tree);
    } else {
      SlowWasRead(xs, steps, n - 1);
      var x, step := xs[n - 1], steps[n - 1];
      assert xs[n] == Next(x, step);
      if step.Call? && Answer(x, step).Ok? {
        CallStep(x, step);
        SnapshotCaches(xs[n].tree, Before(x.core, step.op), step.k);
        BeforeCaps(x.core, step.op);
        BeforeIsOld(x.core, step.op, step.k);
        if IsOld(Before(x.core, step.op).slow, step.k) {
          assert ReadBy(xs, steps, n - 1, xs[n].core.slow);
        }
      } else if step.Call? {
        CallStep(x, step);
      }
    }
  }

  lemma BeforeCaps(c: Core, op: Op)
    ensures Before(c, op).caps == c.caps && Before(c, op).sensors == c.sensors && (op.Look? ==> Before(c, op) == c)
  {}

  /** The slow part of a reported state. */
  ghost predicate ReportsSlow(s: State, slow: SlowState) {
    && s.settings == slow.settings && s.keyboard == slow.keyboard && s.driverVersion == slow.driverVersion
    && (s.capabilities.thermalProfile ==> s.profile.available == AvailableProfiles(slow.profileChoices, s.powerSource))
    && |slow.degraded| <= |s.degraded| && s.degraded[|s.degraded| - |slow.degraded|..] == slow.degraded
  }

  lemma SnapshotReportsSlow(t: Tree, c: Core, k: Ticks)
    ensures ReportsSlow(Snapshot(t, c, k).0, SlowNow(t, c, k))
  {
    hide SlowNow, ReadFans, ReadTemperatures, PowerSourceOf, AvailableProfiles, FanPart, FastDegraded;
  }

  /** Whatever happened before, the slow part of every state a call returns was read as a whole
      by one call of the run: by this one, or by one whose stamp is no older than the lifetime
      of the cache when its age is checked. */
  lemma SlowIsRecent(xs: seq<World>, steps: seq<Step>, n: nat)
    requires IsRun(xs, steps) && IsPlausibleRun(steps)
    requires n < |steps| && steps[n].Call? && Answer(xs[n], steps[n]).Ok?
    ensures exists i, slow ::
              && ReadBy(xs, steps, i, slow) && ReportsSlow(Answer(xs[n], steps[n]).value, slow)
              && (i == n || (i < n && steps[n].k.check - steps[i].k.stamp <= 30_000_000_000))
  {
    hide Perform, Snapshot, Probe, RefreshSlow, IsPlausible, Before, Invalidated, ReportsSlow;
    var x, step := xs[n], steps[n];
    var before := Before(x.core, step.op);
    assert xs[n + 1] == Next(x, step);
    SlowWasRead(xs, steps, n);
    CallStep(x, step);
    SnapshotReportsSlow(xs[n + 1].tree, before, step.k);
    BeforeCaps(x.core, step.op);
    BeforeIsOld(x.core, step.op, step.k);
    if IsOld(before.slow, step.k) {
      assert ReadBy(xs, steps, n, SlowNow(xs[n + 1].tree, before, step.k));
    } else {
      var i :| i < n && ReadBy(xs, steps, i, x.core.slow);
      StampOf(xs[i + 1].tree, xs[i].core.caps, steps[i].k.stamp);
      assert ReadBy(xs, steps, i, x.core.slow);
    }
  }

  lemma StampOf(t: Tree, caps: Capabilities, now: int)
    ensures RefreshSlow(t, caps, now).stamp == now
  {}
}
