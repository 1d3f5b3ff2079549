/** What becomes of the cached sensor paths when the hwmon directories are renumbered under a
    running controller. */
module Healing {
  import opened Results
  import opened Text
  import opened Order
  import opened Store
  import opened Sensors
  import opened SensorCache
  import opened Hardware
  import opened Numbering
  import opened Rivals

  /** The directory of the path, if there is one, has the number it had. */
  predicate Keeps(r: Renaming, path: Option<Path>) {
    path.Some? && path.value.Hwmon? && path.value.dir in r ==> r[path.value.dir] == path.value.dir
  }

  predicate KeepsFans(r: Renaming, s: SensorPaths) {
    Keeps(r, s.cpuFan) && Keeps(r, s.gpuFan)
  }

  predicate KeepsTemperatures(r: Renaming, s: SensorPaths) {
    Keeps(r, s.cpuTemp) && Keeps(r, s.gpuTemp)
  }

  predicate FansStale(t: Tree, s: SensorPaths) {
    WentStale(t, s.cpuFan) || WentStale(t, s.gpuFan)
  }

  predicate TemperaturesStale(t: Tree, s: SensorPaths) {
    WentStale(t, s.cpuTemp) || WentStale(t, s.gpuTemp)
  }

  // ----- the paths -----

  lemma KeptPath(r: Renaming, path: Option<Path>)
    requires path.Some? ==> path.value.Hwmon? && path.value.dir in r
    ensures RenamePath(r, path) == path <==> Keeps(r, path)
  {}

  /** A cached path is still what a fresh resolution finds exactly when its directory has kept
      its number. */
  lemma PathsKept(t: Tree, u: Tree, r: Renaming)
    requires Renamed(t, u, r) && NoRival(t)
    ensures var s, found := Resolve(t), Resolve(u);
            && (found.cpuFan == s.cpuFan <==> Keeps(r, s.cpuFan))
            && (found.gpuFan == s.gpuFan <==> Keeps(r, s.gpuFan))
            && (found.cpuTemp == s.cpuTemp <==> Keeps(r, s.cpuTemp))
            && (found.gpuTemp == s.gpuTemp <==> Keeps(r, s.gpuTemp))
  {
    hide Resolve, NoRival, Keeps, RenamePath, SameDirectory, ListedDirectories;
    ResolveIsNumberingIndependent(t, u, r);
    ResolvedDirectories(t);
    var s := Resolve(t);
    KeptPath(r, s.cpuFan);
    KeptPath(r, s.gpuFan);
    KeptPath(r, s.cpuTemp);
    KeptPath(r, s.gpuTemp);
  }

  /** After a renumbering a read leaves the right paths behind exactly when one of the pair failed,
      or the directories of both have kept their numbers. */
  lemma RenumberingHeals(t: Tree, u: Tree, r: Renaming)
    requires Renamed(t, u, r) && NoRival(t)
    ensures var s, found := Resolve(t), Resolve(u);
            var fans, temperatures := ReadFans(u, s).sensors, ReadTemperatures(u, s).sensors;
            && ((fans.cpuFan, fans.gpuFan) == (found.cpuFan, found.gpuFan) <==> FansStale(u, s) || KeepsFans(r, s))
            && ((temperatures.cpuTemp, temperatures.gpuTemp) == (found.cpuTemp, found.gpuTemp) <==>
                TemperaturesStale(u, s) || KeepsTemperatures(r, s))
  {
    hide Resolve, ReadInt, Renamed, NoRival, Keeps, WentStale;
    PathsKept(t, u, r);
  }

  /** A snapshot reads both pairs, and a failure in either heals all four paths. */
  lemma SnapshotHeals(t: Tree, u: Tree, r: Renaming, c: Core, k: Ticks)
    requires Renamed(t, u, r) && NoRival(t) && c.sensors == Resolve(t)
    ensures Snapshot(u, c, k).1.sensors == Resolve(u) <==>
            || FansStale(u, c.sensors) || TemperaturesStale(u, c.sensors)
            || (KeepsFans(r, c.sensors) && KeepsTemperatures(r, c.sensors))
  {
    hide Resolve, ReadInt, Renamed, NoRival, Keeps, WentStale, SlowNow, ProfilePart, FanPart, PowerSourceOf,
         FastDegraded;
    PathsKept(t, u, r);
  }

  // ----- the readings, whatever the sensors show -----

  /** The path leads nowhere: nothing has taken over the number with a file of that name. */
  predicate Dangles(t: Tree, path: Option<Path>) {
    path.Some? && !Exists(t, path.value)
  }

  /** A file that the resolution reads from, and that it never reads to find its way. */
  predicate IsInput(path: Path) {
    path.Hwmon? && HasSuffix(path.file, "_input")
  }

  lemma InputIsNoLabel(file: string)
    requires HasSuffix(file, "_input")
    ensures file != "name" && !HasSuffix(file, "_label")
  {
    assert file[|file| - 1] == file[|file| - 6..][5] == 't';
    assert |file| >= 6 && file[|file| - 6..][1] == 'i';
  }

  lemma {:induction false} InputAmongIsInput(t: Tree, dir: string, names: seq<string>, prefix: string, target: string)
    ensures var path := InputAmong(t, dir, names, prefix, target);
            path.Some? ==> IsInput(path.value)
  {
    if names != [] {
      InputAmongIsInput(t, dir, names[1..], prefix, target);
      var file := TrimSuffix(names[0], "_label") + "_input";
      assert file[|file| - 6..] == "_input";
    }
  }

  lemma ChannelIsInput(t: Tree, dir: string, prefix: string, target: string, fallback: string)
    requires HasSuffix(fallback, "_input")
    ensures var path := Channel(t, dir, prefix, target, fallback);
            path.Some? ==> IsInput(path.value)
  {
    hide HasSuffix, InputAmong;
    if dir in t.listings { InputAmongIsInput(t, dir, t.listings[dir], prefix, target); }
  }

  lemma FallbacksAreInputs()
    ensures HasSuffix("temp1_input", "_input") && HasSuffix("temp2_input", "_input")
    ensures HasSuffix("fan1_input", "_input") && HasSuffix("fan2_input", "_input")
  {}

  lemma OfferIsInput(t: Tree, s: Source, d: string)
    ensures Offer(t, s, d).Some? ==> IsInput(Offer(t, s, d).value) && Exists(t, Offer(t, s, d).value)
  {
    hide Channel, HasSuffix;
    FallbacksAreInputs();
    match s
    case CorePackage =>
      ChannelIsInput(t, d, "temp", "Package id 0", "temp1_input");
      ChannelOnHwmon(t, d, "temp", "Package id 0", "temp1_input");
    case GraphicsCard =>
    case AcerCpu =>
      ChannelIsInput(t, d, "temp", "CPU", "temp1_input");
      ChannelOnHwmon(t, d, "temp", "CPU", "temp1_input");
    case AcerGpu =>
      ChannelIsInput(t, d, "temp", "GPU", "temp2_input");
      ChannelOnHwmon(t, d, "temp", "GPU", "temp2_input");
    case CpuFan =>
      ChannelIsInput(t, d, "fan", "CPU Fan", "fan1_input");
      ChannelOnHwmon(t, d, "fan", "CPU Fan", "fan1_input");
    case GpuFan =>
      ChannelIsInput(t, d, "fan", "GPU Fan", "fan2_input");
      ChannelOnHwmon(t, d, "fan", "GPU Fan", "fan2_input");
  }

  /** A path the resolution can return for the tree. */
  predicate IsResolvable(t: Tree, path: Option<Path>) {
    path.Some? ==> IsInput(path.value) && Exists(t, path.value)
  }

  lemma ResolvedAreInputs(t: Tree)
    ensures var s := Resolve(t);
            && IsResolvable(t, s.cpuFan) && IsResolvable(t, s.gpuFan)
            && IsResolvable(t, s.cpuTemp) && IsResolvable(t, s.gpuTemp)
  {
    hide Offer, Winner, Resolve, IsInput, Exists;
    ResolveSupplies(t);
    forall s, d ensures Offer(t, s, d).Some? ==> IsInput(Offer(t, s, d).value) && Exists(t, Offer(t, s, d).value) {
      OfferIsInput(t, s, d);
    }
  }

  /** The same machine with every sensor working: one shows 1, all others show 2. */
  function Showing(t: Tree, one: Path): Tree {
    t.(files := map p | p in t.files ::
         if IsInput(p) then Node(if p == one then Itoa(1) else Itoa(2), true) else t.files[p])
  }

  lemma ShowingSameStructure(t: Tree, one: Path)
    ensures SameStructure(t, Showing(t, one))
  {
    hide HasSuffix, Itoa;
    var u := Showing(t, one);
    forall dir, file | file == "name" || HasSuffix(file, "_label")
      ensures ReadText(t, Hwmon(dir, file)) == ReadText(u, Hwmon(dir, file))
    {
      if HasSuffix(file, "_input") { InputIsNoLabel(file); }
    }
  }

  lemma ShowingReads(t: Tree, one: Path, path: Path)
    requires IsInput(path) && Exists(t, path)
    ensures ReadInt(Showing(t, one), Some(path)) == Some(if path == one then 1 else 2)
  {
    hide Itoa, Atoi, IsTrimmed, TrimSpace, IsInput;
    AtoiItoa(1);
    AtoiItoa(2);
    ItoaCharacters(1);
    ItoaCharacters(2);
    TrimSpaceOfTrimmed(Itoa(1));
    TrimSpaceOfTrimmed(Itoa(2));
  }

  /** A pair of cached paths that both lead somewhere, the first of them not where the right one
      does: with these readings neither fails and the first is wrong. */
  lemma ShowingMisleads(u: Tree, first: Option<Path>, second: Option<Path>, right: Option<Path>)
    requires first.Some? && right.Some? && first != right
    requires IsResolvable(u, first) && IsResolvable(u, second) && IsResolvable(u, right)
    ensures var v := Showing(u, first.value);
            && SameStructure(u, v)
            && !WentStale(v, first) && !WentStale(v, second)
            && ReadInt(v, first) != ReadInt(v, right)
  {
    hide Showing, ReadInt, SameStructure;
    ShowingSameStructure(u, first.value);
    ShowingReads(u, first.value, first.value);
    ShowingReads(u, first.value, right.value);
    if second.Some? { ShowingReads(u, first.value, second.value); }
  }

  /** Whatever the sensors of the machine come to show, the cached paths give the readings of a
      fresh resolution. */
  ghost predicate FansNeverMislead(u: Tree, s: SensorPaths) {
    forall v :: SameStructure(u, v) ==> (ReadFans(v, s).cpu, ReadFans(v, s).gpu) == FreshFans(v)
  }

  ghost predicate TemperaturesNeverMislead(u: Tree, s: SensorPaths) {
    forall v :: SameStructure(u, v) ==>
      (ReadTemperatures(v, s).cpu, ReadTemperatures(v, s).gpu) == FreshTemperatures(v)
  }

  /** A renumbering never leads to wrong fan speeds exactly when a cached path dangles, so that the
      first read heals both, or the directories of both have kept their numbers. */
  lemma FansMisleadExactly(t: Tree, u: Tree, r: Renaming)
    requires Renamed(t, u, r) && NoRival(t)
    ensures var s := Resolve(t);
            FansNeverMislead(u, s) <==> Dangles(u, s.cpuFan) || Dangles(u, s.gpuFan) || KeepsFans(r, s)
  {
    hide Resolve, ReadInt, Renamed, NoRival, Keeps, Showing, SameStructure, IsInput;
    var s, found := Resolve(t), Resolve(u);
    PathsKept(t, u, r);
    ResolvedAreInputs(t);
    if Dangles(u, s.cpuFan) || Dangles(u, s.gpuFan) || KeepsFans(r, s) {
      forall v | SameStructure(u, v) ensures (ReadFans(v, s).cpu, ReadFans(v, s).gpu) == FreshFans(v) {
        ResolveIsStructural(u, v);
        DanglingFails(u, v, s.cpuFan);
        DanglingFails(u, v, s.gpuFan);
      }
    } else {
      ResolvedAreInputs(u);
      PathsCorrespond(t, u, r);
      if found.cpuFan != s.cpuFan {
        ShowingMisleads(u, s.cpuFan, s.gpuFan, found.cpuFan);
        ResolveIsStructural(u, Showing(u, s.cpuFan.value));
      } else {
        ShowingMisleads(u, s.gpuFan, s.cpuFan, found.gpuFan);
        ResolveIsStructural(u, Showing(u, s.gpuFan.value));
      }
    }
  }

  /** The same of temperatures. */
  lemma TemperaturesMisleadExactly(t: Tree, u: Tree, r: Renaming)
    requires Renamed(t, u, r) && NoRival(t)
    ensures var s := Resolve(t);
            TemperaturesNeverMislead(u, s) <==>
            Dangles(u, s.cpuTemp) || Dangles(u, s.gpuTemp) || KeepsTemperatures(r, s)
  {
    hide Resolve, ReadInt, Renamed, NoRival, Keeps, Showing, SameStructure, IsInput;
    var s, found := Resolve(t), Resolve(u);
    PathsKept(t, u, r);
    ResolvedAreInputs(t);
    if Dangles(u, s.cpuTemp) || Dangles(u, s.gpuTemp) || KeepsTemperatures(r, s) {
      forall v | SameStructure(u, v)
        ensures (ReadTemperatures(v, s).cpu, ReadTemperatures(v, s).gpu) == FreshTemperatures(v)
      {
        ResolveIsStructural(u, v);
        DanglingFails(u, v, s.cpuTemp);
        DanglingFails(u, v, s.gpuTemp);
      }
    } else {
      ResolvedAreInputs(u);
      PathsCorrespond(t, u, r);
      if found.cpuTemp != s.cpuTemp {
        ShowingMisleads(u, s.cpuTemp, s.gpuTemp, found.cpuTemp);
        ResolveIsStructural(u, Showing(u, s.cpuTemp.value));
      } else {
        ShowingMisleads(u, s.gpuTemp, s.cpuTemp, found.gpuTemp);
        ResolveIsStructural(u, Showing(u, s.gpuTemp.value));
      }
    }
  }

  lemma PathsCorrespond(t: Tree, u: Tree, r: Renaming)
    requires Renamed(t, u, r) && NoRival(t)
    ensures var s, found := Resolve(t), Resolve(u);
            && (s.cpuFan.Some? <==> found.cpuFan.Some?) && (s.gpuFan.Some? <==> found.gpuFan.Some?)
            && (s.cpuTemp.Some? <==> found.cpuTemp.Some?) && (s.gpuTemp.Some? <==> found.gpuTemp.Some?)
  {
    hide Resolve, Renamed, NoRival;
    ResolveIsNumberingIndependent(t, u, r);
  }

  lemma DanglingFails(u: Tree, v: Tree, path: Option<Path>)
    requires SameStructure(u, v) && (path.Some? ==> IsInput(path.value))
    ensures Dangles(u, path) ==> WentStale(v, path)
  {
    if path.Some? { assert Exists(u, Hwmon(path.value.dir, path.value.file)) <==> Exists(v, path.value); }
  }

  // ----- a case -----

  /** Two directories with a fan, one of which is the embedded controller. */
  function Neighbours(acer: string, other: string): Tree {
    Tree(map[Hwmon(acer, "name") := Node("acer", true), Hwmon(acer, "fan1_input") := Node(Itoa(1000), true),
             Hwmon(other, "fan1_input") := Node(Itoa(3000), true)],
         Some([DirEntry("hwmon1", true, false), DirEntry("hwmon2", true, false)]), None, map[])
  }

  lemma NeighbourDevices(acer: string, other: string)
    requires acer != other
    ensures DeviceOf(Neighbours(acer, other), acer) == Some(Device.Acer)
    ensures DeviceOf(Neighbours(acer, other), other) == None
  {
    TrimSpaceOfTrimmed("acer");
    assert ToLower("acer") == "acer";
  }

  lemma NeighboursListed(acer: string, other: string)
    ensures ListedDirectories(Neighbours(acer, other)) == ["hwmon1", "hwmon2"]
  {
    TwinsListed(acer, other);
    assert Neighbours(acer, other).hwmon == Twins(acer, other).hwmon;
  }

  lemma NeighbourOffers(acer: string, other: string, s: Source)
    requires acer != other && s in {AcerCpu, AcerGpu, CpuFan, GpuFan}
    ensures Offer(Neighbours(acer, other), s, acer) == if s.CpuFan? then Some(Hwmon(acer, "fan1_input")) else None
  {}

  lemma NeighbourTexts(acer: string, other: string)
    requires acer != other
    ensures ReadInt(Neighbours(acer, other), Some(Hwmon(acer, "fan1_input"))) == Some(1000)
    ensures ReadInt(Neighbours(acer, other), Some(Hwmon(other, "fan1_input"))) == Some(3000)
  {
    hide Itoa, Atoi, IsTrimmed, TrimSpace;
    AtoiItoa(1000);
    AtoiItoa(3000);
    ItoaCharacters(1000);
    ItoaCharacters(3000);
    TrimSpaceOfTrimmed(Itoa(1000));
    TrimSpaceOfTrimmed(Itoa(3000));
  }

  lemma NeighboursResolved(acer: string, other: string)
    requires (acer, other) == ("hwmon1", "hwmon2") || (acer, other) == ("hwmon2", "hwmon1")
    ensures Resolve(Neighbours(acer, other)) == SensorPaths(None, None, Some(Hwmon(acer, "fan1_input")), None)
    ensures ReadInt(Neighbours(acer, other), Some(Hwmon(acer, "fan1_input"))) == Some(1000)
    ensures ReadInt(Neighbours(acer, other), Some(Hwmon(other, "fan1_input"))) == Some(3000)
  {
    hide Winner, ListedDirectories, Neighbours, Offer, ReadInt, DeviceOf, Leq;
    var t := Neighbours(acer, other);
    NeighboursListed(acer, other);
    NeighbourDevices(acer, other);
    WinnerMeaning(t, Coretemp);
    WinnerMeaning(t, Graphics);
    WinnerMeaning(t, Device.Acer);
    assert IsOf(t, acer, Device.Acer);
    ResolveSupplies(t);
    forall s | s in {AcerCpu, AcerGpu, CpuFan, GpuFan}
      ensures Supplied(t, s) == if s.CpuFan? then Some(Hwmon(acer, "fan1_input")) else None
    {
      NeighbourOffers(acer, other, s);
    }
    NeighbourTexts(acer, other);
  }

  /** Swapping their numbers under a running controller: the cached path still reads, so
      nothing heals, and the speed reported is the other device's. */
  lemma RenumberingCanMislead()
    ensures var t, u := Neighbours("hwmon1", "hwmon2"), Neighbours("hwmon2", "hwmon1");
            && ReadFans(u, Resolve(t)) == PairRead(Some(3000), None, Resolve(t))
            && FreshFans(u) == (Some(1000), None)
  {
    hide Resolve, Neighbours, ReadInt;
    NeighboursResolved("hwmon1", "hwmon2");
    NeighboursResolved("hwmon2", "hwmon1");
    ReadNothing(Neighbours("hwmon2", "hwmon1"));
  }

  lemma ReadNothing(t: Tree)
    ensures ReadInt(t, None) == None
  {}
}
