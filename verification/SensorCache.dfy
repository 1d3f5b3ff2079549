/** Reading fan speeds and temperatures through the cached paths, which heal themselves when a
    read fails. */
module SensorCache {
  import opened Results
  import opened Text
  import opened Store
  import opened Sensors

  function ReadInt(t: Tree, path: Option<Path>): Option<int> {
    if path.None? then None
    else
      match ReadText(t, path.value)
      case None => None
      case Some(raw) => Atoi(raw)
  }

  /** A path that existed when it was resolved no longer reads. */
  predicate WentStale(t: Tree, path: Option<Path>) {
    path.Some? && ReadInt(t, path).None?
  }

  /** Two readings, of the CPU and of the GPU, and the cached paths afterwards. */
  datatype PairRead = PairRead(cpu: Option<int>, gpu: Option<int>, sensors: SensorPaths)

  /** Either pair read: at most one new resolution. */
  function ReadFans(t: Tree, s: SensorPaths): PairRead {
    var now := if WentStale(t, s.cpuFan) || WentStale(t, s.gpuFan) then Resolve(t) else s;
    PairRead(ReadInt(t, now.cpuFan), ReadInt(t, now.gpuFan), now)
  }

  /** Temperatures are kept in thousandths of a degree. */
  function ReadTemperatures(t: Tree, s: SensorPaths): PairRead {
    var now := if WentStale(t, s.cpuTemp) || WentStale(t, s.gpuTemp) then Resolve(t) else s;
    PairRead(ReadInt(t, now.cpuTemp), ReadInt(t, now.gpuTemp), now)
  }

  // ----- what the resolution depends on -----

  /** The same directories, listings, names, labels and existing files; other contents are free. */
  ghost predicate SameStructure(t: Tree, u: Tree) {
    && t.hwmon == u.hwmon && t.listings == u.listings
    && (forall dir, file :: Exists(t, Hwmon(dir, file)) <==> Exists(u, Hwmon(dir, file)))
    && (forall dir, file :: file == "name" || HasSuffix(file, "_label") ==>
          ReadText(t, Hwmon(dir, file)) == ReadText(u, Hwmon(dir, file)))
  }

  lemma SameStructureDevice(t: Tree, u: Tree, dir: string)
    requires SameStructure(t, u)
    ensures DeviceOf(t, dir) == DeviceOf(u, dir)
  {
    assert ReadText(t, Hwmon(dir, "name")) == ReadText(u, Hwmon(dir, "name"));
  }

  lemma {:induction false} SameStructureLast(t: Tree, u: Tree, dirs: seq<string>, device: Device)
    requires SameStructure(t, u)
    ensures LastOf(t, dirs, device) == LastOf(u, dirs, device)
  {
    hide DeviceOf, SameStructure;
    if dirs != [] {
      SameStructureDevice(t, u, dirs[|dirs| - 1]);
      SameStructureLast(t, u, dirs[..|dirs| - 1], device);
    }
  }

  lemma {:induction false} SameStructureInput(t: Tree, u: Tree, dir: string, names: seq<string>,
                                              prefix: string, target: string)
    requires SameStructure(t, u)
    ensures InputAmong(t, dir, names, prefix, target) == InputAmong(u, dir, names, prefix, target)
  {
    hide EqualFold, TrimSuffix;
    if names != [] {
      assert LabelMatches(t, dir, names[0], prefix, target) == LabelMatches(u, dir, names[0], prefix, target);
      SameStructureInput(t, u, dir, names[1..], prefix, target);
    }
  }

  lemma SameStructureChannel(t: Tree, u: Tree, dir: string, prefix: string, target: string, fallback: string)
    requires SameStructure(t, u)
    ensures Channel(t, dir, prefix, target, fallback) == Channel(u, dir, prefix, target, fallback)
  {
    hide InputAmong;
    if dir in t.listings { SameStructureInput(t, u, dir, t.listings[dir], prefix, target); }
    ChannelOnHwmon(t, dir, prefix, target, fallback);
  }

  lemma {:induction false} InputIsHwmon(t: Tree, dir: string, names: seq<string>, prefix: string, target: string)
    ensures var path := InputAmong(t, dir, names, prefix, target);
            path.Some? ==> path.value.Hwmon? && path.value.dir == dir
  {
    if names != [] { InputIsHwmon(t, dir, names[1..], prefix, target); }
  }

  lemma ChannelOnHwmon(t: Tree, dir: string, prefix: string, target: string, fallback: string)
    ensures var labelled := InputByLabel(t, dir, prefix, target);
            labelled.Some? ==> labelled.value.Hwmon? && labelled.value.dir == dir
    ensures var path := Channel(t, dir, prefix, target, fallback);
            path.Some? ==> Exists(t, path.value) && path.value.Hwmon? && path.value.dir == dir
  {
    if dir in t.listings { InputIsHwmon(t, dir, t.listings[dir], prefix, target); }
  }

  /** The resolution depends on the structure alone. */
  lemma ResolveIsStructural(t: Tree, u: Tree)
    requires SameStructure(t, u)
    ensures Resolve(t) == Resolve(u)
  {
    hide Channel, LastOf;
    var dirs := Directories(t);
    SameStructureLast(t, u, dirs, Coretemp);
    SameStructureLast(t, u, dirs, Graphics);
    SameStructureLast(t, u, dirs, Device.Acer);
    forall dir, prefix, target, fallback
      ensures Channel(t, dir, prefix, target, fallback) == Channel(u, dir, prefix, target, fallback)
    {
      SameStructureChannel(t, u, dir, prefix, target, fallback);
    }
  }

  /** Every path the resolution stores exists, in an hwmon directory. */
  lemma ResolvedPathsExist(t: Tree)
    ensures var s := Resolve(t);
            forall path :: path in {s.cpuTemp, s.gpuTemp, s.cpuFan, s.gpuFan} && path.Some? ==>
              Exists(t, path.value) && path.value.Hwmon?
  {
    hide Channel, LastOf;
    forall dir, prefix, target, fallback
      ensures var path := Channel(t, dir, prefix, target, fallback);
              path.Some? ==> Exists(t, path.value) && path.value.Hwmon?
    {
      ChannelOnHwmon(t, dir, prefix, target, fallback);
    }
  }

  // ----- agreement with reading afresh -----

  /** Reading without a cache: resolve, then read. */
  function FreshFans(t: Tree): (Option<int>, Option<int>) {
    (ReadInt(t, Resolve(t).cpuFan), ReadInt(t, Resolve(t).gpuFan))
  }

  function FreshTemperatures(t: Tree): (Option<int>, Option<int>) {
    (ReadInt(t, Resolve(t).cpuTemp), ReadInt(t, Resolve(t).gpuTemp))
  }

  /** A fan read equals a fresh one whenever a cached path of the pair fails, and whenever the
      paths were resolved from the same structure, however the readings have changed since. */
  lemma FansAgree(t: Tree, s: SensorPaths, origin: Tree)
    requires WentStale(t, s.cpuFan) || WentStale(t, s.gpuFan) || (s == Resolve(origin) && SameStructure(origin, t))
    ensures var r := ReadFans(t, s);
            (r.cpu, r.gpu) == FreshFans(t) && r.sensors == Resolve(t)
  {
    if s == Resolve(origin) && SameStructure(origin, t) { ResolveIsStructural(origin, t); }
  }

  /** The same of temperatures. */
  lemma TemperaturesAgree(t: Tree, s: SensorPaths, origin: Tree)
    requires WentStale(t, s.cpuTemp) || WentStale(t, s.gpuTemp) || (s == Resolve(origin) && SameStructure(origin, t))
    ensures var r := ReadTemperatures(t, s);
            (r.cpu, r.gpu) == FreshTemperatures(t) && r.sensors == Resolve(t)
  {
    if s == Resolve(origin) && SameStructure(origin, t) { ResolveIsStructural(origin, t); }
  }
}
