/** Finding the hwmon inputs by device name and channel label, and reading them through the
    cached paths. */
module Sensors {
  import opened Results
  import opened Text
  import opened Order
  import opened Store

  /** The cached paths; a missing one means that this machine has no such sensor. */
  datatype SensorPaths = SensorPaths(cpuTemp: Option<Path>, gpuTemp: Option<Path>,
                                     cpuFan: Option<Path>, gpuFan: Option<Path>)

  const NO_SENSORS := SensorPaths(None, None, None, None)

  // ----- what the resolution means -----

  /** The kinds of device that matter, by the name file of the directory. */
  datatype Device = Coretemp | Graphics | Acer

  function DeviceOf(t: Tree, dir: string): Option<Device> {
    match ReadText(t, Hwmon(dir, "name"))
    case None => None
    case Some(name) =>
      if ToLower(name) == "coretemp" then Some(Coretemp)
      else if ToLower(name) == "nvidia" || ToLower(name) == "amdgpu" then Some(Graphics)
      else if ToLower(name) == "acer" then Some(Acer)
      else None
  }

  function DirectoryNames(entries: seq<DirEntry>): seq<string> {
    if entries == [] then []
    else
      DirectoryNames(entries[..|entries| - 1]) +
      if entries[|entries| - 1].isDir || entries[|entries| - 1].isSymlink then [entries[|entries| - 1].name] else []
  }

  /** The names of the hwmon directories, as listed. */
  function ListedDirectories(t: Tree): seq<string> {
    if t.hwmon.None? then [] else DirectoryNames(t.hwmon.value)
  }

  function Directories(t: Tree): seq<string> {
    Sort(ListedDirectories(t))
  }

  /** The last directory of a device, in the given order. */
  function LastOf(t: Tree, dirs: seq<string>, device: Device): Option<string> {
    if dirs == [] then None
    else if DeviceOf(t, dirs[|dirs| - 1]) == Some(device) then Some(dirs[|dirs| - 1])
    else LastOf(t, dirs[..|dirs| - 1], device)
  }

  predicate IsLabel(name: string, prefix: string) {
    HasPrefix(name, prefix) && HasSuffix(name, "_label")
  }

  predicate LabelMatches(t: Tree, dir: string, name: string, prefix: string, target: string) {
    IsLabel(name, prefix) &&
    match ReadText(t, Hwmon(dir, name))
    case None => false
    case Some(text) => EqualFold(text, target)
  }

  /** The input beside the first listed label that reads as the target. */
  function InputAmong(t: Tree, dir: string, names: seq<string>, prefix: string, target: string): Option<Path> {
    if names == [] then None
    else if LabelMatches(t, dir, names[0], prefix, target) then
      Some(Hwmon(dir, TrimSuffix(names[0], "_label") + "_input"))
    else InputAmong(t, dir, names[1..], prefix, target)
  }

  function InputByLabel(t: Tree, dir: string, prefix: string, target: string): Option<Path> {
    if dir !in t.listings then None else InputAmong(t, dir, t.listings[dir], prefix, target)
  }

  /** The labelled input if there is one and it exists, else the conventional channel. */
  function Channel(t: Tree, dir: string, prefix: string, target: string, fallback: string): Option<Path> {
    var labelled := InputByLabel(t, dir, prefix, target);
    if labelled.Some? && Exists(t, labelled.value) then labelled
    else if Exists(t, Hwmon(dir, fallback)) then Some(Hwmon(dir, fallback))
    else None
  }

  function Dedicated(t: Tree, dir: string): Option<Path> {
    if Exists(t, Hwmon(dir, "temp1_input")) then Some(Hwmon(dir, "temp1_input")) else None
  }

  function OrElse(first: Option<Path>, second: Option<Path>): Option<Path> {
    if first.Some? then first else second
  }

  /** The paths, given the directory that counts for each device. */
  function Assemble(t: Tree, coretemp: Option<string>, graphics: Option<string>, acer: Option<string>): SensorPaths {
    SensorPaths(
      OrElse(if coretemp.None? then None else Channel(t, coretemp.value, "temp", "Package id 0", "temp1_input"),
             if acer.None? then None else Channel(t, acer.value, "temp", "CPU", "temp1_input")),
      OrElse(if graphics.None? then None else Dedicated(t, graphics.value),
             if acer.None? then None else Channel(t, acer.value, "temp", "GPU", "temp2_input")),
      if acer.None? then None else Channel(t, acer.value, "fan", "CPU Fan", "fan1_input"),
      if acer.None? then None else Channel(t, acer.value, "fan", "GPU Fan", "fan2_input"))
  }

  /** What resolveSensors computes: the last directory of each device counts, and a dedicated
      sensor wins over the channel of the embedded controller. */
  function Resolve(t: Tree): SensorPaths {
    ResolveAmong(t, Directories(t))
  }

  function ResolveAmong(t: Tree, dirs: seq<string>): SensorPaths {
    Assemble(t, LastOf(t, dirs, Coretemp), LastOf(t, dirs, Graphics), LastOf(t, dirs, Acer))
  }

  // ----- the resolution as the controller does it -----

  method FirstExisting(fs: FileSystem, candidates: seq<Option<Path>>) returns (r: Option<Path>)
    ensures r.Some? ==> r in candidates && Exists(fs.tree, r.value)
    ensures forall i :: 0 <= i < |candidates| && candidates[i].Some? && Exists(fs.tree, candidates[i].value) ==>
              exists j :: 0 <= j <= i && r == candidates[j] && r.Some?
  {
    for i := 0 to |candidates|
      invariant forall k :: 0 <= k < i ==> candidates[k].None? || !Exists(fs.tree, candidates[k].value)
    {
      if candidates[i].Some? {
        var there := fs.Stat(candidates[i].value);
        if there {
          return candidates[i];
        }
      }
    }
    return None;
  }

  method FindInputByLabel(fs: FileSystem, dir: string, prefix: string, target: string) returns (r: Option<Path>)
    ensures r == InputByLabel(fs.tree, dir, prefix, target)
  {
    var entries := fs.ReadHwmonDir(dir);
    if entries.None? {
      return None;
    }
    var names := entries.value;
    for i := 0 to |names|
      invariant InputAmong(fs.tree, dir, names, prefix, target) == InputAmong(fs.tree, dir, names[i..], prefix, target)
    {
      var name := names[i];
      assert names[i..][1..] == names[i + 1..];
      if !HasPrefix(name, prefix) || !HasSuffix(name, "_label") {
        continue;
      }
      var text := fs.ReadTextFile(Hwmon(dir, name));
      if text.None? || !EqualFold(text.value, target) {
        continue;
      }
      return Some(Hwmon(dir, TrimSuffix(name, "_label") + "_input"));
    }
    return None;
  }

  method FindChannel(fs: FileSystem, dir: string, prefix: string, target: string, fallback: string)
    returns (r: Option<Path>)
    ensures r == Channel(fs.tree, dir, prefix, target, fallback)
  {
    var labelled := FindInputByLabel(fs, dir, prefix, target);
    var candidates := [labelled, Some(Hwmon(dir, fallback))];
    r := FirstExisting(fs, candidates);
    assert candidates[0] == labelled && candidates[1] == Some(Hwmon(dir, fallback));
  }

  method HwmonDirectories(fs: FileSystem) returns (dirs: seq<string>)
    ensures dirs == Directories(fs.tree)
  {
    var entries := fs.ReadHwmonClass();
    if entries.None? {
      return [];
    }
    var names: seq<string> := [];
    for i := 0 to |entries.value|
      invariant names == DirectoryNames(entries.value[..i])
    {
      var entry := entries.value[i];
      assert entries.value[..i + 1][..i] == entries.value[..i];
      if entry.isDir || entry.isSymlink {
        names := names + [entry.name];
      }
    }
    assert entries.value[..|entries.value|] == entries.value;
    return Sort(names);
  }

  /** The four channels of the embedded controller. */
  function AcerChannels(t: Tree, dir: string): SensorPaths {
    SensorPaths(Channel(t, dir, "temp", "CPU", "temp1_input"), Channel(t, dir, "temp", "GPU", "temp2_input"),
                Channel(t, dir, "fan", "CPU Fan", "fan1_input"), Channel(t, dir, "fan", "GPU Fan", "fan2_input"))
  }

  method FindAcerChannels(fs: FileSystem, dir: string) returns (r: SensorPaths)
    ensures r == AcerChannels(fs.tree, dir)
  {
    var cpuTemp := FindChannel(fs, dir, "temp", "CPU", "temp1_input");
    var gpuTemp := FindChannel(fs, dir, "temp", "GPU", "temp2_input");
    var cpuFan := FindChannel(fs, dir, "fan", "CPU Fan", "fan1_input");
    var gpuFan := FindChannel(fs, dir, "fan", "GPU Fan", "fan2_input");
    return SensorPaths(cpuTemp, gpuTemp, cpuFan, gpuFan);
  }

  method ResolveSensors(fs: FileSystem) returns (resolved: SensorPaths)
    ensures resolved == Resolve(fs.tree)
  {
    hide Channel, DeviceOf;
    ghost var t := fs.tree;
    resolved := NO_SENSORS;
    var acer := NO_SENSORS;
    var dirs := HwmonDirectories(fs);
    for i := 0 to |dirs|
      invariant resolved.cpuTemp ==
                match LastOf(t, dirs[..i], Coretemp)
                case None => None
                case Some(d) => Channel(t, d, "temp", "Package id 0", "temp1_input")
      invariant resolved.gpuTemp ==
                match LastOf(t, dirs[..i], Graphics)
                case None => None
                case Some(d) => Dedicated(t, d)
      invariant acer == (match LastOf(t, dirs[..i], Device.Acer)
                         case None => NO_SENSORS
                         case Some(d) => AcerChannels(t, d))
    {
      assert dirs[..i + 1][..i] == dirs[..i];
      var dir := dirs[i];
      var name := fs.ReadTextFile(Hwmon(dir, "name"));
      var device := DeviceOfName(t, dir, name);
      match device {
        case Some(Coretemp) =>
          var path := FindChannel(fs, dir, "temp", "Package id 0", "temp1_input");
          resolved := resolved.(cpuTemp := path);
        case Some(Graphics) =>
          var path := FirstExisting(fs, [Some(Hwmon(dir, "temp1_input"))]);
          assert [Some(Hwmon(dir, "temp1_input"))][0] == Some(Hwmon(dir, "temp1_input"));
          resolved := resolved.(gpuTemp := path);
        case Some(Acer) =>
          acer := FindAcerChannels(fs, dir);
        case None =>
      }
    }
    assert dirs[..|dirs|] == dirs;
    resolved := resolved.(cpuFan := acer.cpuFan, gpuFan := acer.gpuFan);
    if resolved.cpuTemp.None? {
      resolved := resolved.(cpuTemp := acer.cpuTemp);
    }
    if resolved.gpuTemp.None? {
      resolved := resolved.(gpuTemp := acer.gpuTemp);
    }
  }

  /** The switch on the lower-case name. */
  method DeviceOfName(ghost t: Tree, ghost dir: string, name: Option<string>) returns (device: Option<Device>)
    requires name == ReadText(t, Hwmon(dir, "name"))
    ensures device == DeviceOf(t, dir)
  {
    if name.None? {
      return None;
    }
    var lower := ToLower(name.value);
    if lower == "coretemp" { return Some(Coretemp); }
    if lower == "nvidia" || lower == "amdgpu" { return Some(Graphics); }
    if lower == "acer" { return Some(Acer); }
    return None;
  }
}
