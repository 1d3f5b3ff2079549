/** What the sensor resolution promises, read off the files alone: labels first, then the usual
    channel numbers, of the directory that counts. */
module Labels {
  import opened Results
  import opened Text
  import opened Order
  import opened Store
  import opened Sensors
  import opened Rivals

  // ----- directories -----

  predicate IsEntry(e: DirEntry, d: string) {
    e.name == d && (e.isDir || e.isSymlink)
  }

  /** A directory, or a symbolic link, of the hwmon class. */
  ghost predicate IsDirectory(t: Tree, d: string) {
    && t.hwmon.Some?
    && exists i :: 0 <= i < |t.hwmon.value| && IsEntry(t.hwmon.value[i], d)
  }

  /** A directory whose name file reads as one of these, in any case. */
  ghost predicate IsNamed(t: Tree, d: string, names: set<string>) {
    && IsDirectory(t, d)
    && ReadText(t, Hwmon(d, "name")).Some? && ToLower(ReadText(t, Hwmon(d, "name")).value) in names
  }

  /** Of the directories so named, the one that counts is the last in the order of their bytes. */
  ghost predicate Counts(t: Tree, d: string, names: set<string>) {
    IsNamed(t, d, names) && forall e :: IsNamed(t, e, names) ==> Leq(e, d)
  }

  // ----- labels -----

  /** The label of a channel, in this place of the listing, reads as the target in any case. */
  ghost predicate IsLabelAt(t: Tree, d: string, i: nat, prefix: string, channel: string, target: string) {
    && d in t.listings && i < |t.listings[d]| && t.listings[d][i] == prefix + channel + "_label"
    && ReadText(t, Hwmon(d, t.listings[d][i])).Some?
    && ToLower(ReadText(t, Hwmon(d, t.listings[d][i])).value) == ToLower(target)
  }

  /** The first such label is that of this channel. */
  ghost predicate IsFirstLabel(t: Tree, d: string, i: nat, prefix: string, channel: string, target: string) {
    && IsLabelAt(t, d, i, prefix, channel, target)
    && forall j: nat, other: string :: j < i ==> !IsLabelAt(t, d, j, prefix, other, target)
  }

  /** The input of the labelled channel where it exists, and in every other case the usual one where
      that exists. */
  ghost predicate IsBest(t: Tree, d: string, prefix: string, target: string, usual: string, path: Option<Path>) {
    && (forall i, channel ::
          IsFirstLabel(t, d, i, prefix, channel, target) && Exists(t, Hwmon(d, prefix + channel + "_input")) ==>
            path == Some(Hwmon(d, prefix + channel + "_input")))
    && ((forall i, channel :: IsFirstLabel(t, d, i, prefix, channel, target) ==>
           !Exists(t, Hwmon(d, prefix + channel + "_input"))) ==>
         path == if Exists(t, Hwmon(d, usual)) then Some(Hwmon(d, usual)) else None)
  }

  /** The same of the directory that counts; nothing where there is none. */
  ghost predicate IsBestOf(t: Tree, names: set<string>, prefix: string, target: string, usual: string,
                           path: Option<Path>) {
    && (forall d :: Counts(t, d, names) ==> IsBest(t, d, prefix, target, usual, path))
    && ((forall d :: !IsNamed(t, d, names)) ==> path == None)
  }

  /** A dedicated graphics card has one input, whatever its labels. */
  ghost predicate IsCardInput(t: Tree, path: Option<Path>) {
    && (forall d :: Counts(t, d, {"nvidia", "amdgpu"}) ==>
          path == if Exists(t, Hwmon(d, "temp1_input")) then Some(Hwmon(d, "temp1_input")) else None)
    && ((forall d :: !IsNamed(t, d, {"nvidia", "amdgpu"})) ==> path == None)
  }

  /** The sensor of choice, or else the one to fall back on. */
  ghost predicate IsFirstOf(path: Option<Path>, first: Option<Path>, second: Option<Path>) {
    path == if first.Some? then first else second
  }

  // ----- proofs -----

  function NamesOf(device: Device): set<string> {
    match device
    case Coretemp => {"coretemp"}
    case Graphics => {"nvidia", "amdgpu"}
    case Acer => {"acer"}
  }

  lemma {:induction false} DirectoryNamesMeaning(entries: seq<DirEntry>, d: string)
    ensures d in DirectoryNames(entries) <==>
            exists i :: 0 <= i < |entries| && IsEntry(entries[i], d)
  {
    if entries != [] {
      var n := |entries| - 1;
      DirectoryNamesMeaning(entries[..n], d);
      if d in DirectoryNames(entries) && d in DirectoryNames(entries[..n]) {
        var i :| 0 <= i < n && IsEntry(entries[..n][i], d);
        assert entries[i] == entries[..n][i];
      }
      forall i | 0 <= i < |entries| && IsEntry(entries[i], d)
        ensures d in DirectoryNames(entries)
      {
        if i < n { assert entries[..n][i] == entries[i]; }
      }
    }
  }

  lemma NamedMeaning(t: Tree, d: string, device: Device)
    ensures IsNamed(t, d, NamesOf(device)) <==> d in ListedDirectories(t) && DeviceOf(t, d) == Some(device)
  {
    hide DirectoryNames, ToLower;
    if t.hwmon.Some? { DirectoryNamesMeaning(t.hwmon.value, d); }
  }

  lemma CountsMeaning(t: Tree, device: Device)
    ensures Winner(t, device).None? <==> forall d :: !IsNamed(t, d, NamesOf(device))
    ensures forall d :: Counts(t, d, NamesOf(device)) <==> Winner(t, device) == Some(d)
  {
    hide IsNamed, Winner, DeviceOf, ListedDirectories, Leq, NamesOf;
    WinnerMeaning(t, device);
    forall d ensures IsNamed(t, d, NamesOf(device)) <==> IsOf(t, d, device) { NamedMeaning(t, d, device); }
    forall d | Counts(t, d, NamesOf(device)) ensures Winner(t, device) == Some(d) {
      LeqAntisymmetric(d, Winner(t, device).value);
    }
  }

  lemma LabelMeaning(t: Tree, d: string, i: nat, prefix: string, target: string)
    requires d in t.listings && i < |t.listings[d]| && FreeOf(prefix, '_')
    ensures LabelMatches(t, d, t.listings[d][i], prefix, target) <==>
            exists channel :: IsLabelAt(t, d, i, prefix, channel, target)
    ensures forall channel :: IsLabelAt(t, d, i, prefix, channel, target) ==>
              TrimSuffix(t.listings[d][i], "_label") + "_input" == prefix + channel + "_input"
  {
    hide ToLower;
    var name := t.listings[d][i];
    if LabelMatches(t, d, name, prefix, target) {
      assert name[|name| - 6] == name[|name| - 6..][0] == '_';
      assert |name| >= |prefix| + 6;
      var channel := name[|prefix|..|name| - 6];
      assert name == prefix + channel + "_label";
      assert IsLabelAt(t, d, i, prefix, channel, target);
    }
    forall channel | IsLabelAt(t, d, i, prefix, channel, target)
      ensures LabelMatches(t, d, name, prefix, target)
      ensures TrimSuffix(name, "_label") + "_input" == prefix + channel + "_input"
    {
      assert name[..|prefix|] == prefix && name[|name| - 6..] == "_label";
      assert name[..|name| - 6] == prefix + channel;
    }
  }

  /** The search returns the input of the first matching name, and nothing if none matches. */
  lemma {:induction false} SearchMeaning(t: Tree, d: string, names: seq<string>, prefix: string, target: string)
    ensures match InputAmong(t, d, names, prefix, target)
            case None => forall i :: 0 <= i < |names| ==> !LabelMatches(t, d, names[i], prefix, target)
            case Some(path) =>
              exists i :: 0 <= i < |names| && MatchesFirst(t, d, names, i, prefix, target) &&
                path == Hwmon(d, TrimSuffix(names[i], "_label") + "_input")
  {
    hide LabelMatches, TrimSuffix;
    if names != [] {
      var rest := names[1..];
      SearchMeaning(t, d, rest, prefix, target);
      if LabelMatches(t, d, names[0], prefix, target) {
        assert MatchesFirst(t, d, names, 0, prefix, target);
      } else if InputAmong(t, d, rest, prefix, target).Some? {
        var i :| 0 <= i < |rest| && MatchesFirst(t, d, rest, i, prefix, target) &&
                 InputAmong(t, d, rest, prefix, target).value == Hwmon(d, TrimSuffix(rest[i], "_label") + "_input");
        assert forall j :: 0 <= j < i ==> names[j + 1] == rest[j];
        assert MatchesFirst(t, d, names, i + 1, prefix, target);
      }
    }
  }

  ghost predicate MatchesFirst(t: Tree, d: string, names: seq<string>, i: int, prefix: string, target: string)
    requires 0 <= i < |names|
  {
    LabelMatches(t, d, names[i], prefix, target) &&
    forall j :: 0 <= j < i ==> !LabelMatches(t, d, names[j], prefix, target)
  }

  lemma FirstMeaning(t: Tree, d: string, i: nat, prefix: string, channel: string, target: string)
    requires FreeOf(prefix, '_') && IsFirstLabel(t, d, i, prefix, channel, target)
    ensures InputByLabel(t, d, prefix, target) == Some(Hwmon(d, prefix + channel + "_input"))
  {
    hide LabelMatches, TrimSuffix, IsLabelAt;
    assert d in t.listings && i < |t.listings[d]| by { LabelPlace(t, d, i, prefix, channel, target); }
    var names := t.listings[d];
    SearchMeaning(t, d, names, prefix, target);
    forall j: nat | j < |names|
      ensures LabelMatches(t, d, names[j], prefix, target) <==>
              exists other :: IsLabelAt(t, d, j, prefix, other, target)
    {
      LabelMeaning(t, d, j, prefix, target);
    }
    LabelMeaning(t, d, i, prefix, target);
  }

  lemma LabelPlace(t: Tree, d: string, i: nat, prefix: string, channel: string, target: string)
    requires IsLabelAt(t, d, i, prefix, channel, target)
    ensures d in t.listings && i < |t.listings[d]|
  {}

  lemma FirstExists(t: Tree, d: string, prefix: string, target: string) returns (i: nat, channel: string)
    requires FreeOf(prefix, '_') && InputByLabel(t, d, prefix, target).Some?
    ensures IsFirstLabel(t, d, i, prefix, channel, target)
  {
    hide LabelMatches, TrimSuffix, IsLabelAt;
    var names := t.listings[d];
    SearchMeaning(t, d, names, prefix, target);
    forall j: nat | j < |names|
      ensures LabelMatches(t, d, names[j], prefix, target) <==>
              exists other :: IsLabelAt(t, d, j, prefix, other, target)
    {
      LabelMeaning(t, d, j, prefix, target);
    }
    i :| i < |names| && MatchesFirst(t, d, names, i, prefix, target);
    channel :| IsLabelAt(t, d, i, prefix, channel, target);
    forall j: nat, other: string | j < i ensures !IsLabelAt(t, d, j, prefix, other, target) {
      assert !LabelMatches(t, d, names[j], prefix, target);
    }
  }

  lemma ChannelIsBest(t: Tree, d: string, prefix: string, target: string, usual: string)
    requires FreeOf(prefix, '_')
    ensures IsBest(t, d, prefix, target, usual, Channel(t, d, prefix, target, usual))
  {
    hide InputByLabel, IsFirstLabel, Exists;
    forall i, channel | IsFirstLabel(t, d, i, prefix, channel, target)
      ensures InputByLabel(t, d, prefix, target) == Some(Hwmon(d, prefix + channel + "_input"))
    {
      FirstMeaning(t, d, i, prefix, channel, target);
    }
    if InputByLabel(t, d, prefix, target).Some? {
      var i, channel := FirstExists(t, d, prefix, target);
      assert IsFirstLabel(t, d, i, prefix, channel, target);
    }
  }

  lemma BestOfDevice(t: Tree, device: Device, prefix: string, target: string, usual: string, path: Option<Path>)
    requires FreeOf(prefix, '_')
    requires path == (match Winner(t, device)
                      case None => None
                      case Some(d) => Channel(t, d, prefix, target, usual))
    ensures IsBestOf(t, NamesOf(device), prefix, target, usual, path)
  {
    hide IsBest, Counts, IsNamed, Winner, Channel;
    CountsMeaning(t, device);
    forall d | Counts(t, d, NamesOf(device)) ensures IsBest(t, d, prefix, target, usual, path) {
      ChannelIsBest(t, d, prefix, target, usual);
    }
  }

  // ----- the four readings -----

  /** The fans are the channels labelled "CPU Fan" and "GPU Fan" of the embedded controller, by
      their labels in any case, and without such labels its first and its second channel. */
  lemma FansMeaning(t: Tree)
    ensures IsBestOf(t, {"acer"}, "fan", "CPU Fan", "fan1_input", Resolve(t).cpuFan)
    ensures IsBestOf(t, {"acer"}, "fan", "GPU Fan", "fan2_input", Resolve(t).gpuFan)
  {
    hide IsBestOf, Winner, Channel, Resolve;
    ResolveSupplies(t);
    BestOfDevice(t, Device.Acer, "fan", "CPU Fan", "fan1_input", Resolve(t).cpuFan);
    BestOfDevice(t, Device.Acer, "fan", "GPU Fan", "fan2_input", Resolve(t).gpuFan);
  }

  /** The temperatures: of the package from coretemp, of a graphics card from its own directory, and
      where that has nothing to offer, from the embedded controller, by label or by number. */
  lemma TemperaturesMeaning(t: Tree)
    returns (package: Option<Path>, cpu: Option<Path>, card: Option<Path>, gpu: Option<Path>)
    ensures IsBestOf(t, {"coretemp"}, "temp", "Package id 0", "temp1_input", package)
    ensures IsBestOf(t, {"acer"}, "temp", "CPU", "temp1_input", cpu)
    ensures IsFirstOf(Resolve(t).cpuTemp, package, cpu)
    ensures IsCardInput(t, card)
    ensures IsBestOf(t, {"acer"}, "temp", "GPU", "temp2_input", gpu)
    ensures IsFirstOf(Resolve(t).gpuTemp, card, gpu)
  {
    hide IsBestOf, Winner, Channel, Resolve, Counts, IsNamed;
    ResolveSupplies(t);
    package, cpu := Supplied(t, CorePackage), Supplied(t, AcerCpu);
    card, gpu := Supplied(t, GraphicsCard), Supplied(t, AcerGpu);
    BestOfDevice(t, Coretemp, "temp", "Package id 0", "temp1_input", package);
    BestOfDevice(t, Device.Acer, "temp", "CPU", "temp1_input", cpu);
    CountsMeaning(t, Graphics);
    assert NamesOf(Graphics) == {"nvidia", "amdgpu"};
    BestOfDevice(t, Device.Acer, "temp", "GPU", "temp2_input", gpu);
  }
}
