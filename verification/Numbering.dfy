/** What renumbering the hwmon directories does to them. */
module Numbering {
  import opened Results
  import opened Text
  import opened Order
  import opened Store
  import opened Sensors
  import opened SensorCache

  type Renaming = map<string, string>

  function RenameAll(r: Renaming, names: seq<string>): (renamed: seq<string>)
    requires forall d :: d in names ==> d in r
    ensures |renamed| == |names|
    ensures forall i :: 0 <= i < |names| ==> renamed[i] == r[names[i]]
  {
    seq(|names|, i requires 0 <= i < |names| => assert names[i] in names; r[names[i]])
  }

  /** Every hwmon directory of t stands in u under its new name, with the same listing, the
      same files and the same contents; the class directory may be listed in any order. */
  ghost predicate Renamed(t: Tree, u: Tree, r: Renaming) {
    var dirs := ListedDirectories(t);
    && (forall d :: d in dirs ==> d in r)
    && (forall d, e :: d in dirs && e in dirs && r[d] == r[e] ==> d == e)
    && multiset(ListedDirectories(u)) == multiset(RenameAll(r, dirs))
    && (forall d :: d in dirs ==> SameDirectory(t, d, u, r[d]))
  }

  ghost predicate SameDirectory(t: Tree, d: string, u: Tree, e: string) {
    && (d in t.listings <==> e in u.listings)
    && (d in t.listings ==> t.listings[d] == u.listings[e])
    && (forall file :: Exists(t, Hwmon(d, file)) <==> Exists(u, Hwmon(e, file)))
    && (forall file :: Read(t, Hwmon(d, file)) == Read(u, Hwmon(e, file)))
  }

  function RenamePath(r: Renaming, path: Option<Path>): Option<Path> {
    match path
    case Some(Hwmon(d, file)) => if d in r then Some(Hwmon(r[d], file)) else path
    case _ => path
  }

  function RenamePaths(r: Renaming, s: SensorPaths): SensorPaths {
    SensorPaths(RenamePath(r, s.cpuTemp), RenamePath(r, s.gpuTemp), RenamePath(r, s.cpuFan), RenamePath(r, s.gpuFan))
  }

  lemma SameDirectoryDevice(t: Tree, d: string, u: Tree, e: string)
    requires SameDirectory(t, d, u, e)
    ensures DeviceOf(t, d) == DeviceOf(u, e)
  {
    assert Read(t, Hwmon(d, "name")) == Read(u, Hwmon(e, "name"));
  }

  lemma {:induction false} SameDirectoryInput(t: Tree, d: string, u: Tree, e: string, names: seq<string>,
                                              prefix: string, target: string)
    requires SameDirectory(t, d, u, e)
    ensures var p, q := InputAmong(t, d, names, prefix, target), InputAmong(u, e, names, prefix, target);
            if p.None? then q.None? else p.value.Hwmon? && p.value.dir == d && q == Some(Hwmon(e, p.value.file))
  {
    hide EqualFold, TrimSuffix, IsLabel;
    if names != [] {
      assert Read(t, Hwmon(d, names[0])) == Read(u, Hwmon(e, names[0]));
      SameDirectoryInput(t, d, u, e, names[1..], prefix, target);
    }
  }

  lemma SameDirectoryChannel(t: Tree, d: string, u: Tree, e: string, prefix: string, target: string, fallback: string)
    requires SameDirectory(t, d, u, e)
    ensures var p, q := Channel(t, d, prefix, target, fallback), Channel(u, e, prefix, target, fallback);
            if p.None? then q.None? else p.value.Hwmon? && p.value.dir == d && q == Some(Hwmon(e, p.value.file))
  {
    hide InputAmong;
    if d in t.listings { SameDirectoryInput(t, d, u, e, t.listings[d], prefix, target); }
  }

  lemma {:induction false} LastOfMeaning(t: Tree, dirs: seq<string>, device: Device)
    ensures var last := LastOf(t, dirs, device);
            if last.Some? then last.value in dirs && DeviceOf(t, last.value) == Some(device)
            else forall d :: d in dirs ==> DeviceOf(t, d) != Some(device)
  {
    hide DeviceOf;
    if dirs != [] {
      LastOfMeaning(t, dirs[..|dirs| - 1], device);
      assert dirs == dirs[..|dirs| - 1] + [dirs[|dirs| - 1]];
    }
  }

  lemma RenamedMembers(t: Tree, u: Tree, r: Renaming, e: string)
    requires Renamed(t, u, r)
    ensures e in Directories(u) <==> exists d :: d in ListedDirectories(t) && r[d] == e
  {
    var dirs := ListedDirectories(t);
    SortMembers(ListedDirectories(u), e);
    assert e in ListedDirectories(u) <==> e in multiset(ListedDirectories(u));
    assert e in multiset(RenameAll(r, dirs)) <==> e in RenameAll(r, dirs);
    if e in RenameAll(r, dirs) {
      var i :| 0 <= i < |dirs| && RenameAll(r, dirs)[i] == e;
      assert dirs[i] in dirs && r[dirs[i]] == e;
    }
    forall d | d in dirs && r[d] == e ensures e in RenameAll(r, dirs) {
      var i :| 0 <= i < |dirs| && dirs[i] == d;
      assert RenameAll(r, dirs)[i] == e;
    }
  }

  lemma ChannelRenamed(t: Tree, u: Tree, r: Renaming, d: string, prefix: string, target: string, fallback: string)
    requires Renamed(t, u, r) && d in ListedDirectories(t)
    ensures Channel(u, r[d], prefix, target, fallback) == RenamePath(r, Channel(t, d, prefix, target, fallback))
  {
    hide Channel, SameDirectory;
    SameDirectoryChannel(t, d, u, r[d], prefix, target, fallback);
  }

  lemma DedicatedRenamed(t: Tree, u: Tree, r: Renaming, d: string)
    requires Renamed(t, u, r) && d in ListedDirectories(t)
    ensures Dedicated(u, r[d]) == RenamePath(r, Dedicated(t, d))
  {
    assert SameDirectory(t, d, u, r[d]);
  }

  /** Two directories of the embedded controller, the first of which has a fan. */
  function Twins(first: string, second: string): Tree {
    Tree(map[Hwmon(first, "name") := Node("acer", true), Hwmon(first, "fan1_input") := Node("1000", true),
             Hwmon(second, "name") := Node("acer", true)],
         Some([DirEntry("hwmon1", true, false), DirEntry("hwmon2", true, false)]), None, map[])
  }

  const SWAP: Renaming := map["hwmon1" := "hwmon2", "hwmon2" := "hwmon1"]

  lemma TwinsListed(first: string, second: string)
    ensures ListedDirectories(Twins(first, second)) == ["hwmon1", "hwmon2"]
  {
    var entries := Twins(first, second).hwmon.value;
    assert entries[..1] == [entries[0]] && entries[..1][..0] == [];
    assert DirectoryNames(entries[..1]) == ["hwmon1"];
  }

  lemma TwinsRenamed()
    ensures Renamed(Twins("hwmon1", "hwmon2"), Twins("hwmon2", "hwmon1"), SWAP)
  {
    hide ListedDirectories, SameDirectory;
    var t, u := Twins("hwmon1", "hwmon2"), Twins("hwmon2", "hwmon1");
    TwinsListed("hwmon1", "hwmon2");
    TwinsListed("hwmon2", "hwmon1");
    var dirs := ["hwmon1", "hwmon2"];
    assert forall d :: d in dirs <==> d == "hwmon1" || d == "hwmon2";
    assert RenameAll(SWAP, dirs) == ["hwmon2", "hwmon1"];
    TwinDirectories("hwmon1", "hwmon2");
  }

  lemma TwinDirectories(first: string, second: string)
    requires first != second
    ensures SameDirectory(Twins(first, second), first, Twins(second, first), second)
    ensures SameDirectory(Twins(first, second), second, Twins(second, first), first)
  {
    hide SameDirectory;
    FirstTwin(first, second);
    SecondTwin(first, second);
  }

  lemma FirstTwin(first: string, second: string)
    requires first != second
    ensures SameDirectory(Twins(first, second), first, Twins(second, first), second)
  {}

  lemma SecondTwin(first: string, second: string)
    requires first != second
    ensures SameDirectory(Twins(first, second), second, Twins(second, first), first)
  {}

  lemma TwinDevices(first: string, second: string)
    ensures DeviceOf(Twins(first, second), first) == Some(Device.Acer)
    ensures DeviceOf(Twins(first, second), second) == Some(Device.Acer)
  {
    TrimSpaceOfTrimmed("acer");
    assert ToLower("acer") == "acer";
  }

  lemma TwinFan(first: string, second: string, last: string)
    requires first != second && (last == first || last == second)
    requires Directories(Twins(first, second)) != []
    requires last == Directories(Twins(first, second))[|Directories(Twins(first, second))| - 1]
    ensures Resolve(Twins(first, second)).cpuFan.Some? <==> last == first
  {
    hide Directories, DeviceOf;
    TwinDevices(first, second);
  }

  /** The numbers can matter: of two such directories the later one counts, so swapping their
      numbers makes a fan appear or disappear. */
  lemma TwinsDependOnNumbers()
    ensures var t, u := Twins("hwmon1", "hwmon2"), Twins("hwmon2", "hwmon1");
            Renamed(t, u, SWAP) && (Resolve(t).cpuFan.Some? <==> Resolve(u).cpuFan.None?)
  {
    hide Sort, Twins, Resolve, Renamed, ListedDirectories;
    TwinsRenamed();
    TwinsListed("hwmon1", "hwmon2");
    TwinsListed("hwmon2", "hwmon1");
    var dirs := Sort(["hwmon1", "hwmon2"]);
    SortSorted(["hwmon1", "hwmon2"]);
    assert |dirs| == |multiset(dirs)| == 2;
    var last := dirs[|dirs| - 1];
    SortMembers(["hwmon1", "hwmon2"], last);
    TwinFan("hwmon1", "hwmon2", last);
    TwinFan("hwmon2", "hwmon1", last);
  }

  lemma ResolvedDirectories(t: Tree)
    ensures var s := Resolve(t);
            forall path :: path in {s.cpuTemp, s.gpuTemp, s.cpuFan, s.gpuFan} && path.Some? ==>
              path.value.Hwmon? && path.value.dir in ListedDirectories(t)
  {
    hide Channel, LastOf, DeviceOf;
    forall device ensures var last := LastOf(t, Directories(t), device);
                          last.Some? ==> last.value in ListedDirectories(t) {
      LastOfMeaning(t, Directories(t), device);
      if LastOf(t, Directories(t), device).Some? {
        SortMembers(ListedDirectories(t), LastOf(t, Directories(t), device).value);
      }
    }
    forall dir, prefix, target, fallback
      ensures var path := Channel(t, dir, prefix, target, fallback);
              path.Some? ==> path.value.Hwmon? && path.value.dir == dir
    {
      ChannelOnHwmon(t, dir, prefix, target, fallback);
    }
  }

  lemma RenamedReading(t: Tree, u: Tree, r: Renaming, path: Option<Path>)
    requires Renamed(t, u, r)
    requires path.Some? ==> path.value.Hwmon? && path.value.dir in ListedDirectories(t)
    ensures ReadInt(u, RenamePath(r, path)) == ReadInt(t, path)
  {
    if path.Some? {
      assert SameDirectory(t, path.value.dir, u, r[path.value.dir]);
      assert Read(t, path.value) == Read(u, Hwmon(r[path.value.dir], path.value.file));
    }
  }

  /** The order the class directory is listed in makes no difference. */
  lemma ResolveIgnoresListingOrder(t: Tree, u: Tree)
    requires u == t.(hwmon := u.hwmon)
    requires multiset(ListedDirectories(t)) == multiset(ListedDirectories(u))
    ensures Resolve(t) == Resolve(u)
  {
    hide Channel, LastOf;
    SortIgnoresOrder(ListedDirectories(t), ListedDirectories(u));
    var dirs := Directories(t);
    SameFilesLast(t, u, dirs, Coretemp);
    SameFilesLast(t, u, dirs, Graphics);
    SameFilesLast(t, u, dirs, Device.Acer);
    forall dir, prefix, target, fallback
      ensures Channel(t, dir, prefix, target, fallback) == Channel(u, dir, prefix, target, fallback)
    {
      SameFilesChannel(t, u, dir, prefix, target, fallback);
    }
  }

  lemma {:induction false} SameFilesLast(t: Tree, u: Tree, dirs: seq<string>, device: Device)
    requires u == t.(hwmon := u.hwmon)
    ensures LastOf(t, dirs, device) == LastOf(u, dirs, device)
  {
    if dirs != [] {
      assert DeviceOf(t, dirs[|dirs| - 1]) == DeviceOf(u, dirs[|dirs| - 1]);
      SameFilesLast(t, u, dirs[..|dirs| - 1], device);
    }
  }

  lemma SameFilesChannel(t: Tree, u: Tree, dir: string, prefix: string, target: string, fallback: string)
    requires u == t.(hwmon := u.hwmon)
    ensures Channel(t, dir, prefix, target, fallback) == Channel(u, dir, prefix, target, fallback)
  {
    assert SameDirectory(t, dir, u, dir);
    SameDirectoryChannel(t, dir, u, dir, prefix, target, fallback);
  }
}
