/** Exactly when the numbers the kernel gives to the hwmon directories matter. */
module Rivals {
  import opened Results
  import opened Order
  import opened Store
  import opened Sensors
  import opened SensorCache
  import opened Numbering

  // ----- one reading at a time -----

  /** The inputs the resolution looks for. */
  datatype Source = CorePackage | GraphicsCard | AcerCpu | AcerGpu | CpuFan | GpuFan

  function DeviceFor(s: Source): Device {
    match s
    case CorePackage => Coretemp
    case GraphicsCard => Graphics
    case _ => Device.Acer
  }

  /** What a directory of the right device has to offer. */
  function Offer(t: Tree, s: Source, dir: string): Option<Path> {
    match s
    case CorePackage => Channel(t, dir, "temp", "Package id 0", "temp1_input")
    case GraphicsCard => Dedicated(t, dir)
    case AcerCpu => Channel(t, dir, "temp", "CPU", "temp1_input")
    case AcerGpu => Channel(t, dir, "temp", "GPU", "temp2_input")
    case CpuFan => Channel(t, dir, "fan", "CPU Fan", "fan1_input")
    case GpuFan => Channel(t, dir, "fan", "GPU Fan", "fan2_input")
  }

  function Winner(t: Tree, device: Device): Option<string> {
    LastOf(t, Directories(t), device)
  }

  function Supplied(t: Tree, s: Source): Option<Path> {
    match Winner(t, DeviceFor(s))
    case None => None
    case Some(d) => Offer(t, s, d)
  }

  lemma ResolveSupplies(t: Tree)
    ensures Resolve(t) == SensorPaths(OrElse(Supplied(t, CorePackage), Supplied(t, AcerCpu)),
                                      OrElse(Supplied(t, GraphicsCard), Supplied(t, AcerGpu)),
                                      Supplied(t, CpuFan), Supplied(t, GpuFan))
  {
    hide Channel, Dedicated, LastOf, Directories;
  }

  ghost predicate IsOf(t: Tree, d: string, device: Device) {
    d in ListedDirectories(t) && DeviceOf(t, d) == Some(device)
  }

  /** No directory competes for the source: there is one of its device at most, or none that
      offers anything. */
  ghost predicate Settled(t: Tree, s: Source) {
    || (forall d, e :: IsOf(t, d, DeviceFor(s)) && IsOf(t, e, DeviceFor(s)) ==> d == e)
    || (forall d :: IsOf(t, d, DeviceFor(s)) ==> Offer(t, s, d).None?)
  }

  ghost predicate HasOffer(t: Tree, s: Source) {
    exists d :: IsOf(t, d, DeviceFor(s)) && Offer(t, s, d).Some?
  }

  /** Every source that can be read from is settled; a channel of the embedded controller need
      not be where a dedicated sensor supplies the reading. */
  ghost predicate NoRival(t: Tree) {
    && Settled(t, CorePackage) && Settled(t, GraphicsCard) && Settled(t, CpuFan) && Settled(t, GpuFan)
    && (HasOffer(t, CorePackage) || Settled(t, AcerCpu))
    && (HasOffer(t, GraphicsCard) || Settled(t, AcerGpu))
  }

  // ----- winners -----

  lemma {:induction false} LastOfIsLargest(t: Tree, dirs: seq<string>, device: Device, d: string)
    requires Sorted(dirs) && d in dirs && DeviceOf(t, d) == Some(device)
    ensures LastOf(t, dirs, device).Some? && Leq(d, LastOf(t, dirs, device).value)
  {
    hide DeviceOf, Leq;
    var before, last := dirs[..|dirs| - 1], dirs[|dirs| - 1];
    LastOfMeaning(t, dirs, device);
    if d == last {
      LeqTotal(d, d);
    } else {
      var i :| 0 <= i < |dirs| && dirs[i] == d;
      assert before[i] == d;
      if DeviceOf(t, last) != Some(device) { LastOfIsLargest(t, before, device, d); }
    }
  }

  /** The winner is the largest name among the directories of the device. */
  lemma WinnerMeaning(t: Tree, device: Device)
    ensures Winner(t, device).Some? ==> IsOf(t, Winner(t, device).value, device)
    ensures forall d :: IsOf(t, d, device) ==> Winner(t, device).Some? && Leq(d, Winner(t, device).value)
  {
    hide DeviceOf, Leq, LastOf, Sort;
    var names := ListedDirectories(t);
    LastOfMeaning(t, Directories(t), device);
    SortSorted(names);
    if Winner(t, device).Some? { SortMembers(names, Winner(t, device).value); }
    forall d | IsOf(t, d, device) ensures Winner(t, device).Some? && Leq(d, Winner(t, device).value) {
      SortMembers(names, d);
      LastOfIsLargest(t, Directories(t), device, d);
    }
  }

  lemma OfferShape(t: Tree, s: Source, d: string)
    ensures Offer(t, s, d).Some? ==> Offer(t, s, d).value.Hwmon? && Offer(t, s, d).value.dir == d
  {
    hide Channel;
    match s
    case CorePackage => ChannelOnHwmon(t, d, "temp", "Package id 0", "temp1_input");
    case GraphicsCard =>
    case AcerCpu => ChannelOnHwmon(t, d, "temp", "CPU", "temp1_input");
    case AcerGpu => ChannelOnHwmon(t, d, "temp", "GPU", "temp2_input");
    case CpuFan => ChannelOnHwmon(t, d, "fan", "CPU Fan", "fan1_input");
    case GpuFan => ChannelOnHwmon(t, d, "fan", "GPU Fan", "fan2_input");
  }

  lemma OfferRenamed(t: Tree, u: Tree, r: Renaming, s: Source, d: string)
    requires Renamed(t, u, r) && d in ListedDirectories(t)
    ensures d in r && Offer(u, s, r[d]) == RenamePath(r, Offer(t, s, d))
  {
    hide Channel, Dedicated, RenamePath, SameDirectory, ListedDirectories;
    match s
    case CorePackage => ChannelRenamed(t, u, r, d, "temp", "Package id 0", "temp1_input");
    case GraphicsCard => DedicatedRenamed(t, u, r, d);
    case AcerCpu => ChannelRenamed(t, u, r, d, "temp", "CPU", "temp1_input");
    case AcerGpu => ChannelRenamed(t, u, r, d, "temp", "GPU", "temp2_input");
    case CpuFan => ChannelRenamed(t, u, r, d, "fan", "CPU Fan", "fan1_input");
    case GpuFan => ChannelRenamed(t, u, r, d, "fan", "GPU Fan", "fan2_input");
  }

  lemma RenamedIsOf(t: Tree, u: Tree, r: Renaming, device: Device)
    requires Renamed(t, u, r)
    ensures forall d :: IsOf(t, d, device) ==> d in r && IsOf(u, r[d], device)
    ensures forall e :: IsOf(u, e, device) ==> exists d :: IsOf(t, d, device) && r[d] == e
  {
    hide DeviceOf, SameDirectory, Sort;
    forall d | d in ListedDirectories(t) ensures DeviceOf(u, r[d]) == DeviceOf(t, d) {
      SameDirectoryDevice(t, d, u, r[d]);
    }
    forall e ensures e in ListedDirectories(u) <==> exists d :: d in ListedDirectories(t) && r[d] == e {
      RenamedMembers(t, u, r, e);
      SortMembers(ListedDirectories(u), e);
    }
    forall e | IsOf(u, e, device) ensures exists d :: IsOf(t, d, device) && r[d] == e {
      var d :| d in ListedDirectories(t) && r[d] == e;
      assert IsOf(t, d, device);
    }
  }

  // ----- no rival: the numbers do not matter -----

  lemma SettledSupply(t: Tree, u: Tree, r: Renaming, s: Source)
    requires Renamed(t, u, r) && Settled(t, s)
    ensures Supplied(u, s) == RenamePath(r, Supplied(t, s))
  {
    hide Offer, Winner, Renamed, RenamePath;
    var device := DeviceFor(s);
    WinnerMeaning(t, device);
    WinnerMeaning(u, device);
    RenamedIsOf(t, u, r, device);
    RenameNothing(r);
    if Winner(u, device).Some? {
      var d :| IsOf(t, d, device) && r[d] == Winner(u, device).value;
      OfferRenamed(t, u, r, s, d);
      OfferRenamed(t, u, r, s, Winner(t, device).value);
    }
  }

  lemma RenameNothing(r: Renaming)
    ensures RenamePath(r, None) == None
    ensures forall path: Option<Path> :: path.Some? ==> RenamePath(r, path).Some?
  {}

  /** A settled source that offers something is supplied, by its one directory. */
  lemma OfferIsSupplied(t: Tree, s: Source)
    requires Settled(t, s)
    ensures HasOffer(t, s) <==> Supplied(t, s).Some?
  {
    hide Offer, Winner;
    WinnerMeaning(t, DeviceFor(s));
  }

  /** Renumbering then renames the resolved paths and changes nothing else. */
  lemma ResolveIsNumberingIndependent(t: Tree, u: Tree, r: Renaming)
    requires Renamed(t, u, r) && NoRival(t)
    ensures Resolve(u) == RenamePaths(r, Resolve(t))
  {
    hide Resolve, Renamed, Settled, HasOffer, Supplied, RenamePath;
    ResolveSupplies(t);
    ResolveSupplies(u);
    RenameNothing(r);
    SettledSupply(t, u, r, CorePackage);
    SettledSupply(t, u, r, GraphicsCard);
    SettledSupply(t, u, r, CpuFan);
    SettledSupply(t, u, r, GpuFan);
    OfferIsSupplied(t, CorePackage);
    OfferIsSupplied(t, GraphicsCard);
    if Settled(t, AcerCpu) { SettledSupply(t, u, r, AcerCpu); }
    if Settled(t, AcerGpu) { SettledSupply(t, u, r, AcerGpu); }
  }

  // ----- a rival: swapping two numbers shows -----

  function Other(n: string, d: string, e: string): string {
    if n == d then e else if n == e then d else n
  }

  function OtherPath(p: Path, d: string, e: string): Path {
    match p
    case Hwmon(dir, file) => Hwmon(Other(dir, d, e), file)
    case _ => p
  }

  lemma OtherTwice(d: string, e: string)
    ensures forall n :: Other(Other(n, d, e), d, e) == n
    ensures forall p :: OtherPath(OtherPath(p, d, e), d, e) == p
  {}

  function SwapNumbers(t: Tree, d: string, e: string): Renaming {
    map n | n in ListedDirectories(t) :: Other(n, d, e)
  }

  function SwapEntries(entries: seq<DirEntry>, d: string, e: string): (r: seq<DirEntry>)
    ensures |r| == |entries|
  {
    seq(|entries|, i requires 0 <= i < |entries| => entries[i].(name := Other(entries[i].name, d, e)))
  }

  function SwapFiles(files: map<Path, Node>, d: string, e: string): (r: map<Path, Node>)
    ensures forall p :: (OtherPath(p, d, e) in r <==> p in files) && (p in files ==> r[OtherPath(p, d, e)] == files[p])
  {
    hide Other, OtherPath;
    OtherTwice(d, e);
    map p | p in files :: OtherPath(p, d, e) := files[p]
  }

  function SwapListings(listings: map<string, seq<string>>, d: string, e: string): (r: map<string, seq<string>>)
    ensures forall n :: (Other(n, d, e) in r <==> n in listings) && (n in listings ==> r[Other(n, d, e)] == listings[n])
  {
    hide Other;
    OtherTwice(d, e);
    map n | n in listings :: Other(n, d, e) := listings[n]
  }

  /** The same machine with the numbers of two directories swapped. */
  function Swapped(t: Tree, d: string, e: string): Tree {
    Tree(SwapFiles(t.files, d, e), if t.hwmon.None? then None else Some(SwapEntries(t.hwmon.value, d, e)),
         t.supplies, SwapListings(t.listings, d, e))
  }

  lemma SwappedDirectory(t: Tree, d: string, e: string, n: string)
    ensures SameDirectory(t, n, Swapped(t, d, e), Other(n, d, e))
  {
    hide Other, SwapFiles, SwapListings;
    assert forall file :: OtherPath(Hwmon(n, file), d, e) == Hwmon(Other(n, d, e), file);
  }

  lemma {:induction false} SwappedNames(entries: seq<DirEntry>, d: string, e: string)
    ensures var names, others := DirectoryNames(entries), DirectoryNames(SwapEntries(entries, d, e));
            |others| == |names| && forall i :: 0 <= i < |names| ==> others[i] == Other(names[i], d, e)
  {
    if entries != [] {
      var n := |entries| - 1;
      SwappedNames(entries[..n], d, e);
      assert SwapEntries(entries, d, e)[..n] == SwapEntries(entries[..n], d, e);
    }
  }

  lemma SwappedList(t: Tree, d: string, e: string)
    ensures var names, others := ListedDirectories(t), ListedDirectories(Swapped(t, d, e));
            |others| == |names| && forall i :: 0 <= i < |names| ==> others[i] == Other(names[i], d, e)
  {
    hide DirectoryNames, Other, SwapFiles, SwapListings, SwapEntries;
    if t.hwmon.Some? { SwappedNames(t.hwmon.value, d, e); }
  }

  lemma SwappedRenamed(t: Tree, d: string, e: string)
    ensures Renamed(t, Swapped(t, d, e), SwapNumbers(t, d, e))
  {
    hide SameDirectory, ListedDirectories, Swapped, Other;
    var u, r, dirs := Swapped(t, d, e), SwapNumbers(t, d, e), ListedDirectories(t);
    SwappedList(t, d, e);
    OtherTwice(d, e);
    assert ListedDirectories(u) == RenameAll(r, dirs);
    forall m, n | m in dirs && n in dirs && r[m] == r[n] ensures m == n {
      assert Other(r[m], d, e) == m && Other(r[n], d, e) == n;
    }
    forall n | n in dirs ensures SameDirectory(t, n, u, r[n]) { SwappedDirectory(t, d, e, n); }
  }

  /** Two directories of one device, swapped: the same names are of the same devices. */
  lemma SwapKeepsDevices(t: Tree, d: string, e: string, kind: Device, device: Device)
    requires IsOf(t, d, kind) && IsOf(t, e, kind)
    ensures forall n :: IsOf(Swapped(t, d, e), n, device) <==> IsOf(t, n, device)
  {
    hide IsOf, Swapped, Renamed, SwapNumbers, Other;
    var u, r := Swapped(t, d, e), SwapNumbers(t, d, e);
    SwappedRenamed(t, d, e);
    RenamedIsOf(t, u, r, device);
    SwapOfDevice(t, d, e, kind, device);
    OtherTwice(d, e);
    forall n ensures IsOf(u, n, device) <==> IsOf(t, n, device) {
      var m := Other(n, d, e);
      if IsOf(t, n, device) { assert IsOf(t, m, device) && r[m] == Other(m, d, e); }
    }
  }

  lemma SwapOfDevice(t: Tree, d: string, e: string, kind: Device, device: Device)
    requires IsOf(t, d, kind) && IsOf(t, e, kind)
    ensures forall n :: IsOf(t, n, device) ==>
              n in SwapNumbers(t, d, e) && SwapNumbers(t, d, e)[n] == Other(n, d, e)
    ensures forall n :: IsOf(t, Other(n, d, e), device) <==> IsOf(t, n, device)
  {
    hide DeviceOf, ListedDirectories;
  }

  lemma SwapKeepsWinner(t: Tree, d: string, e: string, kind: Device, device: Device)
    requires IsOf(t, d, kind) && IsOf(t, e, kind)
    ensures Winner(Swapped(t, d, e), device) == Winner(t, device)
  {
    hide IsOf, Swapped, Winner, Leq;
    var u := Swapped(t, d, e);
    SwapKeepsDevices(t, d, e, kind, device);
    WinnerMeaning(t, device);
    WinnerMeaning(u, device);
    if Winner(t, device).Some? {
      LeqAntisymmetric(Winner(t, device).value, Winner(u, device).value);
    }
  }

  lemma SwapMoves(t: Tree, d: string, e: string, s: Source, n: string)
    requires n in ListedDirectories(t)
    ensures Offer(Swapped(t, d, e), s, Other(n, d, e)) == RenamePath(SwapNumbers(t, d, e), Offer(t, s, n))
    ensures var path := RenamePath(SwapNumbers(t, d, e), Offer(t, s, n));
            && (path.Some? <==> Offer(t, s, n).Some?)
            && (path.Some? ==> path.value.Hwmon? && path.value.dir == Other(n, d, e))
  {
    hide Offer, Swapped, Renamed;
    SwappedRenamed(t, d, e);
    OfferRenamed(t, Swapped(t, d, e), SwapNumbers(t, d, e), s, n);
    OfferShape(t, s, n);
  }

  ghost predicate InDirectory(path: Option<Path>, d: string) {
    path.Some? ==> path.value.Hwmon? && path.value.dir == d
  }

  /** What an unsettled source is worth when its winner swaps numbers with a rival: both paths
      lie in the two directories, and they differ. */
  ghost predicate Disagrees(t: Tree, d: string, e: string, s: Source) {
    var p, q := Supplied(Swapped(t, d, e), s), RenamePath(SwapNumbers(t, d, e), Supplied(t, s));
    p != q && InDirectory(p, d) && InDirectory(q, e)
  }

  lemma RivalFound(t: Tree, s: Source) returns (d: string, e: string)
    requires !Settled(t, s)
    ensures d != e && IsOf(t, d, DeviceFor(s)) && IsOf(t, e, DeviceFor(s))
    ensures Winner(t, DeviceFor(s)) == Some(d)
    ensures Offer(t, s, d).Some? || Offer(t, s, e).Some?
  {
    hide Offer, IsOf, Winner;
    var device := DeviceFor(s);
    var a, b :| IsOf(t, a, device) && IsOf(t, b, device) && a != b;
    var n :| IsOf(t, n, device) && Offer(t, s, n).Some?;
    WinnerMeaning(t, device);
    d := Winner(t, device).value;
    e := if n != d then n else if a != d then a else b;
  }

  lemma SwapShows(t: Tree, d: string, e: string, s: Source)
    requires d != e && IsOf(t, d, DeviceFor(s)) && IsOf(t, e, DeviceFor(s))
    requires Winner(t, DeviceFor(s)) == Some(d) && (Offer(t, s, d).Some? || Offer(t, s, e).Some?)
    ensures Disagrees(t, d, e, s)
  {
    hide Offer, Winner, Swapped, SwapNumbers, RenamePath;
    SwapKeepsWinner(t, d, e, DeviceFor(s), DeviceFor(s));
    SwapMoves(t, d, e, s, d);
    SwapMoves(t, d, e, s, e);
    RenameNothing(SwapNumbers(t, d, e));
  }

  /** A source of another device does not notice. */
  lemma SwapSpares(t: Tree, d: string, e: string, kind: Device, s: Source)
    requires IsOf(t, d, kind) && IsOf(t, e, kind) && DeviceFor(s) != kind
    ensures var path := Supplied(Swapped(t, d, e), s);
            && path == RenamePath(SwapNumbers(t, d, e), Supplied(t, s))
            && (path.Some? ==> path.value.Hwmon? && path.value.dir != d && path.value.dir != e)
  {
    hide Offer, Winner, Swapped, SwapNumbers, RenamePath;
    SwapKeepsWinner(t, d, e, kind, DeviceFor(s));
    WinnerMeaning(t, DeviceFor(s));
    RenameNothing(SwapNumbers(t, d, e));
    if Winner(t, DeviceFor(s)).Some? { SwapMoves(t, d, e, s, Winner(t, DeviceFor(s)).value); }
  }

  /** The numbers make no difference: however the directories are renumbered, the resolution
      finds the same files. */
  ghost predicate IsNumberingFree(t: Tree) {
    forall u, r :: Renamed(t, u, r) ==> Resolve(u) == RenamePaths(r, Resolve(t))
  }

  lemma OrElseDiffers(p: Option<Path>, q: Option<Path>, x: Option<Path>, d: string, e: string)
    requires d != e && p != q && InDirectory(p, d) && InDirectory(q, e)
    requires x.Some? ==> x.value.Hwmon? && x.value.dir != d && x.value.dir != e
    ensures OrElse(p, x) != OrElse(q, x)
  {}

  /** A source that someone reads from: a channel of the embedded controller is passed over
      where a dedicated sensor has something to offer. */
  ghost predicate IsRead(t: Tree, s: Source) {
    (s.AcerCpu? ==> !HasOffer(t, CorePackage)) && (s.AcerGpu? ==> !HasOffer(t, GraphicsCard))
  }

  /** The choice a source is passed over for, or that is taken where it has nothing. */
  function Alternative(s: Source): Option<Source> {
    match s
    case CorePackage => Some(AcerCpu)
    case AcerCpu => Some(CorePackage)
    case GraphicsCard => Some(AcerGpu)
    case AcerGpu => Some(GraphicsCard)
    case _ => None
  }

  /** A rival for a source that is read from makes a difference. */
  lemma RivalMatters(t: Tree, s: Source)
    requires !Settled(t, s) && IsRead(t, s)
    ensures !IsNumberingFree(t)
  {
    hide Offer, Winner, Swapped, SwapNumbers, RenamePath, Renamed, Supplied, Settled, Resolve, IsOf, OrElse;
    var d, e := RivalFound(t, s);
    var u, r := Swapped(t, d, e), SwapNumbers(t, d, e);
    SwappedRenamed(t, d, e);
    ResolveSupplies(t);
    ResolveSupplies(u);
    SwapShows(t, d, e, s);
    RivalShows(t, d, e, s);
    assert Resolve(u) != RenamePaths(r, Resolve(t));
  }

  /** The path of the reading a source takes part in. */
  function PathFor(p: SensorPaths, s: Source): Option<Path> {
    match s
    case CorePackage => p.cpuTemp
    case AcerCpu => p.cpuTemp
    case GraphicsCard => p.gpuTemp
    case AcerGpu => p.gpuTemp
    case CpuFan => p.cpuFan
    case GpuFan => p.gpuFan
  }

  lemma RivalShows(t: Tree, d: string, e: string, s: Source)
    requires d != e && IsOf(t, d, DeviceFor(s)) && IsOf(t, e, DeviceFor(s))
    requires Disagrees(t, d, e, s) && IsRead(t, s)
    ensures PathFor(Resolve(Swapped(t, d, e)), s) != RenamePath(SwapNumbers(t, d, e), PathFor(Resolve(t), s))
  {
    hide Offer, Winner, Swapped, SwapNumbers, RenamePath, Resolve, IsOf;
    var u, r := Swapped(t, d, e), SwapNumbers(t, d, e);
    ResolveSupplies(t);
    ResolveSupplies(u);
    RenameNothing(r);
    if Alternative(s).Some? {
      var other := Alternative(s).value;
      SwapSpares(t, d, e, DeviceFor(s), other);
      if s.AcerCpu? || s.AcerGpu? {
        OfferIsSupplied(t, other);
      } else {
        OrElseDiffers(Supplied(u, s), RenamePath(r, Supplied(t, s)), Supplied(u, other), d, e);
      }
    }
  }

  /** The numbers make no difference exactly when no directory has a rival. */
  lemma NumbersMatterExactly(t: Tree)
    ensures IsNumberingFree(t) <==> NoRival(t)
  {
    hide Settled, HasOffer, Renamed, Resolve, RenamePaths;
    if NoRival(t) {
      forall u, r | Renamed(t, u, r) ensures Resolve(u) == RenamePaths(r, Resolve(t)) {
        ResolveIsNumberingIndependent(t, u, r);
      }
    } else if !Settled(t, CorePackage) {
      RivalMatters(t, CorePackage);
    } else if !Settled(t, GraphicsCard) {
      RivalMatters(t, GraphicsCard);
    } else if !Settled(t, CpuFan) {
      RivalMatters(t, CpuFan);
    } else if !Settled(t, GpuFan) {
      RivalMatters(t, GpuFan);
    } else if !HasOffer(t, CorePackage) && !Settled(t, AcerCpu) {
      RivalMatters(t, AcerCpu);
    } else {
      RivalMatters(t, AcerGpu);
    }
  }

  /** At most one directory of each device. */
  ghost predicate UniqueDevices(t: Tree) {
    forall d, e :: d in ListedDirectories(t) && e in ListedDirectories(t) ==>
      DeviceOf(t, d).Some? && DeviceOf(t, d) == DeviceOf(t, e) ==> d == e
  }

  /** One directory of each device is enough, but not needed. */
  lemma UniqueDevicesHaveNoRival(t: Tree)
    requires UniqueDevices(t)
    ensures NoRival(t)
  {
    hide DeviceOf, ListedDirectories, Offer, HasOffer;
  }

  /** Without rivals a fresh controller reads the same fan speeds and temperatures under any
      numbering. */
  lemma FreshReadingsAreNumberingIndependent(t: Tree, u: Tree, r: Renaming)
    requires Renamed(t, u, r) && NoRival(t)
    ensures FreshFans(u) == FreshFans(t)
    ensures FreshTemperatures(u) == FreshTemperatures(t)
  {
    hide Resolve, ReadInt, Renamed, NoRival;
    ResolveIsNumberingIndependent(t, u, r);
    ResolvedDirectories(t);
    var s := Resolve(t);
    RenamedReading(t, u, r, s.cpuFan);
    RenamedReading(t, u, r, s.gpuFan);
    RenamedReading(t, u, r, s.cpuTemp);
    RenamedReading(t, u, r, s.gpuTemp);
  }

  // ----- two given machines -----

  function DirectoryOf(path: Option<Path>): Option<string> {
    match path
    case Some(Hwmon(dir, _)) => Some(dir)
    case _ => None
  }

  function RenameDirectory(r: Renaming, dir: Option<string>): Option<string> {
    if dir.Some? && dir.value in r then Some(r[dir.value]) else dir
  }

  /** Each reading comes from the same directory, under its new name. */
  ghost predicate SameSuppliers(r: Renaming, p: SensorPaths, q: SensorPaths) {
    forall s :: DirectoryOf(PathFor(q, s)) == RenameDirectory(r, DirectoryOf(PathFor(p, s)))
  }

  /** A resolved path is what its directory offers for one of the sources of the reading. */
  lemma PathOrigin(t: Tree, s: Source) returns (origin: Source, d: string)
    requires PathFor(Resolve(t), s).Some?
    ensures origin == s || Some(origin) == Alternative(s)
    ensures IsOf(t, d, DeviceFor(origin)) && PathFor(Resolve(t), s) == Offer(t, origin, d)
    ensures DirectoryOf(PathFor(Resolve(t), s)) == Some(d)
  {
    hide Offer, Winner, IsOf, Resolve;
    ResolveSupplies(t);
    origin := if Supplied(t, s) == PathFor(Resolve(t), s) then s else Alternative(s).value;
    d := Winner(t, DeviceFor(origin)).value;
    WinnerMeaning(t, DeviceFor(origin));
    OfferShape(t, origin, d);
  }

  /** The resolved paths of a renumbered machine are the renamed ones exactly when each reading
      comes from the same directory: which file it is there, is then the same too. */
  lemma WinnersDecide(t: Tree, u: Tree, r: Renaming)
    requires Renamed(t, u, r)
    ensures Resolve(u) == RenamePaths(r, Resolve(t)) <==> SameSuppliers(r, Resolve(t), Resolve(u))
  {
    hide Resolve, Renamed;
    forall s
      ensures PathFor(Resolve(u), s) == RenamePath(r, PathFor(Resolve(t), s)) <==>
              DirectoryOf(PathFor(Resolve(u), s)) == RenameDirectory(r, DirectoryOf(PathFor(Resolve(t), s)))
    {
      PathDecides(t, u, r, s);
    }
    PathsAgree(r, Resolve(t), Resolve(u));
  }

  lemma PathsAgree(r: Renaming, p: SensorPaths, q: SensorPaths)
    ensures q == RenamePaths(r, p) <==> forall s :: PathFor(q, s) == RenamePath(r, PathFor(p, s))
  {
    hide RenamePath;
    if forall s :: PathFor(q, s) == RenamePath(r, PathFor(p, s)) {
      assert PathFor(q, CorePackage) == q.cpuTemp && PathFor(q, GraphicsCard) == q.gpuTemp;
      assert PathFor(q, CpuFan) == q.cpuFan && PathFor(q, GpuFan) == q.gpuFan;
    }
  }

  lemma PathDecides(t: Tree, u: Tree, r: Renaming, s: Source)
    requires Renamed(t, u, r)
    ensures PathFor(Resolve(u), s) == RenamePath(r, PathFor(Resolve(t), s)) <==>
            DirectoryOf(PathFor(Resolve(u), s)) == RenameDirectory(r, DirectoryOf(PathFor(Resolve(t), s)))
  {
    hide Resolve, Renamed, Offer;
    var p, q := PathFor(Resolve(t), s), PathFor(Resolve(u), s);
    if p.Some? {
      var a, d := PathOrigin(t, s);
      RenamedIsOf(t, u, r, DeviceFor(a));
      OfferRenamed(t, u, r, a, d);
      OfferShape(t, a, d);
      if q.Some? {
        var b, e := PathOrigin(u, s);
        OfferShape(u, b, e);
      }
    } else if q.Some? {
      var b, e := PathOrigin(u, s);
      OfferShape(u, b, e);
    }
  }
}
