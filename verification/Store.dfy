/** The files and directories the controller works on, and the calls it makes on them. */
module Store {
  import opened Results
  import opened Text

  /** The attributes with a fixed place: those of predator_sense, of four_zoned_kb, and of
      the platform profile. */
  datatype Attribute =
    | FanSpeed | BatteryLimiter | BatteryCalibration | BacklightTimeout | LcdOverride
    | UsbCharging | BootAnimationSound | Version
    | PerZoneMode | FourZoneMode
    | PlatformProfile | ProfileChoices

  /** A path by its parts: a fixed attribute, a file of a directory under sys/class/hwmon, or
      a file of a directory under sys/class/power_supply. */
  datatype Path =
    | Fixed(attribute: Attribute)
    | Hwmon(dir: string, file: string)
    | Supply(dir: string, file: string)

  datatype Node = Node(content: string, readable: bool)

  datatype DirEntry = DirEntry(name: string, isDir: bool, isSymlink: bool)

  /** Everything the calls can see: the files, the entries of the two class directories, if
      they can be listed, and the names in each hwmon directory. */
  datatype Tree = Tree(files: map<Path, Node>, hwmon: Option<seq<DirEntry>>, supplies: Option<seq<string>>,
                       listings: map<string, seq<string>>)

  /** What a write did: whether it returned an error, and the tree afterwards, for a device is
      free to change any attribute. */
  datatype WriteResult = WriteResult(ok: bool, tree: Tree)

  function Read(t: Tree, p: Path): Option<string> {
    if p in t.files && t.files[p].readable then Some(t.files[p].content) else None
  }

  function ReadText(t: Tree, p: Path): Option<string> {
    match Read(t, p)
    case None => None
    case Some(raw) => Some(TrimSpace(raw))
  }

  /** A file is there for reading exactly when it exists and can be read. */
  lemma ReadMeaning(t: Tree, p: Path)
    ensures ReadText(t, p).None? <==> p !in t.files || !t.files[p].readable
  {}

  predicate Exists(t: Tree, p: Path) {
    p in t.files
  }

  class FileSystem {
    var tree: Tree
    /** Every WriteFile call, with its data. */
    var writes: seq<(Path, string)>

    constructor (tree: Tree)
      ensures this.tree == tree && writes == []
    {
      this.tree := tree;
      writes := [];
    }

    method ReadFile(p: Path) returns (r: Option<string>)
      ensures r == Read(tree, p)
    {
      return Read(tree, p);
    }

    method Stat(p: Path) returns (exists_: bool)
      ensures exists_ == Exists(tree, p)
    {
      return Exists(tree, p);
    }

    method ReadHwmonClass() returns (r: Option<seq<DirEntry>>)
      ensures r == tree.hwmon
    {
      return tree.hwmon;
    }

    method ReadHwmonDir(dir: string) returns (r: Option<seq<string>>)
      ensures r == if dir in tree.listings then Some(tree.listings[dir]) else None
    {
      return if dir in tree.listings then Some(tree.listings[dir]) else None;
    }

    method ReadSupplyClass() returns (r: Option<seq<string>>)
      ensures r == tree.supplies
    {
      return tree.supplies;
    }

    method WriteFile(p: Path, data: string, result: WriteResult) returns (ok: bool)
      modifies this
      ensures ok == result.ok && tree == result.tree && writes == old(writes) + [(p, data)]
    {
      tree := result.tree;
      writes := writes + [(p, data)];
      return result.ok;
    }

    method ReadTextFile(p: Path) returns (r: Option<string>)
      ensures r == ReadText(tree, p)
    {
      var raw := ReadFile(p);
      if raw.None? {
        return None;
      }
      return Some(TrimSpace(raw.value));
    }
  }

  /** After a write the file can be read and holds the data, possibly with white space around. */
  ghost predicate Echoes(w: WriteResult, p: Path, data: string) {
    exists pre: string, post: string ::
      AllSpace(pre) && AllSpace(post) && Read(w.tree, p) == Some(pre + data + post)
  }

  lemma EchoedText(w: WriteResult, p: Path, data: string)
    requires Echoes(w, p, data) && IsTrimmed(data)
    ensures ReadText(w.tree, p) == Some(data)
  {
    var pre, post :| AllSpace(pre) && AllSpace(post) && Read(w.tree, p) == Some(pre + data + post);
    TrimSpacePadded(pre, data, post);
  }
}
