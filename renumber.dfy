/**
 * The renumbering step of the balancer: every folder inside a group
 * directory is renamed after its position in name order, and so are the
 * videos and the `select.txt` file it holds.  The file system is modelled
 * by lists of names; the model produces the renames in the order they are
 * made.
 */
module Renumber {
  import opened Wrappers
  import opened PyText

  /**
   * What one numbered folder holds: the names it lists and, when it has a
   * `locs` directory, the names listed there.
   */
  datatype Contents = Contents(files: seq<string>, locs: Option<seq<string>>)

  /**
   * A group directory: its sub-directories with their contents, in
   * listing order, and the names of its other entries.
   */
  datatype Group = Group(others: set<string>, subfolders: seq<(string, Contents)>)

  /** One `os.rename`; files are named relative to the (renamed) folder. */
  datatype Action =
    | RenameFolder(from: string, to: string)
    | RenameVideo(folder: string, from: string, to: string)
    | RenameSelect(folder: string, to: string)

  // ---------------------------------------------------------------------
  // Naming rules

  /** Everything up to and including the last underscore of a name. */
  function Prefix(name: string): (p: string)
    ensures p <= name
    ensures p == [] <==> '_' !in name
    ensures p != [] ==> p[|p| - 1] == '_'
    ensures forall i :: |p| <= i < |name| ==> name[i] != '_'
  {
    name[..RFind(name, '_') + 1]
  }

  /** A folder's new name: its prefix followed by the zero-padded ordinal. */
  function FolderName(name: string, idx: nat): string {
    Prefix(name) + Pad3(idx)
  }

  /** A video's new name: the same rule, followed by `.mp4`. */
  function VideoName(file: string, idx: nat): string {
    Prefix(file) + Pad3(idx) + ".mp4"
  }

  /** The new name of a folder's `select.txt`. */
  function SelectName(idx: nat): string {
    "select_" + Pad3(idx) + ".txt"
  }

  /** A prefix is recovered from anything it is followed by that holds no underscore. */
  lemma PrefixOf(p: string, d: string)
    requires p == [] || p[|p| - 1] == '_'
    requires '_' !in d
    ensures Prefix(p + d) == p
  {
    var s := p + d;
    var q := RFind(s, '_');
    assert forall i :: |p| <= i < |s| ==> s[i] == d[i - |p|];
    if p != [] {
      assert s[|p| - 1] == '_';
      assert q == |p| - 1;
    } else {
      assert q == -1;
    }
    assert s[..q + 1] == p;
  }

  /** Appending text without underscores leaves the prefix as it is. */
  lemma PrefixAppend(s: string, t: string)
    requires '_' !in t
    ensures Prefix(s + t) == Prefix(s)
  {
    var p := Prefix(s);
    var rest := s[|p|..];
    assert '_' !in rest + t by {
      assert forall i :: 0 <= i < |rest| ==> rest[i] == s[|p| + i];
    }
    assert s + t == p + (rest + t);
    PrefixOf(p, rest + t);
  }

  lemma DigitsNoUnderscore(s: string)
    requires forall i :: 0 <= i < |s| ==> IsDigit(s[i])
    ensures '_' !in s
  {
  }

  /**
   * A new folder name keeps the old prefix, and the text after it reads
   * back as the ordinal.
   */
  lemma FolderNameReadsBack(name: string, idx: nat)
    ensures Prefix(FolderName(name, idx)) == Prefix(name)
    ensures FolderName(name, idx)[|Prefix(name)|..] == Pad3(idx)
    ensures ParseInt(FolderName(name, idx)[|Prefix(name)|..]) == Some(idx)
  {
    DigitsNoUnderscore(Pad3(idx));
    PrefixOf(Prefix(name), Pad3(idx));
    assert FolderName(name, idx)[|Prefix(name)|..] == Pad3(idx);
    Pad3RoundTrip(idx);
  }

  /** Renaming a folder that already carries its number changes nothing. */
  lemma FolderNameIdempotent(name: string, idx: nat)
    ensures FolderName(FolderName(name, idx), idx) == FolderName(name, idx)
  {
    FolderNameReadsBack(name, idx);
  }

  /** Two folders renamed to one name have one prefix and one ordinal. */
  lemma FolderNameInjective(a: string, i: nat, b: string, j: nat)
    requires FolderName(a, i) == FolderName(b, j)
    ensures Prefix(a) == Prefix(b) && i == j
  {
    FolderNameReadsBack(a, i);
    FolderNameReadsBack(b, j);
  }

  /** A video named after its folder is still named after it once both are renumbered. */
  lemma VideoNameFollowsFolder(folder: string, idx: nat)
    ensures VideoName(folder + ".mp4", idx) == FolderName(folder, idx) + ".mp4"
    ensures EndsWith(VideoName(folder + ".mp4", idx), ".mp4")
  {
    PrefixAppend(folder, ".mp4");
  }

  /** The select file's new name ends in `.txt` and reads back as the ordinal. */
  lemma SelectNameReadsBack(idx: nat)
    ensures EndsWith(SelectName(idx), ".txt")
    ensures Prefix(SelectName(idx)) == "select_"
    ensures ParseInt(SelectName(idx)[7..|SelectName(idx)| - 4]) == Some(idx)
  {
    var n := SelectName(idx);
    DigitsNoUnderscore(Pad3(idx));
    assert '_' !in Pad3(idx) + ".txt";
    assert n == "select_" + (Pad3(idx) + ".txt");
    PrefixOf("select_", Pad3(idx) + ".txt");
    assert n[7..|n| - 4] == Pad3(idx);
    Pad3RoundTrip(idx);
  }

  // ---------------------------------------------------------------------
  // Renames inside one renumbered folder

  /** The renames of the `.mp4` files a folder lists, in listing order. */
  function VideoRenames(folder: string, files: seq<string>, idx: nat): seq<Action> {
    if files == [] then []
    else
      var last := files[|files| - 1];
      var r := VideoRenames(folder, files[..|files| - 1], idx);
      if EndsWith(last, ".mp4") then r + [RenameVideo(folder, last, VideoName(last, idx))] else r
  }

  /**
   * A folder's video renames are exactly those of the `.mp4` files it
   * lists, each to the video name for the folder's number.
   */
  lemma {:induction false} VideoRenamesSpec(folder: string, files: seq<string>, idx: nat)
    ensures |VideoRenames(folder, files, idx)| <= |files|
    ensures forall a :: a in VideoRenames(folder, files, idx) ==>
      a.RenameVideo? && a.folder == folder && a.from in files && EndsWith(a.from, ".mp4")
      && a.to == VideoName(a.from, idx)
    ensures forall f :: f in files && EndsWith(f, ".mp4") ==> RenameVideo(folder, f, VideoName(f, idx)) in VideoRenames(folder, files, idx)
  {
    if files != [] {
      var last := files[|files| - 1];
      VideoRenamesSpec(folder, files[..|files| - 1], idx);
      assert files == files[..|files| - 1] + [last];
    }
  }

  /** The renames of `select.txt` in a folder's `locs` directory, when it has one. */
  function SelectRenames(folder: string, locs: Option<seq<string>>, idx: nat): seq<Action> {
    match locs
    case None => []
    case Some(names) => SelectsIn(folder, names, idx)
  }

  function SelectsIn(folder: string, names: seq<string>, idx: nat): seq<Action> {
    if names == [] then []
    else
      var r := SelectsIn(folder, names[..|names| - 1], idx);
      if names[|names| - 1] == "select.txt" then r + [RenameSelect(folder, SelectName(idx))] else r
  }

  /** One rename to the numbered select name per `select.txt` listed. */
  lemma {:induction false} SelectsInSpec(folder: string, names: seq<string>, idx: nat)
    ensures |SelectsIn(folder, names, idx)| == multiset(names)["select.txt"]
    ensures forall a :: a in SelectsIn(folder, names, idx) ==> a == RenameSelect(folder, SelectName(idx))
  {
    if names != [] {
      var last := names[|names| - 1];
      SelectsInSpec(folder, names[..|names| - 1], idx);
      assert names == names[..|names| - 1] + [last];
    }
  }

  /**
   * Without a `locs` directory nothing is renamed; with one, each
   * `select.txt` it lists is renamed to the numbered select name.
   */
  lemma SelectRenamesSpec(folder: string, locs: Option<seq<string>>, idx: nat)
    ensures locs.None? ==> SelectRenames(folder, locs, idx) == []
    ensures locs.Some? ==> |SelectRenames(folder, locs, idx)| == multiset(locs.value)["select.txt"]
    ensures forall a :: a in SelectRenames(folder, locs, idx) ==> a == RenameSelect(folder, SelectName(idx))
  {
    if locs.Some? {
      SelectsInSpec(folder, locs.value, idx);
    }
  }

  /** Everything renamed when folder `name` becomes `target`, number `idx`: the folder, its videos, its select file. */
  function FolderActions(name: string, target: string, c: Contents, idx: nat): seq<Action> {
    [RenameFolder(name, target)] + VideoRenames(target, c.files, idx) + SelectRenames(target, c.locs, idx)
  }

  // ---------------------------------------------------------------------
  // The renames of one group

  /** The name each folder is given: the `k`-th in name order gets number `k`. */
  function Targets(s: seq<(string, Contents)>): (t: seq<string>)
    ensures |t| == |s|
  {
    seq(|s|, k requires 0 <= k < |s| => FolderName(s[k].0, k))
  }

  /** One visit: the folder takes its new name unless an entry already has it. */
  function Step(present: set<string>, name: string, target: string): set<string> {
    if target in present then present else present - {name} + {target}
  }

  /**
   * The group's entry names once the first `k` folders have been visited,
   * folder `j` being given the name `t[j]`.
   */
  function PresentAfter(s: seq<(string, Contents)>, t: seq<string>, k: nat, p0: set<string>): set<string>
    requires k <= |s| == |t|
  {
    if k == 0 then p0
    else Step(PresentAfter(s, t, k - 1, p0), s[k - 1].0, t[k - 1])
  }

  /** Folder `k` is renamed unless its new name is already taken. */
  predicate Renamed(s: seq<(string, Contents)>, t: seq<string>, k: nat, p0: set<string>)
    requires k < |s| == |t|
  {
    t[k] !in PresentAfter(s, t, k, p0)
  }

  /** The renames made while visiting the first `k` folders. */
  function Planned(s: seq<(string, Contents)>, t: seq<string>, k: nat, p0: set<string>): seq<Action>
    requires k <= |s| == |t|
  {
    if k == 0 then []
    else if Renamed(s, t, k - 1, p0) then Planned(s, t, k - 1, p0) + FolderActions(s[k - 1].0, t[k - 1], s[k - 1].1, k - 1)
    else Planned(s, t, k - 1, p0)
  }

  /** The names present in a group directory before renumbering. */
  function Entries(g: Group): set<string> {
    g.others + set k | 0 <= k < |g.subfolders| :: g.subfolders[k].0
  }

  /** The folders of a group in name order. */
  function Sorted(g: Group): (s: seq<(string, Contents)>)
    ensures |s| == |g.subfolders|
  {
    SortByName(g.subfolders)
  }

  function Plan(g: Group): seq<Action> {
    Planned(Sorted(g), Targets(Sorted(g)), |g.subfolders|, Entries(g))
  }

  /** The group's entry names after renumbering. */
  function Final(g: Group): set<string> {
    PresentAfter(Sorted(g), Targets(Sorted(g)), |g.subfolders|, Entries(g))
  }

  /** Renumbers one group directory. */
  method RenumberGroup(g: Group) returns (actions: seq<Action>, present: set<string>)
    ensures actions == Plan(g)
    ensures present == Final(g)
  {
    var s := SortByName(g.subfolders);
    actions, present := VisitFolders(s, Entries(g));
  }

  /** The loop of the renumbering over the folders in name order, starting from entries `p0`. */
  method VisitFolders(s: seq<(string, Contents)>, p0: set<string>) returns (actions: seq<Action>, present: set<string>)
    ensures actions == Planned(s, Targets(s), |s|, p0)
    ensures present == PresentAfter(s, Targets(s), |s|, p0)
  {
    ghost var t := Targets(s);
    present := p0;
    actions := [];
    var idx := 0;
    while idx < |s|
      invariant idx <= |s|
      invariant present == PresentAfter(s, t, idx, p0)
      invariant actions == Planned(s, t, idx, p0)
    {
      var (name, contents) := s[idx];
      var target := FolderName(name, idx);
      assert target == t[idx];
      if target !in present {
        present := present - {name} + {target};
        actions := actions + FolderActions(name, target, contents, idx);
      }
      idx := idx + 1;
    }
  }

  /** Renumbers every group directory of the parent folder, in listing order. */
  method RenameFoldersAndFiles(groups: seq<Group>) returns (plans: seq<seq<Action>>)
    ensures |plans| == |groups|
    ensures forall i :: 0 <= i < |groups| ==> plans[i] == Plan(groups[i])
  {
    plans := [];
    for i := 0 to |groups|
      invariant |plans| == i
      invariant forall j {:trigger Plan(groups[j])} :: 0 <= j < i ==> plans[j] == Plan(groups[j])
    {
      var actions, _ := RenumberGroup(groups[i]);
      plans := plans + [actions];
    }
  }

  // ---------------------------------------------------------------------
  // Properties of a group's renames

  /**
   * The folder renames of the plan are exactly those of the folders whose
   * new name was free when they were visited, each to its new name.
   */
  lemma {:induction false} PlannedFolderRenames(s: seq<(string, Contents)>, t: seq<string>, n: nat, p0: set<string>)
    requires n <= |s| == |t|
    ensures forall k :: 0 <= k < n && Renamed(s, t, k, p0) ==> RenameFolder(s[k].0, t[k]) in Planned(s, t, n, p0)
    ensures forall a :: a in Planned(s, t, n, p0) && a.RenameFolder? ==>
      exists k :: 0 <= k < n && Renamed(s, t, k, p0) && a == RenameFolder(s[k].0, t[k])
  {
    if n > 0 {
      PlannedFolderRenames(s, t, n - 1, p0);
      var k := n - 1;
      if Renamed(s, t, k, p0) {
        FolderActionsRenameOne(s[k].0, t[k], s[k].1, k);
      }
    }
  }

  /** The only folder rename among a folder's renames is its own. */
  lemma FolderActionsRenameOne(name: string, target: string, c: Contents, idx: nat)
    ensures FolderActions(name, target, c, idx)[0] == RenameFolder(name, target)
    ensures forall a :: a in FolderActions(name, target, c, idx) && a.RenameFolder? ==> a == RenameFolder(name, target)
  {
    var v := VideoRenames(target, c.files, idx);
    var w := SelectRenames(target, c.locs, idx);
    VideoRenamesSpec(target, c.files, idx);
    SelectRenamesSpec(target, c.locs, idx);
    assert forall a :: a in [RenameFolder(name, target)] + v + w ==> a == RenameFolder(name, target) || a in v || a in w;
  }

  /**
   * Renumbering a group whose folders already carry their new names
   * renames nothing and leaves the entries as they are.
   */
  lemma {:induction false} AlreadyNumbered(s: seq<(string, Contents)>, t: seq<string>, n: nat, p0: set<string>)
    requires n <= |s| == |t|
    requires forall k :: 0 <= k < |s| ==> s[k].0 in p0 && t[k] == s[k].0
    ensures PresentAfter(s, t, n, p0) == p0
    ensures Planned(s, t, n, p0) == []
  {
    if n > 0 {
      AlreadyNumbered(s, t, n - 1, p0);
      assert t[n - 1] in p0;
    }
  }

  predicate NamesDistinct(s: seq<(string, Contents)>) {
    forall i, j :: 0 <= i < j < |s| ==> s[i].0 != s[j].0
  }

  /** A folder not yet visited is still present under its old name. */
  lemma {:induction false} NamesRemain(s: seq<(string, Contents)>, t: seq<string>, k: nat, p0: set<string>)
    requires k <= |s| == |t| && NamesDistinct(s)
    requires forall j :: 0 <= j < |s| ==> s[j].0 in p0
    ensures forall j :: k <= j < |s| ==> s[j].0 in PresentAfter(s, t, k, p0)
  {
    if k > 0 {
      NamesRemain(s, t, k - 1, p0);
    }
  }

  /** No rename overwrites an entry: the directory keeps its number of entries. */
  lemma {:induction false} RenamesKeepCount(s: seq<(string, Contents)>, t: seq<string>, k: nat, p0: set<string>)
    requires k <= |s| == |t| && NamesDistinct(s)
    requires forall j :: 0 <= j < |s| ==> s[j].0 in p0
    ensures |PresentAfter(s, t, k, p0)| == |p0|
  {
    if k > 0 {
      RenamesKeepCount(s, t, k - 1, p0);
      NamesRemain(s, t, k - 1, p0);
      StepSize(PresentAfter(s, t, k - 1, p0), s[k - 1].0, t[k - 1]);
    }
  }

  /** Every folder renamed keeps its new name to the end. */
  lemma {:induction false} RenamedStay(s: seq<(string, Contents)>, t: seq<string>, k: nat, p0: set<string>)
    requires k <= |s| == |t| && NamesDistinct(s)
    requires forall j :: 0 <= j < |s| ==> s[j].0 in p0
    ensures forall i :: 0 <= i < k && Renamed(s, t, i, p0) ==> t[i] in PresentAfter(s, t, k, p0)
  {
    if k > 0 {
      RenamedStay(s, t, k - 1, p0);
      var p := PresentAfter(s, t, k - 1, p0);
      var x := s[k - 1].0;
      forall i | 0 <= i < k && Renamed(s, t, i, p0)
        ensures t[i] in Step(p, x, t[k - 1])
      {
        if i < k - 1 {
          NamesRemain(s, t, i, p0);
          assert x in PresentAfter(s, t, i, p0);
        }
      }
    }
  }

  /** A visit that renames an entry present keeps the number of entries. */
  lemma StepSize(present: set<string>, name: string, target: string)
    requires name in present
    ensures |Step(present, name, target)| == |present|
  {
    if target !in present {
      assert |present - {name}| == |present| - 1;
    }
  }

  /** Every folder of the sorted listing is an entry of the group. */
  lemma SortedNamesPresent(g: Group)
    ensures forall j :: 0 <= j < |Sorted(g)| ==> Sorted(g)[j].0 in Entries(g)
  {
    var s := Sorted(g);
    forall j | 0 <= j < |s|
      ensures s[j].0 in Entries(g)
    {
      assert s[j] in multiset(g.subfolders);
      var k :| 0 <= k < |g.subfolders| && g.subfolders[k] == s[j];
    }
  }

  /** A group whose folders already carry their numbers in name order is left alone. */
  lemma GroupAlreadyNumbered(g: Group)
    requires forall k :: 0 <= k < |Sorted(g)| ==> FolderName(Sorted(g)[k].0, k) == Sorted(g)[k].0
    ensures Plan(g) == [] && Final(g) == Entries(g)
  {
    var s := Sorted(g);
    var t := Targets(s);
    SortedNamesPresent(g);
    assert forall k :: 0 <= k < |s| ==> t[k] == s[k].0;
    AlreadyNumbered(s, t, |s|, Entries(g));
  }

  /**
   * When the folders' names are distinct, renumbering keeps the number of
   * entries, and each folder it renames, the `k`-th in name order, is
   * renamed to its number `k` and ends up under that name.
   */
  lemma GroupKeepsEntries(g: Group)
    requires NamesDistinct(Sorted(g))
    ensures |Final(g)| == |Entries(g)|
    ensures forall k :: 0 <= k < |g.subfolders| && Renamed(Sorted(g), Targets(Sorted(g)), k, Entries(g)) ==>
      RenameFolder(Sorted(g)[k].0, FolderName(Sorted(g)[k].0, k)) in Plan(g)
      && FolderName(Sorted(g)[k].0, k) in Final(g)
  {
    var s := Sorted(g);
    var t := Targets(s);
    SortedNamesPresent(g);
    RenamesKeepCount(s, t, |s|, Entries(g));
    RenamedStay(s, t, |s|, Entries(g));
    PlannedFolderRenames(s, t, |s|, Entries(g));
  }
}
