/*
 * The steps of the video-reduction script around the leveling loop
 * (equalize_and_name.py): reading pass counts out of `select.txt` lines,
 * turning the count-to-folders dictionary into a dense list of bin sizes,
 * and drawing the folders to remove from each bin.
 */
module Passes {
  import opened Wrappers
  import opened PyText
  import opened Balance

  // ---------------------------------------------------------------------
  // collect_pass_counts (equalize_and_name.py:9-37)

  /** The pass count one `select.txt` line adds: its second comma field, when int() accepts it stripped. */
  function LineCount(line: string): (r: Option<int>)
    ensures r.Some? ==> ',' in line
  {
    var parts := Split(line);
    if |parts| > 1 then ParseInt(Strip(parts[1])) else None
  }

  /** The pass count of every line, in line order. */
  function LineCounts(lines: seq<string>): seq<Option<int>> {
    seq(|lines|, j requires 0 <= j < |lines| => LineCount(lines[j]))
  }

  /**
   * A `select.txt` the directory walk found: the folder its lines count for
   * (the parent of the directory holding the file) and the file's lines.
   */
  datatype SelectFile = SelectFile(folder: Folder, lines: seq<string>)

  /** The `(count, folder)` pairs of the lines with a count, in line order. */
  function CountEntries(folder: Folder, counts: seq<Option<int>>): seq<(int, Folder)> {
    if counts == [] then []
    else CountEntries(folder, counts[..|counts| - 1]) + CountEntry(folder, counts[|counts| - 1])
  }

  /** The pair one line adds, if it has a count. */
  function CountEntry(folder: Folder, c: Option<int>): seq<(int, Folder)> {
    match c
    case Some(k) => [(k, folder)]
    case None => []
  }

  lemma CountEntriesPrefix(folder: Folder, counts: seq<Option<int>>, j: nat)
    requires j < |counts|
    ensures CountEntries(folder, counts[..j + 1]) == CountEntries(folder, counts[..j]) + CountEntry(folder, counts[j])
  {
    assert counts[..j + 1][..j] == counts[..j];
  }

  lemma CountEntriesStep(e: seq<(int, Folder)>, folder: Folder, counts: seq<Option<int>>, j: nat)
    requires j < |counts|
    ensures e + CountEntries(folder, counts[..j + 1]) == e + CountEntries(folder, counts[..j]) + CountEntry(folder, counts[j])
  {
    CountEntriesPrefix(folder, counts, j);
  }

  lemma GroupSnoc(e: seq<(int, Folder)>, k: int, f: Folder)
    ensures Group(e + [(k, f)]) == Group(e)[k := (if k in Group(e) then Group(e)[k] else []) + [f]]
  {
    assert (e + [(k, f)])[..|e|] == e;
  }

  /** Each file's folder with the count of each of its lines. */
  function Parse(files: seq<SelectFile>): (parsed: seq<(Folder, seq<Option<int>>)>)
    ensures |parsed| == |files|
  {
    seq(|files|, i requires 0 <= i < |files| => (files[i].folder, LineCounts(files[i].lines)))
  }

  /** The pairs all parsed files add, in walk order. */
  function Pairs(parsed: seq<(Folder, seq<Option<int>>)>): seq<(int, Folder)> {
    if parsed == [] then []
    else
      var last := parsed[|parsed| - 1];
      Pairs(parsed[..|parsed| - 1]) + CountEntries(last.0, last.1)
  }

  /** The pairs all files add, in walk order. */
  function Entries(files: seq<SelectFile>): seq<(int, Folder)> {
    Pairs(Parse(files))
  }

  /** The dictionary the pairs build: a new count starts an empty list, each pair appends its folder. */
  function Group(e: seq<(int, Folder)>): map<int, seq<Folder>> {
    if e == [] then map[]
    else
      var g := Group(e[..|e| - 1]);
      var k, f := e[|e| - 1].0, e[|e| - 1].1;
      g[k := (if k in g then g[k] else []) + [f]]
  }

  /** The folders paired with `k`, in order. */
  function FoldersWith(e: seq<(int, Folder)>, k: int): seq<Folder> {
    if e == [] then []
    else (if e[0].0 == k then [e[0].1] else []) + FoldersWith(e[1..], k)
  }

  /** The `video_folders` set the pairs build. */
  function FolderSet(e: seq<(int, Folder)>): set<Folder> {
    set t | 0 <= t < |e| :: e[t].1
  }

  lemma {:induction false} CountEntriesComplete(folder: Folder, counts: seq<Option<int>>, k: int, f: Folder)
    ensures (k, f) in CountEntries(folder, counts) <==> f == folder && Some(k) in counts
  {
    if counts != [] {
      var init, last := counts[..|counts| - 1], counts[|counts| - 1];
      CountEntriesComplete(folder, init, k, f);
      assert counts == init + [last];
    }
  }

  lemma {:induction false} PairsComplete(parsed: seq<(Folder, seq<Option<int>>)>, k: int, f: Folder)
    ensures (k, f) in Pairs(parsed) <==>
            exists i :: 0 <= i < |parsed| && parsed[i].0 == f && Some(k) in parsed[i].1
  {
    if parsed != [] {
      var init, last := parsed[..|parsed| - 1], parsed[|parsed| - 1];
      PairsComplete(init, k, f);
      CountEntriesComplete(last.0, last.1, k, f);
      if exists i :: 0 <= i < |parsed| && parsed[i].0 == f && Some(k) in parsed[i].1 {
        var i :| 0 <= i < |parsed| && parsed[i].0 == f && Some(k) in parsed[i].1;
        if i < |init| {
          assert init[i] == parsed[i];
        }
      }
      if exists i :: 0 <= i < |init| && init[i].0 == f && Some(k) in init[i].1 {
        var i :| 0 <= i < |init| && init[i].0 == f && Some(k) in init[i].1;
        assert parsed[i] == init[i];
      }
    }
  }

  /**
   * A pair `(k, f)` is collected exactly when some `select.txt` counting for
   * folder `f` has a line whose pass count is the integer `k`: every other
   * line is skipped.
   */
  lemma EntriesComplete(files: seq<SelectFile>, k: int, f: Folder)
    ensures (k, f) in Entries(files) <==>
            exists i :: 0 <= i < |files| && files[i].folder == f && Some(k) in LineCounts(files[i].lines)
  {
    var parsed := Parse(files);
    PairsComplete(parsed, k, f);
    assert forall i :: 0 <= i < |files| ==> parsed[i] == (files[i].folder, LineCounts(files[i].lines));
  }

  lemma {:induction false} FoldersWithSnoc(e: seq<(int, Folder)>, x: (int, Folder), k: int)
    ensures FoldersWith(e + [x], k) == FoldersWith(e, k) + (if x.0 == k then [x.1] else [])
  {
    if e == [] {
      assert [x][1..] == [];
    } else {
      assert (e + [x])[1..] == e[1..] + [x];
      FoldersWithSnoc(e[1..], x, k);
    }
  }

  /**
   * The dictionary holds a key exactly for the counts that occur, and the
   * list under each key is the folders paired with it, in the order they
   * were read.
   */
  lemma {:induction false} GroupIsFolders(e: seq<(int, Folder)>, k: int)
    ensures k in Group(e) <==> exists t :: 0 <= t < |e| && e[t].0 == k
    ensures k in Group(e) ==> Group(e)[k] == FoldersWith(e, k)
    ensures k !in Group(e) ==> FoldersWith(e, k) == []
  {
    if e != [] {
      var init, x := e[..|e| - 1], e[|e| - 1];
      GroupIsFolders(init, k);
      assert init + [x] == e;
      FoldersWithSnoc(init, x, k);
      if exists t :: 0 <= t < |init| && init[t].0 == k {
        var t :| 0 <= t < |init| && init[t].0 == k;
        assert e[t] == init[t];
      }
      if x.0 != k && exists t :: 0 <= t < |e| && e[t].0 == k {
        var t :| 0 <= t < |e| && e[t].0 == k;
        assert init[t] == e[t];
      }
    }
  }

  /** A folder is listed under a count exactly when it was read with that count. */
  lemma {:induction false} FoldersWithMembers(e: seq<(int, Folder)>, k: int, f: Folder)
    ensures f in FoldersWith(e, k) <==> (k, f) in e
  {
    if e != [] {
      FoldersWithMembers(e[1..], k, f);
      assert e == [e[0]] + e[1..];
    }
  }

  /** `video_folders` is exactly the set of folders the dictionary lists under some count. */
  lemma FolderSetCovered(e: seq<(int, Folder)>, f: Folder)
    ensures f in FolderSet(e) <==> exists k :: k in Group(e) && f in Group(e)[k]
  {
    if f in FolderSet(e) {
      var t :| 0 <= t < |e| && e[t].1 == f;
      GroupIsFolders(e, e[t].0);
      FoldersWithMembers(e, e[t].0, f);
    }
    if exists k :: k in Group(e) && f in Group(e)[k] {
      var k :| k in Group(e) && f in Group(e)[k];
      GroupIsFolders(e, k);
      FoldersWithMembers(e, k, f);
      var t :| 0 <= t < |e| && e[t] == (k, f);
    }
  }

  lemma FolderSetSnoc(e: seq<(int, Folder)>, x: (int, Folder))
    ensures FolderSet(e + [x]) == FolderSet(e) + {x.1}
  {
    var e' := e + [x];
    forall f | f in FolderSet(e')
      ensures f in FolderSet(e) + {x.1}
    {
      var t :| 0 <= t < |e'| && e'[t].1 == f;
      if t < |e| {
        assert e[t] == e'[t];
      }
    }
    forall f | f in FolderSet(e)
      ensures f in FolderSet(e')
    {
      var t :| 0 <= t < |e| && e[t].1 == f;
      assert e'[t] == e[t];
    }
    assert e'[|e|] == x;
  }

  /**
   * One line of a `select.txt`: a line with a count appends `folder` to that
   * count's list and adds it to the folder set; any other line changes nothing.
   */
  method CollectLine(passCounts: map<int, seq<Folder>>, folders: set<Folder>, ghost e: seq<(int, Folder)>,
                     folder: Folder, line: string)
    returns (passCounts': map<int, seq<Folder>>, folders': set<Folder>)
    requires passCounts == Group(e) && folders == FolderSet(e)
    ensures passCounts' == Group(e + CountEntry(folder, LineCount(line)))
    ensures folders' == FolderSet(e + CountEntry(folder, LineCount(line)))
  {
    var c := LineCount(line);
    match c {
      case Some(count) =>
        GroupSnoc(e, count, folder);
        FolderSetSnoc(e, (count, folder));
        assert CountEntry(folder, c) == [(count, folder)];
        // a new count starts an empty list; the folder is appended to it
        var listed := if count in passCounts then passCounts[count] else [];
        passCounts' := passCounts[count := listed + [folder]];
        folders' := folders + {folder};
      case None =>
        assert e + CountEntry(folder, c) == e;
        passCounts', folders' := passCounts, folders;
    }
  }

  /**
   * The lines of one `select.txt` added to the dictionary and the folder set
   * built from the pairs `e` so far.
   */
  method CollectFile(passCounts: map<int, seq<Folder>>, folders: set<Folder>, ghost e: seq<(int, Folder)>,
                     folder: Folder, lines: seq<string>)
    returns (passCounts': map<int, seq<Folder>>, folders': set<Folder>)
    requires passCounts == Group(e) && folders == FolderSet(e)
    ensures passCounts' == Group(e + CountEntries(folder, LineCounts(lines)))
    ensures folders' == FolderSet(e + CountEntries(folder, LineCounts(lines)))
  {
    ghost var counts := LineCounts(lines);
    passCounts', folders' := passCounts, folders;
    ghost var e' := e;
    assert e + CountEntries(folder, counts[..0]) == e;
    var j := 0;
    while j < |lines|
      invariant 0 <= j <= |lines|
      invariant e' == e + CountEntries(folder, counts[..j])
      invariant passCounts' == Group(e')
      invariant folders' == FolderSet(e')
    {
      CountEntriesStep(e, folder, counts, j);
      assert counts[j] == LineCount(lines[j]);
      passCounts', folders' := CollectLine(passCounts', folders', e', folder, lines[j]);
      e' := e' + CountEntry(folder, counts[j]);
      j := j + 1;
    }
    assert counts[..|lines|] == counts;
  }

  /** `collect_pass_counts`: the count-to-folders dictionary and the set of counted folders. */
  method CollectPassCounts(files: seq<SelectFile>) returns (passCounts: map<int, seq<Folder>>, folders: set<Folder>)
    ensures passCounts == Group(Entries(files))
    ensures folders == FolderSet(Entries(files))
  {
    passCounts, folders := map[], {};
    ghost var parsed := Parse(files);
    var i := 0;
    while i < |files|
      invariant 0 <= i <= |files|
      invariant passCounts == Group(Pairs(parsed[..i]))
      invariant folders == FolderSet(Pairs(parsed[..i]))
    {
      assert parsed[i] == (files[i].folder, LineCounts(files[i].lines));
      assert parsed[..i + 1][..i] == parsed[..i];
      passCounts, folders := CollectFile(passCounts, folders, Pairs(parsed[..i]), files[i].folder, files[i].lines);
      i := i + 1;
    }
    assert parsed[..|files|] == parsed;
  }

  // ---------------------------------------------------------------------
  // generate_bin_counts (equalize_and_name.py:40-49)

  /** The largest key, as `max(d.keys())` finds it. */
  ghost function MaxKey(s: set<int>): (h: int)
    requires s != {}
    ensures h in s && forall k :: k in s ==> k <= h
  {
    assert exists y :: y in s by {
      if forall y :: y !in s {
        assert false;
      }
    }
    var x :| x in s;
    var rest := s - {x};
    assert forall k :: k in s ==> k == x || k in rest;
    if rest == {} then
      x
    else
      var h := MaxKey(rest);
      if x > h then x else h
  }

  /**
   * `bin_counts[i]` once every key is written into a list of length `n`: a
   * key `k >= 0` writes index `k`, a negative key writes index `n + k`
   * (Python's indexing from the end), and where both land on one index the
   * non-negative key wins, as sorted order writes it later.
   */
  function BinAt(m: map<int, seq<Folder>>, n: int, i: int): int {
    if i in m then |m[i]| else if i - n in m then |m[i - n]| else 0
  }

  /**
   * `generate_bin_counts(m)`: ValueError from `max()` when there are no keys;
   * IndexError when some key lies below `-(max + 1)` (this includes every
   * dictionary whose keys are all negative, where the list is empty);
   * otherwise the dense list of length `max + 1`.
   */
  ghost function BinCounts(m: map<int, seq<Folder>>): (r: Result<seq<int>>)
    ensures r == Err(ValueError) <==> m == map[]
    ensures r.Ok? ==> |r.value| == MaxKey(m.Keys) + 1 && forall i :: 0 <= i < |r.value| ==> r.value[i] >= 0
  {
    if m == map[] then Err(ValueError)
    else
      var n := MaxKey(m.Keys) + 1;
      if exists k :: k in m && k < -n then Err(IndexError)
      else Ok(seq(n, i => BinAt(m, n, i)))
  }

  /**
   * For keys that are all non-negative (the pass counts of real videos) the
   * list has one entry per count up to the largest: the number of folders
   * with that count, and 0 for a count no folder has.
   */
  lemma BinCountsNatural(m: map<int, seq<Folder>>)
    requires m != map[]
    requires forall k :: k in m ==> k >= 0
    ensures BinCounts(m).Ok?
    ensures var b := BinCounts(m).value;
            |b| == MaxKey(m.Keys) + 1 &&
            forall i :: 0 <= i < |b| ==> b[i] == if i in m then |m[i]| else 0
  {
    var n := MaxKey(m.Keys) + 1;
    forall i | 0 <= i < n
      ensures BinAt(m, n, i) == if i in m then |m[i]| else 0
    {
      if i !in m {
        assert i - n !in m;
      }
    }
  }

  /** The smallest and the largest key of a non-empty dictionary. */
  method KeyRange(m: map<int, seq<Folder>>) returns (lo: int, hi: int)
    requires m != map[]
    ensures lo in m && forall k :: k in m ==> lo <= k
    ensures hi == MaxKey(m.Keys)
  {
    var rest := m.Keys;
    if forall y :: y !in rest {
      assert false;
    }
    var k0 :| k0 in rest;
    lo, hi := k0, k0;
    rest := rest - {k0};
    while rest != {}
      invariant rest <= m.Keys && lo in m && hi in m
      invariant forall k :: k in m && k !in rest ==> lo <= k <= hi
      decreases |rest|
    {
      if forall y :: y !in rest {
        assert false;
      }
      var k :| k in rest;
      if k < lo {
        lo := k;
      }
      if k > hi {
        hi := k;
      }
      rest := rest - {k};
    }
    assert MaxKey(m.Keys) in m;
  }

  /** `bin_counts[i]` after the keys below `c` have been written. */
  function BinBelow(m: map<int, seq<Folder>>, n: int, i: int, c: int): int {
    if i in m && i < c then |m[i]|
    else if i - n in m && i - n < c then |m[i - n]|
    else 0
  }

  /** `generate_bin_counts`: the keys are written in sorted order into a zero-filled list. */
  method GenerateBinCounts(passCounts: map<int, seq<Folder>>) returns (r: Result<seq<int>>)
    ensures r == BinCounts(passCounts)
  {
    if passCounts == map[] {
      return Err(ValueError);
    }
    var lo, hi := KeyRange(passCounts);
    var n := hi + 1;
    if n <= 0 {
      // `[0] * n` is empty, so the first write raises
      assert passCounts.Keys != {} && hi in passCounts && hi < -n;
      return Err(IndexError);
    }
    var bins := new int[n](_ => 0);
    var k := lo;
    while k <= hi
      invariant lo <= k <= hi + 1
      invariant forall j :: j in passCounts && j < k ==> j >= -n
      invariant forall i :: 0 <= i < n ==> bins[i] == BinBelow(passCounts, n, i, k)
    {
      if k in passCounts {
        if k < -n {
          return Err(IndexError);
        }
        var i := if k < 0 then k + n else k;
        bins[i] := |passCounts[k]|;
      }
      k := k + 1;
    }
    assert forall j :: j in passCounts ==> j >= -n;
    assert !exists j :: j in passCounts && j < -n;
    assert bins[..] == seq(n, i => BinAt(passCounts, n, i));
    return Ok(bins[..]);
  }

  // ---------------------------------------------------------------------
  // select_videos_to_remove (equalize_and_name.py:98-110)

  /**
   * `p` lists every position of a population of `n` exactly once: one outcome
   * of the shuffle behind `random.sample`, which returns its first `k` positions.
   */
  predicate IsShuffle(p: seq<nat>, n: nat) {
    && |p| == n
    && (forall t :: 0 <= t < n ==> p[t] < n)
    && (forall t, u :: 0 <= t < u < n ==> p[t] != p[u])
  }

  /** The random outcomes: one shuffle for every bin that is a key of the dictionary. */
  predicate DrawsFor(m: map<int, seq<Folder>>, removals: seq<int>, draws: seq<seq<nat>>) {
    |draws| == |removals| &&
    forall i :: 0 <= i < |removals| && i in m ==> IsShuffle(draws[i], |m[i]|)
  }

  /** The folders at the first `k` positions `p` lists. */
  function Sample(pop: seq<Folder>, p: seq<nat>, k: nat): (s: seq<Folder>)
    requires k <= |p| && forall t :: 0 <= t < k ==> p[t] < |pop|
    ensures |s| == k
  {
    seq(k, t requires 0 <= t < k => pop[p[t]])
  }

  /** Bin `i` can be drawn from: nothing is asked of it, or it is a key holding enough folders. */
  predicate Drawable(m: map<int, seq<Folder>>, removals: seq<int>, i: nat)
    requires i < |removals|
  {
    removals[i] <= 0 || (i in m && removals[i] <= |m[i]|)
  }

  /** The folders drawn from bin `i`. */
  function Drawn(m: map<int, seq<Folder>>, removals: seq<int>, draws: seq<seq<nat>>, i: nat): seq<Folder>
    requires DrawsFor(m, removals, draws) && i < |removals| && Drawable(m, removals, i)
  {
    if removals[i] > 0 then Sample(m[i], draws[i], removals[i]) else []
  }

  /** The folders drawn from bins `0 .. i-1`, bin after bin. */
  function DrawnUpTo(m: map<int, seq<Folder>>, removals: seq<int>, draws: seq<seq<nat>>, i: nat): seq<Folder>
    requires DrawsFor(m, removals, draws) && i <= |removals|
    requires forall j :: 0 <= j < i ==> Drawable(m, removals, j)
  {
    if i == 0 then [] else DrawnUpTo(m, removals, draws, i - 1) + Drawn(m, removals, draws, i - 1)
  }

  /** The first bin from `i` on that cannot be drawn from, if any. */
  function FirstUndrawable(m: map<int, seq<Folder>>, removals: seq<int>, i: nat): (r: Option<nat>)
    requires i <= |removals|
    ensures r.None? ==> forall j :: i <= j < |removals| ==> Drawable(m, removals, j)
    ensures r.Some? ==> i <= r.value < |removals| && !Drawable(m, removals, r.value) &&
                        forall j :: i <= j < r.value ==> Drawable(m, removals, j)
    decreases |removals| - i
  {
    if i == |removals| then None
    else if !Drawable(m, removals, i) then Some(i)
    else FirstUndrawable(m, removals, i + 1)
  }

  /**
   * `select_videos_to_remove(m, removals)` when each `random.sample` follows
   * the shuffle in `draws`: KeyError or ValueError at the first bin that
   * cannot be drawn from, AssertionError when the count check fails.
   */
  function Selection(m: map<int, seq<Folder>>, removals: seq<int>, draws: seq<seq<nat>>): (r: Result<seq<Folder>>)
    requires DrawsFor(m, removals, draws)
    ensures r.Ok? ==> |r.value| == Sum(removals)
  {
    match FirstUndrawable(m, removals, 0)
    case Some(i) => Err(if i in m then ValueError else KeyError)
    case None =>
      var chosen := DrawnUpTo(m, removals, draws, |removals|);
      if |chosen| == Sum(removals) then Ok(chosen) else Err(AssertionError)
  }

  /** The sum of the positive entries: what the loop actually draws. */
  function PositiveSum(s: seq<int>): int {
    if s == [] then 0
    else PositiveSum(s[..|s| - 1]) + (if s[|s| - 1] > 0 then s[|s| - 1] else 0)
  }

  lemma {:induction false} PositiveSumBound(s: seq<int>)
    ensures Sum(s) <= PositiveSum(s)
    ensures Sum(s) == PositiveSum(s) <==> forall i :: 0 <= i < |s| ==> s[i] >= 0
  {
    if s != [] {
      var init := s[..|s| - 1];
      PositiveSumBound(init);
      if forall i :: 0 <= i < |init| ==> init[i] >= 0 {
        assert forall i :: 0 <= i < |s| - 1 ==> s[i] == init[i];
      } else {
        var i :| 0 <= i < |init| && init[i] < 0;
        assert s[i] == init[i];
      }
    }
  }

  lemma {:induction false} DrawnUpToLength(m: map<int, seq<Folder>>, removals: seq<int>, draws: seq<seq<nat>>, i: nat)
    requires DrawsFor(m, removals, draws) && i <= |removals|
    requires forall j :: 0 <= j < i ==> Drawable(m, removals, j)
    ensures |DrawnUpTo(m, removals, draws, i)| == PositiveSum(removals[..i])
  {
    if i > 0 {
      DrawnUpToLength(m, removals, draws, i - 1);
      assert removals[..i][..i - 1] == removals[..i - 1];
    }
  }

  /**
   * The selection succeeds exactly when every bin with removals is a key
   * holding enough folders and no removal count is negative (a negative one
   * is skipped by the loop but still lowers `sum(removals)`, so the count
   * check fails); it then returns `sum(removals)` folders.
   */
  lemma SelectionOk(m: map<int, seq<Folder>>, removals: seq<int>, draws: seq<seq<nat>>)
    requires DrawsFor(m, removals, draws)
    ensures Selection(m, removals, draws).Ok? <==>
            (forall i :: 0 <= i < |removals| ==> Drawable(m, removals, i)) &&
            (forall i :: 0 <= i < |removals| ==> removals[i] >= 0)
    ensures Selection(m, removals, draws).Ok? ==> |Selection(m, removals, draws).value| == Sum(removals)
  {
    if FirstUndrawable(m, removals, 0).None? {
      DrawnUpToLength(m, removals, draws, |removals|);
      assert removals[..|removals|] == removals;
      PositiveSumBound(removals);
    }
  }

  /** Each error names a bin that caused it. */
  lemma SelectionErrors(m: map<int, seq<Folder>>, removals: seq<int>, draws: seq<seq<nat>>)
    requires DrawsFor(m, removals, draws)
    ensures Selection(m, removals, draws) == Err(KeyError) ==>
            exists i :: 0 <= i < |removals| && removals[i] > 0 && i !in m
    ensures Selection(m, removals, draws) == Err(ValueError) ==>
            exists i :: 0 <= i < |removals| && i in m && removals[i] > |m[i]|
    ensures Selection(m, removals, draws) == Err(AssertionError) ==>
            exists i :: 0 <= i < |removals| && removals[i] < 0
  {
    SelectionOk(m, removals, draws);
  }

  /** Distinct positions pick a sub-multiset of the population. */
  lemma {:induction false} SampleSubMultiset(pop: seq<Folder>, p: seq<nat>, k: nat)
    requires k <= |p| && forall t :: 0 <= t < k ==> p[t] < |pop|
    requires forall t, u :: 0 <= t < u < k ==> p[t] != p[u]
    ensures multiset(Sample(pop, p, k)) <= multiset(pop)
  {
    if k > 0 {
      var j := p[k - 1];
      var pop' := pop[..j] + pop[j + 1..];
      var p' := seq(k - 1, t requires 0 <= t < k - 1 => if p[t] < j then p[t] else p[t] - 1);
      assert forall t :: 0 <= t < k - 1 ==> p'[t] < |pop'|;
      assert forall t, u :: 0 <= t < u < k - 1 ==> p'[t] != p'[u];
      SampleSubMultiset(pop', p', k - 1);
      assert Sample(pop', p', k - 1) == Sample(pop, p, k - 1);
      assert Sample(pop, p, k) == Sample(pop, p, k - 1) + [pop[j]];
      assert pop == pop[..j] + [pop[j]] + pop[j + 1..];
    }
  }

  /**
   * From every bin with removals the selection takes exactly that many
   * folders, at distinct positions of the bin: a sub-multiset of its folders.
   */
  lemma DrawnFromBin(m: map<int, seq<Folder>>, removals: seq<int>, draws: seq<seq<nat>>, i: nat)
    requires DrawsFor(m, removals, draws) && i < |removals| && Drawable(m, removals, i)
    requires removals[i] > 0
    ensures |Drawn(m, removals, draws, i)| == removals[i]
    ensures multiset(Drawn(m, removals, draws, i)) <= multiset(m[i])
  {
    SampleSubMultiset(m[i], draws[i], removals[i]);
  }

  /** `select_videos_to_remove`: the bins are visited in order, each drawing its removals. */
  method SelectVideosToRemove(passCounts: map<int, seq<Folder>>, removals: seq<int>, draws: seq<seq<nat>>)
    returns (r: Result<seq<Folder>>)
    requires DrawsFor(passCounts, removals, draws)
    ensures r == Selection(passCounts, removals, draws)
  {
    var chosen: seq<Folder> := [];
    var i := 0;
    while i < |removals|
      invariant 0 <= i <= |removals|
      invariant forall j :: 0 <= j < i ==> Drawable(passCounts, removals, j)
      invariant FirstUndrawable(passCounts, removals, 0) == FirstUndrawable(passCounts, removals, i)
      invariant chosen == DrawnUpTo(passCounts, removals, draws, i)
    {
      var num := removals[i];
      if num > 0 {
        if i !in passCounts {
          assert FirstUndrawable(passCounts, removals, i) == Some(i);
          return Err(KeyError);
        }
        var pop := passCounts[i];
        if num > |pop| {
          assert FirstUndrawable(passCounts, removals, i) == Some(i);
          return Err(ValueError);
        }
        chosen := chosen + Sample(pop, draws[i], num);
      }
      assert Drawable(passCounts, removals, i);
      assert FirstUndrawable(passCounts, removals, i) == FirstUndrawable(passCounts, removals, i + 1);
      assert chosen == DrawnUpTo(passCounts, removals, draws, i) + Drawn(passCounts, removals, draws, i);
      i := i + 1;
    }
    assert FirstUndrawable(passCounts, removals, 0) == None;
    if |chosen| != Sum(removals) {
      return Err(AssertionError);
    }
    return Ok(chosen);
  }
}
