# Midline-pass balancing of tracking videos

This project models the core of a small tool chain for tracking videos. Each video is stored as decoded JSON: per frame, a list of tracked-object positions.

- The frame filters turn a video into per-ball location files, `target.txt` and `select.txt`. `select.txt` records how often the tracked ball crossed the horizontal midline.
- The summary builder reads every `.txt` file of a folder in name order, other than its own output, and writes a numbered table row for each one whose stripped first line has a second comma field. The row's value is that field, stripped.
- The balancer works as follows:
  - it reads the midline-pass count of every video folder;
  - it builds a histogram of folders per pass count;
  - it plans how many videos to delete from each histogram bin, so the distribution is levelled down to a target total;
  - it draws the folders to delete;
  - it renumbers the remaining folders, their videos and their select files.

There are eight modules in seven files. `equalize_and_name.py` is split into three modules, one per stage (`Balance`, `Passes`, `Renumber`); `filter_updated.py` becomes `Frames` and `summary_select.py` becomes `Summary`. Two support modules model Python's library behaviour, and one connects the files:

| module | file | contents |
|---|---|---|
| `Wrappers` | text.dfy | `Option`, `Result` and the kinds of Python exception the code can raise |
| `PyText` | text.dfy | the Python string operations the code relies on (see below) |
| `Balance` | balance.dfy | `calculate_removals_per_bin`: an in-place method over two arrays, proved equal to the levelling function `Level`, which is then characterised by lemmas |
| `Passes` | passes.dfy | the line parsing of `collect_pass_counts`, `generate_bin_counts`, `select_videos_to_remove` |
| `Renumber` | renumber.dfy | the naming rules and the renumbering pass of `rename_folders_and_files` |
| `Frames` | frames.dfy | `filter`, `target_filter`, the frame filter of `ecc_filter`, `pass_counter` |
| `Summary` | summary.dfy | `summarize_selects` |
| `Pipeline` | pipeline.dfy | lemmas connecting the files: a line written by `ecc_filter` reads back as its pass count both in `collect_pass_counts` and in `summarize_selects` |

The Python string operations in `PyText` are `strip`, `split(',')`, `rfind`, `str(int)`, `f"{n:03}"`, `int()` and `endswith`, plus code-point string order and a sort by name.

The imperative parts are modelled as methods, proved against specification functions:

- the while loop over the bin arrays;
- the dictionary-building loop;
- the bin-filling loop;
- the sampling loop;
- the frame loops;
- the renaming loop;
- the summary loop.

The file system is modelled as values:

- a directory walk is the sequence of `select.txt` files it finds, each with its lines;
- a directory listing is a sequence of names, or of (name, lines) pairs;
- a rename is an `Action` value in the order the renames happen;
- the decoded JSON is a `Video` value.

`random.sample` is modelled by a `draws` parameter: one permutation of positions per bin. The sample is the first `k` positions of that permutation.

## Model

| member | source | states |
|---|---|---|
| `PyText.Strip` | equalize_and_name.py:27 | `str.strip()` removes whitespace at both ends and leaves none there |
| `PyText.StripPadded` | summary_select.py:21 | stripping a string padded only with whitespace returns the string |
| `PyText.Split` | equalize_and_name.py:24 | `split(',')` gives at least one part; no part holds a comma; there is more than one part iff the string holds a comma |
| `PyText.JoinSplit` | equalize_and_name.py:24 | rejoining the parts with commas gives back the original line |
| `PyText.SplitJoin` | equalize_and_name.py:24 | splitting comma-free parts joined by commas gives back the parts |
| `PyText.SplitField` | summary_select.py:21 | splitting `a,b` when `a` has no comma gives `a` followed by the fields of `b` |
| `PyText.RFind` | equalize_and_name.py:136 | `rfind` returns -1 or the index of the last occurrence of the character |
| `PyText.Pad3` | equalize_and_name.py:135 | `f"{idx:03}"` is all digits, at least three of them, and exactly three below 1000 |
| `PyText.Pad3RoundTrip` | equalize_and_name.py:135 | `int()` of the zero-padded ordinal gives back the ordinal |
| `PyText.StrRoundTrip` | equalize_and_name.py:27 | `int(str(n)) == n` for every integer, negative ones included |
| `PyText.DigitsParse` | equalize_and_name.py:27 | `int()` of a decimal literal is its decimal value |
| `PyText.NegativeParse` | equalize_and_name.py:27 | `int()` of `-` followed by a literal is the negated value |
| `PyText.NatStrLength` | equalize_and_name.py:135 | the decimal digits of `n` number 1, at most 2, at most 3, at least 4 for the ranges below 10, 100, 1000 and from 1000 |
| `PyText.SortByName` | equalize_and_name.py:130 | sorting by name returns a name-ordered permutation of its input |
| `PyText.StrLeTotal` | summary_select.py:15 | string order is total |
| `Balance.Max` | equalize_and_name.py:66 | `max(bin_counts)` is a member not below any bin |
| `Balance.MaxBelow` | equalize_and_name.py:67 | the second max is a member below the max and not below any other such member |
| `Balance.IndicesOf` | equalize_and_name.py:70 | `max_indices` lists exactly the indices holding the value, in increasing order |
| `Balance.RoundCutAt` | equalize_and_name.py:76-88 | one round takes `reduce_by // k` from each maximal bin plus one more from the first `reduce_by % k` maximal bins in index order, and nothing from any other bin |
| `Balance.RoundBin` | equalize_and_name.py:73-88 | in a round only maximal bins are lowered, each by the even share or one more, and none falls below the second max |
| `Balance.RoundSum` | equalize_and_name.py:73-88 | a round removes exactly `reduce_by`, which is positive and at most the number still to remove |
| `Balance.RoundMax` | equalize_and_name.py:73-88 | after a round the maximum has dropped by exactly the even share |
| `Balance.RoundMin` | equalize_and_name.py:73-88 | a round leaves the minimum bin value unchanged |
| `Balance.RoundTouched` | equalize_and_name.py:79-88 | a bin lowered in a round ends within one of the new maximum |
| `Balance.LevelNothingToRemove` | equalize_and_name.py:58-64 | when the target is at least the total, no removals are planned and the bins are unchanged |
| `Balance.LevelNonNegative` | equalize_and_name.py:62-88 | every planned removal count is non-negative |
| `Balance.LevelSum` | equalize_and_name.py:58-92 | when levelling finishes, the removals sum to `total - target` (0 when the target is not below the total) |
| `Balance.LevelFloor` | equalize_and_name.py:66-88 | no bin is lowered below the smallest original bin, so non-negative bins stay non-negative |
| `Balance.LevelMax` | equalize_and_name.py:66-88 | the maximum bin never increases |
| `Balance.LevelFlattens` | equalize_and_name.py:64-92 | the spread between the largest and smallest bin never grows |
| `Balance.LevelTouchedNearTop` | equalize_and_name.py:79-88 | every bin with removals ends within one of the final maximum |
| `Balance.LevelRaisedIff` | equalize_and_name.py:64-67 | `max()` of an empty sequence is raised iff more must be removed than the bins hold above their minimum |
| `Balance.CapacityNonNegative` | equalize_and_name.py:67 | the removable amount is non-negative and zero when all bins are equal |
| `Balance.RoundCut` | equalize_and_name.py:73-88 | one round's cut per bin: `reduce_by // k` on each maximal bin, one more on the first `reduce_by % k` maximal bins; one entry per bin (its values are characterised by `RoundCutAt` and `RoundBin`) |
| `Balance.Level` | equalize_and_name.py:64-92 | the levelling loop: nothing to remove gives zero removals; all bins equal with removals left raises (the empty `max()` of line 67); otherwise one round, then levelling of the lowered bins for what is left; one removal count per bin |
| `Balance.LevelStep` | equalize_and_name.py:64-92 | levelling is one round followed by levelling the lowered bins for what is left |
| `Balance.SumOf` | equalize_and_name.py:58 | the loop computes `sum(bin_counts)` |
| `Balance.MaxOf` | equalize_and_name.py:66 | `max()` of the array, or nothing for an empty array |
| `Balance.MaxBelowOf` | equalize_and_name.py:67 | the second max, or nothing exactly when no value is below the bound |
| `Balance.IndicesOfValue` | equalize_and_name.py:70 | the loop computes the indices holding the value |
| `Balance.LowerBins` | equalize_and_name.py:79-88 | lowering the listed bins by `d` lowers them in `bin_counts`, raises them equally in the removals and decreases what remains |
| `Balance.LevelRound` | equalize_and_name.py:65-88 | one loop iteration applies exactly that round's cut to both arrays, or reports that all bins are equal and changes nothing |
| `Balance.CalculateRemovalsPerBin` | equalize_and_name.py:52-95 | returns a fresh array of the same length; leaves the caller's `bin_counts` equal to the original minus the removals; removals and the raised error are those of `Level` |
| `Passes.LineCount` | equalize_and_name.py:24-27 | a line gives a count only if it holds a comma; the count is `int()` of the stripped second field |
| `Passes.CountEntriesComplete` | equalize_and_name.py:23-33 | a file of one folder contributes `(k, folder)` exactly when some line's count is `k` |
| `Passes.EntriesComplete` | equalize_and_name.py:18-33 | a pair `(k, f)` is collected iff some `select.txt` of folder `f` has a line with count `k` |
| `Passes.Group` | equalize_and_name.py:28-30 | the dictionary the collected pairs build: a new count starts an empty list and each pair appends its folder (characterised by `GroupIsFolders`) |
| `Passes.GroupIsFolders` | equalize_and_name.py:28-30 | the dictionary has key `k` iff some pair has count `k`, and lists the folders of those pairs in walk order |
| `Passes.FoldersWithMembers` | equalize_and_name.py:30 | a folder is listed under `k` iff the pair `(k, folder)` was collected |
| `Passes.FolderSetCovered` | equalize_and_name.py:31 | the folder set is exactly the folders listed under some key |
| `Passes.CollectLine` | equalize_and_name.py:24-33 | one line adds the pair its count gives, if any, to the dictionary and the folder set; a line without a count changes neither |
| `Passes.CollectFile` | equalize_and_name.py:23-33 | reading one file adds its pairs to the dictionary and its folder to the set |
| `Passes.CollectPassCounts` | equalize_and_name.py:9-37 | returns the dictionary and the set built from all collected pairs |
| `Passes.MaxKey` | equalize_and_name.py:43 | the largest key is a key not below any other |
| `Passes.KeyRange` | equalize_and_name.py:43 | the loop finds the smallest and the largest key |
| `Passes.BinCounts` | equalize_and_name.py:40-49 | what `generate_bin_counts` returns or raises: ValueError exactly for an empty dictionary; otherwise a list of length `max key + 1` with no negative entry |
| `Passes.BinCountsNatural` | equalize_and_name.py:43-47 | for non-negative keys, the list has length `max key + 1`, entry `k` is the number of folders with count `k`, and 0 for other counts |
| `Passes.GenerateBinCounts` | equalize_and_name.py:40-49 | returns the bin list, including negative-index writes, or ValueError for an empty dictionary, or IndexError |
| `Passes.Sample` | equalize_and_name.py:105 | a sample of `k` has `k` members |
| `Passes.Selection` | equalize_and_name.py:98-110 | the bins are visited in order, each drawing its removals through its shuffle; an error at the first bin that cannot be drawn from; a successful selection holds `sum(removals)` folders, the assert of line 108 |
| `Passes.FirstUndrawable` | equalize_and_name.py:103-105 | finds the first bin asking for more folders than it has, or establishes that none does |
| `Passes.SelectionOk` | equalize_and_name.py:103-108 | the selection succeeds iff every bin with removals is a key holding enough folders and no removal is negative; it then holds `sum(removals)` folders |
| `Passes.SelectionErrors` | equalize_and_name.py:103-108 | KeyError names a missing bin, ValueError an over-asked bin, AssertionError a negative removal |
| `Passes.DrawnFromBin` | equalize_and_name.py:104-105 | a bin with removals gives exactly that many folders, drawn from distinct positions of the bin |
| `Passes.SampleSubMultiset` | equalize_and_name.py:105 | distinct positions draw a sub-multiset of the population |
| `Passes.PositiveSumBound` | equalize_and_name.py:104-108 | what the loop draws equals `sum(removals)` iff no count is negative |
| `Passes.SelectVideosToRemove` | equalize_and_name.py:98-110 | the loop returns the selection or the exception of the first failing bin |
| `Renumber.Prefix` | equalize_and_name.py:136 | the prefix is the part of the name through its last `_`, empty when there is no `_` |
| `Renumber.FolderName` | equalize_and_name.py:135-136 | a folder's new name: its prefix through the last `_`, then the ordinal padded to three digits (characterised by `FolderNameReadsBack` and `FolderNameInjective`) |
| `Renumber.VideoName` | equalize_and_name.py:151 | a video's new name: the same rule on the file name, then `.mp4` |
| `Renumber.SelectName` | equalize_and_name.py:162 | `select_` followed by the padded ordinal and `.txt` |
| `Renumber.FolderNameReadsBack` | equalize_and_name.py:135-136 | the new folder name keeps the prefix and ends in the ordinal, which `int()` reads back |
| `Renumber.FolderNameIdempotent` | equalize_and_name.py:135-136 | renaming a renamed folder to the same number changes nothing |
| `Renumber.FolderNameInjective` | equalize_and_name.py:135-136 | equal new names mean equal prefixes and equal numbers |
| `Renumber.VideoNameFollowsFolder` | equalize_and_name.py:151 | a video named after its folder is renamed after the folder's new name, keeping `.mp4` |
| `Renumber.SelectNameReadsBack` | equalize_and_name.py:162 | `select_NNN.txt` ends in `.txt`, has prefix `select_`, and its digits read back as the number |
| `Renumber.VideoRenamesSpec` | equalize_and_name.py:147-153 | the video renames are exactly those of the listed `.mp4` files, each to its new name |
| `Renumber.SelectsInSpec` | equalize_and_name.py:159-164 | one rename to the numbered select name per `select.txt` listed |
| `Renumber.SelectRenamesSpec` | equalize_and_name.py:157-164 | without a `locs` directory nothing is renamed; with one, each `select.txt` is renamed |
| `Renumber.FolderActionsRenameOne` | equalize_and_name.py:143-164 | a folder's renames start with its own rename and hold no other folder rename |
| `Renumber.PlannedFolderRenames` | equalize_and_name.py:132-143 | the folder renames made are exactly those of folders whose new name was free when visited |
| `Renumber.AlreadyNumbered` | equalize_and_name.py:139-141 | with every folder already carrying its new name nothing is renamed |
| `Renumber.NamesRemain` | equalize_and_name.py:132-143 | a folder not yet visited is still present under its old name |
| `Renumber.RenamesKeepCount` | equalize_and_name.py:139-143 | renumbering never overwrites an entry, so the number of entries is kept |
| `Renumber.RenamedStay` | equalize_and_name.py:139-143 | a folder once renamed keeps its new name to the end |
| `Renumber.StepSize` | equalize_and_name.py:139-143 | a single visit keeps the number of entries |
| `Renumber.SortedNamesPresent` | equalize_and_name.py:129-130 | every sorted folder is an entry of the group |
| `Renumber.GroupAlreadyNumbered` | equalize_and_name.py:129-143 | a group already numbered in name order is left alone |
| `Renumber.GroupKeepsEntries` | equalize_and_name.py:129-143 | renumbering keeps the number of entries, and the `k`-th folder in name order, when renamed, gets number `k` and keeps it |
| `Renumber.Plan` | equalize_and_name.py:129-143 | a group's renames: the folders in name order, the `k`-th renamed to `FolderName(name, k)` together with its videos and select files, skipped when that name is already an entry |
| `Renumber.RenumberGroup` | equalize_and_name.py:128-165 | the renames and the final entries of one group are those of the plan over the name-sorted folders |
| `Renumber.VisitFolders` | equalize_and_name.py:132-165 | the loop makes the planned renames and reaches the planned entries |
| `Renumber.RenameFoldersAndFiles` | equalize_and_name.py:124-165 | every group directory gets its plan |
| `Frames.Trunc` | filter_updated.py:28-29 | `int()` of a float truncates toward zero |
| `Frames.LocLineReadsBack` | filter_updated.py:35 | the line `x,y,j` splits into three fields that `int()` reads back as `x`, `y` and `j` |
| `Frames.StrShape` | filter_updated.py:143 | `str(n)` is non-empty and holds neither commas nor whitespace |
| `Frames.BallTrack` | filter_updated.py:33-34 | ball `i`'s track holds its position in frame `j` at place `j`, for every frame |
| `Frames.WriteBall` | filter_updated.py:32-35 | one ball's file has one line per frame in order, or the exception of the first failing read |
| `Frames.Filter` | filter_updated.py:21-36 | one file per ball, `ball_i.txt` with `num_frames` lines, or the exception of the first failing read |
| `Frames.EmittedComplete` | filter_updated.py:48-49 | exactly the frames with `num_balls + 1` objects are emitted, in increasing frame order |
| `Frames.TargetTrack` | filter_updated.py:49-50 | the target is the last object of each emitted frame |
| `Frames.TargetFile` | filter_updated.py:47-54 | `target.txt` is removed iff no frame holds the target |
| `Frames.TargetFilter` | filter_updated.py:38-56 | the target file when every frame read exists, or the exception of the failing read |
| `Frames.Crossings` | filter_updated.py:164-166 | the frames `j` after which the height is on the other side of the midline; every one lies below the last frame (order and completeness in `CrossingsSpec`) |
| `Frames.CrossingsSpec` | filter_updated.py:154-166 | `j` is a pass iff the heights at `j` and `j+1` lie strictly on opposite sides of 540; passes come in increasing order and lie below `num_frames - 1` |
| `Frames.CrossingsBound` | filter_updated.py:164 | there are at most `num_frames - 1` passes |
| `Frames.OnMidline` | filter_updated.py:154-165 | a height exactly on the midline makes no pass on either side |
| `Frames.CrossingsExample` | filter_updated.py:164-167 | heights `[400, 600, 400]` give passes `[0, 1]` |
| `Frames.PassCount` | filter_updated.py:153-167 | when it succeeds there are at most `num_frames - 1` passes, and none for fewer than two frames |
| `Frames.ReadRows` | filter_updated.py:159-161 | the rows are the first `num_balls` objects of each frame, or the exception of the first short or missing frame |
| `Frames.CountPasses` | filter_updated.py:164-166 | the loop returns exactly the crossings of the tracked ball |
| `Frames.PassCounter` | filter_updated.py:153-167 | the method returns or raises what `PassCount` says |
| `Frames.SelectLine` | filter_updated.py:143 | the `select.txt` line: the ball index, the number of passes and the list of pass frames, separated by a comma and a space, then a newline (its fields read back in `Pipeline.SelectLineFields`) |
| `Frames.EccFilter` | filter_updated.py:59-148 | keeps exactly the frames that hold the target, in order; computes statistics only when some frame was kept; writes the select line of ball `num_balls - 1` in any case |
| `Summary.FirstValue` | summary_select.py:19-24 | a value exactly when there is a first line whose stripped text holds a comma; the value holds no comma and starts and ends without whitespace |
| `Summary.FileValue` | summary_select.py:16-24 | a value exactly when the file is a considered `.txt` file whose stripped first line holds a comma, and then the stripped second comma field of that line |
| `Summary.FileValues` | summary_select.py:15-24 | one value or nothing per listed file |
| `Summary.Contributors` | summary_select.py:20-26 | the positions that give a row are files that yield a value |
| `Summary.ContributorsComplete` | summary_select.py:15-26 | every file that yields a value gives a row, in name order |
| `Summary.ContributionsAre` | summary_select.py:15-27 | the written values are the values of the contributing files, in order |
| `Summary.Numbered` | summary_select.py:14-27 | the `k`-th written value is numbered `k` |
| `Summary.RowsSnoc` | summary_select.py:26-27 | writing one more value appends its numbered row |
| `Summary.WriteRows` | summary_select.py:12-27 | the loop writes the header and then the numbered rows of the contributed values |
| `Summary.SummarizeSelects` | summary_select.py:5-29 | the lines written are the table of the name-sorted listing |
| `Summary.TableRows` | summary_select.py:14-27 | rows are numbered `0, 1, 2 and so on` with no gaps, row `k` carrying the value of the `k`-th contributing file |
| `Pipeline.SelectLineFields` | filter_updated.py:143 | the select line's first field is the ball index and its second is a space followed by the pass count |
| `Pipeline.CountField` | filter_updated.py:143 | the stripped second field reads back as the pass count |
| `Pipeline.PassCountReadsBack` | equalize_and_name.py:24-27 | a line written by `ecc_filter` gives, in `collect_pass_counts`, its number of passes |
| `Pipeline.SelectFileEntries` | equalize_and_name.py:19-31 | a `select.txt` holding that line files its folder under its pass count |
| `Pipeline.StripSelectLine` | summary_select.py:21 | stripping the select line removes only its newline |
| `Pipeline.SummaryReadsBack` | summary_select.py:20-24 | the summary's value for a file starting with that line is its pass count |
| `Pipeline.SelectNameConsidered` | summary_select.py:16 | a renamed `select_NNN.txt` is a file the summary reads |
| `Pipeline.SelectFileValue` | summary_select.py:16-24 | a renamed select file holding the line gives its pass count as its summary value |

## Left out

- File-system I/O is modelled as values: directory walks, listings, opening, reading and writing files, `os.makedirs`, `os.rename`, `shutil.rmtree` and `os.path.exists`. The model does not capture partial output left behind when an exception interrupts a write.
- `remove_folders` and `execute_changes` are not modelled. They only delete folders and print, calling the modelled functions in sequence.
- The order of `os.walk` and `os.listdir` is an input: the sequence given to the model.
- The randomness of `random.sample` is the `draws` parameter. The model states the count and the distinct positions of the sample, not its distribution.
- The eccentricity statistics of `ecc_filter` (numpy norm, mean, median, std, min, max) and their `tabulate` output are not modelled; they are floating-point numerics in foreign libraries. Only whether they are written is modelled (`EccOutput.statistics`).
- The commented-out filtering branch of `ecc_filter` is dead code and is not modelled.
- `main`, argparse, and the top-level script lines with hard-coded paths are not modelled.
- `print` output is not modelled.
- Positions are integers, not floats. The midline 540 is exact, so the sign test of `pass_counter` is the same.
- `duration` and `fps` are reals truncated by `int()`. String-valued metadata that `int()` would parse is not modelled.
- JSON frame keys `"0"`, `"1"`, … are a sequence: frame `j` is missing exactly when `j` is not below the sequence's length.
- `Passes.LineCount`: `int()` is modelled on ASCII decimal literals with optional sign and underscores between digits. Unicode digits and other whitespace forms are not modelled.
- `PyText.SortByName`: the order for equal names is not specified. Directory listings hold distinct names, where order is fully determined.
- `Passes.CollectPassCounts`: the result dictionary is a Dafny `map`, which has no order. The sorted insertion order of line 35 matters only in `generate_bin_counts`, and `Passes.BinAt` models it there.
- `Renumber.GroupKeepsEntries` requires the folder names to be distinct, as they are in a directory.
- `Renumber.RenameFoldersAndFiles`: `os.rename` of a video or select file onto an existing name inside a folder is modelled as a rename action only, not as overwriting the file.
- `Summary.SummarizeSelects`: the listing is given with each file's lines. A directory named `*.txt`, which would make `open` fail, is not modelled.
- `Summary.SummarizeSelects`: the output file `midline_pass_counts.txt` is skipped by name, as in the source. Its being created before the listing is taken is not modelled beyond that.
