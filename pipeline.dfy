/**
 * How the scripts fit together: the `select.txt` line that ecc_filter
 * writes (filter_updated.py) is the line whose second field
 * collect_pass_counts (equalize_and_name.py) and summarize_selects
 * (summary_select.py) read back, and the renamed `select_NNN.txt` files
 * are the ones the summary reads.
 */
module Pipeline {
  import opened Wrappers
  import opened PyText
  import Passes
  import Balance
  import Frames
  import Renumber
  import Summary

  lemma NoCommaAfterSpace(s: string)
    requires ',' !in s
    ensures ',' !in " " + s
  {
    assert forall i :: 1 <= i < |" " + s| ==> (" " + s)[i] == s[i - 1];
  }

  lemma LineShape(a: string, n: string, l: string, tail: string)
    ensures a + ", " + n + ", " + l + tail == a + "," + ((" " + n) + "," + (" " + l + tail))
  {
  }

  /**
   * The comma fields of a `select.txt` line: the video index, then the
   * crossing count after one space.
   */
  lemma SelectLineFields(idx: int, ts: seq<nat>, tail: string)
    ensures var parts := Split(Str(idx) + ", " + Str(|ts|) + ", " + Frames.ListRepr(ts) + tail);
      |parts| > 1 && parts[0] == Str(idx) && parts[1] == " " + Str(|ts|)
  {
    var a, n := Str(idx), Str(|ts|);
    var rest := " " + Frames.ListRepr(ts) + tail;
    LineShape(a, n, Frames.ListRepr(ts), tail);
    Frames.StrShape(idx);
    Frames.StrShape(|ts|);
    SplitField(a, (" " + n) + "," + rest);
    NoCommaAfterSpace(n);
    SplitField(" " + n, rest);
  }

  /** The stripped second field of a `select.txt` line is the crossing count. */
  lemma CountField(n: int)
    ensures Strip(" " + Str(n)) == Str(n)
    ensures ParseInt(Strip(" " + Str(n))) == Some(n)
  {
    Frames.StrShape(n);
    assert " " + Str(n) + "" == " " + Str(n);
    StripPadded(" ", Str(n), "");
    StrRoundTrip(n);
  }

  /**
   * collect_pass_counts reads from the line ecc_filter writes exactly the
   * number of midline crossings it wrote there.
   */
  lemma PassCountReadsBack(idx: int, ts: seq<nat>)
    ensures Passes.LineCount(Frames.SelectLine(idx, ts)) == Some(|ts|)
  {
    SelectLineFields(idx, ts, "\n");
    CountField(|ts|);
  }

  lemma ParseOne(folder: Balance.Folder, line: string, k: int)
    requires Passes.LineCount(line) == Some(k)
    ensures Passes.Parse([Passes.SelectFile(folder, [line])]) == [(folder, [Some(k)])]
  {
    assert Passes.LineCounts([line]) == [Some(k)];
  }

  lemma PairsOne(folder: Balance.Folder, k: int)
    ensures Passes.Pairs([(folder, [Some(k)])]) == [(k, folder)]
  {
    var counts := [Some(k)];
    assert Passes.CountEntries(folder, counts) == Passes.CountEntries(folder, []) + Passes.CountEntry(folder, Some(k)) by {
      assert counts[..0] == [];
    }
    var parsed := [(folder, counts)];
    assert Passes.Pairs(parsed) == Passes.Pairs([]) + Passes.CountEntries(folder, counts) by {
      assert parsed[..0] == [];
    }
  }

  /** A `select.txt` of one line with a count adds exactly that count and the folder. */
  lemma OneLineEntries(folder: Balance.Folder, line: string, k: int)
    requires Passes.LineCount(line) == Some(k)
    ensures Passes.Entries([Passes.SelectFile(folder, [line])]) == [(k, folder)]
  {
    ParseOne(folder, line, k);
    PairsOne(folder, k);
  }

  /**
   * A video folder whose `select.txt` holds the line ecc_filter writes adds
   * exactly one pair to the pass-count dictionary: its crossing count and
   * the folder.
   */
  lemma SelectFileEntries(folder: Balance.Folder, idx: int, ts: seq<nat>)
    ensures Passes.Entries([Passes.SelectFile(folder, [Frames.SelectLine(idx, ts)])]) == [(|ts|, folder)]
  {
    PassCountReadsBack(idx, ts);
    OneLineEntries(folder, Frames.SelectLine(idx, ts), |ts|);
  }

  /** The strip() of the line ecc_filter writes drops only its newline. */
  lemma StripSelectLine(idx: int, ts: seq<nat>)
    ensures Strip(Frames.SelectLine(idx, ts)) == Str(idx) + ", " + Str(|ts|) + ", " + Frames.ListRepr(ts)
  {
    var core := Str(idx) + ", " + Str(|ts|) + ", " + Frames.ListRepr(ts);
    assert Frames.SelectLine(idx, ts) == "" + core + "\n";
    Frames.StrShape(idx);
    assert core[0] == Str(idx)[0];
    assert core[|core| - 1] == ']';
    StripPadded("", core, "\n");
  }

  lemma FirstValueOf(lines: seq<string>, core: string)
    requires |lines| > 0 && Strip(lines[0]) == core && |Split(core)| > 1
    ensures Summary.FirstValue(lines) == Some(Strip(Split(core)[1]))
  {
  }

  /**
   * summarize_selects reads from the first line ecc_filter writes the
   * crossing count as the value of the row.
   */
  lemma SummaryReadsBack(idx: int, ts: seq<nat>, rest: seq<string>)
    ensures Summary.FirstValue([Frames.SelectLine(idx, ts)] + rest) == Some(Str(|ts|))
  {
    var core := Str(idx) + ", " + Str(|ts|) + ", " + Frames.ListRepr(ts);
    StripSelectLine(idx, ts);
    assert core + [] == core;
    SelectLineFields(idx, ts, []);
    CountField(|ts|);
    FirstValueOf([Frames.SelectLine(idx, ts)] + rest, core);
  }

  /** The renamed select files are the ones summarize_selects reads. */
  lemma SelectNameConsidered(i: nat)
    ensures Summary.Considered(Renumber.SelectName(i))
  {
    Renumber.SelectNameReadsBack(i);
    assert Renumber.SelectName(i)[0] == 's';
    assert Summary.OutputName[0] == 'm';
  }

  /**
   * The value of a summary row for a renamed select file: the
   * crossing count ecc_filter wrote.
   */
  lemma SelectFileValue(i: nat, idx: int, ts: seq<nat>)
    ensures Summary.FileValue(Renumber.SelectName(i), [Frames.SelectLine(idx, ts)]) == Some(Str(|ts|))
  {
    SelectNameConsidered(i);
    SummaryReadsBack(idx, ts, []);
    assert [Frames.SelectLine(idx, ts)] + [] == [Frames.SelectLine(idx, ts)];
  }
}
