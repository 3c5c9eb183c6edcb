/**
 * The summary table of a folder of `select_NNN.txt` files
 * (summary_select.py): one row per file whose first line holds a second
 * comma field, numbered contiguously in name order.
 */
module Summary {
  import opened Wrappers
  import opened PyText

  /** The file the table is written to, which the listing may already hold. */
  const OutputName: string := "midline_pass_counts.txt"

  const Header: string := "Index,Value\n"

  /** A listed file is read when it is a `.txt` file other than the table itself. */
  predicate Considered(name: string) {
    EndsWith(name, ".txt") && name != OutputName
  }

  /** The stripped second comma field of the stripped first line, when there is one. */
  function FirstValue(lines: seq<string>): (r: Option<string>)
    ensures r.Some? <==> |lines| > 0 && ',' in Strip(lines[0])
    ensures r.Some? ==> ',' !in r.value
    ensures r.Some? && r.value != [] ==> !IsSpace(r.value[0]) && !IsSpace(r.value[|r.value| - 1])
  {
    if |lines| == 0 then None
    else
      var parts := Split(Strip(lines[0]));
      if |parts| > 1 then Some(Strip(parts[1])) else None
  }

  /**
   * What a listed file adds to the table: a value exactly when it is a
   * considered file whose stripped first line holds a comma, and then the
   * stripped second comma field of that line.
   */
  function FileValue(name: string, lines: seq<string>): (r: Option<string>)
    ensures r.Some? <==> Considered(name) && |lines| > 0 && ',' in Strip(lines[0])
    ensures r.Some? ==> r.value == Strip(Split(Strip(lines[0]))[1])
  {
    if Considered(name) then FirstValue(lines) else None
  }

  /** What every file of the listing adds, in listing order. */
  function FileValues(files: seq<(string, seq<string>)>): (vals: seq<Option<string>>)
    ensures |vals| == |files|
  {
    seq(|files|, i requires 0 <= i < |files| => FileValue(files[i].0, files[i].1))
  }

  /** The positions among the first `n` that give a row. */
  function Contributors(vals: seq<Option<string>>, n: nat): (c: seq<nat>)
    requires n <= |vals|
    ensures forall k :: 0 <= k < |c| ==> c[k] < n && vals[c[k]].Some?
  {
    if n == 0 then []
    else if vals[n - 1].Some? then Contributors(vals, n - 1) + [n - 1]
    else Contributors(vals, n - 1)
  }

  /** Every position that gives a row is a contributor, and they come in increasing order. */
  lemma {:induction false} ContributorsComplete(vals: seq<Option<string>>, n: nat)
    requires n <= |vals|
    ensures forall i :: 0 <= i < n && vals[i].Some? ==> i in Contributors(vals, n)
    ensures forall k, l :: 0 <= k < l < |Contributors(vals, n)| ==> Contributors(vals, n)[k] < Contributors(vals, n)[l]
  {
    if n > 0 {
      ContributorsComplete(vals, n - 1);
    }
  }

  /** The values at the given positions. */
  function Values(vals: seq<Option<string>>, c: seq<nat>): (vs: seq<string>)
    requires forall k :: 0 <= k < |c| ==> c[k] < |vals| && vals[c[k]].Some?
    ensures |vs| == |c|
  {
    seq(|c|, k requires 0 <= k < |c| => vals[c[k]].value)
  }

  lemma ValuesSnoc(vals: seq<Option<string>>, c: seq<nat>, i: nat)
    requires forall k :: 0 <= k < |c| ==> c[k] < |vals| && vals[c[k]].Some?
    requires i < |vals| && vals[i].Some?
    ensures Values(vals, c + [i]) == Values(vals, c) + [vals[i].value]
  {
    assert forall k :: 0 <= k < |c| ==> (c + [i])[k] == c[k];
  }

  /** The values the first `n` positions contribute, in order. */
  function Contributions(vals: seq<Option<string>>, n: nat): seq<string>
    requires n <= |vals|
  {
    if n == 0 then []
    else Contributions(vals, n - 1) + (if vals[n - 1].Some? then [vals[n - 1].value] else [])
  }

  /** The contributed values are exactly the values of the contributors, in order. */
  lemma {:induction false} ContributionsAre(vals: seq<Option<string>>, n: nat)
    requires n <= |vals|
    ensures Contributions(vals, n) == Values(vals, Contributors(vals, n))
  {
    if n > 0 {
      ContributionsAre(vals, n - 1);
      if vals[n - 1].Some? {
        ValuesSnoc(vals, Contributors(vals, n - 1), n - 1);
      }
    }
  }

  /** Values paired with the row index they are written under. */
  function Numbered(vs: seq<string>): (r: seq<(int, string)>)
    ensures |r| == |vs| && forall k :: 0 <= k < |vs| ==> r[k] == (k, vs[k])
  {
    seq(|vs|, k requires 0 <= k < |vs| => (k, vs[k]))
  }

  lemma NumberedSnoc(vs: seq<string>, v: string)
    ensures Numbered(vs + [v]) == Numbered(vs) + [(|vs|, v)]
  {
  }

  /** The row `f"{index},{value}\n"`. */
  function RowOf(p: (int, string)): string {
    Str(p.0) + "," + p.1 + "\n"
  }

  /** The numbered rows of some values. */
  function Rows(vs: seq<string>): seq<string> {
    Map(RowOf, Numbered(vs))
  }

  /** Writing one more value appends its numbered row. */
  lemma RowsSnoc(vs: seq<string>, v: string)
    ensures Rows(vs + [v]) == Rows(vs) + [RowOf((|vs|, v))]
  {
    NumberedSnoc(vs, v);
    MapSnoc(RowOf, Numbered(vs), (|vs|, v));
  }

  lemma AppendRow(a: seq<string>, b: seq<string>, x: string)
    ensures a + (b + [x]) == (a + b) + [x]
  {
  }

  /** The listing in name order. */
  function Sorted(listing: seq<(string, seq<string>)>): (s: seq<(string, seq<string>)>)
    ensures |s| == |listing|
  {
    SortByName(listing)
  }

  /** The lines of the table written for a folder listing. */
  function Table(listing: seq<(string, seq<string>)>): seq<string> {
    var vals := FileValues(Sorted(listing));
    [Header] + Rows(Contributions(vals, |vals|))
  }

  /**
   * `vals` holds what each file of `files` adds. The link is instantiated
   * only where `ValueAt` is mentioned, which keeps the string functions
   * out of the loop below.
   */
  predicate ValuesOf(files: seq<(string, seq<string>)>, vals: seq<Option<string>>) {
    |vals| == |files| && forall i {:trigger ValueAt(files, vals, i)} :: 0 <= i < |files| ==> ValueAt(files, vals, i)
  }

  predicate ValueAt(files: seq<(string, seq<string>)>, vals: seq<Option<string>>, i: nat)
    requires i < |files| && i < |vals|
  {
    vals[i] == FileValue(files[i].0, files[i].1)
  }

  lemma FileValuesOf(files: seq<(string, seq<string>)>)
    ensures ValuesOf(files, FileValues(files))
  {
    forall i | 0 <= i < |files|
      ensures ValueAt(files, FileValues(files), i)
    {
    }
  }

  /** Reads what file `i` of the listing adds to the table, as `FileValue` states it. */
  method ReadValue(files: seq<(string, seq<string>)>, ghost vals: seq<Option<string>>, i: nat) returns (v: Option<string>)
    requires ValuesOf(files, vals) && i < |files|
    ensures v == vals[i]
  {
    assert ValueAt(files, vals, i);
    var (filename, lines) := files[i];
    v := None;
    if EndsWith(filename, ".txt") && filename != OutputName {
      if |lines| > 0 {
        var parts := Split(Strip(lines[0]));
        if |parts| > 1 {
          v := Some(Strip(parts[1]));
        }
      }
    }
  }

  /** `summarize_selects`: the lines written to the table, given the folder's files and their lines. */
  method SummarizeSelects(listing: seq<(string, seq<string>)>) returns (out: seq<string>)
    ensures out == Table(listing)
  {
    var sorted := SortByName(listing);
    FileValuesOf(sorted);
    out := WriteRows(sorted, FileValues(sorted));
  }

  /** The loop of `summarize_selects` over the files in name order. */
  method WriteRows(sorted: seq<(string, seq<string>)>, ghost vals: seq<Option<string>>) returns (out: seq<string>)
    requires ValuesOf(sorted, vals)
    ensures out == [Header] + Rows(Contributions(vals, |vals|))
  {
    out := [Header];
    var index := 0;
    ghost var vs: seq<string> := [];
    for i := 0 to |sorted|
      invariant vs == Contributions(vals, i)
      invariant index == |vs|
      invariant out == [Header] + Rows(vs)
    {
      var v := ReadValue(sorted, vals, i);
      if v.Some? {
        RowsSnoc(vs, v.value);
        AppendRow([Header], Rows(vs), RowOf((index, v.value)));
        out := out + [RowOf((index, v.value))];
        index := index + 1;
        vs := vs + [v.value];
      }
    }
  }

  /**
   * The rows are one per contributing position, in order: row `k` is
   * numbered `k` and carries the value of the `k`-th contributor; skipped
   * files take no number.
   */
  lemma TableRows(vals: seq<Option<string>>)
    ensures var c := Contributors(vals, |vals|);
      && |Rows(Contributions(vals, |vals|))| == |c|
      && forall k :: 0 <= k < |c| ==> Rows(Contributions(vals, |vals|))[k] == Str(k) + "," + vals[c[k]].value + "\n"
  {
    var c := Contributors(vals, |vals|);
    ContributionsAre(vals, |vals|);
    var vs := Values(vals, c);
    forall k | 0 <= k < |c|
      ensures Rows(vs)[k] == Str(k) + "," + vals[c[k]].value + "\n"
    {
      assert Numbered(vs)[k] == (k, vals[c[k]].value);
      assert Map(RowOf, Numbered(vs))[k] == RowOf(Numbered(vs)[k]);
    }
  }
}
