/**
 * The per-video filters of the tracking data (filter_updated.py): a video's
 * tracked positions, frame by frame, are turned into `x,y,j` location
 * files, the frames that also track the target are picked out, and the
 * tracked ball's crossings of the screen's horizontal midline are counted
 * into the `select.txt` line.
 */
module Frames {
  import opened Wrappers
  import opened PyText

  /** One tracked object's position in a frame. */
  datatype Loc = Loc(x: int, y: int)

  /**
   * The decoded JSON of one video: the metadata, and for key `str(j)` the
   * list of objects of frame `j` (frame `j` is missing when `j >= |frames|`).
   */
  datatype Video = Video(numBalls: int, duration: real, fps: real, frames: seq<seq<Loc>>)

  /** Half the 1080-pixel frame height. */
  const Midline: int := 540

  /** `int(r)` on a float: truncation toward zero. */
  function Trunc(r: real): (n: int)
    ensures 0.0 <= r ==> 0 <= n && n as real <= r < n as real + 1.0
    ensures r < 0.0 ==> n <= 0 && n as real - 1.0 < r <= n as real
  {
    if r >= 0.0 then r.Floor else -((-r).Floor)
  }

  /** `int(duration) * int(fps)`. */
  function NumFrames(v: Video): int {
    Trunc(v.duration) * Trunc(v.fps)
  }

  /** The length of `range(num_frames)`. */
  function FrameRange(v: Video): nat {
    if NumFrames(v) > 0 then NumFrames(v) else 0
  }

  /** The line `f"{x},{y},{j}\n"`. */
  function LocLine(l: Loc, j: int): string {
    Str(l.x) + "," + Str(l.y) + "," + Str(j) + "\n"
  }

  /** A location line reads back, field by field, as the position and the frame. */
  lemma LocLineReadsBack(l: Loc, j: int)
    ensures Split(LocLine(l, j)) == [Str(l.x), Str(l.y), Str(j) + "\n"]
    ensures ParseInt(Str(l.x)) == Some(l.x) && ParseInt(Str(l.y)) == Some(l.y)
    ensures ParseInt(Str(j) + "\n") == Some(j)
  {
    var a, b, c := Str(l.x), Str(l.y), Str(j) + "\n";
    StrShape(l.x);
    StrShape(l.y);
    StrShape(j);
    LocLineFields(a, b, Str(j));
    assert ',' !in c;
    assert LocLine(l, j) == a + "," + (b + "," + c);
    SplitNoComma(c);
    SplitField(b, c);
    assert Split(b + "," + c) == [b, c];
    SplitField(a, b + "," + c);
    assert [a] + [b, c] == [a, b, c];
    StrRoundTrip(l.x);
    StrRoundTrip(l.y);
    StrLineRoundTrip(j);
  }

  /** The f-string regrouped as the first field, a comma, and the rest. */
  lemma LocLineFields(a: string, b: string, c: string)
    ensures a + "," + b + "," + c + "\n" == a + "," + (b + "," + (c + "\n"))
  {
    Assoc(a + "," + b + ",", c, "\n");
    Assoc(a + ",", b, ",");
    Assoc(a + ",", b + ",", c + "\n");
    Assoc(b, ",", c + "\n");
  }

  lemma Assoc(x: string, y: string, z: string)
    ensures x + y + z == x + (y + z)
  {
  }

  /** The last field of a line, newline included, still reads back as its number. */
  lemma StrLineRoundTrip(n: int)
    ensures ParseInt(Str(n) + "\n") == Some(n)
  {
    StrShape(n);
    StripPadded("", Str(n), "\n");
    assert "" + Str(n) + "\n" == Str(n) + "\n";
    StripTrimmed(Str(n));
    StrRoundTrip(n);
  }

  /** `str(n)` is non-empty and holds neither commas nor whitespace. */
  lemma StrShape(n: int)
    ensures Str(n) != [] && ',' !in Str(n)
    ensures forall i :: 0 <= i < |Str(n)| ==> !IsSpace(Str(n)[i])
  {
    var d := NatStr(if n < 0 then -n else n);
    assert forall i :: 0 <= i < |d| ==> IsDigit(d[i]);
    if n < 0 {
      assert Str(n) == "-" + d;
      assert forall i :: 1 <= i < |Str(n)| ==> Str(n)[i] == d[i - 1];
    }
  }

  // ---------------------------------------------------------------------
  // filter (filter_updated.py:21-36)

  /** The file of ball `i`. */
  function BallFile(i: nat): string {
    "ball_" + Str(i) + ".txt"
  }

  /** A position together with the frame it was read from. */
  function LineOf(p: (Loc, int)): string {
    LocLine(p.0, p.1)
  }

  /** Ball `i`'s position in each of the first `n` frames. */
  function BallTrack(frames: seq<seq<Loc>>, i: nat, n: nat): (t: seq<(Loc, int)>)
    requires n <= |frames| && forall j :: 0 <= j < n ==> i < |frames[j]|
    ensures |t| == n && forall j :: 0 <= j < n ==> t[j] == (frames[j][i], j)
  {
    seq(n, j requires 0 <= j < n => (frames[j][i], j))
  }

  /** The lines of ball `i`'s file. */
  function BallLines(frames: seq<seq<Loc>>, i: nat, n: nat): seq<string>
    requires n <= |frames| && forall j :: 0 <= j < n ==> i < |frames[j]|
  {
    Map(LineOf, BallTrack(frames, i, n))
  }

  /** Every position `filter` reads exists: ball `i < num_balls` of every frame `j < num_frames`. */
  predicate FilterReadsAll(v: Video) {
    v.numBalls <= 0 || FrameRange(v) == 0
    || (FrameRange(v) <= |v.frames| && forall j :: 0 <= j < FrameRange(v) ==> v.numBalls <= |v.frames[j]|)
  }

  /**
   * The exception of the first failing read in ball-major order: ball 0
   * fails first, at an empty frame or else at the first missing frame;
   * once ball 0 is through, every frame exists and a later ball fails at a
   * short frame.
   */
  function FilterError(v: Video): PyError {
    if ShortFrame(v.frames, 0, FrameRange(v)) then IndexError
    else if FrameRange(v) > |v.frames| then KeyError
    else IndexError
  }

  /** Some frame among the first `n` is missing ball `i`. */
  predicate ShortFrame(frames: seq<seq<Loc>>, i: nat, n: nat) {
    exists j :: 0 <= j < n && j < |frames| && |frames[j]| <= i
  }

  /** One ball's file, or the exception its first failing read raises. */
  method WriteBall(frames: seq<seq<Loc>>, i: nat, n: nat) returns (r: Result<seq<string>>)
    ensures r.Ok? <==> n <= |frames| && forall j :: 0 <= j < n ==> i < |frames[j]|
    ensures r.Ok? ==> r.value == BallLines(frames, i, n)
    ensures r.Err? ==> r.error == if ShortFrame(frames, i, n) then IndexError else KeyError
  {
    var lines: seq<string> := [];
    for j := 0 to n
      invariant j <= |frames| && forall k :: 0 <= k < j ==> i < |frames[k]|
      invariant lines == BallLines(frames, i, j)
    {
      if j >= |frames| {
        assert !ShortFrame(frames, i, n);
        return Err(KeyError);
      }
      if i >= |frames[j]| {
        assert ShortFrame(frames, i, n) by {
          assert 0 <= j < n && j < |frames| && |frames[j]| <= i;
        }
        return Err(IndexError);
      }
      assert BallTrack(frames, i, j + 1) == BallTrack(frames, i, j) + [(frames[j][i], j)];
      MapSnoc(LineOf, BallTrack(frames, i, j), (frames[j][i], j));
      lines := lines + [LocLine(frames[j][i], j)];
    }
    r := Ok(lines);
  }

  /** `filter`: one location file per ball, with one line per frame. */
  method Filter(v: Video) returns (r: Result<seq<(string, seq<string>)>>)
    ensures r.Ok? <==> FilterReadsAll(v)
    ensures r.Ok? ==> |r.value| == (if v.numBalls > 0 then v.numBalls else 0)
    ensures r.Ok? ==> forall i :: 0 <= i < |r.value| ==>
      r.value[i] == (BallFile(i), BallLines(v.frames, i, FrameRange(v)))
    ensures r.Err? ==> r.error == FilterError(v)
  {
    var n := FrameRange(v);
    var files: seq<(string, seq<string>)> := [];
    var i := 0;
    while i < v.numBalls
      invariant 0 <= i && (v.numBalls > 0 ==> i <= v.numBalls) && (v.numBalls <= 0 ==> i == 0)
      invariant |files| == i
      invariant i > 0 ==> n <= |v.frames| && forall j :: 0 <= j < n ==> i <= |v.frames[j]|
      invariant forall k :: 0 <= k < i ==> files[k] == (BallFile(k), BallLines(v.frames, k, n))
    {
      var lines := WriteBall(v.frames, i, n);
      if lines.Err? {
        if i > 0 {
          assert !ShortFrame(v.frames, 0, n);
        }
        return Err(lines.error);
      }
      files := files + [(BallFile(i), lines.value)];
      i := i + 1;
    }
    r := Ok(files);
  }

  // ---------------------------------------------------------------------
  // The frames that track the target (filter_updated.py:38-56, 72-80)

  /** The frames among the first `n` that hold exactly `len` objects, in increasing order. */
  function Emitted(frames: seq<seq<Loc>>, len: int, n: nat): (e: seq<nat>)
    requires n <= |frames|
    ensures forall k :: 0 <= k < |e| ==> e[k] < n && |frames[e[k]]| == len
  {
    if n == 0 then []
    else if |frames[n - 1]| == len then Emitted(frames, len, n - 1) + [n - 1]
    else Emitted(frames, len, n - 1)
  }

  /** Every frame of the right length is among them, and they come in increasing order. */
  lemma {:induction false} EmittedComplete(frames: seq<seq<Loc>>, len: int, n: nat)
    requires n <= |frames|
    ensures forall j :: 0 <= j < n && |frames[j]| == len ==> j in Emitted(frames, len, n)
    ensures forall k, l :: 0 <= k < l < |Emitted(frames, len, n)| ==> Emitted(frames, len, n)[k] < Emitted(frames, len, n)[l]
  {
    if n > 0 {
      EmittedComplete(frames, len, n - 1);
    }
  }

  /** `target_filter` finds every frame it looks at and never indexes an empty frame at -1. */
  predicate TargetReadsAll(v: Video) {
    FrameRange(v) <= |v.frames|
    && (v.numBalls == -1 ==> forall j :: 0 <= j < FrameRange(v) ==> |v.frames[j]| != 0)
  }

  /** The target's position (object `nb`) in each frame of `e`, with the frame's number. */
  function TargetTrack(frames: seq<seq<Loc>>, nb: nat, e: seq<nat>): (t: seq<(Loc, int)>)
    requires forall k :: 0 <= k < |e| ==> e[k] < |frames| && nb < |frames[e[k]]|
    ensures |t| == |e| && forall k :: 0 <= k < |e| ==> t[k] == (frames[e[k]][nb], e[k] as int)
  {
    seq(|e|, k requires 0 <= k < |e| => (frames[e[k]][nb], e[k] as int))
  }

  /**
   * `target.txt`: the target's position (object `num_balls`, the last one)
   * in every frame that holds it; no file when there is no such frame.
   */
  function TargetFile(v: Video): (r: Option<seq<string>>)
    requires TargetReadsAll(v)
    ensures r.None? <==> forall j :: 0 <= j < FrameRange(v) ==> |v.frames[j]| != v.numBalls + 1
  {
    var e := Emitted(v.frames, v.numBalls + 1, FrameRange(v));
    EmittedComplete(v.frames, v.numBalls + 1, FrameRange(v));
    if e == [] then None
    else
      assert |v.frames[e[0]]| == v.numBalls + 1;
      Some(Map(LineOf, TargetTrack(v.frames, v.numBalls, e)))
  }

  /** `target_filter`. */
  method TargetFilter(v: Video) returns (r: Result<Option<seq<string>>>)
    ensures r.Ok? <==> TargetReadsAll(v)
    ensures r.Ok? ==> r.value == TargetFile(v)
    ensures r.Err? ==> r.error == if v.numBalls == -1 && ShortFrame(v.frames, 0, FrameRange(v)) then IndexError else KeyError
  {
    var n := FrameRange(v);
    var nb := v.numBalls;
    var lines: seq<string> := [];
    ghost var e: seq<nat> := [];
    for j := 0 to n
      invariant j <= |v.frames|
      invariant nb == -1 ==> forall k :: 0 <= k < j ==> |v.frames[k]| != 0
      invariant e == Emitted(v.frames, nb + 1, j)
      invariant nb < 0 ==> e == [] && lines == []
      invariant nb >= 0 ==> lines == Map(LineOf, TargetTrack(v.frames, nb, e))
    {
      if j >= |v.frames| {
        assert !(nb == -1 && ShortFrame(v.frames, 0, n));
        return Err(KeyError);
      }
      var frame := v.frames[j];
      if |frame| == nb + 1 {
        if nb < 0 {
          assert ShortFrame(v.frames, 0, n) by {
            assert 0 <= j < n && j < |v.frames| && |v.frames[j]| <= 0;
          }
          return Err(IndexError);
        }
        assert TargetTrack(v.frames, nb, e + [j]) == TargetTrack(v.frames, nb, e) + [(frame[nb], j)];
        MapSnoc(LineOf, TargetTrack(v.frames, nb, e), (frame[nb], j));
        lines := lines + [LocLine(frame[nb], j)];
        e := e + [j];
      }
    }
    if lines == [] {
      r := Ok(None);
    } else {
      r := Ok(Some(lines));
    }
  }

  // ---------------------------------------------------------------------
  // pass_counter (filter_updated.py:153-167)

  /** The heights `a` and `b` lie strictly on opposite sides of the midline. */
  predicate Crosses(a: int, b: int) {
    (a - Midline) * (b - Midline) < 0
  }

  /** The indices `j` where the ball is on the other side of the midline in frame `j + 1`. */
  function Crossings(ys: seq<int>): (r: seq<nat>)
    ensures forall k :: 0 <= k < |r| ==> r[k] < |ys| - 1
  {
    if |ys| < 2 then []
    else if Crosses(ys[|ys| - 2], ys[|ys| - 1]) then Crossings(ys[..|ys| - 1]) + [|ys| - 2]
    else Crossings(ys[..|ys| - 1])
  }

  /**
   * `j` is a crossing exactly when the heights of frames `j` and `j + 1`
   * lie strictly on opposite sides; the crossings are increasing and
   * below the last frame.
   */
  lemma {:induction false} CrossingsSpec(ys: seq<int>)
    ensures forall j: nat :: j in Crossings(ys) <==> j < |ys| - 1 && Crosses(ys[j], ys[j + 1])
    ensures forall k, l :: 0 <= k < l < |Crossings(ys)| ==> Crossings(ys)[k] < Crossings(ys)[l]
    ensures forall k :: 0 <= k < |Crossings(ys)| ==> Crossings(ys)[k] < |ys| - 1
  {
    if |ys| >= 2 {
      var init := ys[..|ys| - 1];
      CrossingsSpec(init);
      assert forall j :: 0 <= j < |init| ==> init[j] == ys[j];
      var last: seq<nat> := if Crosses(ys[|ys| - 2], ys[|ys| - 1]) then [|ys| - 2] else [];
      assert Crossings(ys) == Crossings(init) + last;
      forall j: nat
        ensures j in Crossings(ys) <==> j < |ys| - 1 && Crosses(ys[j], ys[j + 1])
      {
        assert j in Crossings(ys) <==> j in Crossings(init) || j in last;
        assert j in Crossings(init) <==> j < |init| - 1 && Crosses(init[j], init[j + 1]);
      }
    } else {
      assert Crossings(ys) == [];
    }
  }

  /** There are fewer crossings than gaps between frames. */
  lemma {:induction false} CrossingsBound(ys: seq<int>)
    ensures |ys| >= 1 ==> |Crossings(ys)| <= |ys| - 1
  {
    if |ys| >= 2 {
      CrossingsBound(ys[..|ys| - 1]);
    }
  }

  /** A position exactly on the midline crosses neither to the previous nor to the next frame. */
  lemma OnMidline(ys: seq<int>, j: nat)
    requires j < |ys| && ys[j] == Midline
    ensures j !in Crossings(ys) && (j > 0 ==> j - 1 !in Crossings(ys))
  {
    CrossingsSpec(ys);
  }

  lemma CrossingsExample()
    ensures Crossings([400, 600, 400]) == [0, 1]
  {
    assert [400, 600, 400][..2] == [400, 600];
    assert [400, 600][..1] == [400];
  }

  /** The tracked ball's height in the first `n` frames; `idx` is already made non-negative. */
  function Heights(frames: seq<seq<Loc>>, idx: nat, n: nat): seq<int>
    requires n <= |frames| && forall j :: 0 <= j < n ==> idx < |frames[j]|
  {
    seq(n, j requires 0 <= j < n => frames[j][idx].y)
  }

  /**
   * What `pass_counter(data, idx)` returns or raises.  Building the
   * `num_frames` x `num_balls` array reads every frame only when there are
   * balls; numpy then raises IndexError for a ball index outside
   * `[-num_balls, num_balls)`, or for any index into the two-dimensional
   * array built when there are no balls, as soon as there is a second frame.
   */
  function PassCount(v: Video, idx: int): (r: Result<seq<nat>>)
    ensures r.Ok? && FrameRange(v) >= 1 ==> |r.value| <= FrameRange(v) - 1
    ensures r.Ok? && FrameRange(v) <= 1 ==> r.value == []
  {
    var nb, n := v.numBalls, FrameRange(v);
    if nb > 0 && ShortFrame(v.frames, nb - 1, n) then Err(IndexError)
    else if nb > 0 && n > |v.frames| then Err(KeyError)
    else if n <= 1 then Ok([])
    else if nb <= 0 || idx < -nb || nb <= idx then Err(IndexError)
    else
      var ys := Heights(v.frames, if idx < 0 then idx + nb else idx, n);
      CrossingsBound(ys);
      Ok(Crossings(ys))
  }

  /** The rows `[data[str(j)][i]["loc"] for i in range(num_balls)]` of every frame, or the exception of the first failing read. */
  method ReadRows(v: Video) returns (r: Result<seq<seq<Loc>>>)
    ensures r.Ok? <==> !(v.numBalls > 0 && (ShortFrame(v.frames, v.numBalls - 1, FrameRange(v)) || FrameRange(v) > |v.frames|))
    ensures r.Err? ==> r.error == if ShortFrame(v.frames, v.numBalls - 1, FrameRange(v)) then IndexError else KeyError
    ensures r.Ok? ==> |r.value| == FrameRange(v) && forall j :: 0 <= j < FrameRange(v) ==>
      r.value[j] == if v.numBalls > 0 then v.frames[j][..v.numBalls] else []
  {
    var nb, n := v.numBalls, FrameRange(v);
    var locs: seq<seq<Loc>> := [];
    for j := 0 to n
      invariant |locs| == j
      invariant nb > 0 ==> j <= |v.frames| && forall k :: 0 <= k < j ==> nb <= |v.frames[k]|
      invariant nb > 0 ==> forall k :: 0 <= k < j ==> locs[k] == v.frames[k][..nb]
      invariant nb <= 0 ==> forall k :: 0 <= k < j ==> locs[k] == []
    {
      var row: seq<Loc> := [];
      if nb > 0 {
        if j >= |v.frames| {
          assert !ShortFrame(v.frames, nb - 1, n);
          return Err(KeyError);
        }
        if |v.frames[j]| < nb {
          assert ShortFrame(v.frames, nb - 1, n) by {
            assert 0 <= j < n && j < |v.frames| && |v.frames[j]| <= nb - 1;
          }
          return Err(IndexError);
        }
        row := v.frames[j][..nb];
      }
      locs := locs + [row];
    }
    assert nb > 0 ==> !ShortFrame(v.frames, nb - 1, n);
    r := Ok(locs);
  }

  /** The midline crossings of ball `ball` through the rows. */
  method CountPasses(locs: seq<seq<Loc>>, ball: nat, ghost ys: seq<int>) returns (passTs: seq<nat>)
    requires |locs| == |ys| && forall j :: 0 <= j < |locs| ==> ball < |locs[j]| && locs[j][ball].y == ys[j]
    ensures passTs == Crossings(ys)
  {
    passTs := [];
    if |locs| <= 1 {
      return;
    }
    for j := 0 to |locs| - 1
      invariant passTs == Crossings(ys[..j + 1])
    {
      assert ys[..j + 2][..j + 1] == ys[..j + 1];
      if Crosses(locs[j][ball].y, locs[j + 1][ball].y) {
        passTs := passTs + [j];
      }
    }
    assert ys[..|locs|] == ys;
  }

  /** `pass_counter`: the frames after which the tracked ball is on the other side of the midline. */
  method PassCounter(v: Video, idx: int) returns (r: Result<seq<nat>>)
    ensures r == PassCount(v, idx)
  {
    var nb, n := v.numBalls, FrameRange(v);
    var rows := ReadRows(v);
    if rows.Err? {
      return Err(rows.error);
    }
    var locs := rows.value;
    if n <= 1 {
      return Ok([]);
    }
    if nb <= 0 || idx < -nb || nb <= idx {
      return Err(IndexError);
    }
    var ball := if idx < 0 then idx + nb else idx;
    var passTs := CountPasses(locs, ball, Heights(v.frames, ball, n));
    r := Ok(passTs);
  }

  /** The `select.txt` line `f"{idx}, {len(pass_ts)}, {pass_ts}\n"`. */
  function SelectLine(idx: int, ts: seq<nat>): string {
    Str(idx) + ", " + Str(|ts|) + ", " + ListRepr(ts) + "\n"
  }

  /** `str()` of a list of integers: `[a, b, c]`. */
  function ListRepr(ts: seq<nat>): string {
    "[" + Items(ts) + "]"
  }

  function Items(ts: seq<nat>): string {
    if ts == [] then ""
    else if |ts| == 1 then Str(ts[0])
    else Str(ts[0]) + ", " + Items(ts[1..])
  }

  // ---------------------------------------------------------------------
  // ecc_filter (filter_updated.py:59-148)

  /**
   * What `ecc_filter` leaves behind: the frames it kept (those that also
   * hold the target), whether it wrote the distance statistics, and the
   * line of `select.txt`.
   */
  datatype EccOutput = EccOutput(kept: seq<seq<Loc>>, statistics: bool, select: string)

  /** `ecc_filter`, the statistics themselves aside. */
  method EccFilter(v: Video) returns (r: Result<EccOutput>)
    ensures FrameRange(v) > |v.frames| ==> r == Err(KeyError)
    ensures FrameRange(v) <= |v.frames| ==>
      var e := Emitted(v.frames, v.numBalls + 1, FrameRange(v));
      var pc := PassCount(v, v.numBalls - 1);
      r == if pc.Err? then Err(pc.error)
           else Ok(EccOutput(seq(|e|, k requires 0 <= k < |e| => v.frames[e[k]]),
                             |e| > 0 && v.numBalls + 1 > 0,
                             SelectLine(v.numBalls - 1, pc.value)))
  {
    var n := FrameRange(v);
    var nb := v.numBalls;
    var locs: seq<seq<Loc>> := [];
    ghost var e: seq<nat> := [];
    for j := 0 to n
      invariant j <= |v.frames|
      invariant e == Emitted(v.frames, nb + 1, j)
      invariant locs == seq(|e|, k requires 0 <= k < |e| => v.frames[e[k]])
    {
      if j >= |v.frames| {
        return Err(KeyError);
      }
      var frame := v.frames[j];
      if |frame| == nb + 1 {
        assert frame[..nb + 1] == frame;
        locs := locs + [frame[..nb + 1]];
        e := e + [j];
      }
    }
    var statistics := |locs| > 0 && nb + 1 > 0;
    var passTs := PassCounter(v, nb - 1);
    if passTs.Err? {
      return Err(passTs.error);
    }
    r := Ok(EccOutput(locs, statistics, SelectLine(nb - 1, passTs.value)));
  }
}
