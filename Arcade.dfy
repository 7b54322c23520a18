// Definitions shared by the three real-time games: the difficulty setting,
// the high-score rule applied when a run ends, and strict overlap of
// axis-aligned extents used by every collision check.
module Arcade {

  datatype Option<T> = None | Some(value: T)

  /** The three difficulty settings of the selector; every game starts on Easy. */
  datatype Difficulty = Easy | Medium | Hard

  /** The high score after a run ends with `score`: replaced only when beaten. */
  function RecordHighScore(high: nat, score: nat): (r: nat)
    ensures r >= high && r >= score
    ensures r == high || r == score
    ensures score > high <==> r == score && r != high
  {
    if score > high then score else high
  }

  /** The high score after a series of completed runs, starting from the stored one. */
  function AfterRuns(high: nat, scores: seq<nat>): nat
    decreases |scores|
  {
    if scores == [] then high else AfterRuns(RecordHighScore(high, scores[0]), scores[1..])
  }

  /** The stored high score never falls below any completed run's score or the
      initial value, and it is always one of those values. */
  lemma {:induction false} AfterRunsIsBest(high: nat, scores: seq<nat>)
    ensures AfterRuns(high, scores) >= high
    ensures forall i :: 0 <= i < |scores| ==> AfterRuns(high, scores) >= scores[i]
    ensures AfterRuns(high, scores) == high || AfterRuns(high, scores) in scores
    decreases |scores|
  {
    if scores != [] {
      var h := RecordHighScore(high, scores[0]);
      AfterRunsIsBest(h, scores[1..]);
      forall i | 0 <= i < |scores|
        ensures AfterRuns(high, scores) >= scores[i]
      {
        if i > 0 { assert scores[i] == scores[1..][i - 1]; }
      }
      if AfterRuns(h, scores[1..]) in scores[1..] {
        var j :| 0 <= j < |scores[1..]| && scores[1..][j] == AfterRuns(h, scores[1..]);
        assert scores[j + 1] == AfterRuns(high, scores);
      }
    }
  }

  /** Open intervals (a, a + aw) and (b, b + bw) overlap: the strict test the
      games use on each axis, so extents that only touch do not overlap. */
  predicate Overlaps(a: real, aw: real, b: real, bw: real)
  {
    a < b + bw && a + aw > b
  }

  function Max(a: real, b: real): real { if a >= b then a else b }
  function Min(a: real, b: real): real { if a <= b then a else b }

  /** Length of the common part of [a, a + aw] and [b, b + bw] (negative when apart). */
  function CommonLength(a: real, aw: real, b: real, bw: real): real
  {
    Min(a + aw, b + bw) - Max(a, b)
  }

  /** For extents of positive width, the strict test holds exactly when the
      common part has positive length: touching edges (length 0) do not count. */
  lemma OverlapsIffPositiveCommon(a: real, aw: real, b: real, bw: real)
    requires aw > 0.0 && bw > 0.0
    ensures Overlaps(a, aw, b, bw) <==> CommonLength(a, aw, b, bw) > 0.0
  {
  }

  /** Rectangles that share only an edge do not overlap. */
  lemma TouchingDoesNotOverlap(a: real, aw: real, b: real, bw: real)
    requires a + aw == b || b + bw == a
    ensures !Overlaps(a, aw, b, bw)
  {
  }

  /** The elements of `s` that pass `keep`, in their original order: how
      both games drop what has left the canvas. */
  function Filter<T(!new)>(s: seq<T>, keep: T -> bool): (r: seq<T>)
    ensures |r| <= |s|
    ensures forall x :: x in r <==> x in s && keep(x)
  {
    if s == [] then []
    else (if keep(s[0]) then [s[0]] else []) + Filter(s[1..], keep)
  }

  /** Filtering works element by element, so it keeps the relative order. */
  lemma {:induction false} FilterKeepsOrder<T(!new)>(a: seq<T>, b: seq<T>, keep: T -> bool)
    ensures Filter(a + b, keep) == Filter(a, keep) + Filter(b, keep)
  {
    if a != [] {
      assert (a + b)[0] == a[0];
      assert (a + b)[1..] == a[1..] + b;
      FilterKeepsOrder(a[1..], b, keep);
    } else {
      assert a + b == b;
    }
  }
}
