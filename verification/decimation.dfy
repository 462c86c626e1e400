/** Server-side decimation of a symbol's rows: ranked by recency (rank 1 is
    the newest row), only the newest `RowLimit` ranks are considered, and of
    those the newest row and every `SampleStep`-th rank are kept, returned in
    time-ascending order. */
module Decimation {
  import opened Sequences
  import opened Series

  /** Most recent rows considered per symbol (`DATA_LIMIT_RAW`). */
  const RowLimit: int := 4000

  /** Decimation stride over recency ranks (`SAMPLE_STEP`). */
  const SampleStep: int := 10

  /** The query's row filter on a recency rank. */
  predicate KeepRank(rn: int)
  {
    rn <= RowLimit && (rn == 1 || rn % SampleStep == 0)
  }

  /** The rows of `s` (oldest first, so the row at position i has recency
      rank |s| - i) whose rank passes the filter, oldest first. */
  function Decimate<T>(s: seq<T>): (r: seq<T>)
    ensures |r| == if |s| == 0 then 0 else 1 + Min(|s|, RowLimit) / SampleStep
    ensures |s| > 0 ==> r[|r| - 1] == s[|s| - 1]
    ensures Subseq(r, s)
    decreases |s|
  {
    if |s| == 0 then []
    else
      var rest := Decimate(s[1..]);
      CountStep(|s|);
      assert s == [s[0]] + s[1..];
      if KeepRank(|s|) then
        SubseqCons(s[0], rest, s[1..]);
        [s[0]] + rest
      else
        SubseqConsRight(s[0], rest, s[1..]);
        rest
  }

  /** Adding the next older row adds one kept row exactly when its rank
      passes the filter. */
  lemma CountStep(n: int)
    requires n >= 1
    ensures (if KeepRank(n) then 1 else 0) + (if n == 1 then 0 else 1 + Min(n - 1, RowLimit) / SampleStep)
         == 1 + Min(n, RowLimit) / SampleStep
  {
  }

  /** Every row whose rank passes the filter is kept. */
  lemma {:induction false} RankedRowsKept<T>(s: seq<T>)
    ensures forall i :: 0 <= i < |s| && KeepRank(|s| - i) ==> s[i] in Decimate(s)
    decreases |s|
  {
    if |s| > 0 {
      RankedRowsKept(s[1..]);
      var rest := Decimate(s[1..]);
      assert Decimate(s) == (if KeepRank(|s|) then [s[0]] else []) + rest;
      forall i | 1 <= i < |s| && KeepRank(|s| - i)
        ensures s[i] in Decimate(s)
      {
        assert s[i] == s[1..][i - 1] && |s| - i == |s[1..]| - (i - 1);
      }
    }
  }

  /** Every kept row is a row whose rank passes the filter. */
  lemma {:induction false} KeptRowsRanked<T>(s: seq<T>)
    ensures forall e :: e in Decimate(s) ==> exists i :: 0 <= i < |s| && KeepRank(|s| - i) && s[i] == e
    decreases |s|
  {
    if |s| > 0 {
      KeptRowsRanked(s[1..]);
      var rest := Decimate(s[1..]);
      assert Decimate(s) == (if KeepRank(|s|) then [s[0]] else []) + rest;
      forall e | e in Decimate(s)
        ensures exists i :: 0 <= i < |s| && KeepRank(|s| - i) && s[i] == e
      {
        if e in rest {
          var i :| 0 <= i < |s[1..]| && KeepRank(|s[1..]| - i) && s[1..][i] == e;
          assert s[i + 1] == e && |s| - (i + 1) == |s[1..]| - i;
        } else {
          assert KeepRank(|s| - 0) && s[0] == e;
        }
      }
    }
  }

  /** The decimated rows are still in time order. */
  lemma DecimateChronological(s: seq<Sample>)
    requires Chronological(s)
    ensures Chronological(Decimate(s))
  {
    SubseqChronological(Decimate(s), s);
  }

  /** However long the history, a symbol contributes at most
      1 + RowLimit / SampleStep rows. */
  lemma DecimateBounded<T>(s: seq<T>)
    ensures |Decimate(s)| <= 1 + RowLimit / SampleStep
  {
  }
}
