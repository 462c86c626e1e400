/** Per-symbol market telemetry: the (time, price, open interest) samples the
    time-series query returns, ordered by time ascending. */
module Series {
  import opened Sequences

  /** Ticker identifier, the key of every per-symbol map. */
  type Symbol = string

  /** One row of the time-series table: mark price and open interest at `time`. */
  datatype Sample = Sample(time: int, price: real, oi: real)

  /** The samples of one symbol, as one group of the grouped query result. */
  datatype SymbolSeries = SymbolSeries(symbol: Symbol, points: seq<Sample>)

  /** Samples are in non-decreasing time order, as the query's ORDER BY delivers them. */
  predicate Chronological(p: seq<Sample>)
  {
    forall i, j :: 0 <= i < j < |p| ==> p[i].time <= p[j].time
  }

  /** The most recent sample (`iloc[-1]`). */
  function Latest(p: seq<Sample>): Sample
    requires |p| > 0
  {
    p[|p| - 1]
  }

  /** The smallest open interest over the whole series (the column's `min()`). */
  function MinOi(p: seq<Sample>): (m: real)
    requires |p| > 0
    ensures forall i :: 0 <= i < |p| ==> m <= p[i].oi
    ensures exists i :: 0 <= i < |p| && m == p[i].oi
  {
    if |p| == 1 then p[0].oi
    else
      var rest := MinOi(p[1..]);
      assert forall i :: 1 <= i < |p| ==> p[i] == p[1..][i - 1];
      if p[0].oi <= rest then p[0].oi else rest
  }

  /** Selecting samples by position never breaks time order. */
  lemma {:induction false} SubseqChronological(a: seq<Sample>, b: seq<Sample>)
    requires Subseq(a, b) && Chronological(b)
    ensures Chronological(a)
    decreases |b|
  {
    if |a| > 0 && |b| > 0 {
      if a[0] == b[0] {
        SubseqChronological(a[1..], b[1..]);
        SubseqMembers(a[1..], b[1..]);
        forall i, j | 0 <= i < j < |a|
          ensures a[i].time <= a[j].time
        {
          assert a[j] == a[1..][j - 1];
          if i == 0 {
            assert a[j] in b[1..];
            var k :| 0 <= k < |b[1..]| && b[1..][k] == a[j];
            assert b[k + 1] == a[j];
          } else {
            assert a[i] == a[1..][i - 1];
          }
        }
      } else {
        SubseqChronological(a, b[1..]);
      }
    }
  }
}
