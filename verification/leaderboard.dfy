/** The two leaderboards drawn from one ranking (intensity leaders and
    absolute-flow "whale" leaders) and the list of the other symbols. */
module Leaderboard {
  import opened Wrappers
  import opened Sequences
  import opened Series
  import opened Supply
  import opened Ranking
  import opened StableSort

  /** Length of each leaderboard. */
  const BoardSize: nat := 10

  /** The leading `BoardSize` elements (`[:10]`). */
  function Top(s: seq<Entry>): (r: seq<Entry>)
    ensures |r| == Min(BoardSize, |s|)
    ensures forall i :: 0 <= i < |r| ==> r[i] == s[i]
  {
    s[..Min(BoardSize, |s|)]
  }

  /** The two top lists the dashboard shows. */
  datatype Boards = Boards(strength: seq<Entry>, whales: seq<Entry>)

  /** Every entry left off the board has a key no larger than any key on it. */
  ghost predicate Dominates(board: seq<Entry>, others: multiset<Entry>, k: SortKey)
  {
    forall e, i :: e in others && 0 <= i < |board| ==> Key(e, k) <= Key(board[i], k)
  }

  /** The leaders of a sorted sequence dominate the rest of it. */
  lemma TopDominates(t: seq<Entry>, k: SortKey)
    requires Sorted(t, k)
    ensures Dominates(Top(t), multiset(t) - multiset(Top(t)), k)
  {
    var n := Min(BoardSize, |t|);
    SplitDifference(t, n);
    assert Top(t) == t[..n];
    forall e, i | e in multiset(t[n..]) && 0 <= i < n
      ensures Key(e, k) <= Key(t[..n][i], k)
    {
      var j :| 0 <= j < |t[n..]| && t[n..][j] == e;
      assert t[..n][i] == t[i] && t[n..][j] == t[n + j];
    }
  }

  /** What a prefix leaves of a sequence's multiset is the suffix's multiset. */
  lemma SplitDifference(t: seq<Entry>, n: nat)
    requires n <= |t|
    ensures multiset(t) - multiset(t[..n]) == multiset(t[n..])
  {
    assert t == t[..n] + t[n..];
  }

  /** The ranking is sorted by intensity; that order is then re-sorted by
      growth, and each view contributes its first `BoardSize` entries. */
  function Leaderboards(ranking: seq<Entry>): (b: Boards)
    ensures |b.strength| == Min(BoardSize, |ranking|)
    ensures |b.whales| == Min(BoardSize, |ranking|)
    ensures multiset(b.strength) <= multiset(ranking)
    ensures multiset(b.whales) <= multiset(ranking)
    ensures Sorted(b.strength, ByIntensity)
    ensures Sorted(b.whales, ByGrowth)
    ensures Dominates(b.strength, multiset(ranking) - multiset(b.strength), ByIntensity)
    ensures Dominates(b.whales, multiset(ranking) - multiset(b.whales), ByGrowth)
    ensures TieSorted(b.whales, ByGrowth, ByIntensity)
  {
    var byIntensity := SortDesc(ranking, ByIntensity);
    var byGrowth := SortDesc(byIntensity, ByGrowth);
    TopSortedPrefix(byIntensity, ByIntensity);
    TopSortedPrefix(byGrowth, ByGrowth);
    TopDominates(byIntensity, ByIntensity);
    TopDominates(byGrowth, ByGrowth);
    ResortKeepsTieOrder(byIntensity, ByGrowth, ByIntensity);
    assert TieSorted(Top(byGrowth), ByGrowth, ByIntensity) by {
      var w := Top(byGrowth);
      forall i, j | 0 <= i < j < |w| && Key(w[i], ByGrowth) == Key(w[j], ByGrowth)
        ensures Key(w[i], ByIntensity) >= Key(w[j], ByIntensity)
      {
        assert w[i] == byGrowth[i] && w[j] == byGrowth[j];
      }
    }
    Boards(Top(byIntensity), Top(byGrowth))
  }

  /** The boards are the first `BoardSize` entries of any stable descending
      sort by intensity and of any stable descending sort of that by growth:
      which tied entries make the cut, and in what order, is fixed. */
  lemma BoardsAreStablePrefixes(ranking: seq<Entry>, r1: seq<Entry>, r2: seq<Entry>)
    requires IsStableSortDesc(r1, ranking, ByIntensity) && IsStableSortDesc(r2, r1, ByGrowth)
    ensures Leaderboards(ranking) == Boards(Top(r1), Top(r2))
  {
    StableSortIsSortDesc(r1, ranking, ByIntensity);
    StableSortIsSortDesc(r2, r1, ByGrowth);
  }

  /** The leading part of a sorted sequence is sorted and a sub-multiset of it. */
  lemma TopSortedPrefix(t: seq<Entry>, k: SortKey)
    requires Sorted(t, k)
    ensures Sorted(Top(t), k)
    ensures multiset(Top(t)) <= multiset(t)
  {
    var n := Min(BoardSize, |t|);
    assert t == t[..n] + t[n..];
    forall i, j | 0 <= i < j < |Top(t)|
      ensures Key(Top(t)[i], k) >= Key(Top(t)[j], k)
    {
      assert Top(t)[i] == t[i] && Top(t)[j] == t[j];
    }
  }

  /** The whale board is the first `BoardSize` entries of the growth sort of
      the intensity sort: the second sort sees intensity order, and ties on
      growth keep it. */
  lemma WhalesFollowIntensityOrder(ranking: seq<Entry>, v: real)
    ensures var byIntensity := SortDesc(ranking, ByIntensity);
      KeyFilter(SortDesc(byIntensity, ByGrowth), ByGrowth, v) == KeyFilter(byIntensity, ByGrowth, v)
  {
    SortDescStable(SortDesc(ranking, ByIntensity), ByGrowth, v);
  }

  /** The symbols on either board (`shown`). */
  function Shown(b: Boards): (s: set<Symbol>)
    ensures forall e :: e in b.strength ==> e.symbol in s
    ensures forall e :: e in b.whales ==> e.symbol in s
    ensures forall x :: x in s ==> exists e :: (e in b.strength || e in b.whales) && e.symbol == x
  {
    (set e | e in b.strength :: e.symbol) + (set e | e in b.whales :: e.symbol)
  }

  /** `targets` without the symbols in `shown`, order kept (`remaining`). */
  function Remaining(targets: seq<Symbol>, shown: set<Symbol>): (r: seq<Symbol>)
    ensures forall x :: x in r <==> x in targets && x !in shown
    ensures Subseq(r, targets)
  {
    if |targets| == 0 then []
    else
      var rest := Remaining(targets[1..], shown);
      assert targets == [targets[0]] + targets[1..];
      if targets[0] in shown then
        SubseqConsRight(targets[0], rest, targets[1..]);
        rest
      else
        SubseqCons(targets[0], rest, targets[1..]);
        [targets[0]] + rest
  }

  /** A remaining symbol occurs as often as in the universe; a shown one
      not at all. */
  lemma {:induction false} RemainingCounts(targets: seq<Symbol>, shown: set<Symbol>, x: Symbol)
    ensures multiset(Remaining(targets, shown))[x] == if x in shown then 0 else multiset(targets)[x]
    decreases |targets|
  {
    if |targets| > 0 {
      RemainingCounts(targets[1..], shown, x);
      var rest := Remaining(targets[1..], shown);
      assert targets == [targets[0]] + targets[1..];
      assert multiset(targets)[x] == multiset([targets[0]])[x] + multiset(targets[1..])[x];
      if targets[0] !in shown {
        assert Remaining(targets, shown) == [targets[0]] + rest;
        assert multiset(Remaining(targets, shown))[x] == multiset([targets[0]])[x] + multiset(rest)[x];
      }
    }
  }

  /** One refresh cycle's input: the supply registry, the series in the
      map's iteration order, and the symbol universe in server order. */
  datatype Snapshot = Snapshot(registry: map<Symbol, SupplyRecord>, series: seq<SymbolSeries>, targets: seq<Symbol>)

  /** What the dashboard lays out: both boards and the remaining symbols. */
  datatype View = View(boards: Boards, remaining: seq<Symbol>)

  /** One refresh of the dashboard; None when there are no series at all
      (the page shows "no data" and stops). */
  function Refresh(snap: Snapshot): (v: Option<View>)
    ensures v.None? <==> |snap.series| == 0
    ensures v.Some? ==>
      var ranking := ComputeRankings(snap.series, snap.registry);
      && v.value.boards == Leaderboards(ranking)
      && (forall x :: x in v.value.remaining <==> x in snap.targets && x !in Shown(v.value.boards))
      && Subseq(v.value.remaining, snap.targets)
  {
    if |snap.series| == 0 then None
    else
      var boards := Leaderboards(ComputeRankings(snap.series, snap.registry));
      Some(View(boards, Remaining(snap.targets, Shown(boards))))
  }

  /** Every symbol of the universe is either on a board or in the remaining
      list, never both. */
  lemma RemainingPartitionsTargets(snap: Snapshot, x: Symbol)
    requires |snap.series| > 0 && x in snap.targets
    ensures var v := Refresh(snap).value;
      x in v.remaining <==> x !in Shown(v.boards)
  {
  }
}
