/** The intensity ranking: one entry per symbol with enough samples, holding
    the notional open-interest growth, the market capitalisation and the
    intensity (growth normalised by capitalisation, or a damped proxy). */
module Ranking {
  import opened Wrappers
  import opened Sequences
  import opened Series
  import opened Supply

  /** Weight of the open-interest-relative proxy used when no capitalisation
      is known. */
  const DampingFactor: real := 0.1

  /** One row of the ranking. `growth` is the notional open-interest increase
      (`oi_growth_usd`); `marketCap` is 0 when none is known. */
  datatype Entry = Entry(symbol: Symbol, intensity: real, growth: real, marketCap: real)

  /** `a / b`, with 0 for a zero divisor. The dynamic-cap branch divides by
      supply * price, which is 0 only for a zero last price. */
  function Ratio(a: real, b: real): real
  {
    if b == 0.0 then 0.0 else a / b
  }

  /** `oi_growth_tokens`: the increase from the series' lowest open interest
      to the latest one. Never negative. */
  function OiGrowthTokens(p: seq<Sample>): (d: real)
    requires |p| > 0
    ensures d >= 0.0
    ensures exists i :: 0 <= i < |p| && IsLowestOi(p, i) && d == Latest(p).oi - p[i].oi
  {
    LowestOiExists(p);
    Latest(p).oi - MinOi(p)
  }

  /** The series minimum is attained at some position, and the latest open
      interest is not below it. */
  lemma LowestOiExists(p: seq<Sample>)
    requires |p| > 0
    ensures exists i :: 0 <= i < |p| && IsLowestOi(p, i) && MinOi(p) == p[i].oi
    ensures Latest(p).oi - MinOi(p) >= 0.0
  {
    var i :| 0 <= i < |p| && MinOi(p) == p[i].oi;
    forall j | 0 <= j < |p|
      ensures p[i].oi <= p[j].oi
    {
      assert MinOi(p) <= p[j].oi;
    }
    assert IsLowestOi(p, i);
    assert MinOi(p) <= p[|p| - 1].oi;
  }

  /** Position `i` holds the smallest open interest of the series. */
  predicate IsLowestOi(p: seq<Sample>, i: int)
    requires 0 <= i < |p|
  {
    forall j :: 0 <= j < |p| ==> p[i].oi <= p[j].oi
  }

  /** `oi_growth_usd`: the open-interest increase valued at the latest price.
      Never negative when that price is not. */
  function OiGrowthUsd(p: seq<Sample>): (g: real)
    requires |p| > 0
    ensures Latest(p).price >= 0.0 ==> g >= 0.0
  {
    OiGrowthTokens(p) * Latest(p).price
  }

  /** The market capitalisation recorded for a symbol whose last price is `price`. */
  function MarketCapOf(c: Capitalisation, price: real): real
  {
    match c
    case Dynamic(supply) => supply * price
    case Stored(cap) => cap
    case Unknown => 0.0
  }

  /** The intensity of a symbol: growth over the cap when one is known,
      otherwise the damped relative open-interest growth, otherwise 0. */
  function IntensityOf(c: Capitalisation, growth: real, price: real, lo: real, tokens: real): real
  {
    match c
    case Unknown => if lo > 0.0 then (tokens / lo) * DampingFactor else 0.0
    case _ => Ratio(growth, MarketCapOf(c, price))
  }

  /** The ranking entry of one symbol's series, or None when the series has
      fewer than two samples. */
  function ComputeEntry(item: SymbolSeries, info: Option<SupplyRecord>): (r: Option<Entry>)
    ensures r.Some? <==> |item.points| >= 2
    ensures r.Some? ==> r.value.symbol == item.symbol
  {
    var p := item.points;
    if |p| < 2 then None
    else
      var price := Latest(p).price;
      var c := Capitalise(info);
      var growth := OiGrowthUsd(p);
      Some(Entry(item.symbol, IntensityOf(c, growth, price, MinOi(p), OiGrowthTokens(p)), growth, MarketCapOf(c, price)))
  }

  /** The growth of an entry is the open-interest increase over the series'
      floor, valued at the latest price. */
  lemma GrowthIsNotionalIncrease(item: SymbolSeries, info: Option<SupplyRecord>)
    requires |item.points| >= 2
    ensures var e := ComputeEntry(item, info).value;
      && e.growth == OiGrowthTokens(item.points) * Latest(item.points).price
      && (Latest(item.points).price >= 0.0 ==> e.growth >= 0.0)
  {
  }

  /** Market capitalisation in strict priority order: a positive supply
      (valued at the latest price), else a positive stored cap, else 0. */
  lemma MarketCapPriority(item: SymbolSeries, info: Option<SupplyRecord>)
    requires |item.points| >= 2
    ensures var e := ComputeEntry(item, info).value;
      var price := Latest(item.points).price;
      && (SupplyOf(info) > 0.0 ==> e.marketCap == SupplyOf(info) * price)
      && (SupplyOf(info) <= 0.0 && StoredCapOf(info) > 0.0 ==> e.marketCap == StoredCapOf(info))
      && (SupplyOf(info) <= 0.0 && StoredCapOf(info) <= 0.0 ==> e.marketCap == 0.0)
  {
  }

  /** Intensity: the growth over the cap when a cap is in use, otherwise the
      damped relative growth when the floor is positive, otherwise 0. */
  lemma IntensityByCase(item: SymbolSeries, info: Option<SupplyRecord>)
    requires |item.points| >= 2
    ensures var e := ComputeEntry(item, info).value;
      var lo := MinOi(item.points);
      var unknown := SupplyOf(info) <= 0.0 && StoredCapOf(info) <= 0.0;
      && (e.marketCap != 0.0 ==> e.intensity == e.growth / e.marketCap)
      && (unknown && lo > 0.0 ==> e.intensity == ((Latest(item.points).oi - lo) / lo) * DampingFactor)
      && (unknown && lo <= 0.0 ==> e.intensity == 0.0)
  {
  }

  /** The intensity rule that branches on a positive market cap: normalise by it
      when it is positive, otherwise fall back to the damped proxy, otherwise 0. */
  function ReferenceIntensity(growth: real, marketCap: real, lo: real, cur: real): real
  {
    if marketCap > 0.0 then growth / marketCap
    else if lo > 0.0 then ((cur - lo) / lo) * DampingFactor
    else 0.0
  }

  /** For series whose last price is positive (every real quote), the code's
      branching on the supply agrees with branching on a positive cap,
      and the cap is never negative. */
  lemma IntensityMatchesReference(item: SymbolSeries, info: Option<SupplyRecord>)
    requires |item.points| >= 2 && Latest(item.points).price > 0.0
    ensures var e := ComputeEntry(item, info).value;
      && e.marketCap >= 0.0
      && e.intensity == ReferenceIntensity(e.growth, e.marketCap, MinOi(item.points), Latest(item.points).oi)
  {
  }

  /** A positive circulating supply decides the cap: the stored cap, whatever
      it holds, makes no difference. */
  lemma SupplyTakesPriority(item: SymbolSeries, supply: real, stored: Field)
    requires supply > 0.0
    ensures ComputeEntry(item, Some(SupplyRecord(Number(supply), stored)))
         == ComputeEntry(item, Some(SupplyRecord(Number(supply), Null)))
  {
  }

  /** A missing record, a NULL field, an unparseable field and a zero field
      all behave alike. */
  lemma AbsentFieldsActAsZero(item: SymbolSeries, f: Field, g: Field)
    requires f.Null? || f.Malformed? || f == Number(0.0)
    requires g.Null? || g.Malformed? || g == Number(0.0)
    ensures ComputeEntry(item, None) == ComputeEntry(item, Some(SupplyRecord(f, g)))
  {
  }

  /** The symbols of a ranking, in ranking order. */
  function EntrySymbols(r: seq<Entry>): seq<Symbol>
  {
    seq(|r|, j requires 0 <= j < |r| => r[j].symbol)
  }

  /** The symbols of the series map, in iteration order. */
  function ItemSymbols(items: seq<SymbolSeries>): seq<Symbol>
  {
    seq(|items|, j requires 0 <= j < |items| => items[j].symbol)
  }

  /** The entry the ranking loop computes for one series. */
  function EntryOf(item: SymbolSeries, registry: map<Symbol, SupplyRecord>): Option<Entry>
  {
    ComputeEntry(item, Lookup(registry, item.symbol))
  }

  /** The ranking loop: visits the series in iteration order and collects the
      entry of every symbol that has at least two samples. */
  function ComputeRankings(items: seq<SymbolSeries>, registry: map<Symbol, SupplyRecord>): (r: seq<Entry>)
    ensures |r| <= |items|
    ensures Subseq(EntrySymbols(r), ItemSymbols(items))
  {
    if |items| == 0 then []
    else
      var rest := ComputeRankings(items[1..], registry);
      assert ItemSymbols(items) == [items[0].symbol] + ItemSymbols(items[1..]);
      match EntryOf(items[0], registry)
      case None =>
        SubseqConsRight(items[0].symbol, EntrySymbols(rest), ItemSymbols(items[1..]));
        rest
      case Some(e) =>
        assert EntrySymbols([e] + rest) == [e.symbol] + EntrySymbols(rest);
        SubseqCons(e.symbol, EntrySymbols(rest), ItemSymbols(items[1..]));
        [e] + rest
  }

  /** `e` is the entry computed for `item`, which has at least two samples
      and the same symbol. */
  predicate ComputedFrom(e: Entry, item: SymbolSeries, registry: map<Symbol, SupplyRecord>)
  {
    |item.points| >= 2 && item.symbol == e.symbol && EntryOf(item, registry) == Some(e)
  }

  /** Every entry of the ranking is the entry of some series with at least
      two samples and the same symbol. */
  lemma {:induction false} RankedEntriesComeFromSeries(items: seq<SymbolSeries>, registry: map<Symbol, SupplyRecord>)
    ensures forall e :: e in ComputeRankings(items, registry) ==>
      exists i :: 0 <= i < |items| && ComputedFrom(e, items[i], registry)
  {
    if |items| > 0 {
      RankedEntriesComeFromSeries(items[1..], registry);
      var rest := ComputeRankings(items[1..], registry);
      forall e | e in ComputeRankings(items, registry)
        ensures exists i :: 0 <= i < |items| && ComputedFrom(e, items[i], registry)
      {
        if EntryOf(items[0], registry) == Some(e) {
          assert ComputedFrom(e, items[0], registry);
        } else {
          assert e in rest;
          var i :| 0 <= i < |items[1..]| && ComputedFrom(e, items[1..][i], registry);
          assert items[i + 1] == items[1..][i];
        }
      }
    }
  }

  /** Every series with at least two samples has its entry in the ranking. */
  lemma {:induction false} EligibleSeriesAreRanked(items: seq<SymbolSeries>, registry: map<Symbol, SupplyRecord>)
    ensures forall i :: 0 <= i < |items| && |items[i].points| >= 2 ==>
      EntryOf(items[i], registry).value in ComputeRankings(items, registry)
  {
    if |items| > 0 {
      EligibleSeriesAreRanked(items[1..], registry);
      var rest := ComputeRankings(items[1..], registry);
      assert forall e :: e in rest ==> e in ComputeRankings(items, registry);
      forall i | 0 <= i < |items| && |items[i].points| >= 2
        ensures EntryOf(items[i], registry).value in ComputeRankings(items, registry)
      {
        if i > 0 {
          assert items[i] == items[1..][i - 1];
        }
      }
    }
  }

  /** With distinct symbols in the series map (dictionary keys), the ranking
      holds at most one entry per symbol. */
  lemma OneEntryPerSymbol(items: seq<SymbolSeries>, registry: map<Symbol, SupplyRecord>)
    requires Distinct(ItemSymbols(items))
    ensures Distinct(EntrySymbols(ComputeRankings(items, registry)))
  {
    SubseqDistinct(EntrySymbols(ComputeRankings(items, registry)), ItemSymbols(items));
  }

  /** A symbol gets an entry exactly when its series has two or more samples. */
  lemma EntryIffEnoughSamples(items: seq<SymbolSeries>, registry: map<Symbol, SupplyRecord>, sym: Symbol)
    ensures (exists e :: e in ComputeRankings(items, registry) && e.symbol == sym)
        <==> (exists i :: 0 <= i < |items| && items[i].symbol == sym && |items[i].points| >= 2)
  {
    var r := ComputeRankings(items, registry);
    if exists e :: e in r && e.symbol == sym {
      EntryHasEnoughSamples(items, registry, sym);
    }
    if exists i :: 0 <= i < |items| && items[i].symbol == sym && |items[i].points| >= 2 {
      EnoughSamplesHasEntry(items, registry, sym);
    }
  }

  /** A ranked symbol has a series with enough samples. */
  lemma EntryHasEnoughSamples(items: seq<SymbolSeries>, registry: map<Symbol, SupplyRecord>, sym: Symbol)
    requires exists e :: e in ComputeRankings(items, registry) && e.symbol == sym
    ensures exists i :: 0 <= i < |items| && items[i].symbol == sym && |items[i].points| >= 2
  {
    var e :| e in ComputeRankings(items, registry) && e.symbol == sym;
    RankedEntriesComeFromSeries(items, registry);
    var i :| 0 <= i < |items| && ComputedFrom(e, items[i], registry);
  }

  /** A symbol with a series of enough samples is ranked. */
  lemma EnoughSamplesHasEntry(items: seq<SymbolSeries>, registry: map<Symbol, SupplyRecord>, sym: Symbol)
    requires exists i :: 0 <= i < |items| && items[i].symbol == sym && |items[i].points| >= 2
    ensures exists e :: e in ComputeRankings(items, registry) && e.symbol == sym
  {
    var i :| 0 <= i < |items| && items[i].symbol == sym && |items[i].points| >= 2;
    EligibleSeriesAreRanked(items, registry);
    var e := EntryOf(items[i], registry).value;
    assert e in ComputeRankings(items, registry) && e.symbol == sym;
  }

  /** A snapshot with no series yields an empty ranking. */
  lemma EmptyUniverseEmptyRanking(registry: map<Symbol, SupplyRecord>)
    ensures ComputeRankings([], registry) == []
  {
  }

  /** Two samples (price 10, oi 100) then (price 12, oi 150) with a supply of
      1000: growth 600, cap 12000, intensity 0.05. */
  lemma ScenarioWithSupply()
    ensures var item := SymbolSeries("X", [Sample(1, 10.0, 100.0), Sample(2, 12.0, 150.0)]);
      var e := ComputeEntry(item, Some(SupplyRecord(Number(1000.0), Null))).value;
      e.growth == 600.0 && e.marketCap == 12000.0 && e.intensity == 0.05
  {
    var p := [Sample(1, 10.0, 100.0), Sample(2, 12.0, 150.0)];
    assert MinOi(p) == 100.0 by { assert p[1..] == [Sample(2, 12.0, 150.0)]; }
  }

  /** The same series without a supply record: the damped proxy
      (50 / 100) * 0.1 = 0.05, and cap 0. */
  lemma ScenarioWithoutSupply()
    ensures var item := SymbolSeries("X", [Sample(1, 10.0, 100.0), Sample(2, 12.0, 150.0)]);
      var e := ComputeEntry(item, None).value;
      e.growth == 600.0 && e.marketCap == 0.0 && e.intensity == 0.05
  {
    var p := [Sample(1, 10.0, 100.0), Sample(2, 12.0, 150.0)];
    assert MinOi(p) == 100.0 by { assert p[1..] == [Sample(2, 12.0, 150.0)]; }
  }
}
