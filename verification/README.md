# Binance open-interest dashboard: ranking core

This project models the pure logic behind one refresh of a Streamlit dashboard
that ranks Binance perpetual contracts by open-interest (OI) growth. It then
proves properties of that model. The modelled logic is:

- **The ranking loop.** Every symbol whose time series has at least two
  samples gets one entry with three values:
  - `oi_growth_usd`: the rise of open interest from the series' minimum to
    its latest value, valued at the latest mark price;
  - a market capitalisation, chosen by a priority chain: a positive
    circulating supply times the price, else a positive stored cap, else 0;
  - an *intensity*: the growth divided by that cap, or, when no cap is
    known, the OI growth relative to the minimum damped by 0.1 (or 0 when
    the minimum is not positive).
- **The two leaderboards.** The entries are sorted stably in descending
  order of intensity, and the first ten form the strength board. That
  intensity-ordered list is sorted stably again by growth, and its first
  ten form the whale board.
- **The "other symbols" list.** The symbol universe, in server order,
  without the symbols shown on either board.
- **`downsample_data`.** Client-side thinning of a series before it is
  charted.
- **The row filter of the time-series query.** Rows are ranked by recency.
  Only ranks up to 4000 are kept, and of those only rank 1 and every tenth
  rank.

Modules:

- `Wrappers`: an `Option` type.
- `Sequences`: subsequences, distinctness and `Min`.
- `Series`: samples and series, time order, the OI minimum.
- `Supply`: supply-table fields, how they are parsed, the capitalisation
  priority chain.
- `Ranking`: the per-symbol entry and the ranking loop.
- `StableSort`: Python's `sort(key=..., reverse=True)`, modelled as an
  insertion sort.
- `Leaderboard`: the two top-ten boards, the shown set, the remaining list
  and one whole refresh.
- `Downsample`: `downsample_data`.
- `Decimation`: the query's row filter.

Prices, OI and caps are Dafny `real`s, so the arithmetic is exact. The series
map is an input sequence in the map's iteration order. The supply table is a
`map` from symbol to record. Each numeric field of a record is one of three
things:

- `Null`: NULL or any other falsy value;
- `Number`: a value `float()` accepts;
- `Malformed`: a value `float()` rejects.

Three behaviours of the code differ from what a reader might expect, and
the model follows the code in each:

- **Which value decides the intensity branch.** One could expect the branch
  to depend on whether the market cap is positive. The code
  (`streamlit_app.py:287`) tests whether the circulating supply is
  positive. The two rules agree whenever the last price is positive, and
  `Ranking.IntensityMatchesReference` proves this against the rule that
  branches on a positive market cap.
- **Whether thinning keeps the last point.** `downsample_data`
  (`streamlit_app.py:117`) returns `iloc[::step]` and appends nothing, so
  the last point can be lost:
  - `Downsample.DownsampleLastKept` states exactly when the last point
    survives;
  - `Downsample.DownsampleMayDropLast` gives an input where it does not.

  That takes a series of more than 1.5 × target points. The dashboard
  itself never produces one: the chart calls `downsample_data` with
  target 400 (`streamlit_app.py:228`), and a decimated series holds at
  most 401 rows. `Downsample.ChartSeriesNeverThinned` proves that the
  dashboard's chart series are returned unchanged.
- **How ties on growth are broken.** The two views are not independent
  sorts of the original order. The code (`streamlit_app.py:306-309`) sorts
  the same list in place twice, so the growth sort starts from intensity
  order. Entries with equal growth therefore appear in intensity order:
  - `Leaderboard.WhalesFollowIntensityOrder` states this;
  - `StableSort.ResortKeepsTieOrder` proves it.

## Model

| member | source | states |
|---|---|---|
| Series.MinOi | streamlit_app.py:272 | the series' minimum OI is at most every sample's OI and equals one of them |
| Series.SubseqChronological | streamlit_app.py:76 | keeping some rows of a time-ordered series, in order, gives a time-ordered series |
| Supply.Capitalise | streamlit_app.py:287-295 | the supply branch is taken only for a positive supply, and the stored-cap branch only for a positive stored cap |
| Ranking.LowestOiExists | streamlit_app.py:272-273 | some sample has the lowest OI and equals the minimum; the latest OI is never below the minimum |
| Ranking.OiGrowthTokens | streamlit_app.py:294 | the OI rise is never negative, and it equals the latest OI minus the OI at a lowest-OI sample |
| Ranking.OiGrowthUsd | streamlit_app.py:270-274 | the notional OI growth is never negative when the latest price is not |
| Ranking.ComputeEntry | streamlit_app.py:266-302 | a series gets an entry exactly when it has at least two samples; the entry carries the series' symbol |
| Ranking.GrowthIsNotionalIncrease | streamlit_app.py:270-274 | an entry's growth is the OI rise over the minimum times the latest price, and is never negative for a non-negative price |
| Ranking.MarketCapPriority | streamlit_app.py:276-293 | market cap, in strict priority: a positive supply times the latest price, else a positive stored cap, else 0 |
| Ranking.IntensityByCase | streamlit_app.py:286-295 | intensity: growth / cap when the cap is non-zero; (latest − min) / min × 0.1 when neither field is usable and min > 0; else 0 |
| Ranking.IntensityMatchesReference | streamlit_app.py:286-295 | for a positive latest price, the cap is non-negative and the intensity equals the rule that branches on cap > 0 |
| Ranking.SupplyTakesPriority | streamlit_app.py:287-289 | with a positive supply, the stored market cap has no effect on the entry |
| Ranking.AbsentFieldsActAsZero | streamlit_app.py:276-284 | no record, NULL fields, unparseable fields and zero fields all give the same entry |
| Ranking.ComputeRankings | streamlit_app.py:265-302 | the ranking has no more entries than there are series, and its symbols appear in series order |
| Ranking.RankedEntriesComeFromSeries | streamlit_app.py:265-302 | every entry of the ranking is the computed entry of some series with at least two samples and the same symbol |
| Ranking.EligibleSeriesAreRanked | streamlit_app.py:266-302 | every series with at least two samples has its computed entry in the ranking |
| Ranking.OneEntryPerSymbol | streamlit_app.py:266 | distinct symbols in the series map give distinct symbols in the ranking |
| Ranking.EntryIffEnoughSamples | streamlit_app.py:266-267 | a symbol is ranked if and only if some series of that symbol has two or more samples |
| Ranking.EntryHasEnoughSamples | streamlit_app.py:267 | a ranked symbol has a series with at least two samples |
| Ranking.EnoughSamplesHasEntry | streamlit_app.py:266-302 | a symbol with a series of at least two samples is ranked |
| Ranking.EmptyUniverseEmptyRanking | streamlit_app.py:265 | no series gives an empty ranking |
| Ranking.ScenarioWithSupply | streamlit_app.py:286-289 | prices 10→12, OI 100→150, supply 1000: growth 600, cap 12000, intensity 0.05 |
| Ranking.ScenarioWithoutSupply | streamlit_app.py:293-295 | the same series without a record: growth 600, cap 0, damped intensity 0.05 |
| StableSort.InsertPermutes | streamlit_app.py:306 | inserting into the sorted part is a permutation of the element and the part |
| StableSort.InsertSorted | streamlit_app.py:306 | inserting into a key-descending sequence keeps it key-descending |
| StableSort.SortDesc | streamlit_app.py:306 | the sort keeps the length, is a permutation of its input, and leaves the keys non-increasing |
| StableSort.InsertKeyFilter | streamlit_app.py:306 | insertion puts the element at the front of its own key class and changes no other class |
| StableSort.SortDescStable | streamlit_app.py:306 | for every key value, the elements with that key keep their input order (stability) |
| StableSort.SortDescIsStableSort | streamlit_app.py:306 | the sort meets the reference definition of a stable descending sort |
| StableSort.KeyFilterMembers | streamlit_app.py:306 | an element is in a key class exactly when it is in the sequence and has that key |
| StableSort.StableSortUnique | streamlit_app.py:306-309 | two key-sorted sequences with the same key classes are equal |
| StableSort.HeadsAgree | streamlit_app.py:306-309 | two key-sorted sequences with the same key classes start with the same element |
| StableSort.StableSortIsSortDesc | streamlit_app.py:306-309 | every stable descending sort of a list equals the model's sort, so the boards are determined by the ranking |
| StableSort.InsertTieSorted | streamlit_app.py:309 | inserting an element whose secondary key dominates keeps ties on the primary key ordered by the secondary key |
| StableSort.ResortKeepsTieOrder | streamlit_app.py:306-309 | re-sorting an intensity-sorted list by growth keeps entries with equal growth in intensity order |
| Leaderboard.Top | streamlit_app.py:307 | `[:10]` has length min(10, n) and matches the first elements |
| Leaderboard.TopDominates | streamlit_app.py:306-307 | in a sorted list, no entry left off the top ten has a larger key than an entry on it |
| Leaderboard.BoardsAreStablePrefixes | streamlit_app.py:306-310 | the boards are the first min(10, n) entries of any stable descending sort by intensity and of any stable sort of that by growth, so tied entries at the cut are fixed |
| Leaderboard.TopSortedPrefix | streamlit_app.py:306-307 | the top ten of a sorted list are sorted and drawn from it |
| Leaderboard.Leaderboards | streamlit_app.py:306-310 | each board has min(10, n) entries, sorted and drawn from the ranking; no entry off a board has a larger key; ties on the whale board are in intensity order |
| Leaderboard.WhalesFollowIntensityOrder | streamlit_app.py:306-309 | for each growth value, the growth sort lists the entries in intensity-sorted order |
| Leaderboard.Shown | streamlit_app.py:342 | the shown set holds exactly the symbols of the entries on either board |
| Leaderboard.Remaining | streamlit_app.py:343 | a symbol is in the list exactly when it is in the universe and not shown; universe order is kept |
| Leaderboard.RemainingCounts | streamlit_app.py:343 | each unshown symbol keeps its multiplicity; shown symbols occur zero times |
| Leaderboard.Refresh | streamlit_app.py:262-343 | no view when there are no series; otherwise the boards of the ranking and the universe minus the shown symbols, in order |
| Leaderboard.RemainingPartitionsTargets | streamlit_app.py:342-343 | every universe symbol is on a board or in the remaining list, never both |
| Downsample.StrideLenBounds | streamlit_app.py:117 | `iloc[::step]` keeps as many positions as there are multiples of step below n |
| Downsample.StrideLenIsCeiling | streamlit_app.py:116-117 | a strided selection of n points keeps ⌈n / step⌉ of them |
| Downsample.Stride | streamlit_app.py:117 | the k-th kept element is the element at position k × step |
| Downsample.Downsample | streamlit_app.py:114-117 | series up to 1.5 × target are unchanged; a longer one keeps exactly as many points as there are multiples of step = n div target below n, between target and 2 × target of them, the k-th at k × step, the first point included |
| Downsample.DownsampleCount | streamlit_app.py:114-117 | above the threshold the result holds ⌈n / step⌉ points, so no multiple of the step below n is left out |
| Downsample.StrideSubseq | streamlit_app.py:117 | a strided selection keeps order and adds nothing |
| Downsample.DownsampleSubseq | streamlit_app.py:114-117 | thinning keeps order and adds nothing |
| Downsample.DownsampleChronological | streamlit_app.py:114-117 | a thinned series is still in time order |
| Downsample.DownsampleLastKept | streamlit_app.py:114-117 | the last point survives exactly when the step divides n − 1 |
| Downsample.LastPositionReached | streamlit_app.py:116-117 | the last kept position is n − 1 exactly when the step divides n − 1 |
| Downsample.DownsampleMayDropLast | streamlit_app.py:114-117 | 400 points thinned to target 200 end at point 398, so the last point 399 is dropped |
| Downsample.ChartSeriesNeverThinned | streamlit_app.py:228 | a decimated series (at most 401 rows) charted with target 400 is returned unchanged |
| Decimation.Decimate | streamlit_app.py:66-76 | a non-empty history keeps exactly 1 + min(n, 4000) div 10 rows, including the newest, in time order |
| Decimation.CountStep | streamlit_app.py:74-75 | one older row adds one kept row exactly when its rank passes the filter |
| Decimation.RankedRowsKept | streamlit_app.py:74-75 | every row whose recency rank passes the filter is kept |
| Decimation.KeptRowsRanked | streamlit_app.py:74-75 | every kept row has a recency rank that passes the filter |
| Decimation.DecimateBounded | streamlit_app.py:74-75 | a symbol contributes at most 401 rows, however long its history |
| Decimation.DecimateChronological | streamlit_app.py:76 | the decimated rows are still in time order |

## Left out

- Database configuration and `get_db_uri` (`streamlit_app.py:12-34`): environment and secrets I/O.
- `_fetch_supply_worker` (`streamlit_app.py:36-45`): the supply table is an input `map`. A failed query appears as an empty map.
- `_fetch_market_data_worker` (`streamlit_app.py:47-92`): SQL execution, the universe query, its `LIMIT 200` and the `[:150]` truncation are left out. The symbol universe and the grouped series are inputs. Of the query, only its rank filter is modelled. A failed or empty query appears as an empty series list.
- `fetch_all_data_concurrently` (`streamlit_app.py:94-104`): thread pool and result cache, which are concurrency and caching.
- `format_number`, the chart axis format and all chart and page rendering (`streamlit_app.py:108-112`, `119-251`, `312-337`, `345-346`): presentation only.
- Floating point: prices, OI and caps are exact reals. NaN and infinite values in the data are not modelled, nor is how `min()` and the sort would treat them. A NULL supply field read as a pandas NaN behaves like `Null` in the model, because neither passes `> 0`.
- Ranking.ComputeEntry: a positive supply with a latest price of 0 divides 0 by 0 in the source, giving NaN. The model gives intensity 0 instead, through `Ranking.Ratio`.
- Downsample.Downsample: requires a positive target. The source divides by zero at target 0 and reverses the frame for a negative target. Its only caller (`streamlit_app.py:228`) passes 400.
- Decimation.Decimate: row ranks follow the order in which the rows are given. How the database orders rows with equal timestamps is not modelled.
- The iteration order of the series map (the sorted symbol order of `groupby`) is taken as given by the input sequence.

