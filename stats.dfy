/** The post-analysis statistics of the results log (src/calculations/analysis.py):
    the placement points table, per-player race counts and points over all races,
    per date and over the races every listed player finished, and the per-map
    best-time leaderboards.

    A row of the log is modelled by the cells the statistics read, and the file by the
    players whose placement column its header has. A row without a placement key for a
    player holds an empty cell (NaN) there. Race times and karts are read with
    `row.get`, and a missing key there stands for a missing column. Placements are the integers `astype(int)` yields.
    Points per race and average position are exact quotients: the rounding to two
    decimals is not modelled. */
module Stats {
  import opened Common
  import opened Sorting

  const PointsTable: seq<int> := [25, 18, 15, 12, 10, 8, 6, 4]

  /** `points_table.get(placement, 0)`. */
  function Points(placement: int): int {
    if 1 <= placement <= 8 then PointsTable[placement - 1] else 0
  }

  /** The points table pays 25 down to 4 for placements 1 to 8, strictly less for
      every worse placement, and nothing for any other value. */
  lemma PointsTableShape()
    ensures forall a, b :: 1 <= a < b <= 8 ==> Points(a) > Points(b)
    ensures forall a :: Points(a) == 0 <==> !(1 <= a <= 8)
    ensures forall a :: 0 <= Points(a) <= 25 && (1 <= a <= 8 ==> Points(a) >= 4)
  {
    forall a, b | 1 <= a < b <= 8 ensures Points(a) > Points(b) {
      assert PointsTable[a - 1] > PointsTable[b - 1];
    }
  }

  datatype ResultRow = ResultRow(
    date: string,
    mapName: string,
    placement: map<string, Cell<int>>,
    racetime: map<string, Cell<string>>,
    kart: map<string, Cell<string>>)

  function PlacementOf(r: ResultRow, p: string): Cell<int> {
    if p in r.placement then r.placement[p] else Blank
  }

  /** The column `"<player> Placement"` of a run of rows. */
  function Column(rows: seq<ResultRow>, p: string): (c: seq<Cell<int>>)
    ensures |c| == |rows|
    ensures forall i :: 0 <= i < |rows| ==> c[i] == PlacementOf(rows[i], p)
  {
    seq(|rows|, i requires 0 <= i < |rows| => PlacementOf(rows[i], p))
  }

  predicate Readable(c: Cell<int>) { c.Val? }

  /** `replace("DNR", nan).dropna().astype(int)`: the placements of the column, in order. */
  function Valid(column: seq<Cell<int>>): seq<int> {
    if column == [] then []
    else
      var front := Valid(column[..|column| - 1]);
      match column[|column| - 1]
      case Val(v) => front + [v]
      case _ => front
  }

  function SumPoints(v: seq<int>): int {
    if v == [] then 0 else SumPoints(v[..|v| - 1]) + Points(v[|v| - 1])
  }

  function SumInts(v: seq<int>): int {
    if v == [] then 0 else SumInts(v[..|v| - 1]) + v[|v| - 1]
  }

  datatype PlayerStats = PlayerStats(races: nat, points: int, ppr: real, avgPosition: Option<real>)

  /** The statistics of one placement column. */
  function StatsOf(column: seq<Cell<int>>): PlayerStats {
    var v := Valid(column);
    if |v| > 0 then
      PlayerStats(|v|, SumPoints(v), SumPoints(v) as real / |v| as real, Some(SumInts(v) as real / |v| as real))
    else PlayerStats(0, 0, 0.0, None)
  }

  lemma {:induction false} ValidCount(column: seq<Cell<int>>)
    ensures |Valid(column)| == Count(column, Readable)
    ensures forall x :: x in Valid(column) ==> Val(x) in column
  {
    if column != [] {
      var front := column[..|column| - 1];
      ValidCount(front);
      assert forall c :: c in front ==> c in column;
    }
  }

  lemma {:induction false} SumPointsBounds(v: seq<int>)
    ensures 0 <= SumPoints(v) <= 25 * |v|
  {
    if v != [] {
      SumPointsBounds(v[..|v| - 1]);
    }
  }

  /** A player's races are the readable cells of the column, the points lie between 0
      and 25 per race, and a player without races has 0 points per race and no
      average position; otherwise points per race lie between 0 and 25. */
  lemma StatsOfMeaning(column: seq<Cell<int>>)
    ensures var st := StatsOf(column);
      && st.races == Count(column, Readable)
      && 0 <= st.points <= 25 * st.races
      && (st.races == 0 ==> st.ppr == 0.0 && st.avgPosition == None)
      && (st.races > 0 ==> 0.0 <= st.ppr <= 25.0 && st.avgPosition.Some?)
  {
    ValidCount(column);
    var v := Valid(column);
    SumPointsBounds(v);
    if |v| > 0 {
      RatioWithin(SumPoints(v), |v|, 0, 25);
    }
  }

  /** A column whose every cell is readable counts every row as a race. */
  lemma AllReadableRaces(column: seq<Cell<int>>)
    requires forall i :: 0 <= i < |column| ==> column[i].Val?
    ensures StatsOf(column).races == |column|
  {
    StatsOfMeaning(column);
    CountAll(column, Readable);
  }

  // ---------------------------------------------------------------------------
  // Per-player tables

  /** One entry per listed player, computed over the given rows. */
  function StatsTable(rows: seq<ResultRow>, players: seq<string>): (t: map<string, PlayerStats>)
    ensures t.Keys == RosterSet(players)
  {
    map p | p in RosterSet(players) :: StatsOf(Column(rows, p))
  }

  /** The first listed player whose `"<player> Placement"` column the file lacks, in
      roster order: indexing the frame by that column raises `KeyError`. */
  function FirstMissing(columns: set<string>, players: seq<string>): (m: Option<string>)
    ensures m.Some? ==> m.value in players && m.value !in columns
  {
    if players == [] then None
    else
      match FirstMissing(columns, players[..|players| - 1])
      case Some(p) => Some(p)
      case None => var last := players[|players| - 1]; if last in columns then None else Some(last)
  }

  /** No column is missing exactly when every listed player has one. */
  lemma {:induction false} FirstMissingMeaning(columns: set<string>, players: seq<string>)
    ensures FirstMissing(columns, players).None? <==> forall p :: p in players ==> p in columns
  {
    if players != [] {
      var front := players[..|players| - 1];
      FirstMissingMeaning(columns, front);
      assert forall p :: p in players <==> p in front || p == players[|players| - 1];
    }
  }

  /** Once a prefix of the roster misses a column, the whole roster misses that one first. */
  lemma {:induction false} MissingStops(columns: set<string>, players: seq<string>, k: nat)
    requires k <= |players| && FirstMissing(columns, players[..k]).Some?
    ensures FirstMissing(columns, players) == FirstMissing(columns, players[..k])
    decreases |players|
  {
    if k < |players| {
      var front := players[..|players| - 1];
      assert front[..k] == players[..k];
      MissingStops(columns, front, k);
    } else {
      assert players[..k] == players;
    }
  }

  /** One more player past a prefix with every column present misses exactly their own. */
  lemma MissingNext(columns: set<string>, players: seq<string>, i: nat)
    requires i < |players| && FirstMissing(columns, players[..i]).None?
    ensures FirstMissing(columns, players[..i + 1]) == if players[i] in columns then None else Some(players[i])
  {
    assert players[..i + 1][..i] == players[..i];
  }

  /** `calculate_all_time_stats`: the table over every row, filled player by player;
      Err(player) at the first player whose column the file lacks. */
  method AllTimeStats(columns: set<string>, rows: seq<ResultRow>, players: seq<string>)
    returns (stats: Result<map<string, PlayerStats>, string>)
    ensures FirstMissing(columns, players).Some? ==> stats == Err(FirstMissing(columns, players).value)
    ensures FirstMissing(columns, players).None? ==> stats == Ok(StatsTable(rows, players))
  {
    var table := map[];
    var i := 0;
    while i < |players|
      invariant 0 <= i <= |players|
      invariant FirstMissing(columns, players[..i]).None?
      invariant table.Keys == RosterSet(players[..i])
      invariant forall p :: p in table ==> table[p] == StatsOf(Column(rows, p))
    {
      MissingNext(columns, players, i);
      if players[i] !in columns {
        MissingStops(columns, players, i + 1);
        return Err(players[i]);
      }
      assert players[..i + 1] == players[..i] + [players[i]];
      table := table[players[i] := StatsOf(Column(rows, players[i]))];
      i := i + 1;
    }
    assert players[..i] == players;
    assert table == StatsTable(rows, players);
    return Ok(table);
  }

  /** Every listed player's placement cell is readable: not empty, not "DNR". */
  predicate AllPresent(r: ResultRow, players: seq<string>) {
    forall p :: p in players ==> PlacementOf(r, p).Val?
  }

  /** The rows kept by `dropna(subset=...)` followed by excluding any "DNR". */
  function TogetherRows(rows: seq<ResultRow>, players: seq<string>): (kept: seq<ResultRow>)
    ensures forall r :: r in kept ==> r in rows && AllPresent(r, players)
  {
    if rows == [] then []
    else
      var front := TogetherRows(rows[..|rows| - 1], players);
      if AllPresent(rows[|rows| - 1], players) then front + [rows[|rows| - 1]] else front
  }

  /** Exactly the rows where every listed player finished are kept, in order. */
  lemma {:induction false} TogetherRowsComplete(rows: seq<ResultRow>, players: seq<string>)
    ensures TogetherRows(rows, players) == Filter(rows, (r: ResultRow) => AllPresent(r, players))
  {
    if rows != [] {
      TogetherRowsComplete(rows[..|rows| - 1], players);
    }
  }

  /** `calculate_together_stats`: the table over the rows every player finished;
      `dropna(subset=...)` raises first when a listed column is missing. */
  method TogetherStats(columns: set<string>, rows: seq<ResultRow>, players: seq<string>)
    returns (stats: Result<map<string, PlayerStats>, string>)
    ensures FirstMissing(columns, players).Some? ==> stats == Err(FirstMissing(columns, players).value)
    ensures FirstMissing(columns, players).None? ==> stats == Ok(StatsTable(TogetherRows(rows, players), players))
  {
    var missing := FirstMissing(columns, players);
    if missing.Some? {
      return Err(missing.value);
    }
    stats := AllTimeStats(columns, TogetherRows(rows, players), players);
  }

  const TogetherPlayers: seq<string> := ["Raj", "Azhan", "Sameer"]

  /** `calculate_together_stats_RAS`: the same over Raj, Azhan and Sameer only. */
  method TogetherStatsRAS(columns: set<string>, rows: seq<ResultRow>)
    returns (stats: Result<map<string, PlayerStats>, string>)
    ensures FirstMissing(columns, TogetherPlayers).Some? ==> stats == Err(FirstMissing(columns, TogetherPlayers).value)
    ensures FirstMissing(columns, TogetherPlayers).None? ==>
      stats == Ok(StatsTable(TogetherRows(rows, TogetherPlayers), TogetherPlayers))
  {
    stats := TogetherStats(columns, rows, TogetherPlayers);
  }

  /** Every player of a together table has the same number of races: the number of
      rows they all finished. */
  lemma TogetherSameRaces(rows: seq<ResultRow>, players: seq<string>)
    ensures var kept := TogetherRows(rows, players);
      forall p :: p in players ==> StatsTable(kept, players)[p].races == |kept|
  {
    var kept := TogetherRows(rows, players);
    forall p | p in players ensures StatsOf(Column(kept, p)).races == |kept| {
      forall i | 0 <= i < |kept| ensures Column(kept, p)[i].Val? {
        assert kept[i] in kept;
      }
      AllReadableRaces(Column(kept, p));
    }
  }

  // ---------------------------------------------------------------------------
  // Daily statistics

  /** `df["Date"].unique()`: each date once, in order of first appearance. */
  function Dates(rows: seq<ResultRow>): seq<string> {
    if rows == [] then []
    else
      var front := Dates(rows[..|rows| - 1]);
      var d := rows[|rows| - 1].date;
      if d in front then front else front + [d]
  }

  /** The unique dates are exactly the dates of the rows, each listed once. */
  lemma {:induction false} DatesMeaning(rows: seq<ResultRow>)
    ensures Distinct(Dates(rows))
    ensures forall d :: d in Dates(rows) <==> exists r :: r in rows && r.date == d
  {
    if rows != [] {
      var front := rows[..|rows| - 1];
      DatesMeaning(front);
      assert forall r :: r in rows <==> r in front || r == rows[|rows| - 1];
    }
  }

  /** `df[df["Date"] == date]`. */
  function RowsOn(rows: seq<ResultRow>, d: string): seq<ResultRow> {
    if rows == [] then []
    else
      var front := RowsOn(rows[..|rows| - 1], d);
      if rows[|rows| - 1].date == d then front + [rows[|rows| - 1]] else front
  }

  /** A date's rows are the rows of that date, in log order. */
  lemma {:induction false} RowsOnMeaning(rows: seq<ResultRow>, d: string)
    ensures forall r :: r in RowsOn(rows, d) <==> r in rows && r.date == d
  {
    if rows != [] {
      var front := rows[..|rows| - 1];
      RowsOnMeaning(front, d);
      assert forall r :: r in rows <==> r in front || r == rows[|rows| - 1];
    }
  }

  function DailyTable(rows: seq<ResultRow>, players: seq<string>): map<string, map<string, PlayerStats>> {
    map d | d in Dates(rows) :: StatsTable(RowsOn(rows, d), players)
  }

  /** `calculate_daily_stats`: one table per date, filled date by date; the first date
      raises when a listed column is missing, and a log without dates raises nothing. */
  method DailyStats(columns: set<string>, rows: seq<ResultRow>, players: seq<string>)
    returns (daily: Result<map<string, map<string, PlayerStats>>, string>)
    ensures rows != [] && FirstMissing(columns, players).Some? ==> daily == Err(FirstMissing(columns, players).value)
    ensures rows == [] || FirstMissing(columns, players).None? ==> daily == Ok(DailyTable(rows, players))
  {
    var dates := Dates(rows);
    if rows != [] {
      DatesNonEmpty(rows);
    }
    var table := map[];
    var i := 0;
    while i < |dates|
      invariant 0 <= i <= |dates|
      invariant i > 0 ==> FirstMissing(columns, players).None?
      invariant table.Keys == RosterSet(dates[..i])
      invariant forall d :: d in table ==> table[d] == StatsTable(RowsOn(rows, d), players)
    {
      assert dates[..i + 1] == dates[..i] + [dates[i]];
      var statsForDate := AllTimeStats(columns, RowsOn(rows, dates[i]), players);
      if statsForDate.Err? {
        return Err(statsForDate.error);
      }
      table := table[dates[i] := statsForDate.value];
      i := i + 1;
    }
    assert dates[..i] == dates;
    assert table == DailyTable(rows, players);
    return Ok(table);
  }

  lemma DatesNonEmpty(rows: seq<ResultRow>)
    requires rows != []
    ensures Dates(rows) != []
  {
    DatesMeaning(rows);
    assert rows[0].date in Dates(rows);
  }

  // The daily tables partition the all-time table: summed over the dates, each
  // player's daily races and points give the all-time ones.

  datatype Measure = RaceCount | PointTotal

  function Weight(r: ResultRow, p: string, m: Measure): int {
    match PlacementOf(r, p)
    case Val(v) => if m == RaceCount then 1 else Points(v)
    case _ => 0
  }

  function Total(rows: seq<ResultRow>, p: string, m: Measure): int {
    if rows == [] then 0 else Total(rows[..|rows| - 1], p, m) + Weight(rows[|rows| - 1], p, m)
  }

  function TotalByDate(rows: seq<ResultRow>, p: string, m: Measure, ds: seq<string>): int {
    if ds == [] then 0 else TotalByDate(rows, p, m, ds[..|ds| - 1]) + Total(RowsOn(rows, ds[|ds| - 1]), p, m)
  }

  /** The race count and points of a column are the totals of the row weights. */
  lemma {:induction false} StatsAreTotals(rows: seq<ResultRow>, p: string)
    ensures StatsOf(Column(rows, p)).races == Total(rows, p, RaceCount)
    ensures StatsOf(Column(rows, p)).points == Total(rows, p, PointTotal)
  {
    TotalsOfColumn(rows, p);
  }

  lemma {:induction false} TotalsOfColumn(rows: seq<ResultRow>, p: string)
    ensures |Valid(Column(rows, p))| == Total(rows, p, RaceCount)
    ensures SumPoints(Valid(Column(rows, p))) == Total(rows, p, PointTotal)
  {
    if rows != [] {
      var front := rows[..|rows| - 1];
      TotalsOfColumn(front, p);
      assert Column(rows, p)[..|rows| - 1] == Column(front, p);
    }
  }

  lemma {:induction false} ByDateStep(front: seq<ResultRow>, r: ResultRow, p: string, m: Measure, ds: seq<string>)
    requires Distinct(ds)
    ensures TotalByDate(front + [r], p, m, ds) ==
            TotalByDate(front, p, m, ds) + (if r.date in ds then Weight(r, p, m) else 0)
  {
    if ds != [] {
      var d := ds[|ds| - 1];
      var init := ds[..|ds| - 1];
      assert init + [d] == ds;
      assert Distinct(init);
      ByDateStep(front, r, p, m, init);
      TotalByDateNext(front + [r], p, m, init, d);
      TotalByDateNext(front, p, m, init, d);
      TotalOnNext(front, r, p, m, d);
      assert r.date in ds <==> r.date in init || r.date == d;
      assert r.date == d ==> r.date !in init;
    }
  }

  lemma TotalOnNext(front: seq<ResultRow>, r: ResultRow, p: string, m: Measure, d: string)
    ensures Total(RowsOn(front + [r], d), p, m) == Total(RowsOn(front, d), p, m) + (if r.date == d then Weight(r, p, m) else 0)
  {
    var rows := front + [r];
    assert rows[..|rows| - 1] == front && rows[|rows| - 1] == r;
    if r.date == d {
      var on := RowsOn(front, d) + [r];
      assert on[..|on| - 1] == RowsOn(front, d);
    }
  }

  lemma {:induction false} NoRowsOn(rows: seq<ResultRow>, d: string)
    requires d !in Dates(rows)
    ensures RowsOn(rows, d) == []
  {
    if rows != [] {
      NoRowsOn(rows[..|rows| - 1], d);
    }
  }

  lemma {:induction false} DailyTotalsAddUp(rows: seq<ResultRow>, p: string, m: Measure)
    ensures TotalByDate(rows, p, m, Dates(rows)) == Total(rows, p, m)
  {
    if rows != [] {
      var front := rows[..|rows| - 1];
      DailyTotalsAddUp(front, p, m);
      DailyTotalsNext(front, rows[|rows| - 1], p, m);
      FrontLast(rows);
    }
  }

  lemma DailyTotalsNext(front: seq<ResultRow>, r: ResultRow, p: string, m: Measure)
    requires TotalByDate(front, p, m, Dates(front)) == Total(front, p, m)
    ensures TotalByDate(front + [r], p, m, Dates(front + [r])) == Total(front + [r], p, m)
  {
    var rows := front + [r];
    var ds := Dates(front);
    SnocFacts(front, r, p, m);
    DatesDistinct(front);
    ByDateStep(front, r, p, m, ds);
    if r.date !in ds {
      NoRowsOn(front, r.date);
      TotalByDateNext(rows, p, m, ds, r.date);
      TotalOnNext(front, r, p, m, r.date);
    }
  }

  /** How appending one row extends the totals, the unique dates and a date's rows. */
  lemma SnocFacts(front: seq<ResultRow>, r: ResultRow, p: string, m: Measure)
    ensures Total(front + [r], p, m) == Total(front, p, m) + Weight(r, p, m)
    ensures Dates(front + [r]) == if r.date in Dates(front) then Dates(front) else Dates(front) + [r.date]
  {
    var rows := front + [r];
    assert rows[..|rows| - 1] == front && rows[|rows| - 1] == r;
  }

  lemma TotalByDateNext(rows: seq<ResultRow>, p: string, m: Measure, ds: seq<string>, d: string)
    ensures TotalByDate(rows, p, m, ds + [d]) == TotalByDate(rows, p, m, ds) + Total(RowsOn(rows, d), p, m)
  {
    assert (ds + [d])[..|ds|] == ds;
  }

  lemma {:induction false} DatesDistinct(rows: seq<ResultRow>)
    ensures Distinct(Dates(rows))
  {
    if rows != [] {
      DatesDistinct(rows[..|rows| - 1]);
    }
  }

  /** Summing the daily tables over the dates gives each player's all-time races and
      points: every row lands in exactly one daily table. */
  lemma DailyAddsUpToAllTime(rows: seq<ResultRow>, players: seq<string>, p: string)
    requires p in players
    ensures var daily := DailyTable(rows, players);
      && SumOverDates(daily, Dates(rows), p, RaceCount) == StatsTable(rows, players)[p].races
      && SumOverDates(daily, Dates(rows), p, PointTotal) == StatsTable(rows, players)[p].points
  {
    var daily := DailyTable(rows, players);
    SumOverDatesIsTotal(rows, players, p, RaceCount, Dates(rows));
    SumOverDatesIsTotal(rows, players, p, PointTotal, Dates(rows));
    DailyTotalsAddUp(rows, p, RaceCount);
    DailyTotalsAddUp(rows, p, PointTotal);
    StatsAreTotals(rows, p);
  }

  /** The sum of one player's daily races (or points) over some of the dates. */
  function SumOverDates(daily: map<string, map<string, PlayerStats>>, ds: seq<string>, p: string, m: Measure): int {
    if ds == [] then 0
    else
      var d := ds[|ds| - 1];
      var here := if d in daily && p in daily[d] then
                    (if m == RaceCount then daily[d][p].races else daily[d][p].points)
                  else 0;
      SumOverDates(daily, ds[..|ds| - 1], p, m) + here
  }

  lemma {:induction false} SumOverDatesIsTotal(rows: seq<ResultRow>, players: seq<string>, p: string,
                                               m: Measure, ds: seq<string>)
    requires p in players
    requires forall d :: d in ds ==> d in Dates(rows)
    ensures SumOverDates(DailyTable(rows, players), ds, p, m) == TotalByDate(rows, p, m, ds)
  {
    if ds != [] {
      var d := ds[|ds| - 1];
      SumOverDatesIsTotal(rows, players, p, m, ds[..|ds| - 1]);
      StatsAreTotals(RowsOn(rows, d), p);
    }
  }

  /** One daily table per date that occurs, each listing every player. */
  lemma DailyTableShape(rows: seq<ResultRow>, players: seq<string>)
    ensures var daily := DailyTable(rows, players);
      && (forall d :: d in daily <==> exists r :: r in rows && r.date == d)
      && (forall d :: d in daily ==> daily[d].Keys == RosterSet(players))
  {
    DatesMeaning(rows);
  }

  // ---------------------------------------------------------------------------
  // Best race times

  datatype TimeEntry = TimeEntry(time: string, text: string)

  function RacetimeOf(r: ResultRow, p: string): Cell<string> {
    if p in r.racetime then r.racetime[p] else Blank
  }

  /** How an f-string renders the kart cell: NaN as "nan", a missing column as "None". */
  function KartText(r: ResultRow, p: string): string {
    if p !in r.kart then "None"
    else match r.kart[p]
      case Val(k) => k
      case DNR => "DNR"
      case Blank => "nan"
  }

  function EntryOf(r: ResultRow, p: string, t: string): TimeEntry {
    TimeEntry(t, t + " by " + p + " in " + KartText(r, p))
  }

  /** The entries of one row: one per player whose time is neither "DNR" nor empty. */
  function RowEntries(r: ResultRow, players: seq<string>): seq<TimeEntry> {
    if players == [] then []
    else
      var front := RowEntries(r, players[..|players| - 1]);
      var p := players[|players| - 1];
      match RacetimeOf(r, p)
      case Val(t) => front + [EntryOf(r, p, t)]
      case _ => front
  }

  /** The unsorted entries of every row of one map, row by row. */
  function MapEntries(rows: seq<ResultRow>, players: seq<string>, mapName: string): seq<TimeEntry> {
    if rows == [] then []
    else
      var r := rows[|rows| - 1];
      MapEntries(rows[..|rows| - 1], players, mapName) + (if r.mapName == mapName then RowEntries(r, players) else [])
  }

  /** An entry comes from a row of the map and a listed player with that time. */
  predicate FromLog(e: TimeEntry, rows: seq<ResultRow>, players: seq<string>, mapName: string) {
    exists r, p :: r in rows && p in players && r.mapName == mapName
                   && RacetimeOf(r, p) == Val(e.time) && e == EntryOf(r, p, e.time)
  }

  lemma {:induction false} RowEntriesFrom(r: ResultRow, players: seq<string>)
    ensures forall e :: e in RowEntries(r, players) ==>
      exists p :: p in players && RacetimeOf(r, p) == Val(e.time) && e == EntryOf(r, p, e.time)
  {
    if players != [] {
      RowEntriesFrom(r, players[..|players| - 1]);
      assert forall q :: q in players[..|players| - 1] ==> q in players;
    }
  }

  /** Every entry of a map's list is the time of a listed player in a row of that map
      (so none is "DNR" or empty). */
  lemma {:induction false} MapEntriesFrom(rows: seq<ResultRow>, players: seq<string>, mapName: string)
    ensures forall e :: e in MapEntries(rows, players, mapName) ==> FromLog(e, rows, players, mapName)
  {
    if rows != [] {
      var front := rows[..|rows| - 1];
      var r := rows[|rows| - 1];
      MapEntriesFrom(front, players, mapName);
      RowEntriesFrom(r, players);
      forall e | e in MapEntries(rows, players, mapName) ensures FromLog(e, rows, players, mapName) {
        if e in MapEntries(front, players, mapName) {
          var r', p :| r' in front && p in players && r'.mapName == mapName
                       && RacetimeOf(r', p) == Val(e.time) && e == EntryOf(r', p, e.time);
          assert r' in rows;
        } else {
          assert r in rows;
        }
      }
    }
  }

  function Decimals(pieces: seq<string>): Option<seq<real>> {
    if pieces == [] then Some([])
    else
      match (Decimals(pieces[..|pieces| - 1]), PyFloat(pieces[|pieces| - 1]))
      case (Some(front), Some(x)) => Some(front + [x])
      case _ => None
  }

  /** `tuple(map(float, time.split(":")))`; None where `float` raises. */
  function TimeKey(t: string): Option<seq<real>> {
    Decimals(SplitOn(t, ':'))
  }

  /** Python's `<=` on tuples of numbers. */
  predicate LexLe(a: seq<real>, b: seq<real>) {
    a == [] || (b != [] && (a[0] < b[0] || (a[0] == b[0] && LexLe(a[1..], b[1..]))))
  }

  lemma {:induction false} LexLeTotal(a: seq<real>, b: seq<real>)
    ensures LexLe(a, b) || LexLe(b, a)
  {
    if a != [] && b != [] && a[0] == b[0] {
      LexLeTotal(a[1..], b[1..]);
    }
  }

  lemma {:induction false} LexLeTransitive(a: seq<real>, b: seq<real>, c: seq<real>)
    requires LexLe(a, b) && LexLe(b, c)
    ensures LexLe(a, c)
  {
    if a != [] && b != [] && c != [] && a[0] == b[0] && b[0] == c[0] {
      LexLeTransitive(a[1..], b[1..], c[1..]);
    }
  }

  function KeyOf(e: TimeEntry): seq<real> {
    match TimeKey(e.time)
    case Some(k) => k
    case None => []
  }

  /** The sort order of `race_entries.sort(key=...)`. */
  predicate EntryLe(a: TimeEntry, b: TimeEntry) {
    LexLe(KeyOf(a), KeyOf(b))
  }

  lemma EntryOrder()
    ensures TotalPreorder(EntryLe)
  {
    forall a, b ensures EntryLe(a, b) || EntryLe(b, a) {
      LexLeTotal(KeyOf(a), KeyOf(b));
    }
    forall a, b, c | EntryLe(a, b) && EntryLe(b, c) ensures EntryLe(a, c) {
      LexLeTransitive(KeyOf(a), KeyOf(b), KeyOf(c));
    }
  }

  predicate KeysReadable(entries: seq<TimeEntry>) {
    forall i :: 0 <= i < |entries| ==> TimeKey(entries[i].time).Some?
  }

  /** The ten best entries' texts, from the sorted list. */
  function TopTen(entries: seq<TimeEntry>): (texts: seq<string>)
  {
    EntryOrder();
    var ranked := SortBy(entries, EntryLe);
    seq(Min(10, |ranked|), i requires 0 <= i < Min(10, |ranked|) => ranked[i].text)
  }

  /** `calculate_best_race_times`, map by map in the order given; Err(map) where a
      time of that map cannot be read by `float`, which aborts the analysis. */
  function BestTimes(rows: seq<ResultRow>, maps: seq<string>, players: seq<string>): Result<map<string, seq<string>>, string> {
    if maps == [] then Ok(map[])
    else
      var m := maps[|maps| - 1];
      match BestTimes(rows, maps[..|maps| - 1], players)
      case Err(e) => Err(e)
      case Ok(board) =>
        var entries := MapEntries(rows, players, m);
        if KeysReadable(entries) then Ok(board[m := TopTen(entries)])
        else Err(m)
  }

  /** A leaderboard lists at most ten times per map: the texts of the entries that
      rank first in ascending (minutes, seconds) order, and every one of them is a
      listed player's time on that map. */
  lemma BestTimesMeaning(rows: seq<ResultRow>, maps: seq<string>, players: seq<string>, m: string)
    requires BestTimes(rows, maps, players).Ok? && m in maps
    ensures var board := BestTimes(rows, maps, players).value;
      var entries := MapEntries(rows, players, m);
      && TotalPreorder(EntryLe)
      && m in board
      && |board[m]| == Min(10, |entries|)
      && var ranked := SortBy(entries, EntryLe);
         && multiset(ranked) == multiset(entries)
         && SortedBy(ranked, EntryLe)
         && (forall i :: 0 <= i < |board[m]| ==> board[m][i] == ranked[i].text && FromLog(ranked[i], rows, players, m))
         && (forall i, j :: 0 <= i < |board[m]| <= j < |ranked| ==> EntryLe(ranked[i], ranked[j]))
  {
    BestTimesAt(rows, maps, players, m);
    RankedFromLog(rows, players, m);
  }

  /** Every entry of a map's ranking is a listed player's time on that map. */
  lemma RankedFromLog(rows: seq<ResultRow>, players: seq<string>, m: string)
    ensures TotalPreorder(EntryLe)
    ensures var ranked := SortBy(MapEntries(rows, players, m), EntryLe);
      forall i :: 0 <= i < |ranked| ==> FromLog(ranked[i], rows, players, m)
  {
    EntryOrder();
    var ranked := SortBy(MapEntries(rows, players, m), EntryLe);
    MapEntriesFrom(rows, players, m);
    forall i | 0 <= i < |ranked| ensures FromLog(ranked[i], rows, players, m) {
      assert ranked[i] in multiset(ranked);
    }
  }

  /** Each map's leaderboard is the top ten of that map's entries. */
  lemma {:induction false} BestTimesAt(rows: seq<ResultRow>, maps: seq<string>, players: seq<string>, m: string)
    requires BestTimes(rows, maps, players).Ok? && m in maps
    ensures m in BestTimes(rows, maps, players).value
    ensures BestTimes(rows, maps, players).value[m] == TopTen(MapEntries(rows, players, m))
  {
    var front := maps[..|maps| - 1];
    if m != maps[|maps| - 1] {
      assert m in front;
      BestTimesAt(rows, front, players, m);
    }
  }

  /** The first map with an unreadable time decides the outcome. */
  lemma {:induction false} BestTimesStopsAtError(rows: seq<ResultRow>, maps: seq<string>, players: seq<string>, k: nat)
    requires k <= |maps| && BestTimes(rows, maps[..k], players).Err?
    ensures BestTimes(rows, maps, players) == BestTimes(rows, maps[..k], players)
    decreases |maps|
  {
    if k < |maps| {
      var front := maps[..|maps| - 1];
      assert front[..k] == maps[..k];
      BestTimesStopsAtError(rows, front, players, k);
    } else {
      assert maps[..k] == maps;
    }
  }

  /** One more map extends the leaderboard with that map's top ten, or stops at it. */
  lemma BestTimesNext(rows: seq<ResultRow>, maps: seq<string>, players: seq<string>, k: nat, board: map<string, seq<string>>)
    requires k < |maps| && BestTimes(rows, maps[..k], players) == Ok(board)
    ensures var entries := MapEntries(rows, players, maps[k]);
      BestTimes(rows, maps[..k + 1], players) ==
        if KeysReadable(entries) then Ok(board[maps[k] := TopTen(entries)]) else Err(maps[k])
  {
    assert maps[..k + 1][..k] == maps[..k];
  }

  /** The loops of `calculate_best_race_times`: collect each map's entries row by row
      and player by player, then sort and keep ten. */
  method BestRaceTimes(rows: seq<ResultRow>, maps: seq<string>, players: seq<string>)
    returns (leaderboard: Result<map<string, seq<string>>, string>)
    ensures leaderboard == BestTimes(rows, maps, players)
  {
    var board: map<string, seq<string>> := map[];
    var k := 0;
    while k < |maps|
      invariant 0 <= k <= |maps|
      invariant BestTimes(rows, maps[..k], players) == Ok(board)
    {
      var m := maps[k];
      var raceEntries := CollectEntries(rows, players, m);
      BestTimesNext(rows, maps, players, k, board);
      if !KeysReadable(raceEntries) {
        BestTimesStopsAtError(rows, maps, players, k + 1);
        return Err(m);
      }
      board := board[m := TopTen(raceEntries)];
      k := k + 1;
    }
    assert maps[..k] == maps;
    return Ok(board);
  }

  method CollectEntries(rows: seq<ResultRow>, players: seq<string>, m: string) returns (entries: seq<TimeEntry>)
    ensures entries == MapEntries(rows, players, m)
  {
    entries := [];
    var i := 0;
    while i < |rows|
      invariant 0 <= i <= |rows|
      invariant entries == MapEntries(rows[..i], players, m)
    {
      assert rows[..i + 1][..i] == rows[..i];
      var row := rows[i];
      if row.mapName == m {
        var j := 0;
        while j < |players|
          invariant 0 <= j <= |players|
          invariant entries == MapEntries(rows[..i], players, m) + RowEntries(row, players[..j])
        {
          assert players[..j + 1][..j] == players[..j];
          var p := players[j];
          if RacetimeOf(row, p).Val? {
            entries := entries + [EntryOf(row, p, RacetimeOf(row, p).v)];
          }
          j := j + 1;
        }
        assert players[..j] == players;
      }
      i := i + 1;
    }
    assert rows[..i] == rows;
  }
}
