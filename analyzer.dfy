/** The desktop results analyzer (src/gui_analyzer.py): for Azhan, Raj and Sameer, the
    races, points and average points of one chosen date and of all time.

    A cell counts only when its text (what `str()` renders for it) is a string of
    decimal digits whose value lies in 1..8; an empty cell renders as "nan". A row
    without a key for a player holds an empty cell there; whether the file has a
    player's column at all is a separate set of players. The two tables the window
    shows are returned as values. */
module Analyzer {
  import opened Common
  import Stats

  const AnalyzedPlayers: seq<string> := ["Azhan", "Raj", "Sameer"]

  const AllDates: string := "All"

  datatype LogRow = LogRow(date: string, placement: map<string, string>)

  /** The text of a player's placement cell. */
  function CellText(r: LogRow, p: string): string {
    if p in r.placement then r.placement[p] else "nan"
  }

  /** `int(x) if str(x).isdigit() and 1 <= int(x) <= 8 else None`. */
  function ValidPlacement(text: string): Option<int> {
    if IsDigitText(text) && 1 <= DigitsValue(text) <= 8 then Some(DigitsValue(text)) else None
  }

  predicate Counts(text: string) { ValidPlacement(text).Some? }

  datatype Tally = Tally(races: nat, points: int, avgPoints: real)

  function Races(column: seq<string>): nat {
    if column == [] then 0 else Races(column[..|column| - 1]) + (if Counts(column[|column| - 1]) then 1 else 0)
  }

  /** The points one cell earns: those of its placement when it counts, none otherwise. */
  function CellPoints(text: string): int {
    match ValidPlacement(text)
    case Some(v) => Stats.Points(v)
    case None => 0
  }

  function PointsOf(column: seq<string>): int {
    if column == [] then 0 else PointsOf(column[..|column| - 1]) + CellPoints(column[|column| - 1])
  }

  /** `calculate_player_stats`: valid placements counted and scored. */
  function PlayerTally(column: seq<string>): Tally {
    var n := Races(column);
    var pts := PointsOf(column);
    Tally(n, pts, if n > 0 then pts as real / n as real else 0.0)
  }

  lemma {:induction false} TallyBounds(column: seq<string>)
    ensures Races(column) == Count(column, Counts)
    ensures 4 * Races(column) <= PointsOf(column) <= 25 * Races(column)
  {
    if column != [] {
      TallyBounds(column[..|column| - 1]);
      Stats.PointsTableShape();
    }
  }

  /** Races are the cells holding a placement 1..8 written in digits, each worth 4 to 25
      points; the average is 0 without races and otherwise lies between 4 and 25. */
  lemma TallyMeaning(column: seq<string>)
    ensures var t := PlayerTally(column);
      && t.races == Count(column, Counts)
      && 4 * t.races <= t.points <= 25 * t.races
      && (t.races == 0 ==> t.avgPoints == 0.0)
      && (t.races > 0 ==> 4.0 <= t.avgPoints <= 25.0)
  {
    TallyBounds(column);
    var n := Races(column);
    if n > 0 {
      RatioWithin(PointsOf(column), n, 4, 25);
    }
  }

  /** A cell is read as a placement exactly when it is written in digits and its value
      is 1 to 8. */
  lemma ValidPlacementMeaning(text: string)
    ensures ValidPlacement(text).Some? <==> |text| > 0 && AllDigits(text) && 1 <= DigitsValue(text) <= 8
    ensures ValidPlacement(text).Some? ==> ValidPlacement(text).value == DigitsValue(text)
  {
  }

  function Column(rows: seq<LogRow>, p: string): (c: seq<string>)
    ensures |c| == |rows|
    ensures forall i :: 0 <= i < |rows| ==> c[i] == CellText(rows[i], p)
  {
    seq(|rows|, i requires 0 <= i < |rows| => CellText(rows[i], p))
  }

  /** `df[df["Date"] == selected_date]`. */
  function RowsOn(rows: seq<LogRow>, d: string): seq<LogRow> {
    if rows == [] then []
    else RowsOn(rows[..|rows| - 1], d) + (if rows[|rows| - 1].date == d then [rows[|rows| - 1]] else [])
  }

  /** `df["Date"].max()` on text dates: the largest in ordinal string order. */
  function MaxDate(rows: seq<LogRow>): string
    requires rows != []
  {
    if |rows| == 1 then rows[0].date
    else
      var m := MaxDate(rows[..|rows| - 1]);
      if StrLe(rows[|rows| - 1].date, m) then m else rows[|rows| - 1].date
  }

  lemma {:induction false} MaxDateIsLatest(rows: seq<LogRow>)
    requires rows != []
    ensures exists r :: r in rows && r.date == MaxDate(rows)
    ensures forall r :: r in rows ==> StrLe(r.date, MaxDate(rows))
  {
    if |rows| == 1 {
      StrLeTotal(rows[0].date, rows[0].date);
      assert forall r :: r in rows ==> r == rows[0];
    } else {
      var front := rows[..|rows| - 1];
      var last := rows[|rows| - 1].date;
      MaxDateIsLatest(front);
      var m := MaxDate(front);
      StrLeTotal(last, m);
      StrLeTotal(last, last);
      assert forall r :: r in rows <==> r in front || r == rows[|rows| - 1];
      if !StrLe(last, m) {
        forall r | r in front ensures StrLe(r.date, last) {
          StrLeTransitive(r.date, m, last);
        }
      }
    }
  }

  datatype View =
    | Cleared
    | Failed(missing: string)
    | Tables(date: string, daily: seq<(string, Tally)>, total: seq<(string, Tally)>)

  function TallyRows(rows: seq<LogRow>): seq<(string, Tally)> {
    seq(|AnalyzedPlayers|, i requires 0 <= i < |AnalyzedPlayers| =>
      (AnalyzedPlayers[i], PlayerTally(Column(rows, AnalyzedPlayers[i]))))
  }

  /** `analyze_data`: an empty log clears both tables; a log without one of the
      analysed players' placement columns raises `KeyError` at the first of them;
      otherwise the chosen date ("All" meaning the latest date of the log) and all time,
      one row per analysed player. `columns` are the players whose placement column
      the file's header has. */
  function AnalyzeData(columns: set<string>, rows: seq<LogRow>, selection: string): (v: View)
    ensures v.Cleared? <==> rows == []
    ensures v.Failed? <==> rows != [] && Stats.FirstMissing(columns, AnalyzedPlayers).Some?
    ensures v.Failed? ==> v.missing in AnalyzedPlayers && v.missing !in columns
    ensures v.Tables? && selection != AllDates ==> v.date == selection
  {
    if rows == [] then Cleared
    else if Stats.FirstMissing(columns, AnalyzedPlayers).Some? then Failed(Stats.FirstMissing(columns, AnalyzedPlayers).value)
    else
      var d := if selection == AllDates then MaxDate(rows) else selection;
      Tables(d, TallyRows(RowsOn(rows, d)), TallyRows(rows))
  }

  /** The file has a placement column for each of Azhan, Raj and Sameer. */
  predicate HasColumns(columns: set<string>) {
    forall p :: p in AnalyzedPlayers ==> p in columns
  }

  /** A non-empty log fails exactly when a column is missing. */
  lemma FailsMeaning(columns: set<string>, rows: seq<LogRow>, selection: string)
    requires rows != []
    ensures AnalyzeData(columns, rows, selection).Failed? <==> !HasColumns(columns)
  {
    Stats.FirstMissingMeaning(columns, AnalyzedPlayers);
  }

  /** Choosing "All" analyses a date of the log that is no earlier than any other. */
  lemma AllMeansLatest(columns: set<string>, rows: seq<LogRow>)
    requires rows != [] && HasColumns(columns)
    ensures var v := AnalyzeData(columns, rows, AllDates);
      && v.Tables?
      && (exists r :: r in rows && r.date == v.date)
      && (forall r :: r in rows ==> StrLe(r.date, v.date))
  {
    Stats.FirstMissingMeaning(columns, AnalyzedPlayers);
    MaxDateIsLatest(rows);
  }

  lemma {:induction false} DayRacesWithin(rows: seq<LogRow>, d: string, p: string)
    ensures Races(Column(RowsOn(rows, d), p)) <= Races(Column(rows, p))
    ensures PointsOf(Column(RowsOn(rows, d), p)) <= PointsOf(Column(rows, p))
  {
    if rows != [] {
      DayRacesWithin(rows[..|rows| - 1], d, p);
      DayRacesWithinNext(rows, d, p);
    }
  }

  lemma DayRacesWithinNext(rows: seq<LogRow>, d: string, p: string)
    requires rows != []
    requires Races(Column(RowsOn(rows[..|rows| - 1], d), p)) <= Races(Column(rows[..|rows| - 1], p))
    requires PointsOf(Column(RowsOn(rows[..|rows| - 1], d), p)) <= PointsOf(Column(rows[..|rows| - 1], p))
    ensures Races(Column(RowsOn(rows, d), p)) <= Races(Column(rows, p))
    ensures PointsOf(Column(RowsOn(rows, d), p)) <= PointsOf(Column(rows, p))
  {
    var front, r := rows[..|rows| - 1], rows[|rows| - 1];
    var day, dayBefore := RowsOn(rows, d), RowsOn(front, d);
    TallyStep(rows, p);
    if r.date == d {
      assert day == dayBefore + [r];
      assert day[..|day| - 1] == dayBefore;
      TallyStep(day, p);
    } else {
      assert day == dayBefore;
    }
  }

  /** The tally of a non-empty log is that of all rows but the last, plus the last cell:
      one race and 4 to 25 points when it counts, nothing otherwise. */
  lemma TallyStep(rows: seq<LogRow>, p: string)
    requires rows != []
    ensures var c, x := Column(rows[..|rows| - 1], p), CellText(rows[|rows| - 1], p);
      && Races(Column(rows, p)) == Races(c) + (if Counts(x) then 1 else 0)
      && PointsOf(Column(rows, p)) == PointsOf(c) + CellPoints(x)
      && CellPoints(x) >= 0
  {
    var c := Column(rows, p);
    assert c[..|c| - 1] == Column(rows[..|rows| - 1], p);
    Stats.PointsTableShape();
  }

  /** Both tables list Azhan, Raj and Sameer in that order, and on each row the day's
      races and points never exceed the all-time ones. */
  lemma DailyWithinTotal(columns: set<string>, rows: seq<LogRow>, selection: string)
    requires rows != [] && HasColumns(columns)
    ensures var v := AnalyzeData(columns, rows, selection);
      && v.Tables?
      && |v.daily| == |v.total| == 3
      && (forall i :: 0 <= i < 3 ==>
            && v.daily[i].0 == v.total[i].0 == AnalyzedPlayers[i]
            && v.daily[i].1.races <= v.total[i].1.races
            && v.daily[i].1.points <= v.total[i].1.points)
  {
    Stats.FirstMissingMeaning(columns, AnalyzedPlayers);
    var v := AnalyzeData(columns, rows, selection);
    forall i | 0 <= i < 3
      ensures v.daily[i].1.races <= v.total[i].1.races && v.daily[i].1.points <= v.total[i].1.points
    {
      DayRacesWithin(rows, v.date, AnalyzedPlayers[i]);
    }
  }
}
