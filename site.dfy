/** The statistics web page (docs/assets/js/main.js): the "races together" lookup, which
    normalises a comma-separated list of names, checks it against the roster and totals
    the points of the races all the named players finished; the column-sort state of the
    page's tables with the summary table's comparators; and the newest-first order of the
    daily-stats dates.

    Text is ASCII: `trim()` removes `Common.IsJsSpace`, `toLowerCase()` is
    `Common.Lower`, `localeCompare` is the code-point order `Common.StrLe`. A results row
    is the placement text of each player that has one (a missing key is `undefined`).
    Points per race and average position are exact quotients; `toFixed(2)` is not
    modelled. */
module Site {
  import opened Common
  import opened Sorting
  import Stats

  /** The page's roster, in its declared order. */
  const Roster: seq<string> := ["Raj", "Azhan", "Sameer", "Zetaa", "Adi", "Dylan", "Parum",
                                "EnderRobot", "Lynden", "Rusheel", "SultanSpeppy", "Viraj", "Tejas"]

  const PointsAllocation: seq<int> := [25, 18, 15, 12, 10, 8, 6, 4]

  // ---------------------------------------------------------------------------
  // Input normalisation

  function Trim(s: string): string { StripBy(s, IsJsSpace) }

  /** The pieces between commas, each trimmed and lower-cased. */
  function Cleaned(pieces: seq<string>): (r: seq<string>)
    ensures |r| == |pieces| && forall k :: 0 <= k < |r| ==> r[k] == Lower(Trim(pieces[k]))
  {
    seq(|pieces|, k requires 0 <= k < |pieces| => Lower(Trim(pieces[k])))
  }

  /** `[...new Set(s)]`: each value once, at its first position. */
  function Dedupe(s: seq<string>): (r: seq<string>)
    ensures Distinct(r)
    ensures forall x :: x in r <==> x in s
  {
    if s == [] then []
    else
      var front := Dedupe(s[..|s| - 1]);
      if s[|s| - 1] in s[..|s| - 1] then front else front + [s[|s| - 1]]
  }

  lemma {:induction false} DedupeDistinct(s: seq<string>)
    requires Distinct(s)
    ensures Dedupe(s) == s
  {
    if s != [] {
      DedupeDistinct(s[..|s| - 1]);
      assert s[..|s| - 1] + [s[|s| - 1]] == s;
    }
  }

  /** The distinct non-empty names among the pieces, trimmed and lower-cased, in
      first-seen order. */
  function Names(pieces: seq<string>): seq<string> {
    Dedupe(Filter(Cleaned(pieces), (x: string) => x != ""))
  }

  function InputPlayers(input: string): seq<string> {
    Names(SplitOn(input, ','))
  }

  lemma {:induction false} FilterComplete<T>(s: seq<T>, keep: T -> bool, x: T)
    requires x in s && keep(x)
    ensures x in Filter(s, keep)
  {
    if s[|s| - 1] != x {
      assert x in s[..|s| - 1] by {
        var i :| 0 <= i < |s| && s[i] == x;
        assert s[..|s| - 1][i] == x;
      }
      FilterComplete(s[..|s| - 1], keep, x);
    }
  }

  /** The names are distinct and are exactly the non-empty trimmed, lower-cased pieces. */
  lemma NamesMeaning(pieces: seq<string>)
    ensures Distinct(Names(pieces))
    ensures forall x :: x in Names(pieces) <==>
      (x != "" && exists k :: 0 <= k < |pieces| && x == Lower(Trim(pieces[k])))
  {
    var cleaned := Cleaned(pieces);
    var keep := (x: string) => x != "";
    forall x ensures x in Names(pieces) <==> x != "" && exists k :: 0 <= k < |pieces| && x == Lower(Trim(pieces[k])) {
      if x != "" && exists k :: 0 <= k < |pieces| && x == Lower(Trim(pieces[k])) {
        var k :| 0 <= k < |pieces| && x == Lower(Trim(pieces[k]));
        assert cleaned[k] == x;
        FilterComplete(cleaned, keep, x);
      }
      if x in Names(pieces) {
        assert x in Filter(cleaned, keep);
        var k :| 0 <= k < |cleaned| && cleaned[k] == x;
      }
    }
  }

  // ---------------------------------------------------------------------------
  // Roster lookup

  /** `players.find(p => p.toLowerCase() === name)`. */
  function FindIn(roster: seq<string>, name: string): (r: Option<string>)
    ensures r.Some? <==> exists k :: 0 <= k < |roster| && Lower(roster[k]) == name
    ensures r.Some? ==> r.value in roster && Lower(r.value) == name
  {
    if roster == [] then None
    else if Lower(roster[0]) == name then Some(roster[0])
    else
      var r := FindIn(roster[1..], name);
      assert forall k :: 0 < k < |roster| ==> roster[k] == roster[1..][k - 1];
      r
  }

  /** The roster names of the input names that have one, in input order. */
  function Resolve(roster: seq<string>, names: seq<string>): (r: seq<string>)
    ensures |r| <= |names|
    ensures forall p :: p in r ==> p in roster
  {
    if names == [] then []
    else
      var front := Resolve(roster, names[..|names| - 1]);
      match FindIn(roster, names[|names| - 1])
      case None => front
      case Some(p) => front + [p]
  }

  predicate Unmatched(roster: seq<string>, name: string) { FindIn(roster, name).None? }

  /** `invalidPlayers`: the names no roster player lower-cases to, in input order. */
  function UnmatchedNames(roster: seq<string>, names: seq<string>): seq<string> {
    Filter(names, (n: string) => Unmatched(roster, n))
  }

  /** All names resolve exactly when none is unmatched; then each name maps to the roster
      player it lower-cases from, and distinct names give distinct players. */
  lemma {:induction false} ResolveMeaning(roster: seq<string>, names: seq<string>)
    ensures |Resolve(roster, names)| == |names| <==> UnmatchedNames(roster, names) == []
    ensures |Resolve(roster, names)| == |names| ==> forall k :: 0 <= k < |names| ==> Lower(Resolve(roster, names)[k]) == names[k]
    ensures Distinct(names) && |Resolve(roster, names)| == |names| ==> Distinct(Resolve(roster, names))
  {
    if names != [] {
      var front := names[..|names| - 1];
      ResolveMeaning(roster, front);
      assert forall i, j :: 0 <= i < j < |front| ==> front[i] == names[i] && front[j] == names[j];
      if |Resolve(roster, names)| == |names| {
        assert FindIn(roster, names[|names| - 1]).Some?;
        assert |Resolve(roster, front)| == |front|;
      }
    }
  }

  // ---------------------------------------------------------------------------
  // Races together

  /** A results row: the placement text of each player that has a cell. */
  datatype Race = Race(placement: map<string, string>)

  /** The cell is truthy and not "DNR". */
  predicate Finished(race: Race, p: string) {
    p in race.placement && race.placement[p] != "" && race.placement[p] != "DNR"
  }

  predicate AllFinished(race: Race, players: seq<string>) {
    forall k :: 0 <= k < |players| ==> Finished(race, players[k])
  }

  function RacesWith(races: seq<Race>, players: seq<string>): seq<Race> {
    Filter(races, (r: Race) => AllFinished(r, players))
  }

  /** A race is counted exactly when every selected player finished it. */
  lemma RacesWithMeaning(races: seq<Race>, players: seq<string>, r: Race)
    ensures r in RacesWith(races, players) <==> r in races && AllFinished(r, players)
  {
    if r in races && AllFinished(r, players) {
      FilterComplete(races, (r: Race) => AllFinished(r, players), r);
    }
  }

  /** `parseInt(s, 10)`: blanks, a sign, the longest run of digits; None for NaN. */
  function ParseIntJs(s: string): Option<int> {
    var t := s[LeadingCount(s, IsJsSpace)..];
    var (sign, body) := if |t| > 0 && t[0] == '-' then (-1, t[1..]) else if |t| > 0 && t[0] == '+' then (1, t[1..]) else (1, t);
    var n := LeadingCount(body, IsDigit);
    if n == 0 then None else Some(sign * DigitsValue(body[..n]))
  }

  lemma {:induction false} LeadingAll(s: string, ws: char -> bool)
    requires forall k :: 0 <= k < |s| ==> ws(s[k])
    ensures LeadingCount(s, ws) == |s|
  {
    if s != [] {
      LeadingAll(s[1..], ws);
    }
  }

  /** A cell of digits reads as its decimal value. */
  lemma ParseIntDigits(s: string)
    requires IsDigitText(s)
    ensures ParseIntJs(s) == Some(DigitsValue(s))
  {
    assert LeadingCount(s, IsJsSpace) == 0;
    LeadingAll(s, IsDigit);
    assert s[0..] == s && s[..|s|] == s;
  }

  /** `pointsAllocation[placement - 1] || 0`. */
  function PointsFor(placement: Option<int>): int {
    match placement
    case Some(n) => if 1 <= n <= |PointsAllocation| then PointsAllocation[n - 1] else 0
    case None => 0
  }

  lemma PointsForBounds(placement: Option<int>)
    ensures 0 <= PointsFor(placement) <= 25
  {
    if placement.Some? && 1 <= placement.value <= |PointsAllocation| {
      assert PointsAllocation[placement.value - 1] in PointsAllocation;
    }
  }

  /** The page and the analysis scripts award the same points for every placement. */
  lemma PointsAgree(n: int)
    ensures PointsFor(Some(n)) == Stats.Points(n)
    ensures PointsFor(None) == 0
  {
  }

  function CellOf(race: Race, p: string): string {
    if p in race.placement then race.placement[p] else ""
  }

  /** A player's running totals; `total` is None once a placement read as NaN. */
  datatype Tally = Tally(points: int, races: nat, total: Option<int>)

  function AddRace(t: Tally, placement: Option<int>): Tally {
    Tally(t.points + PointsFor(placement), t.races + 1,
          match (t.total, placement) case (Some(a), Some(b)) => Some(a + b) case _ => None)
  }

  const Zero: Tally := Tally(0, 0, Some(0))

  /** The player's totals over the races, in order. */
  function TallyOf(races: seq<Race>, p: string): Tally {
    if races == [] then Zero
    else AddRace(TallyOf(races[..|races| - 1], p), ParseIntJs(CellOf(races[|races| - 1], p)))
  }

  lemma TallyStep(races: seq<Race>, i: nat, p: string)
    requires i < |races|
    ensures TallyOf(races[..i + 1], p) == AddRace(TallyOf(races[..i], p), ParseIntJs(CellOf(races[i], p)))
  {
    assert races[..i + 1][..i] == races[..i];
  }

  /** Every counted race adds one race and between 0 and 25 points. */
  lemma {:induction false} TallyBounds(races: seq<Race>, p: string)
    ensures TallyOf(races, p).races == |races|
    ensures 0 <= TallyOf(races, p).points <= 25 * |races|
  {
    if races != [] {
      TallyBounds(races[..|races| - 1], p);
      PointsForBounds(ParseIntJs(CellOf(races[|races| - 1], p)));
    }
  }

  /** Points per race and average placement. */
  function Ppr(t: Tally): real requires t.races > 0 { t.points as real / t.races as real }

  /** Over any non-empty run of races, points per race lie between 0 and 25. */
  lemma PprBounds(races: seq<Race>, p: string)
    requires races != []
    ensures TallyOf(races, p).races > 0 && 0.0 <= Ppr(TallyOf(races, p)) <= 25.0
  {
    TallyBounds(races, p);
    RatioWithin(TallyOf(races, p).points, |races|, 0, 25);
  }

  function AvgPosition(t: Tally): Option<real> requires t.races > 0 {
    match t.total case Some(s) => Some(s as real / t.races as real) case None => None
  }

  datatype Outcome =
    | EmptyInput
    | TooFew
    | TooMany
    | Unknown(names: seq<string>)
    | NeverTogether(players: seq<string>)
    | Together(players: seq<string>, count: nat, stats: seq<Tally>)

  /** The checks on the input before any race is looked at: the roster players it names,
      or the message it is rejected with. */
  function Select(roster: seq<string>, raw: string): (r: Result<seq<string>, Outcome>)
    ensures r.Ok? ==> 2 <= |r.value| <= 8 && Distinct(r.value) && forall p :: p in r.value ==> p in roster
    ensures r.Err? ==> r.error.EmptyInput? || r.error.TooFew? || r.error.TooMany? || r.error.Unknown?
  {
    var input := Trim(raw);
    if input == "" then Err(EmptyInput)
    else
      var names := InputPlayers(input);
      if |names| < 2 then Err(TooFew)
      else if |names| > 8 then Err(TooMany)
      else
        var valid := Resolve(roster, names);
        if |valid| != |names| then Err(Unknown(UnmatchedNames(roster, names)))
        else
          NamesMeaning(SplitOn(input, ','));
          ResolveMeaning(roster, names);
          Ok(valid)
  }

  /** Each selected player's totals over the given races. */
  function Totals(players: seq<string>, races: seq<Race>): (r: seq<Tally>)
    ensures |r| == |players| && forall k :: 0 <= k < |r| ==> r[k] == TallyOf(races, players[k])
  {
    seq(|players|, k requires 0 <= k < |players| => TallyOf(races, players[k]))
  }

  /** The click handler of "fetch races together". */
  function FetchRacesTogether(roster: seq<string>, raw: string, races: seq<Race>): Outcome {
    match Select(roster, raw)
    case Err(o) => o
    case Ok(players) =>
      var together := RacesWith(races, players);
      if together == [] then NeverTogether(players)
      else Together(players, |together|, Totals(players, together))
  }

  /** The input is rejected exactly when its trimmed text is empty, and names outside the
      roster are listed, all of them and only them. */
  lemma SelectRejects(roster: seq<string>, raw: string)
    ensures Select(roster, raw) == Err(EmptyInput) <==> Trim(raw) == ""
    ensures Select(roster, raw).Err? && Select(roster, raw).error.Unknown? ==>
      && Select(roster, raw).error.names != []
      && forall x :: (x in Select(roster, raw).error.names <==> x in InputPlayers(Trim(raw)) && Unmatched(roster, x))
  {
    var input := Trim(raw);
    if input != "" {
      var names := InputPlayers(input);
      ResolveMeaning(roster, names);
      var valid := Resolve(roster, names);
      if 2 <= |names| <= 8 && |valid| != |names| {
        var u := UnmatchedNames(roster, names);
        forall x ensures x in u <==> x in names && Unmatched(roster, x) {
          if x in names && Unmatched(roster, x) {
            FilterComplete(names, (n: string) => Unmatched(roster, n), x);
          }
        }
      }
    }
  }

  /** The input names 2 to 8 distinct players once trimmed, lower-cased and deduplicated;
      fewer or more are rejected. */
  lemma SelectCounts(roster: seq<string>, raw: string)
    ensures Trim(raw) != "" && |InputPlayers(Trim(raw))| < 2 ==> Select(roster, raw) == Err(TooFew)
    ensures Trim(raw) != "" && |InputPlayers(Trim(raw))| > 8 ==> Select(roster, raw) == Err(TooMany)
    ensures Select(roster, raw).Ok? ==> |Select(roster, raw).value| == |InputPlayers(Trim(raw))|
  {
  }

  /** On success every selected player's race count is the number of races all of them
      finished, and their points are at most 25 a race. */
  lemma FetchTotals(roster: seq<string>, raw: string, races: seq<Race>)
    ensures FetchRacesTogether(roster, raw, races).Together? ==>
      var o := FetchRacesTogether(roster, raw, races);
      && o.count == |RacesWith(races, o.players)| > 0
      && |o.stats| == |o.players|
      && forall k :: 0 <= k < |o.stats| ==> o.stats[k].races == o.count && 0 <= o.stats[k].points <= 25 * o.count
  {
    var sel := Select(roster, raw);
    if sel.Ok? {
      var together := RacesWith(races, sel.value);
      forall p | p in sel.value ensures TallyOf(together, p).races == |together| && 0 <= TallyOf(together, p).points <= 25 * |together| {
        TallyBounds(together, p);
      }
    }
  }

  /** The handler's loops: the totals of every selected player over the races they all
      finished, built race by race and player by player. */
  method RacesTogether(raw: string, races: seq<Race>) returns (outcome: Outcome)
    ensures outcome == FetchRacesTogether(Roster, raw, races)
  {
    var sel := Select(Roster, raw);
    if sel.Err? {
      return sel.error;
    }
    var players := sel.value;
    var together := RacesWith(races, players);
    if together == [] {
      return NeverTogether(players);
    }
    var stats := Tabulate(players, together);
    return Together(players, |together|, stats);
  }

  /** The nested `forEach` of the handler over the counted races and the players; the
      totals object is kept as one entry per selected player, in their order. */
  method Tabulate(players: seq<string>, races: seq<Race>) returns (stats: seq<Tally>)
    ensures stats == Totals(players, races)
  {
    stats := seq(|players|, k => Zero);
    var i := 0;
    while i < |races|
      invariant 0 <= i <= |races|
      invariant stats == Totals(players, races[..i])
    {
      var j := 0;
      while j < |players|
        invariant 0 <= j <= |players| && |stats| == |players|
        invariant forall k :: 0 <= k < j ==> stats[k] == TallyOf(races[..i + 1], players[k])
        invariant forall k :: j <= k < |players| ==> stats[k] == TallyOf(races[..i], players[k])
      {
        TallyStep(races, i, players[j]);
        stats := stats[j := AddRace(stats[j], ParseIntJs(CellOf(races[i], players[j])))];
        j := j + 1;
      }
      i := i + 1;
    }
    assert races[..i] == races;
  }

  // ---------------------------------------------------------------------------
  // Table sorting

  /** A row of the all-time summary table. */
  datatype SummaryRow = SummaryRow(player: string, races: int, points: int, ppr: real, elo: real)

  const SummaryColumns: nat := 5

  /** The "default" comparator of a column, as "may come before": players alphabetically,
      the numeric columns highest first. */
  predicate DefaultBefore(column: nat, a: SummaryRow, b: SummaryRow) {
    if column == 0 then StrLe(a.player, b.player)
    else if column == 1 then a.races >= b.races
    else if column == 2 then a.points >= b.points
    else if column == 3 then a.ppr >= b.ppr
    else a.elo >= b.elo
  }

  /** The "reverse" comparator swaps the arguments of the default one. */
  function Before(column: nat, isDefault: bool): (SummaryRow, SummaryRow) -> bool {
    (a: SummaryRow, b: SummaryRow) => if isDefault then DefaultBefore(column, a, b) else DefaultBefore(column, b, a)
  }

  /** Every column's comparator, in either direction, orders the rows consistently. */
  lemma BeforeIsPreorder(column: nat, isDefault: bool)
    ensures TotalPreorder(Before(column, isDefault))
  {
    var le := Before(column, isDefault);
    forall x, y ensures le(x, y) || le(y, x) {
      StrLeTotal(x.player, y.player);
    }
    forall x, y, z | le(x, y) && le(y, z) ensures le(x, z) {
      if column == 0 {
        if isDefault {
          StrLeTransitive(x.player, y.player, z.player);
        } else {
          StrLeTransitive(z.player, y.player, x.player);
        }
      }
    }
  }

  /** `columnSort[column][default ? "default" : "reverse"]`. */
  function SortRows(rows: seq<SummaryRow>, column: nat, isDefault: bool): (r: seq<SummaryRow>)
    ensures multiset(r) == multiset(rows)
    ensures forall i, j :: 0 <= i < j < |r| ==>
      if isDefault then DefaultBefore(column, r[i], r[j]) else DefaultBefore(column, r[j], r[i])
  {
    BeforeIsPreorder(column, isDefault);
    SortBy(rows, Before(column, isDefault))
  }

  /** The sort state after a header click (`useDefault` false) or the first render. */
  function Toggle(column: nat, isDefault: bool, columnNo: nat, useDefault: bool): (nat, bool) {
    if useDefault then (column, true)
    else if column == columnNo then (column, !isDefault)
    else (columnNo, true)
  }

  /** Two clicks on the same column restore its direction; a click on another column
      always starts in the default order. */
  lemma ToggleMeaning(column: nat, isDefault: bool, columnNo: nat)
    ensures Toggle(column, isDefault, column, false) == (column, !isDefault)
    ensures var (c, d) := Toggle(column, isDefault, column, false); Toggle(c, d, column, false) == (column, isDefault)
    ensures columnNo != column ==> Toggle(column, isDefault, columnNo, false) == (columnNo, true)
  {
  }

  /** A rendered table: the sort state and the rows in their current order. Sorting with
      `stats.sort` reorders the table's own rows, so the next sort starts from them. */
  class SortedTable {
    var column: nat
    var isDefault: bool
    var rows: seq<SummaryRow>

    /** The first render sorts by the table's default column in its default order. */
    constructor (stats: seq<SummaryRow>, defaultSort: nat)
      requires defaultSort < SummaryColumns
      ensures column == defaultSort && isDefault
      ensures rows == SortRows(stats, defaultSort, true)
    {
      column := defaultSort;
      isDefault := true;
      rows := SortRows(stats, defaultSort, true);
    }

    /** `sortTable`: update the sort state, then re-sort the rows by the clicked column
        in the direction the new state says. */
    method SortTable(columnNo: nat, useDefaultSort: bool)
      requires columnNo < SummaryColumns
      modifies this
      ensures (column, isDefault) == Toggle(old(column), old(isDefault), columnNo, useDefaultSort)
      ensures rows == SortRows(old(rows), columnNo, isDefault)
    {
      if useDefaultSort {
        isDefault := true;
      } else {
        if column == columnNo {
          isDefault := !isDefault;
        } else {
          column := columnNo;
          isDefault := true;
        }
      }
      rows := SortRows(rows, columnNo, isDefault);
    }
  }

  // ---------------------------------------------------------------------------
  // Daily-stats dates

  /** The dates of the daily statistics, newest first (dates are `YYYY-MM-DD` text, whose
      text order is their date order). */
  function NewestFirst(dates: seq<string>): (r: seq<string>)
    ensures multiset(r) == multiset(dates)
    ensures forall i, j :: 0 <= i < j < |r| ==> StrLe(r[j], r[i])
  {
    var le := (a: string, b: string) => StrLe(b, a);
    assert TotalPreorder(le) by {
      forall x, y ensures le(x, y) || le(y, x) {
        StrLeTotal(x, y);
      }
      forall x, y, z | le(x, y) && le(y, z) ensures le(x, z) {
        StrLeTransitive(z, y, x);
      }
    }
    SortBy(dates, le)
  }
}
