/** The manual race logger (src/gui_logger.py): three fixed racers type a placement, a
    kart and a race time; a save checks the inputs, lowers the per-map best times and
    personal bests, appends the race to the results log and reports the race numbers.

    Python's `int()` and `float()` are modelled on ASCII text (optional surrounding
    whitespace and sign, decimal digits, for `int()` single underscores between digits,
    for `float()` one decimal point); times are compared as exact reals. A save that
    raises (a time `float()` cannot read, a map missing from the best-times table) writes
    nothing. */
module ManualLog {
  import opened Common

  const Racers: seq<string> := ["Azhan", "Raj", "Sameer"]

  /** The best time every map and racer starts with. */
  const StartingBest: string := "3:00.00"

  // ---------------------------------------------------------------------------
  // Number parsing

  /** Digits with single underscores between them, as `int()` accepts. */
  predicate UnderscoredDigits(u: string) {
    && |u| > 0 && IsDigit(u[0]) && IsDigit(u[|u| - 1])
    && (forall i :: 0 <= i < |u| ==> IsDigit(u[i]) || u[i] == '_')
    && (forall i :: 0 <= i < |u| - 1 ==> !(u[i] == '_' && u[i + 1] == '_'))
  }

  function DropUnderscores(u: string): (d: string)
    requires forall i :: 0 <= i < |u| ==> IsDigit(u[i]) || u[i] == '_'
    ensures AllDigits(d)
  {
    if u == [] then [] else DropUnderscores(u[..|u| - 1]) + (if u[|u| - 1] == '_' then [] else [u[|u| - 1]])
  }

  /** `int(s)`, or None where it raises `ValueError`. */
  function PyInt(s: string): Option<int> {
    var (sign, body) := Signed(Strip(s));
    if UnderscoredDigits(body) then Some(sign * DigitsValue(DropUnderscores(body))) else None
  }

  /** `time_to_seconds`: minutes and seconds around the one colon; None where it raises. */
  function Seconds(t: string): Option<real> {
    ClockReading(t, PyFloat)
  }

  /** The colon split of `time_to_seconds`, for a given reading of each part. */
  function ClockReading(t: string, float: string -> Option<real>): Option<real> {
    var parts := SplitOn(t, ':');
    if |parts| != 2 then None
    else match (float(parts[0]), float(parts[1]))
      case (Some(m), Some(s)) => Some(m * 60.0 + s)
      case _ => None
  }

  lemma {:induction false} SplitOnOnce(s: string, sep: char, k: nat)
    requires k < |s| && s[k] == sep && sep !in s[..k] && sep !in s[k + 1..]
    ensures SplitOn(s, sep) == [s[..k], s[k + 1..]]
  {
    if k == 0 {
      SplitOnNone(s[1..], sep);
    } else {
      assert s[1..][..k - 1] == s[1..k] && s[1..][k..] == s[k + 1..];
      assert forall c :: c in s[1..][..k - 1] ==> c in s[..k];
      SplitOnOnce(s[1..], sep, k - 1);
      assert [s[0]] + s[1..k] == s[..k];
    }
  }

  /** Text that starts and ends with a digit carries no sign and no surrounding blanks. */
  lemma PlainFloat(s: string)
    requires s != [] && IsDigit(s[0]) && IsDigit(s[|s| - 1])
    ensures PyFloat(s) == Unsigned(s)
  {
    assert Strip(s) == s by {
      StripPlain(s, IsSpace);
    }
    assert Signed(s) == (1, s);
  }

  lemma UnsignedDigit(a: char)
    requires IsDigit(a)
    ensures Unsigned([a]) == Some(DigitValue(a) as real)
  {
    assert LeadingCount([a], IsDigit) == 1 by {
      assert LeadingCount([a][1..], IsDigit) == 0;
    }
    assert DigitsValue([a]) == DigitValue(a) by {
      assert [a][..0] == [];
    }
  }

  lemma TwoLeadingDigits(b: char, c: char, d: char, e: char)
    requires IsDigit(b) && IsDigit(c)
    ensures LeadingCount([b, c, '.', d, e], IsDigit) == 2
  {
    var u := [b, c, '.', d, e];
    assert u[1..][1..] == ['.', d, e];
    assert LeadingCount(['.', d, e], IsDigit) == 0;
  }

  lemma UnsignedTwoDecimals(b: char, c: char, d: char, e: char)
    requires IsDigit(b) && IsDigit(c) && IsDigit(d) && IsDigit(e)
    ensures Unsigned([b, c, '.', d, e]) == Some(DigitsValue([b, c]) as real + DigitsValue([d, e]) as real / 100.0)
  {
    var u := [b, c, '.', d, e];
    TwoLeadingDigits(b, c, d, e);
    assert u[2] == '.' && AllDigits(u[3..]);
    assert Unsigned(u) == Some(DigitsValue(u[..2]) as real + DigitsValue(u[3..]) as real / Pow10(2) as real);
    assert u[..2] == [b, c] && u[3..] == [d, e];
    assert Pow10(2) == 100;
  }

  lemma FloatOneDigit(a: char)
    requires IsDigit(a)
    ensures PyFloat([a]) == Some(DigitValue(a) as real)
  {
    PlainFloat([a]);
    UnsignedDigit(a);
  }

  lemma FloatTwoDecimals(b: char, c: char, d: char, e: char)
    requires IsDigit(b) && IsDigit(c) && IsDigit(d) && IsDigit(e)
    ensures PyFloat([b, c, '.', d, e]) == Some(DigitsValue([b, c]) as real + DigitsValue([d, e]) as real / 100.0)
  {
    PlainFloat([b, c, '.', d, e]);
    UnsignedTwoDecimals(b, c, d, e);
  }

  lemma ReadingFromParts(t: string, x: string, y: string, float: string -> Option<real>, minutes: real, seconds: real)
    requires SplitOn(t, ':') == [x, y] && float(x) == Some(minutes) && float(y) == Some(seconds)
    ensures ClockReading(t, float) == Some(minutes * 60.0 + seconds)
  {
  }

  lemma ClockParts(a: char, b: char, c: char, d: char, e: char)
    ensures SplitOn([a, ':', b, c, '.', d, e], ':') == [[a], [b, c, '.', d, e]]
    requires IsDigit(a) && IsDigit(b) && IsDigit(c) && IsDigit(d) && IsDigit(e)
  {
    var s := [a, ':', b, c, '.', d, e];
    assert ':' !in s[..1] && ':' !in s[2..];
    SplitOnOnce(s, ':', 1);
    assert s[..1] == [a] && s[2..] == [b, c, '.', d, e];
  }

  /** A clock time `M:SS.hh` reads as M minutes and SS.hh seconds, whatever reads the
      two parts (for `Seconds`, FloatOneDigit and FloatTwoDecimals give the readings). */
  lemma ClockSeconds(a: char, b: char, c: char, d: char, e: char, float: Reader, minutes: real, seconds: real)
    requires IsDigit(a) && IsDigit(b) && IsDigit(c) && IsDigit(d) && IsDigit(e)
    requires float([a]) == Some(minutes) && float([b, c, '.', d, e]) == Some(seconds)
    ensures ClockReading([a, ':', b, c, '.', d, e], float) == Some(minutes * 60.0 + seconds)
  {
    ClockParts(a, b, c, d, e);
    ReadingFromParts([a, ':', b, c, '.', d, e], [a], [b, c, '.', d, e], float, minutes, seconds);
  }

  // ---------------------------------------------------------------------------
  // `validate_inputs`

  datatype InputProblem = EmptyPlacement | NotANumber | OutOfRange | NoKart | NoTime

  function ValidateInputs(placement: string, kart: string, time: string): Option<InputProblem> {
    if placement == "" then Some(EmptyPlacement)
    else match PyInt(placement)
      case None => Some(NotANumber)
      case Some(n) =>
        if n < 0 || n > 8 then Some(OutOfRange)
        else if n > 0 && (kart == SelectLabel || kart == "") then Some(NoKart)
        else if n > 0 && time == "" then Some(NoTime)
        else None
  }

  /** Inputs pass exactly when the placement reads as 0 to 8 and, for 1 to 8, a kart is
      chosen and a time typed; placement 0 (did not race) needs neither. */
  lemma ValidateInputsMeaning(placement: string, kart: string, time: string)
    ensures ValidateInputs(placement, kart, time).None? <==>
      && PyInt(placement).Some? && 0 <= PyInt(placement).value <= 8
      && (PyInt(placement).value > 0 ==> kart != SelectLabel && kart != "" && time != "")
    ensures PyInt(placement) == Some(0) ==> ValidateInputs(placement, kart, time).None?
  {
    if placement == "" {
      assert Strip(placement) == "";
    }
  }

  // ---------------------------------------------------------------------------
  // Best times (the update loop of `save_data`)

  /** One map's row of the best-times table: its record and each racer's best. */
  datatype MapBests = MapBests(best: string, pbs: map<string, string>)

  /** `initialize_csvs`: every map starts at three minutes, overall and per racer. */
  function InitialBests(maps: seq<string>): (t: map<string, MapBests>)
    ensures forall m :: m in t <==> m in maps
    ensures forall m :: m in t ==> t[m].best == StartingBest
    ensures forall m, p :: m in t && p in Racers ==> p in t[m].pbs && t[m].pbs[p] == StartingBest
  {
    map m | m in maps :: MapBests(StartingBest, map p | p in Racers :: StartingBest)
  }

  /** Reading a time as seconds: `time_to_seconds` in the logger, None where it raises.
      The update loop is stated for any such reader. */
  type Reader = string -> Option<real>

  predicate Parsed(ts: Reader, t: string) { ts(t).Some? }

  function Sec(ts: Reader, t: string): real {
    match ts(t) case Some(v) => v case None => 0.0
  }

  /** A time that the loop looks at: neither empty nor "DNR". */
  predicate Timed(t: string) { t != "" && t != "DNR" }

  /** The loop's variables: the table, the racers with a new personal best, whether the
      map record fell. */
  datatype Progress = Progress(table: map<string, MapBests>, newPb: set<string>, newRecord: bool)

  /** One racer's time on map `m`: a strictly faster time replaces the racer's best,
      then a strictly faster time replaces the map's record. */
  function BestStep(pr: Progress, m: string, player: string, time: string, ts: Reader): Option<Progress> {
    if !Timed(time) then Some(pr)
    else if m !in pr.table || player !in pr.table[m].pbs then None
    else
      var row := pr.table[m];
      if !Parsed(ts, time) || !Parsed(ts, row.pbs[player]) then None
      else
        var pr1 := if Sec(ts, time) < Sec(ts, row.pbs[player])
          then Progress(pr.table[m := row.(pbs := row.pbs[player := time])], pr.newPb + {player}, pr.newRecord)
          else pr;
        var row1 := pr1.table[m];
        if !Parsed(ts, row1.best) then None
        else if Sec(ts, time) < Sec(ts, row1.best) then Some(Progress(pr1.table[m := row1.(best := time)], pr1.newPb, true))
        else Some(pr1)
  }

  function RecordAll(pr: Progress, m: string, entries: seq<(string, string)>, ts: Reader): Option<Progress> {
    if entries == [] then Some(pr)
    else match RecordAll(pr, m, entries[..|entries| - 1], ts)
      case None => None
      case Some(p) => BestStep(p, m, entries[|entries| - 1].0, entries[|entries| - 1].1, ts)
  }

  function Record(table: map<string, MapBests>, m: string, entries: seq<(string, string)>, ts: Reader): Option<Progress> {
    RecordAll(Progress(table, {}, false), m, entries, ts)
  }

  predicate AnyTimed(entries: seq<(string, string)>) {
    exists i :: 0 <= i < |entries| && Timed(entries[i].1)
  }

  /** One step touches only map `m`'s row, and only when the time is typed. */
  lemma BestStepFrame(pr: Progress, m: string, player: string, time: string, ts: Reader)
    requires BestStep(pr, m, player, time, ts).Some?
    ensures var t := BestStep(pr, m, player, time, ts).value.table;
      t.Keys == pr.table.Keys && forall k :: k in pr.table && k != m ==> t[k] == pr.table[k]
    ensures !Timed(time) ==> BestStep(pr, m, player, time, ts).value == pr
    ensures Timed(time) ==> m in pr.table
  {
  }

  /** Only the chosen map's row can change, and without a typed time nothing does. */
  lemma {:induction false} RecordOtherMaps(table: map<string, MapBests>, m: string, entries: seq<(string, string)>, ts: Reader)
    requires Record(table, m, entries, ts).Some?
    ensures var t := Record(table, m, entries, ts).value.table;
      t.Keys == table.Keys && forall k :: k in table && k != m ==> t[k] == table[k]
    ensures !AnyTimed(entries) ==> Record(table, m, entries, ts).value == Progress(table, {}, false)
    ensures AnyTimed(entries) ==> m in table
  {
    if entries != [] {
      var front := entries[..|entries| - 1];
      RecordOtherMaps(table, m, front, ts);
      var e := entries[|entries| - 1];
      BestStepFrame(Record(table, m, front, ts).value, m, e.0, e.1, ts);
      assert forall i :: 0 <= i < |front| ==> front[i] == entries[i];
      assert AnyTimed(front) ==> AnyTimed(entries);
      assert !AnyTimed(entries) ==> !AnyTimed(front) && !Timed(entries[|entries| - 1].1);
    }
  }

  /** The record after a save: it never rises, it falls exactly when the save reports a new
      record, and it is no slower than any time of the save. */
  predicate RecordFacts(old_: MapBests, new_: MapBests, newRecord: bool, entries: seq<(string, string)>, ts: Reader) {
    && Parsed(ts, old_.best) && Parsed(ts, new_.best)
    && Sec(ts, new_.best) <= Sec(ts, old_.best)
    && (newRecord <==> Sec(ts, new_.best) < Sec(ts, old_.best))
    && (new_.best == old_.best || exists i :: 0 <= i < |entries| && new_.best == entries[i].1)
    && (forall i :: 0 <= i < |entries| && Timed(entries[i].1) ==> Parsed(ts, entries[i].1) && Sec(ts, new_.best) <= Sec(ts, entries[i].1))
  }

  /** A typed time on map `m` replaces the map's record exactly when it is strictly faster. */
  lemma BestStepRecord(pr: Progress, m: string, player: string, time: string, ts: Reader)
    requires Timed(time) && BestStep(pr, m, player, time, ts).Some?
    ensures m in pr.table && Parsed(ts, time) && Parsed(ts, pr.table[m].best)
    ensures var r := BestStep(pr, m, player, time, ts).value;
      && m in r.table && Parsed(ts, r.table[m].best)
      && r.table[m].best == (if Sec(ts, time) < Sec(ts, pr.table[m].best) then time else pr.table[m].best)
      && r.newRecord == (pr.newRecord || Sec(ts, time) < Sec(ts, pr.table[m].best))
  {
    var row := pr.table[m];
    var pr1 := if Sec(ts, time) < Sec(ts, row.pbs[player])
      then Progress(pr.table[m := row.(pbs := row.pbs[player := time])], pr.newPb + {player}, pr.newRecord)
      else pr;
    assert pr1.table[m].best == row.best && pr1.newRecord == pr.newRecord;
  }

  lemma {:induction false} RecordBest(table: map<string, MapBests>, m: string, entries: seq<(string, string)>, ts: Reader)
    requires Record(table, m, entries, ts).Some? && AnyTimed(entries)
    ensures m in table && m in Record(table, m, entries, ts).value.table
    ensures RecordFacts(table[m], Record(table, m, entries, ts).value.table[m], Record(table, m, entries, ts).value.newRecord, entries, ts)
  {
    var front, e := entries[..|entries| - 1], entries[|entries| - 1];
    RecordOtherMaps(table, m, entries, ts);
    assert Record(table, m, front, ts).Some?;
    var p := Record(table, m, front, ts).value;
    var r := Record(table, m, entries, ts).value;
    assert r == BestStep(p, m, e.0, e.1, ts).value;
    assert forall i :: 0 <= i < |front| ==> front[i] == entries[i];
    if AnyTimed(front) {
      RecordBest(table, m, front, ts);
      if Timed(e.1) {
        BestStepRecord(p, m, e.0, e.1, ts);
      } else {
        BestStepFrame(p, m, e.0, e.1, ts);
      }
      assert (r.table[m].best == table[m].best || exists i :: 0 <= i < |entries| && r.table[m].best == entries[i].1) by {
        if r.table[m].best != table[m].best && r.table[m].best != e.1 {
          var i :| 0 <= i < |front| && p.table[m].best == front[i].1;
          assert r.table[m].best == entries[i].1;
        }
      }
    } else {
      RecordOtherMaps(table, m, front, ts);
      assert Timed(e.1);
      BestStepRecord(p, m, e.0, e.1, ts);
    }
  }

  /** A typed time replaces the racer's best on map `m` exactly when it is strictly
      faster; every other racer's best stays. */
  lemma BestStepPb(pr: Progress, m: string, player: string, time: string, q: string, ts: Reader)
    requires BestStep(pr, m, player, time, ts).Some? && m in pr.table
    ensures var r := BestStep(pr, m, player, time, ts).value;
      && m in r.table && r.table[m].pbs.Keys == pr.table[m].pbs.Keys
      && (q != player || !Timed(time) ==>
            (q in r.newPb <==> q in pr.newPb) && (q in pr.table[m].pbs ==> r.table[m].pbs[q] == pr.table[m].pbs[q]))
      && (q == player && Timed(time) ==>
            && q in pr.table[m].pbs && Parsed(ts, time) && Parsed(ts, pr.table[m].pbs[q])
            && r.table[m].pbs[q] == (if Sec(ts, time) < Sec(ts, pr.table[m].pbs[q]) then time else pr.table[m].pbs[q])
            && (q in r.newPb <==> q in pr.newPb || Sec(ts, time) < Sec(ts, pr.table[m].pbs[q])))
  {
  }

  /** A racer's best after a save: it never rises, the racer is reported exactly when it
      fell, and it is no slower than any time the racer typed in the save. */
  predicate PbFacts(old_: MapBests, new_: MapBests, newPb: set<string>, p: string, entries: seq<(string, string)>, ts: Reader) {
    && new_.pbs.Keys == old_.pbs.Keys
    && (p in newPb ==> p in old_.pbs && Parsed(ts, old_.pbs[p]) && Parsed(ts, new_.pbs[p]) && Sec(ts, new_.pbs[p]) < Sec(ts, old_.pbs[p]))
    && (p !in newPb && p in old_.pbs ==> new_.pbs[p] == old_.pbs[p])
    && (forall i :: 0 <= i < |entries| && entries[i].0 == p && Timed(entries[i].1) ==>
          p in new_.pbs && Parsed(ts, entries[i].1) && Parsed(ts, new_.pbs[p]) && Sec(ts, new_.pbs[p]) <= Sec(ts, entries[i].1))
  }

  lemma {:induction false} RecordPb(table: map<string, MapBests>, m: string, entries: seq<(string, string)>, p: string, ts: Reader)
    requires Record(table, m, entries, ts).Some? && m in table
    ensures var r := Record(table, m, entries, ts).value;
      m in r.table && PbFacts(table[m], r.table[m], r.newPb, p, entries, ts)
  {
    if entries == [] {
      return;
    }
    var front, e := entries[..|entries| - 1], entries[|entries| - 1];
    assert Record(table, m, front, ts).Some?;
    var pr := Record(table, m, front, ts).value;
    var r := Record(table, m, entries, ts).value;
    assert r == BestStep(pr, m, e.0, e.1, ts).value;
    assert forall i :: 0 <= i < |front| ==> front[i] == entries[i];
    RecordPb(table, m, front, p, ts);
    BestStepPb(pr, m, e.0, e.1, p, ts);
  }

  // ---------------------------------------------------------------------------
  // Race numbers

  /** `daily_races` and `total_races`: the new race's number today and overall. */
  function RaceNumbers(dates: seq<string>, today: string): (nat, nat) {
    (Count(dates, d => d == today) + 1, |dates| + 1)
  }

  lemma {:induction false} CountAppend(dates: seq<string>, today: string)
    ensures Count(dates + [today], d => d == today) == Count(dates, d => d == today) + 1
  {
    assert (dates + [today])[..|dates|] == dates;
  }

  /** The new race is today's race number `daily` once appended, and `daily` never exceeds
      the overall number. */
  lemma RaceNumbersMeaning(dates: seq<string>, today: string)
    ensures var (daily, total) := RaceNumbers(dates, today);
      && 1 <= daily <= total
      && daily == Count(dates + [today], d => d == today)
      && total == |dates + [today]|
  {
    CountAppend(dates, today);
  }

  // ---------------------------------------------------------------------------
  // `save_data`

  datatype RacerInput = RacerInput(placement: string, kart: string, time: string)

  datatype LogRow = LogRow(date: string, clock: string, mapName: string, inputs: seq<RacerInput>)

  datatype Status =
    | MapMissing
    | Rejected(problem: InputProblem)
    | Raised
    | Logged(daily: nat, total: nat, newPb: set<string>, newRecord: bool)

  /** The first racer's problem, in form order. */
  function FirstProblem(inputs: seq<RacerInput>): Option<InputProblem> {
    if inputs == [] then None
    else match ValidateInputs(inputs[0].placement, inputs[0].kart, inputs[0].time)
      case Some(p) => Some(p)
      case None => FirstProblem(inputs[1..])
  }

  function Timings(inputs: seq<RacerInput>): (e: seq<(string, string)>)
    requires |inputs| == |Racers|
  {
    [(Racers[0], inputs[0].time), (Racers[1], inputs[1].time), (Racers[2], inputs[2].time)]
  }

  /** The logger's files: the best-times table and the results log. */
  class Logger {
    var bests: map<string, MapBests>
    var log: seq<LogRow>

    /** A fresh logger: every map at the starting best, an empty log. */
    constructor (maps: seq<string>)
      ensures bests == InitialBests(maps) && log == []
    {
      bests := InitialBests(maps);
      log := [];
    }

    /** `save_data`: the map, then each racer's inputs, are checked; the best times are
        updated and the race appended; if a time cannot be read nothing is written. */
    method SaveData(mapName: string, inputs: seq<RacerInput>, date: string, clock: string) returns (status: Status)
      requires |inputs| == |Racers|
      modifies this
      ensures status.MapMissing? <==> mapName == SelectLabel || mapName == ""
      ensures status.Rejected? <==> mapName != SelectLabel && mapName != "" && FirstProblem(inputs).Some?
      ensures status.Rejected? ==> FirstProblem(inputs) == Some(status.problem)
      ensures status.Raised? <==>
        && mapName != SelectLabel && mapName != "" && FirstProblem(inputs).None?
        && Record(old(bests), mapName, Timings(inputs), Seconds).None?
      ensures !status.Logged? ==> unchanged(this)
      ensures status.Logged? ==>
        && mapName != SelectLabel && mapName != "" && FirstProblem(inputs).None?
        && Record(old(bests), mapName, Timings(inputs), Seconds)
             == Some(Progress(bests, status.newPb, status.newRecord))
        && log == old(log) + [LogRow(date, clock, mapName, inputs)]
        && (status.daily, status.total) == RaceNumbers(LogDates(old(log)), date)
      ensures (mapName != SelectLabel && mapName != "" && FirstProblem(inputs).None? &&
               Record(old(bests), mapName, Timings(inputs), Seconds).Some?) ==> status.Logged?
    {
      if mapName == SelectLabel || mapName == "" {
        return MapMissing;
      }
      var problem := CheckInputs(inputs);
      if problem.Some? {
        return Rejected(problem.value);
      }
      var next := UpdateBests(bests, mapName, Timings(inputs), Seconds);
      if next.None? {
        return Raised;
      }
      var numbers := RaceNumbers(LogDates(log), date);
      bests := next.value.table;
      log := log + [LogRow(date, clock, mapName, inputs)];
      return Logged(numbers.0, numbers.1, next.value.newPb, next.value.newRecord);
    }
  }

  /** The validation loop of `save_data`: the first racer whose inputs fail stops it. */
  method CheckInputs(inputs: seq<RacerInput>) returns (problem: Option<InputProblem>)
    ensures problem == FirstProblem(inputs)
  {
    var k := 0;
    while k < |inputs|
      invariant 0 <= k <= |inputs|
      invariant FirstProblem(inputs) == FirstProblem(inputs[k..])
    {
      assert inputs[k..][1..] == inputs[k + 1..];
      problem := ValidateInputs(inputs[k].placement, inputs[k].kart, inputs[k].time);
      if problem.Some? {
        return;
      }
      k := k + 1;
    }
    return None;
  }

  /** The best-times loop of `save_data` over the racers' times on map `m`; None where
      reading a time raises. */
  method UpdateBests(bests: map<string, MapBests>, m: string, timings: seq<(string, string)>, ts: Reader)
    returns (next: Option<Progress>)
    ensures next == Record(bests, m, timings, ts)
  {
    var table := bests;
    var newPb: set<string> := {};
    var newRecord := false;
    var i := 0;
    while i < |timings|
      invariant 0 <= i <= |timings|
      invariant Record(bests, m, timings[..i], ts) == Some(Progress(table, newPb, newRecord))
    {
      assert timings[..i + 1][..i] == timings[..i];
      var (player, time) := timings[i];
      var step := BestStep(Progress(table, newPb, newRecord), m, player, time, ts);
      if step.None? {
        RecordFails(bests, m, timings, i + 1, ts);
        return None;
      }
      table, newPb, newRecord := step.value.table, step.value.newPb, step.value.newRecord;
      i := i + 1;
    }
    assert timings[..i] == timings;
    return Some(Progress(table, newPb, newRecord));
  }

  function LogDates(log: seq<LogRow>): (d: seq<string>)
    ensures |d| == |log| && forall i :: 0 <= i < |log| ==> d[i] == log[i].date
  {
    seq(|log|, i requires 0 <= i < |log| => log[i].date)
  }

  /** Once a step raises, the whole update raises. */
  lemma {:induction false} RecordFails(table: map<string, MapBests>, m: string, entries: seq<(string, string)>, k: nat, ts: Reader)
    requires k <= |entries| && RecordAll(Progress(table, {}, false), m, entries[..k], ts).None?
    ensures Record(table, m, entries, ts).None?
    decreases |entries| - k
  {
    if k < |entries| {
      assert entries[..k + 1][..k] == entries[..k];
      RecordFails(table, m, entries, k + 1, ts);
    } else {
      assert entries[..k] == entries;
    }
  }
}
