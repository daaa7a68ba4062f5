/** The race-entry form shared by the two OCR loggers (src/gui_OCR_logger.py and
    src/gui_img_recognition_logger.py carry the same code): the per-player validation
    and the checks `save_data` makes before it writes one results row, with "DNR" for
    every roster player left out of the race.

    The eight form lines are the input sequence; the clock's date and time are
    parameters. A race time that passes validation has the form M:SS.xx, so its value
    is kept exactly in hundredths of a second. */
module EntryForm {
  import opened Common
  import OcrParse

  /** One line of the form: the four widgets' texts. */
  datatype Entry = Entry(player: string, placement: string, kart: string, time: string)

  datatype Problem = BadPlacement(player: string) | NoKart(player: string) | BadTime(player: string)

  // ---------------------------------------------------------------------------
  // Validation of one line (`validate_player_inputs`)

  /** A string of digits, as `str.isdigit` accepts, worth 1 to 8. */
  predicate PlacementOk(s: string) {
    s != SelectLabel && IsDigitText(s) && 1 <= DigitsValue(s) <= 8
  }

  /** `\d:[0-5]\d\.\d{2}` on exactly seven characters. */
  predicate IsClock(s: string) {
    && |s| == 7 && IsDigit(s[0]) && s[1] == ':' && '0' <= s[2] <= '5' && IsDigit(s[3])
    && s[4] == '.' && IsDigit(s[5]) && IsDigit(s[6])
  }

  /** `re.match(r"^\d:[0-5]\d\.\d{2}$", s)`: Python's `$` also matches before one final
      line feed. */
  predicate RaceTimeOk(s: string) {
    s != "" && (IsClock(s) || (|s| == 8 && IsClock(s[..7]) && s[7] == '\n'))
  }

  /** The first rule a line breaks, if any; a line without a player is never checked. */
  function Validate(e: Entry): Option<Problem> {
    if e.player == SelectLabel then None
    else if !PlacementOk(e.placement) then Some(BadPlacement(e.player))
    else if e.kart == SelectLabel then Some(NoKart(e.player))
    else if !RaceTimeOk(e.time) then Some(BadTime(e.player))
    else None
  }

  /** A line that names a player and passes every rule. */
  predicate ValidEntry(e: Entry) {
    e.player != SelectLabel && PlacementOk(e.placement) && e.kart != SelectLabel && RaceTimeOk(e.time)
  }

  /** Validation passes a line with a player exactly when it is a valid entry, and it
      reports the placement before the kart and the kart before the time. */
  lemma ValidateMeaning(e: Entry)
    requires e.player != SelectLabel
    ensures Validate(e).None? <==> ValidEntry(e)
    ensures !PlacementOk(e.placement) ==> Validate(e) == Some(BadPlacement(e.player))
    ensures PlacementOk(e.placement) && e.kart == SelectLabel ==> Validate(e) == Some(NoKart(e.player))
  {
  }

  /** A race time in hundredths: `float(minutes) * 60 + float(seconds)`, exact for
      a validated M:SS.xx time. */
  function Centis(s: string): (c: nat)
    requires RaceTimeOk(s)
    ensures c < 60000
  {
    DigitValue(s[0]) * 6000 + (DigitValue(s[2]) * 10 + DigitValue(s[3])) * 100
      + DigitValue(s[5]) * 10 + DigitValue(s[6])
  }

  /** Different accepted times have different values, so comparing values compares
      the times themselves. */
  lemma CentisInjective(a: string, b: string)
    requires IsClock(a) && IsClock(b) && Centis(a) == Centis(b)
    ensures a == b
  {
    assert DigitValue(a[2]) <= 5 && DigitValue(b[2]) <= 5;
    assert DigitValue(a[0]) == DigitValue(b[0]);
    assert DigitValue(a[2]) == DigitValue(b[2]) && DigitValue(a[3]) == DigitValue(b[3]);
    assert DigitValue(a[5]) == DigitValue(b[5]) && DigitValue(a[6]) == DigitValue(b[6]);
    forall i | 0 <= i < 7
      ensures a[i] == b[i]
    {
    }
  }

  // ---------------------------------------------------------------------------
  // Collecting the selected players (the first loop of `save_data`)

  datatype SaveError =
    | NoMap
    | Duplicate(player: string)
    | Invalid(problem: Problem)
    | PlacementTaken(placement: string)
    | NoneSelected
    | SlowerAhead(better: int, betterTime: int, worse: int, worseTime: int)

  function Names(ws: seq<Entry>): (n: seq<string>)
    ensures |n| == |ws| && forall k :: 0 <= k < |ws| ==> n[k] == ws[k].player
  {
    seq(|ws|, k requires 0 <= k < |ws| => ws[k].player)
  }

  function PlacementsOf(sel: seq<Entry>): set<string> {
    set e | e in sel :: e.placement
  }

  /** The loop over the form's lines: a player named twice, a line that breaks a rule or
      a placement already taken stops it; lines without a player are skipped. */
  function Collect(ws: seq<Entry>): (r: Result<seq<Entry>, SaveError>)
    ensures r.Ok? ==> AllValid(r.value)
  {
    if ws == [] then Ok([])
    else
      var front, w := ws[..|ws| - 1], ws[|ws| - 1];
      match Collect(front)
      case Err(e) => Err(e)
      case Ok(sel) => Admit(sel, front, w)
  }

  /** One pass of the loop: line `w` after the lines `front`, which selected `sel`. */
  function Admit(sel: seq<Entry>, front: seq<Entry>, w: Entry): (r: Result<seq<Entry>, SaveError>)
    ensures r.Ok? ==> r.value == sel || (r.value == sel + [w] && ValidEntry(w))
  {
    if w.player in Names(front) && w.player != SelectLabel then Err(Duplicate(w.player))
    else if w.player == SelectLabel then Ok(sel)
    else if Validate(w).Some? then Err(Invalid(Validate(w).value))
    else if w.placement in PlacementsOf(sel) then Err(PlacementTaken(w.placement))
    else Ok(sel + [w])
  }

  lemma CollectLast(ws: seq<Entry>)
    requires ws != [] && Collect(ws[..|ws| - 1]).Ok?
    ensures Collect(ws) == Admit(Collect(ws[..|ws| - 1]).value, ws[..|ws| - 1], ws[|ws| - 1])
  {
  }

  predicate AllValid(sel: seq<Entry>) {
    forall k :: 0 <= k < |sel| ==> ValidEntry(sel[k])
  }

  /** The lines that name a player, in form order. */
  function Chosen(ws: seq<Entry>): seq<Entry> {
    if ws == [] then []
    else Chosen(ws[..|ws| - 1]) + (if ws[|ws| - 1].player != SelectLabel then [ws[|ws| - 1]] else [])
  }

  /** Line `j` passes the loop: it names no player, or it is valid and neither its player
      nor its placement appears on an earlier line that names a player. */
  predicate LineOk(ws: seq<Entry>, j: nat)
    requires j < |ws|
  {
    ws[j].player != SelectLabel ==>
      && ValidEntry(ws[j])
      && (forall i :: 0 <= i < j ==> ws[i].player != ws[j].player)
      && (forall i :: 0 <= i < j && ws[i].player != SelectLabel ==> ws[i].placement != ws[j].placement)
  }

  /** What a form must satisfy for the loop to pass: no player on two lines, every line
      with a player valid, no placement on two such lines. */
  predicate Acceptable(ws: seq<Entry>) {
    forall j :: 0 <= j < |ws| ==> LineOk(ws, j)
  }

  lemma AcceptableSplit(ws: seq<Entry>)
    requires ws != []
    ensures Acceptable(ws) <==> Acceptable(ws[..|ws| - 1]) && LineOk(ws, |ws| - 1)
  {
    var front := ws[..|ws| - 1];
    forall j | 0 <= j < |front|
      ensures LineOk(ws, j) <==> LineOk(front, j)
    {
      assert forall i :: 0 <= i <= j ==> ws[i] == front[i];
    }
  }

  lemma {:induction false} ChosenMembers(ws: seq<Entry>, e: Entry)
    ensures e in Chosen(ws) <==> exists i :: 0 <= i < |ws| && ws[i] == e && e.player != SelectLabel
  {
    if ws != [] {
      var front, last := ws[..|ws| - 1], ws[|ws| - 1];
      var tail := if last.player != SelectLabel then [last] else [];
      assert Chosen(ws) == Chosen(front) + tail;
      assert e in Chosen(ws) <==> e in Chosen(front) || e in tail;
      ChosenMembers(front, e);
      if exists i :: 0 <= i < |ws| && ws[i] == e && e.player != SelectLabel {
        var i :| 0 <= i < |ws| && ws[i] == e && e.player != SelectLabel;
        if i < |front| {
          assert front[i] == e;
        } else {
          assert e in tail;
        }
      }
      if e in Chosen(front) {
        var i :| 0 <= i < |front| && front[i] == e && e.player != SelectLabel;
        assert ws[i] == e;
      } else if e in tail {
        assert ws[|ws| - 1] == e;
      }
    }
  }

  lemma PlacementsOfChosen(ws: seq<Entry>, x: string)
    ensures x in PlacementsOf(Chosen(ws)) <==> exists i :: 0 <= i < |ws| && ws[i].player != SelectLabel && ws[i].placement == x
  {
    if x in PlacementsOf(Chosen(ws)) {
      var e :| e in Chosen(ws) && e.placement == x;
      ChosenMembers(ws, e);
    }
    if exists i :: 0 <= i < |ws| && ws[i].player != SelectLabel && ws[i].placement == x {
      var i :| 0 <= i < |ws| && ws[i].player != SelectLabel && ws[i].placement == x;
      ChosenMembers(ws, ws[i]);
    }
  }

  /** The loop passes exactly the acceptable forms, and then yields the lines that name a
      player, in order. */
  lemma {:induction false} CollectMeaning(ws: seq<Entry>)
    ensures Collect(ws).Ok? <==> Acceptable(ws)
    ensures Collect(ws).Ok? ==> Collect(ws).value == Chosen(ws)
  {
    if ws != [] {
      CollectMeaning(ws[..|ws| - 1]);
      AcceptableSplit(ws);
      if Collect(ws[..|ws| - 1]).Ok? {
        CollectStep(ws);
      }
    }
  }

  /** The loop's last line, given that the others passed. */
  lemma CollectStep(ws: seq<Entry>)
    requires ws != [] && Collect(ws[..|ws| - 1]) == Ok(Chosen(ws[..|ws| - 1]))
    ensures Collect(ws).Ok? <==> LineOk(ws, |ws| - 1)
    ensures Collect(ws).Ok? ==> Collect(ws).value == Chosen(ws)
  {
    var front, w, n := ws[..|ws| - 1], ws[|ws| - 1], |ws| - 1;
    if w.player == SelectLabel {
      assert Collect(ws) == Ok(Chosen(front)) && Chosen(ws) == Chosen(front);
    } else if exists i :: 0 <= i < n && ws[i].player == w.player {
      DuplicateStops(ws);
    } else {
      NewPlayerStep(ws);
    }
  }

  lemma DuplicateStops(ws: seq<Entry>)
    requires ws != [] && Collect(ws[..|ws| - 1]).Ok? && ws[|ws| - 1].player != SelectLabel
    requires exists i :: 0 <= i < |ws| - 1 && ws[i].player == ws[|ws| - 1].player
    ensures Collect(ws).Err? && !LineOk(ws, |ws| - 1)
  {
    var i :| 0 <= i < |ws| - 1 && ws[i].player == ws[|ws| - 1].player;
    NamedBefore(ws, i);
    CollectLast(ws);
  }

  lemma NamedBefore(ws: seq<Entry>, i: nat)
    requires i < |ws| - 1 && ws[i].player == ws[|ws| - 1].player && ws[i].player != SelectLabel
    ensures ws[|ws| - 1].player in Names(ws[..|ws| - 1]) && !LineOk(ws, |ws| - 1)
  {
    var front := ws[..|ws| - 1];
    assert front[i] == ws[i];
    assert Names(front)[i] == ws[i].player;
  }

  /** A line naming a player not seen before. */
  lemma NewPlayerStep(ws: seq<Entry>)
    requires ws != [] && Collect(ws[..|ws| - 1]) == Ok(Chosen(ws[..|ws| - 1])) && ws[|ws| - 1].player != SelectLabel
    requires forall i :: 0 <= i < |ws| - 1 ==> ws[i].player != ws[|ws| - 1].player
    ensures Collect(ws).Ok? <==> LineOk(ws, |ws| - 1)
    ensures Collect(ws).Ok? ==> Collect(ws).value == Chosen(ws)
  {
    var front, w := ws[..|ws| - 1], ws[|ws| - 1];
    assert w.player !in Names(front);
    CollectLast(ws);
    ValidateMeaning(w);
    if ValidEntry(w) {
      if w.placement in PlacementsOf(Chosen(front)) {
        TakenStops(ws);
      } else {
        AcceptLine(ws);
      }
    }
  }

  lemma TakenStops(ws: seq<Entry>)
    requires ws != [] && Collect(ws[..|ws| - 1]) == Ok(Chosen(ws[..|ws| - 1]))
    requires ws[|ws| - 1].player !in Names(ws[..|ws| - 1]) && ValidEntry(ws[|ws| - 1])
    requires ws[|ws| - 1].placement in PlacementsOf(Chosen(ws[..|ws| - 1]))
    ensures Collect(ws) == Err(PlacementTaken(ws[|ws| - 1].placement))
    ensures !LineOk(ws, |ws| - 1)
  {
    CollectTaken(ws, Chosen(ws[..|ws| - 1]));
    TakenBreaksLine(ws);
  }

  lemma CollectTaken(ws: seq<Entry>, sel: seq<Entry>)
    requires ws != [] && Collect(ws[..|ws| - 1]) == Ok(sel)
    requires ws[|ws| - 1].player !in Names(ws[..|ws| - 1]) && ValidEntry(ws[|ws| - 1])
    requires ws[|ws| - 1].placement in PlacementsOf(sel)
    ensures Collect(ws) == Err(PlacementTaken(ws[|ws| - 1].placement))
  {
  }

  lemma TakenBreaksLine(ws: seq<Entry>)
    requires ws != [] && ws[|ws| - 1].player != SelectLabel
    requires ws[|ws| - 1].placement in PlacementsOf(Chosen(ws[..|ws| - 1]))
    ensures !LineOk(ws, |ws| - 1)
  {
    var front, w, n := ws[..|ws| - 1], ws[|ws| - 1], |ws| - 1;
    var e :| e in Chosen(front) && e.placement == w.placement;
    ChosenMembers(front, e);
    var i :| 0 <= i < n && front[i] == e && e.player != SelectLabel;
    assert ws[i] == front[i];
  }

  lemma AcceptLine(ws: seq<Entry>)
    requires ws != [] && Collect(ws[..|ws| - 1]) == Ok(Chosen(ws[..|ws| - 1]))
    requires ws[|ws| - 1].player !in Names(ws[..|ws| - 1]) && ValidEntry(ws[|ws| - 1])
    requires forall i :: 0 <= i < |ws| - 1 ==> ws[i].player != ws[|ws| - 1].player
    requires ws[|ws| - 1].placement !in PlacementsOf(Chosen(ws[..|ws| - 1]))
    ensures Collect(ws) == Ok(Chosen(ws)) && LineOk(ws, |ws| - 1)
  {
    CollectAccepts(ws, Chosen(ws[..|ws| - 1]));
    AcceptedLineOk(ws);
  }

  lemma CollectAccepts(ws: seq<Entry>, sel: seq<Entry>)
    requires ws != [] && Collect(ws[..|ws| - 1]) == Ok(sel)
    requires ws[|ws| - 1].player !in Names(ws[..|ws| - 1]) && ValidEntry(ws[|ws| - 1])
    requires ws[|ws| - 1].placement !in PlacementsOf(sel)
    ensures Collect(ws) == Ok(sel + [ws[|ws| - 1]])
  {
  }

  lemma AcceptedLineOk(ws: seq<Entry>)
    requires ws != [] && ValidEntry(ws[|ws| - 1])
    requires forall i :: 0 <= i < |ws| - 1 ==> ws[i].player != ws[|ws| - 1].player
    requires ws[|ws| - 1].placement !in PlacementsOf(Chosen(ws[..|ws| - 1]))
    ensures LineOk(ws, |ws| - 1)
  {
    var front, w, n := ws[..|ws| - 1], ws[|ws| - 1], |ws| - 1;
    forall i | 0 <= i < n && ws[i].player != SelectLabel
      ensures ws[i].placement != w.placement
    {
      assert ws[i] == front[i];
      ChosenMembers(front, front[i]);
      assert front[i].placement in PlacementsOf(Chosen(front));
    }
  }

  /** Once a line stops the loop, later lines do not matter. */
  lemma {:induction false} CollectStops(ws: seq<Entry>, k: nat)
    requires k <= |ws| && Collect(ws[..k]).Err?
    ensures Collect(ws) == Collect(ws[..k])
    decreases |ws| - k
  {
    if k < |ws| {
      assert ws[..k + 1][..k] == ws[..k];
      CollectStops(ws, k + 1);
    } else {
      assert ws[..k] == ws;
    }
  }

  /** The first loop of `save_data`. */
  method CollectSelected(ws: seq<Entry>) returns (r: Result<seq<Entry>, SaveError>)
    ensures r == Collect(ws)
  {
    var seen: seq<string> := [];
    var used: set<string> := {};
    var sel: seq<Entry> := [];
    var i := 0;
    while i < |ws|
      invariant 0 <= i <= |ws|
      invariant Collect(ws[..i]) == Ok(sel)
      invariant seen == Names(ws[..i]) && used == PlacementsOf(sel)
    {
      assert ws[..i + 1][..i] == ws[..i];
      CollectLast(ws[..i + 1]);
      var next;
      next, used := AdmitLine(sel, ws[..i], seen, used, ws[i]);
      if next.Err? {
        CollectStops(ws, i + 1);
        return next;
      }
      sel := next.value;
      NamesLast(ws[..i + 1]);
      seen := seen + [ws[i].player];
      i := i + 1;
    }
    assert ws[..i] == ws;
    r := Ok(sel);
  }

  /** The loop body: the names seen so far and the placements taken stand in for the
      earlier lines. */
  method AdmitLine(sel: seq<Entry>, ghost front: seq<Entry>, seen: seq<string>, used: set<string>, w: Entry)
    returns (r: Result<seq<Entry>, SaveError>, used': set<string>)
    requires seen == Names(front) && used == PlacementsOf(sel)
    ensures r == Admit(sel, front, w)
    ensures r.Ok? ==> used' == PlacementsOf(r.value)
  {
    used' := used;
    if w.player in seen && w.player != SelectLabel {
      return Err(Duplicate(w.player)), used';
    }
    if w.player == SelectLabel {
      return Ok(sel), used';
    }
    var problem := Validate(w);
    if problem.Some? {
      return Err(Invalid(problem.value)), used';
    }
    if w.placement in used {
      return Err(PlacementTaken(w.placement)), used';
    }
    used' := used + {w.placement};
    r := Ok(sel + [w]);
    assert PlacementsOf(sel + [w]) == PlacementsOf(sel) + {w.placement} by {
      assert forall e :: e in sel + [w] <==> e in sel || e == w;
    }
  }

  lemma NamesLast(ws: seq<Entry>)
    requires ws != []
    ensures Names(ws) == Names(ws[..|ws| - 1]) + [ws[|ws| - 1].player]
  {
    var front := ws[..|ws| - 1];
    assert forall k :: 0 <= k < |front| ==> front[k] == ws[k];
  }

  // ---------------------------------------------------------------------------
  // Better placed, never slower (the second and third loops)

  /** (placement, time in hundredths) per selected player, in selection order. */
  function RaceOf(sel: seq<Entry>): (race: seq<(int, int)>)
    requires AllValid(sel)
    ensures |race| == |sel|
  {
    seq(|sel|, k requires 0 <= k < |sel| => (DigitsValue(sel[k].placement), Centis(sel[k].time)))
  }

  /** Player `a` finished ahead of player `b` with a slower time. */
  predicate Slower(race: seq<(int, int)>, a: nat, b: nat)
    requires a < |race| && b < |race|
  {
    a != b && race[a].0 < race[b].0 && race[a].1 > race[b].1
  }

  /** The inner loop: the first `m >= j` that `i` is ahead of yet slower than. */
  function FirstAgainst(race: seq<(int, int)>, i: nat, j: nat): (k: Option<nat>)
    requires i < |race| && j <= |race|
    ensures k.Some? ==> j <= k.value < |race| && Slower(race, i, k.value)
    ensures k.None? ==> forall m :: j <= m < |race| ==> !Slower(race, i, m)
    decreases |race| - j
  {
    if j == |race| then None else if Slower(race, i, j) then Some(j) else FirstAgainst(race, i, j + 1)
  }

  /** The outer loop: the first such pair in row order from `i`. */
  function FirstSlowerFrom(race: seq<(int, int)>, i: nat): (p: Option<(nat, nat)>)
    requires i <= |race|
    ensures p.Some? ==> i <= p.value.0 < |race| && p.value.1 < |race| && Slower(race, p.value.0, p.value.1)
    ensures p.None? ==> forall a, b :: i <= a < |race| && 0 <= b < |race| ==> !Slower(race, a, b)
    decreases |race| - i
  {
    if i == |race| then None
    else match FirstAgainst(race, i, 0)
      case Some(j) => Some((i, j))
      case None => FirstSlowerFrom(race, i + 1)
  }

  method FindSlower(race: seq<(int, int)>) returns (bad: Option<(nat, nat)>)
    ensures bad == FirstSlowerFrom(race, 0)
  {
    var i := 0;
    while i < |race|
      invariant 0 <= i <= |race|
      invariant FirstSlowerFrom(race, 0) == FirstSlowerFrom(race, i)
    {
      var j := 0;
      while j < |race|
        invariant 0 <= j <= |race|
        invariant FirstAgainst(race, i, 0) == FirstAgainst(race, i, j)
      {
        if i != j && race[i].0 < race[j].0 && race[i].1 > race[j].1 {
          return Some((i, j));
        }
        j := j + 1;
      }
      i := i + 1;
    }
    return None;
  }

  /** The loop that turns the selection into placements and times. */
  method RaceTimes(sel: seq<Entry>) returns (race: seq<(int, int)>)
    requires AllValid(sel)
    ensures race == RaceOf(sel)
  {
    race := [];
    var k := 0;
    while k < |sel|
      invariant 0 <= k <= |sel|
      invariant race == RaceOf(sel)[..k]
    {
      race := race + [(DigitsValue(sel[k].placement), Centis(sel[k].time))];
      k := k + 1;
    }
  }

  // ---------------------------------------------------------------------------
  // The row written (the DNR fill loop)

  datatype Field = PlacementField | KartField | TimeField

  /** A column of the results log: "Date", "Time", "Map Name", or "<player> <field>". */
  datatype Column = DateColumn | ClockColumn | MapColumn | PlayerColumn(player: string, field: Field)

  function FieldOf(e: Entry, f: Field): string {
    match f
    case PlacementField => e.placement
    case KartField => e.kart
    case TimeField => e.time
  }

  /** `selected_players[player]`: the line of a selected player. */
  function Lookup(sel: seq<Entry>, p: string): (e: Option<Entry>)
    ensures e.Some? ==> e.value in sel && e.value.player == p
    ensures e.None? ==> forall x :: x in sel ==> x.player != p
  {
    if sel == [] then None else if sel[0].player == p then Some(sel[0]) else Lookup(sel[1..], p)
  }

  /** What a player's column holds: the player's own entry, or "DNR" when not selected. */
  function CellFor(sel: seq<Entry>, p: string, f: Field): string {
    match Lookup(sel, p)
    case Some(e) => FieldOf(e, f)
    case None => "DNR"
  }

  function WritePlayer(row: map<Column, string>, sel: seq<Entry>, p: string): map<Column, string> {
    row[PlayerColumn(p, PlacementField) := CellFor(sel, p, PlacementField)]
       [PlayerColumn(p, KartField) := CellFor(sel, p, KartField)]
       [PlayerColumn(p, TimeField) := CellFor(sel, p, TimeField)]
  }

  function RowOf(date: string, clock: string, mapName: string, sel: seq<Entry>, roster: seq<string>): map<Column, string> {
    if roster == [] then map[DateColumn := date, ClockColumn := clock, MapColumn := mapName]
    else WritePlayer(RowOf(date, clock, mapName, sel, roster[..|roster| - 1]), sel, roster[|roster| - 1])
  }

  /** The row has the date, time and map, and for every roster player (and no one else)
      three columns: the player's own entry when selected, "DNR" otherwise. */
  lemma {:induction false} RowMeaning(date: string, clock: string, mapName: string, sel: seq<Entry>, roster: seq<string>, c: Column)
    ensures var row := RowOf(date, clock, mapName, sel, roster);
      && (c in row <==> !c.PlayerColumn? || c.player in roster)
      && (c == DateColumn ==> row[c] == date)
      && (c == ClockColumn ==> row[c] == clock)
      && (c == MapColumn ==> row[c] == mapName)
      && (c.PlayerColumn? && c.player in roster ==> row[c] == CellFor(sel, c.player, c.field))
  {
    if roster != [] {
      var front, last := roster[..|roster| - 1], roster[|roster| - 1];
      RowMeaning(date, clock, mapName, sel, front, c);
      assert forall p :: p in roster <==> p in front || p == last;
      var before := RowOf(date, clock, mapName, sel, front);
      var row := WritePlayer(before, sel, last);
      if c.PlayerColumn? && c.player == last {
        assert c in row && row[c] == CellFor(sel, c.player, c.field) by {
          match c.field
          case PlacementField =>
          case KartField =>
          case TimeField =>
        }
      } else {
        assert c in row <==> c in before;
        assert c in before ==> row[c] == before[c];
      }
    }
  }

  /** A selected player's columns hold that player's line; an unselected one's hold "DNR". */
  lemma CellForMeaning(sel: seq<Entry>, p: string, f: Field)
    ensures (exists e :: e in sel && e.player == p) ==> exists e :: e in sel && e.player == p && CellFor(sel, p, f) == FieldOf(e, f)
    ensures (forall e :: e in sel ==> e.player != p) ==> CellFor(sel, p, f) == "DNR"
  {
    if exists e :: e in sel && e.player == p {
      assert Lookup(sel, p).Some?;
    }
  }

  /** The DNR fill loop of `save_data`. */
  method FillRow(date: string, clock: string, mapName: string, sel: seq<Entry>, roster: seq<string>) returns (row: map<Column, string>)
    ensures row == RowOf(date, clock, mapName, sel, roster)
  {
    row := map[DateColumn := date, ClockColumn := clock, MapColumn := mapName];
    var k := 0;
    while k < |roster|
      invariant 0 <= k <= |roster|
      invariant row == RowOf(date, clock, mapName, sel, roster[..k])
    {
      assert roster[..k + 1][..k] == roster[..k];
      var p := roster[k];
      var entry := Lookup(sel, p);
      if entry.Some? {
        row := row[PlayerColumn(p, PlacementField) := entry.value.placement];
        row := row[PlayerColumn(p, KartField) := entry.value.kart];
        row := row[PlayerColumn(p, TimeField) := entry.value.time];
      } else {
        row := row[PlayerColumn(p, PlacementField) := "DNR"];
        row := row[PlayerColumn(p, KartField) := "DNR"];
        row := row[PlayerColumn(p, TimeField) := "DNR"];
      }
      k := k + 1;
    }
    assert roster[..k] == roster;
  }

  // ---------------------------------------------------------------------------
  // `save_data`

  datatype Outcome = Failed(error: SaveError) | Saved(row: map<Column, string>)

  function Save(mapName: string, ws: seq<Entry>, roster: seq<string>, date: string, clock: string): Outcome {
    if mapName == SelectLabel then Failed(NoMap)
    else match Collect(ws)
      case Err(e) => Failed(e)
      case Ok(sel) =>
        if sel == [] then Failed(NoneSelected)
        else
          var race := RaceOf(sel);
          match FirstSlowerFrom(race, 0)
          case Some(p) => Failed(SlowerAhead(race[p.0].0, race[p.0].1, race[p.1].0, race[p.1].1))
          case None => Saved(RowOf(date, clock, mapName, sel, roster))
  }

  /** `save_data`, given the map choice, the form's lines, the roster and the clock. */
  method SaveData(mapName: string, ws: seq<Entry>, roster: seq<string>, date: string, clock: string) returns (out: Outcome)
    ensures out == Save(mapName, ws, roster, date, clock)
  {
    if mapName == SelectLabel {
      return Failed(NoMap);
    }
    var collected := CollectSelected(ws);
    if collected.Err? {
      return Failed(collected.error);
    }
    var sel := collected.value;
    if sel == [] {
      return Failed(NoneSelected);
    }
    var race := RaceTimes(sel);
    var bad := FindSlower(race);
    if bad.Some? {
      var (i, j) := bad.value;
      return Failed(SlowerAhead(race[i].0, race[i].1, race[j].0, race[j].1));
    }
    var row := FillRow(date, clock, mapName, sel, roster);
    return Saved(row);
  }

  /** No one placed ahead of another selected player has a slower time. */
  predicate InOrder(sel: seq<Entry>) {
    forall a, b :: 0 <= a < |sel| && 0 <= b < |sel| && ValidEntry(sel[a]) && ValidEntry(sel[b]) ==>
      !(DigitsValue(sel[a].placement) < DigitsValue(sel[b].placement) && Centis(sel[a].time) > Centis(sel[b].time))
  }

  /** A race is saved exactly when a map is chosen, the form is acceptable, at least one
      player is selected and no better-placed player is slower; the row then holds the
      chosen map and the selected players' lines. */
  lemma SaveMeaning(mapName: string, ws: seq<Entry>, roster: seq<string>, date: string, clock: string)
    ensures Save(mapName, ws, roster, date, clock).Saved? <==>
      mapName != SelectLabel && Acceptable(ws) && Chosen(ws) != [] && InOrder(Chosen(ws))
    ensures Save(mapName, ws, roster, date, clock).Saved? ==>
      Save(mapName, ws, roster, date, clock).row == RowOf(date, clock, mapName, Chosen(ws), roster)
  {
    CollectMeaning(ws);
    if mapName != SelectLabel && Acceptable(ws) && Chosen(ws) != [] {
      var sel := Chosen(ws);
      var race := RaceOf(sel);
      if FirstSlowerFrom(race, 0).Some? {
        var p := FirstSlowerFrom(race, 0).value;
        assert Slower(race, p.0, p.1);
      } else {
        assert InOrder(sel) by {
          forall a, b | 0 <= a < |sel| && 0 <= b < |sel| && ValidEntry(sel[a]) && ValidEntry(sel[b])
            ensures !(DigitsValue(sel[a].placement) < DigitsValue(sel[b].placement) && Centis(sel[a].time) > Centis(sel[b].time))
          {
            assert !Slower(race, a, b);
          }
        }
      }
    }
  }
}
