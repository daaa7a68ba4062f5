/** The Elo replay of the kart-race log (src/calculations/elo_analysis.py).

    Races are replayed in file order over a fixed roster. In each race the roster
    players whose placement column exists and is not "DNR" take part; every ordered
    pair of distinct participants is compared and the first player's rating is
    updated IN PLACE, one comparison at a time, so later comparisons of the same race
    read ratings already changed by earlier ones. A participant's race count is raised
    once while the participants are collected and once more after the comparisons, so
    the K-factor is read at count 2n-1 in a player's n-th race. Peaks are running
    maxima and one tracker row is appended per race that had a participant.

    The expected score 1 / (1 + 10 ** ((b - a) / 400)) is floating-point arithmetic;
    the model takes it as a parameter `expected` and assumes nothing about it unless a
    lemma says so. */
module Elo {
  import opened Common

  const BaseElo: real := 1000.0
  const KFactorInitial: real := 40.0
  const KFactorAfter: real := 24.0

  /** The roster the replay is run with. */
  const DefaultPlayers: seq<string> :=
    ["Raj", "Azhan", "Sameer", "Zetaa", "Adi", "Dylan", "Parum", "EnderRobot", "Lynden"]

  function KFactor(raceCount: int): real {
    if raceCount <= 10 then KFactorInitial else KFactorAfter
  }

  /** A wins the comparison iff its placement is numerically lower. */
  function ActualScore(placementA: int, placementB: int): real {
    if placementA < placementB then 1.0 else 0.0
  }

  /** One row of the results log, as far as the replay reads it: a placement cell
      per player column that exists. */
  datatype Race = Race(date: string, time: string, mapName: string, placement: map<string, Cell<int>>)

  datatype Entry = Entry(player: string, placement: int)

  datatype TrackerRow = TrackerRow(date: string, time: string, mapName: string, elo: map<string, real>)

  datatype EloState = EloState(
    elo: map<string, real>,
    raceCount: map<string, nat>,
    peak: map<string, real>,
    tracker: seq<TrackerRow>)

  datatype PlayerRating = PlayerRating(peak: real, current: real)

  /** Every roster player, and no one else, has a rating, a count and a peak. */
  predicate WellFormed(roster: seq<string>, s: EloState) {
    s.elo.Keys == RosterSet(roster) && s.raceCount.Keys == RosterSet(roster) && s.peak.Keys == RosterSet(roster)
  }

  function Initial(roster: seq<string>): (s: EloState)
    ensures WellFormed(roster, s)
  {
    EloState(map p | p in roster :: BaseElo, map p | p in roster :: 0,
             map p | p in roster :: BaseElo, [])
  }

  /** The roster player's column exists and does not hold "DNR". */
  predicate TakesPart(race: Race, p: string) {
    p in race.placement && race.placement[p] != DNR
  }

  /** Some taking-part cell is empty, so `int()` raises and the replay aborts. */
  predicate Unreadable(roster: seq<string>, race: Race) {
    exists p :: p in roster && p in race.placement && race.placement[p] == Blank
  }

  function Players(parts: seq<Entry>): (ps: seq<string>)
    ensures |ps| == |parts|
    ensures forall i :: 0 <= i < |parts| ==> ps[i] == parts[i].player
  {
    seq(|parts|, i requires 0 <= i < |parts| => parts[i].player)
  }

  /** The taking-part roster players, in roster order, with their placements. */
  function Participants(roster: seq<string>, race: Race): seq<Entry>
  {
    if roster == [] then []
    else
      var p := roster[|roster| - 1];
      var front := Participants(roster[..|roster| - 1], race);
      if p in race.placement && race.placement[p].Val? then front + [Entry(p, race.placement[p].v)]
      else front
  }

  /** Every participant is a roster player listed with the placement in its column. */
  lemma {:induction false} ParticipantsInRoster(roster: seq<string>, race: Race)
    ensures forall e :: e in Participants(roster, race) ==>
      e.player in roster && e.player in race.placement && race.placement[e.player] == Val(e.placement)
  {
    if roster != [] {
      ParticipantsInRoster(roster[..|roster| - 1], race);
      assert forall q :: q in roster[..|roster| - 1] ==> q in roster;
    }
  }

  /** Every roster player with a readable placement is a participant. */
  lemma {:induction false} ParticipantsComplete(roster: seq<string>, race: Race)
    ensures forall p :: p in roster && p in race.placement && race.placement[p].Val? ==>
      p in Players(Participants(roster, race))
  {
    if roster != [] {
      var p := roster[|roster| - 1];
      var front := Participants(roster[..|roster| - 1], race);
      ParticipantsComplete(roster[..|roster| - 1], race);
      assert forall q :: q in roster ==> q in roster[..|roster| - 1] || q == p;
      if p in race.placement && race.placement[p].Val? {
        assert Players(front + [Entry(p, race.placement[p].v)]) == Players(front) + [p];
      }
    }
  }

  /** A roster without repetitions lists each participant once. */
  lemma {:induction false} ParticipantsDistinct(roster: seq<string>, race: Race)
    requires Distinct(roster)
    ensures Distinct(Players(Participants(roster, race)))
  {
    if roster != [] {
      var p := roster[|roster| - 1];
      var front := Participants(roster[..|roster| - 1], race);
      ParticipantsDistinct(roster[..|roster| - 1], race);
      ParticipantsInRoster(roster[..|roster| - 1], race);
      if p in race.placement && race.placement[p].Val? {
        assert Players(front + [Entry(p, race.placement[p].v)]) == Players(front) + [p];
        forall k | 0 <= k < |front| ensures front[k].player != p {
          assert front[k] in front;
          var t :| 0 <= t < |roster| - 1 && roster[t] == front[k].player;
        }
      }
    }
  }

  predicate Known<V>(parts: seq<Entry>, m: map<string, V>) {
    forall e :: e in parts ==> e.player in m
  }

  /** The rating after one comparison: K times (actual - expected) is added. */
  function Adjusted(rating: real, k: real, actual: real, expectedScore: real): real {
    rating + k * (actual - expectedScore)
  }

  /** Comparison of `a` against `b`: only `a`'s rating moves, reading the current map.
      Both players are always roster players with a rating and a count; the guard
      only makes the function total. */
  function Compare(elo: map<string, real>, count: map<string, nat>, expected: (real, real) -> real,
                   a: Entry, b: Entry): map<string, real>
  {
    if a.player in elo && b.player in elo && a.player in count then
      elo[a.player := Adjusted(elo[a.player], KFactor(count[a.player]),
                               ActualScore(a.placement, b.placement), expected(elo[a.player], elo[b.player]))]
    else elo
  }

  /** The comparisons of participant `i` against participants 0 .. n-1, skipping itself. */
  function Row(elo: map<string, real>, count: map<string, nat>, expected: (real, real) -> real,
               parts: seq<Entry>, i: nat, n: nat): map<string, real>
    requires i < |parts| && n <= |parts|
  {
    if n == 0 then elo
    else
      var e := Row(elo, count, expected, parts, i, n - 1);
      if i == n - 1 then e else Compare(e, count, expected, parts[i], parts[n - 1])
  }

  /** The first m rows of the race's nested comparison loop. */
  function Rounds(elo: map<string, real>, count: map<string, nat>, expected: (real, real) -> real,
                  parts: seq<Entry>, m: nat): map<string, real>
    requires m <= |parts|
  {
    if m == 0 then elo
    else Row(Rounds(elo, count, expected, parts, m - 1), count, expected, parts, m - 1, |parts|)
  }

  lemma {:induction false} RowKeys(elo: map<string, real>, count: map<string, nat>, expected: (real, real) -> real,
                                   parts: seq<Entry>, i: nat, n: nat)
    requires i < |parts| && n <= |parts|
    ensures Row(elo, count, expected, parts, i, n).Keys == elo.Keys
  {
    if n > 0 {
      RowKeys(elo, count, expected, parts, i, n - 1);
    }
  }

  /** The comparisons change ratings, never the set of rated players. */
  lemma {:induction false} RoundsKeys(elo: map<string, real>, count: map<string, nat>, expected: (real, real) -> real,
                                      parts: seq<Entry>, m: nat)
    requires m <= |parts|
    ensures Rounds(elo, count, expected, parts, m).Keys == elo.Keys
  {
    if m > 0 {
      RoundsKeys(elo, count, expected, parts, m - 1);
      RowKeys(Rounds(elo, count, expected, parts, m - 1), count, expected, parts, m - 1, |parts|);
    }
  }

  lemma RoundsNext(elo: map<string, real>, count: map<string, nat>, expected: (real, real) -> real,
                   parts: seq<Entry>, m: nat)
    requires m < |parts|
    ensures Rounds(elo, count, expected, parts, m + 1) ==
            Row(Rounds(elo, count, expected, parts, m), count, expected, parts, m, |parts|)
  {
  }

  lemma ParticipantsNext(roster: seq<string>, race: Race, k: nat)
    requires k < |roster|
    ensures var p := roster[k];
      Participants(roster[..k + 1], race) ==
        Participants(roster[..k], race) + (if p in race.placement && race.placement[p].Val?
                                           then [Entry(p, race.placement[p].v)] else [])
  {
    assert roster[..k + 1][..k] == roster[..k];
  }

  /** One race-count increment per participant (every participant has a count). */
  function Bump(count: map<string, nat>, parts: seq<Entry>): (c: map<string, nat>)
    ensures c.Keys == count.Keys
  {
    if parts == [] then count
    else BumpOne(Bump(count, parts[..|parts| - 1]), parts[|parts| - 1].player)
  }

  function BumpOne(count: map<string, nat>, p: string): (c: map<string, nat>)
    ensures c.Keys == count.Keys
  {
    if p in count then count[p := count[p] + 1] else count
  }

  lemma BumpNext(count: map<string, nat>, parts: seq<Entry>, e: Entry)
    ensures Bump(count, parts + [e]) == BumpOne(Bump(count, parts), e.player)
  {
    assert (parts + [e])[..|parts|] == parts;
  }

  /** Each peak raised to the new rating where that is higher. */
  function Peaks(peak: map<string, real>, elo: map<string, real>): (r: map<string, real>)
    requires peak.Keys <= elo.Keys
    ensures r.Keys == peak.Keys
  {
    map p | p in peak :: MaxReal(peak[p], elo[p])
  }

  /** The replay of one race: None when a taking-part cell cannot be read. */
  function Step(roster: seq<string>, expected: (real, real) -> real, s: EloState, race: Race): (r: Option<EloState>)
    requires WellFormed(roster, s)
    ensures r.Some? ==> WellFormed(roster, r.value)
  {
    if Unreadable(roster, race) then None
    else
      var parts := Participants(roster, race);
      if parts == [] then Some(s)
      else
        var counted := Bump(s.raceCount, parts);
        var elo := Rounds(s.elo, counted, expected, parts, |parts|);
        RoundsKeys(s.elo, counted, expected, parts, |parts|);
        Some(EloState(elo, Bump(counted, parts), Peaks(s.peak, elo),
                      s.tracker + [TrackerRow(race.date, race.time, race.mapName, elo)]))
  }

  /** The replay of a whole log, in file order. */
  function Replay(roster: seq<string>, expected: (real, real) -> real, s: EloState, races: seq<Race>): (r: Option<EloState>)
    requires WellFormed(roster, s)
    ensures r.Some? ==> WellFormed(roster, r.value)
    decreases |races|
  {
    if races == [] then Some(s)
    else
      match Step(roster, expected, s, races[0])
      case None => None
      case Some(t) => Replay(roster, expected, t, races[1..])
  }

  // ---------------------------------------------------------------------------
  // Properties of one race

  lemma {:induction false} BumpCounts(count: map<string, nat>, parts: seq<Entry>, p: string)
    requires Distinct(Players(parts)) && p in count
    ensures Bump(count, parts)[p] == count[p] + (if p in Players(parts) then 1 else 0)
  {
    if parts != [] {
      var front := parts[..|parts| - 1];
      assert Players(parts) == Players(front) + [parts[|parts| - 1].player];
      BumpCounts(count, front, p);
    }
  }

  lemma {:induction false} RowFrame(elo: map<string, real>, count: map<string, nat>, expected: (real, real) -> real,
                                    parts: seq<Entry>, i: nat, n: nat, p: string)
    requires i < |parts| && n <= |parts|
    requires p in elo && p != parts[i].player
    ensures var r := Row(elo, count, expected, parts, i, n); p in r && r[p] == elo[p]
  {
    RowKeys(elo, count, expected, parts, i, n);
    if n > 0 {
      RowFrame(elo, count, expected, parts, i, n - 1, p);
    }
  }

  /** Only participants' ratings move in a race. */
  lemma {:induction false} RoundsFrame(elo: map<string, real>, count: map<string, nat>, expected: (real, real) -> real,
                                       parts: seq<Entry>, m: nat, p: string)
    requires m <= |parts|
    requires p in elo && p !in Players(parts)
    ensures var r := Rounds(elo, count, expected, parts, m); p in r && r[p] == elo[p]
  {
    if m > 0 {
      RoundsFrame(elo, count, expected, parts, m - 1, p);
      RowFrame(Rounds(elo, count, expected, parts, m - 1), count, expected, parts, m - 1, |parts|, p);
    }
  }

  /** A participant never compared with a better-placed one gains or holds rating in
      every comparison of its row, provided expected scores lie in [0, 1]. */
  lemma {:induction false} RowOfWinner(elo: map<string, real>, count: map<string, nat>, expected: (real, real) -> real,
                                       parts: seq<Entry>, i: nat, n: nat)
    requires i < |parts| && n <= |parts| && Known(parts, elo) && Known(parts, count)
    requires forall x, y :: 0.0 <= expected(x, y) <= 1.0
    requires forall j :: 0 <= j < |parts| && j != i ==> parts[i].placement < parts[j].placement
    ensures var r := Row(elo, count, expected, parts, i, n);
      parts[i].player in r && r[parts[i].player] >= elo[parts[i].player]
  {
    RowKeys(elo, count, expected, parts, i, n);
    if n > 0 {
      RowOfWinner(elo, count, expected, parts, i, n - 1);
      RowKeys(elo, count, expected, parts, i, n - 1);
    }
  }

  lemma {:induction false} RowOfLoser(elo: map<string, real>, count: map<string, nat>, expected: (real, real) -> real,
                                      parts: seq<Entry>, i: nat, n: nat)
    requires i < |parts| && n <= |parts| && Known(parts, elo) && Known(parts, count)
    requires forall x, y :: 0.0 <= expected(x, y) <= 1.0
    requires forall j :: 0 <= j < |parts| && j != i ==> parts[i].placement > parts[j].placement
    ensures var r := Row(elo, count, expected, parts, i, n);
      parts[i].player in r && r[parts[i].player] <= elo[parts[i].player]
  {
    RowKeys(elo, count, expected, parts, i, n);
    if n > 0 {
      RowOfLoser(elo, count, expected, parts, i, n - 1);
      RowKeys(elo, count, expected, parts, i, n - 1);
    }
  }

  /** A participant's rating moves only during its own row of comparisons: it is
      unchanged before that row and unchanged by the rows of the others after it. */
  lemma {:induction false} OnlyOwnRowMoves(elo: map<string, real>, count: map<string, nat>,
                                           expected: (real, real) -> real, parts: seq<Entry>, i: nat, m: nat)
    requires i < |parts| && m <= |parts| && parts[i].player in elo
    requires Distinct(Players(parts))
    ensures var r := Rounds(elo, count, expected, parts, m);
      && parts[i].player in r
      && (m <= i ==> r[parts[i].player] == elo[parts[i].player])
      && (m > i ==> var own := Row(Rounds(elo, count, expected, parts, i), count, expected, parts, i, |parts|);
                    parts[i].player in own && r[parts[i].player] == own[parts[i].player])
  {
    var p := parts[i].player;
    RoundsKeys(elo, count, expected, parts, m);
    if m > 0 {
      OnlyOwnRowMoves(elo, count, expected, parts, i, m - 1);
      var before := Rounds(elo, count, expected, parts, m - 1);
      RoundsKeys(elo, count, expected, parts, m - 1);
      if m - 1 == i {
        RowKeys(before, count, expected, parts, i, |parts|);
      } else {
        assert Players(parts)[m - 1] != Players(parts)[i];
        RowFrame(before, count, expected, parts, m - 1, |parts|, p);
      }
    }
  }

  /** The outright winner of a race never loses rating, whatever the other updates of
      the race, when expected scores lie in [0, 1] (as 1 / (1 + 10 ** x) does). */
  lemma WinnerNeverLoses(elo: map<string, real>, count: map<string, nat>,
                         expected: (real, real) -> real, parts: seq<Entry>, i: nat)
    requires i < |parts| && Known(parts, elo) && Known(parts, count)
    requires Distinct(Players(parts))
    requires forall x, y :: 0.0 <= expected(x, y) <= 1.0
    requires forall j :: 0 <= j < |parts| && j != i ==> parts[i].placement < parts[j].placement
    ensures var r := Rounds(elo, count, expected, parts, |parts|);
      parts[i].player in r && r[parts[i].player] >= elo[parts[i].player]
  {
    assert parts[i] in parts;
    OnlyOwnRowMoves(elo, count, expected, parts, i, i);
    OnlyOwnRowMoves(elo, count, expected, parts, i, |parts|);
    RoundsKeys(elo, count, expected, parts, i);
    RowOfWinner(Rounds(elo, count, expected, parts, i), count, expected, parts, i, |parts|);
  }

  /** The outright last of a race never gains rating, under the same assumption. */
  lemma LastNeverGains(elo: map<string, real>, count: map<string, nat>,
                       expected: (real, real) -> real, parts: seq<Entry>, i: nat)
    requires i < |parts| && Known(parts, elo) && Known(parts, count)
    requires Distinct(Players(parts))
    requires forall x, y :: 0.0 <= expected(x, y) <= 1.0
    requires forall j :: 0 <= j < |parts| && j != i ==> parts[i].placement > parts[j].placement
    ensures var r := Rounds(elo, count, expected, parts, |parts|);
      parts[i].player in r && r[parts[i].player] <= elo[parts[i].player]
  {
    assert parts[i] in parts;
    OnlyOwnRowMoves(elo, count, expected, parts, i, i);
    OnlyOwnRowMoves(elo, count, expected, parts, i, |parts|);
    RoundsKeys(elo, count, expected, parts, i);
    RowOfLoser(Rounds(elo, count, expected, parts, i), count, expected, parts, i, |parts|);
  }

  /** Updates are applied in place: in a two-player race the second player's expected
      score is computed against the first player's already-updated rating. */
  lemma TwoPlayerRaceInPlace(elo: map<string, real>, count: map<string, nat>, expected: (real, real) -> real,
                             a: Entry, b: Entry)
    requires a.player != b.player && a.player in elo && b.player in elo && a.player in count && b.player in count
    ensures var first := Adjusted(elo[a.player], KFactor(count[a.player]),
                                  ActualScore(a.placement, b.placement), expected(elo[a.player], elo[b.player]));
            var r := Rounds(elo, count, expected, [a, b], 2);
            a.player in r && b.player in r &&
            r[a.player] == first &&
            r[b.player] == Adjusted(elo[b.player], KFactor(count[b.player]),
                                    ActualScore(b.placement, a.placement), expected(elo[b.player], first))
  {
    var parts := [a, b];
    var r1 := Compare(elo, count, expected, a, b);
    assert Row(elo, count, expected, parts, 0, 1) == elo;
    assert Rounds(elo, count, expected, parts, 1) == r1;
    var r2 := Compare(r1, count, expected, b, a);
    assert Row(r1, count, expected, parts, 1, 1) == r2;
    assert Rounds(elo, count, expected, parts, 2) == r2;
    assert r1[b.player] == elo[b.player];
  }

  /** A race with a single participant changes no rating. */
  lemma SoloRaceKeepsRatings(elo: map<string, real>, count: map<string, nat>, expected: (real, real) -> real, e: Entry)
    requires e.player in elo && e.player in count
    ensures Rounds(elo, count, expected, [e], 1) == elo
  {
    assert Row(elo, count, expected, [e], 0, 1) == Row(elo, count, expected, [e], 0, 0);
  }

  /** A readable race nobody took part in changes nothing. */
  lemma EmptyRaceSkipped(roster: seq<string>, expected: (real, real) -> real, s: EloState, race: Race)
    requires WellFormed(roster, s) && !Unreadable(roster, race) && Participants(roster, race) == []
    ensures Step(roster, expected, s, race) == Some(s)
  {
  }

  /** A readable race with a participant appends one tracker row holding the new
      ratings and raises every roster player's peak to the new rating where higher. */
  lemma StepTrackerAndPeaks(roster: seq<string>, expected: (real, real) -> real, s: EloState, race: Race)
    requires WellFormed(roster, s) && !Unreadable(roster, race) && Participants(roster, race) != []
    ensures Step(roster, expected, s, race).Some?
    ensures var t := Step(roster, expected, s, race).value;
      && |t.tracker| == |s.tracker| + 1
      && t.tracker[..|s.tracker|] == s.tracker
      && t.tracker[|s.tracker|] == TrackerRow(race.date, race.time, race.mapName, t.elo)
      && (forall p :: p in roster ==> t.peak[p] == MaxReal(s.peak[p], t.elo[p]) >= t.elo[p])
  {
    var t := Step(roster, expected, s, race).value;
    assert forall p :: p in roster ==> p in RosterSet(roster);
  }

  /** In a readable race every participant's count rises by exactly 2, and the K-factor
      of its comparisons is read at the count raised once; every roster player who does
      not take part keeps rating and count. */
  lemma StepCounts(roster: seq<string>, expected: (real, real) -> real, s: EloState, race: Race)
    requires Distinct(roster) && WellFormed(roster, s) && !Unreadable(roster, race)
    ensures Step(roster, expected, s, race).Some?
    ensures var t := Step(roster, expected, s, race).value;
      forall p :: p in roster ==>
        && (TakesPart(race, p) ==> t.raceCount[p] == s.raceCount[p] + 2
                                   && Bump(s.raceCount, Participants(roster, race))[p] == s.raceCount[p] + 1)
        && (!TakesPart(race, p) ==> t.raceCount[p] == s.raceCount[p] && t.elo[p] == s.elo[p])
  {
    var parts := Participants(roster, race);
    ParticipantsInRoster(roster, race);
    ParticipantsComplete(roster, race);
    ParticipantsDistinct(roster, race);
    if parts != [] {
      var counted := Bump(s.raceCount, parts);
      RoundsKeys(s.elo, counted, expected, parts, |parts|);
      forall p | p in roster
        ensures TakesPart(race, p) ==> Bump(counted, parts)[p] == s.raceCount[p] + 2 && counted[p] == s.raceCount[p] + 1
        ensures !TakesPart(race, p) ==> Bump(counted, parts)[p] == s.raceCount[p]
                                         && Rounds(s.elo, counted, expected, parts, |parts|)[p] == s.elo[p]
      {
        BumpCounts(s.raceCount, parts, p);
        BumpCounts(counted, parts, p);
        if !TakesPart(race, p) {
          forall k | 0 <= k < |parts| ensures Players(parts)[k] != p {
            assert parts[k] in parts;
          }
          RoundsFrame(s.elo, counted, expected, parts, |parts|, p);
        }
      }
    } else {
      forall p | p in roster ensures TakesPart(race, p) ==> p in Players(parts) {
      }
      assert Players(parts) == [];
    }
  }

  // ---------------------------------------------------------------------------
  // Properties of a whole replay

  /** Races in which `p` takes part with a readable placement. */
  function Appearances(races: seq<Race>, p: string): nat {
    if races == [] then 0
    else (if p in races[0].placement && races[0].placement[p].Val? then 1 else 0) + Appearances(races[1..], p)
  }

  /** Races with at least one participant: each appends a tracker row. */
  function Contested(roster: seq<string>, races: seq<Race>): nat {
    if races == [] then 0
    else (if Participants(roster, races[0]) != [] then 1 else 0) + Contested(roster, races[1..])
  }

  /** One readable race keeps peaks at or above ratings, never lowers a peak, raises the
      count of each player with a readable placement by two and appends at most one row. */
  lemma StepInvariants(roster: seq<string>, expected: (real, real) -> real, s: EloState, race: Race)
    requires Distinct(roster) && WellFormed(roster, s) && !Unreadable(roster, race)
    requires forall p :: p in roster ==> s.peak[p] >= s.elo[p]
    ensures var t := Step(roster, expected, s, race);
      && t.Some?
      && |t.value.tracker| == |s.tracker| + (if Participants(roster, race) != [] then 1 else 0)
      && (forall p :: p in roster ==>
            && t.value.peak[p] >= t.value.elo[p]
            && t.value.peak[p] >= s.peak[p]
            && t.value.raceCount[p] == s.raceCount[p] + 2 * (if p in race.placement && race.placement[p].Val? then 1 else 0))
  {
    StepCounts(roster, expected, s, race);
    if Participants(roster, race) != [] {
      StepTrackerAndPeaks(roster, expected, s, race);
    } else {
      EmptyRaceSkipped(roster, expected, s, race);
    }
    var t := Step(roster, expected, s, race).value;
    forall p | p in roster
      ensures t.peak[p] >= t.elo[p] && t.peak[p] >= s.peak[p]
      ensures t.raceCount[p] == s.raceCount[p] + 2 * (if p in race.placement && race.placement[p].Val? then 1 else 0)
    {
      if TakesPart(race, p) {
        assert race.placement[p].Val?;
      }
    }
  }

  /** Over a whole replay: every roster player's count is twice the number of races
      they took part in (so their n-th race reads K at count 2n - 1), peaks stay at or
      above current ratings and never decrease, and the tracker gains one row per
      race with a participant. */
  lemma {:induction false} ReplayInvariants(roster: seq<string>, expected: (real, real) -> real,
                                            s: EloState, races: seq<Race>)
    requires Distinct(roster) && WellFormed(roster, s)
    requires forall p :: p in roster ==> s.peak[p] >= s.elo[p]
    requires Replay(roster, expected, s, races).Some?
    ensures var t := Replay(roster, expected, s, races).value;
      && |t.tracker| == |s.tracker| + Contested(roster, races)
      && (forall p :: p in roster ==>
            && t.raceCount[p] == s.raceCount[p] + 2 * Appearances(races, p)
            && t.peak[p] >= t.elo[p]
            && t.peak[p] >= s.peak[p])
    decreases |races|
  {
    if races != [] {
      var race := races[0];
      assert !Unreadable(roster, race);
      StepInvariants(roster, expected, s, race);
      var t := Step(roster, expected, s, race).value;
      ReplayInvariants(roster, expected, t, races[1..]);
      var u := Replay(roster, expected, t, races[1..]).value;
      assert Replay(roster, expected, s, races).value == u;
      forall p | p in roster
        ensures u.raceCount[p] == s.raceCount[p] + 2 * Appearances(races, p)
        ensures u.peak[p] >= u.elo[p] && u.peak[p] >= s.peak[p]
      {
        assert u.peak[p] >= t.peak[p] >= s.peak[p];
      }
    }
  }

  /** A race appended to a log adds one appearance when the player has a readable placement. */
  lemma {:induction false} AppearancesSnoc(races: seq<Race>, race: Race, p: string)
    ensures Appearances(races + [race], p) ==
            Appearances(races, p) + (if p in race.placement && race.placement[p].Val? then 1 else 0)
  {
    if races != [] {
      assert (races + [race])[1..] == races[1..] + [race];
      AppearancesSnoc(races[1..], race, p);
    }
  }

  /** In a player's n-th race of the default roster's replay (race k of the log, which
      they finish), the comparisons read the count the race's first raise leaves, and
      that count is 2n - 1: so K is 40 exactly in their first five races. */
  lemma KFactorInNthRace(expected: (real, real) -> real, races: seq<Race>, k: nat, p: string)
    requires k < |races| && p in DefaultPlayers
    requires p in races[k].placement && races[k].placement[p].Val?
    requires Replay(DefaultPlayers, expected, Initial(DefaultPlayers), races[..k]).Some?
    requires !Unreadable(DefaultPlayers, races[k])
    ensures var s := Replay(DefaultPlayers, expected, Initial(DefaultPlayers), races[..k]).value;
      var n := Appearances(races[..k + 1], p);
      var counted := Bump(s.raceCount, Participants(DefaultPlayers, races[k]));
      && n >= 1
      && counted[p] == 2 * n - 1
      && (KFactor(counted[p]) == KFactorInitial <==> n <= 5)
  {
    DefaultPlayersDistinct();
    var s0 := Initial(DefaultPlayers);
    assert s0.raceCount[p] == 0;
    ReplayInvariants(DefaultPlayers, expected, s0, races[..k]);
    var s := Replay(DefaultPlayers, expected, s0, races[..k]).value;
    var before := Appearances(races[..k], p);
    assert s.raceCount[p] == 2 * before;
    StepCounts(DefaultPlayers, expected, s, races[k]);
    assert TakesPart(races[k], p);
    var counted := Bump(s.raceCount, Participants(DefaultPlayers, races[k]));
    assert counted[p] == 2 * before + 1;
    AppearancesPrefix(races, k, p);
  }

  lemma AppearancesPrefix(races: seq<Race>, k: nat, p: string)
    requires k < |races|
    ensures Appearances(races[..k + 1], p) ==
            Appearances(races[..k], p) + (if p in races[k].placement && races[k].placement[p].Val? then 1 else 0)
  {
    assert races[..k + 1] == races[..k] + [races[k]];
    AppearancesSnoc(races[..k], races[k], p);
  }

  lemma DefaultPlayersDistinct()
    ensures Distinct(DefaultPlayers)
  {
  }

  // ---------------------------------------------------------------------------
  // The replay as the source runs it. The rating, count and peak dictionaries and the
  // tracker are local to the replay; the helper that updates ratings mutates the
  // caller's dictionaries, which no one else holds, so here it takes them and hands
  // back the updated ones.

  datatype EloReport = EloReport(tracker: seq<TrackerRow>, ratings: map<string, PlayerRating>)

  /** The post-analysis summary: every roster player's peak and current rating. */
  function Report(roster: seq<string>, s: EloState): (r: EloReport)
    requires WellFormed(roster, s)
    ensures r.ratings.Keys == RosterSet(roster)
  {
    EloReport(s.tracker, map p | p in RosterSet(roster) :: PlayerRating(s.peak[p], s.elo[p]))
  }

  /** The pairwise comparisons of one race applied in place, one at a time, then the
      second race-count increment. */
  method UpdateEloRatings(elo: map<string, real>, raceCount: map<string, nat>,
                          expected: (real, real) -> real, parts: seq<Entry>)
    returns (newElo: map<string, real>, newCount: map<string, nat>)
    requires Known(parts, elo) && Known(parts, raceCount)
    ensures newElo == Rounds(elo, raceCount, expected, parts, |parts|)
    ensures newCount == Bump(raceCount, parts)
  {
    newElo := elo;
    var i := 0;
    while i < |parts|
      invariant 0 <= i <= |parts|
      invariant newElo == Rounds(elo, raceCount, expected, parts, i)
      invariant Known(parts, newElo)
    {
      RoundsNext(elo, raceCount, expected, parts, i);
      newElo := CompareWithOthers(newElo, raceCount, expected, parts, i);
      i := i + 1;
    }
    newCount := RaiseCounts(raceCount, parts);
  }

  /** The inner loop: participant `i` compared with every other participant in turn. */
  method CompareWithOthers(elo: map<string, real>, raceCount: map<string, nat>,
                           expected: (real, real) -> real, parts: seq<Entry>, i: nat)
    returns (newElo: map<string, real>)
    requires i < |parts| && Known(parts, elo) && Known(parts, raceCount)
    ensures newElo == Row(elo, raceCount, expected, parts, i, |parts|)
    ensures Known(parts, newElo)
  {
    newElo := elo;
    var j := 0;
    while j < |parts|
      invariant 0 <= j <= |parts|
      invariant newElo == Row(elo, raceCount, expected, parts, i, j)
      invariant newElo.Keys == elo.Keys
    {
      if i != j {
        var a := parts[i];
        var b := parts[j];
        var expectedA := expected(newElo[a.player], newElo[b.player]);
        var actualA := ActualScore(a.placement, b.placement);
        var k := KFactor(raceCount[a.player]);
        newElo := newElo[a.player := Adjusted(newElo[a.player], k, actualA, expectedA)];
      }
      j := j + 1;
    }
    assert j == |parts|;
  }

  /** The second increment: every participant's count raised once more. */
  method RaiseCounts(raceCount: map<string, nat>, parts: seq<Entry>) returns (newCount: map<string, nat>)
    requires Known(parts, raceCount)
    ensures newCount == Bump(raceCount, parts)
  {
    newCount := raceCount;
    var n := 0;
    while n < |parts|
      invariant 0 <= n <= |parts|
      invariant newCount == Bump(raceCount, parts[..n])
    {
      assert parts[..n + 1][..n] == parts[..n];
      var p := parts[n].player;
      newCount := newCount[p := newCount[p] + 1];
      n := n + 1;
    }
    assert parts[..n] == parts;
  }

  /** The participants of one race, in roster order, each with their race count
      raised once; `ok` is false at a blank placement cell, where `int()` raises. */
  method CollectParticipants(roster: seq<string>, race: Race, raceCount: map<string, nat>)
    returns (parts: seq<Entry>, newCount: map<string, nat>, ok: bool)
    requires raceCount.Keys == RosterSet(roster)
    ensures ok == !Unreadable(roster, race)
    ensures ok ==> parts == Participants(roster, race) && newCount == Bump(raceCount, parts)
  {
    parts, newCount := [], raceCount;
    var k := 0;
    while k < |roster|
      invariant 0 <= k <= |roster|
      invariant parts == Participants(roster[..k], race)
      invariant newCount == Bump(raceCount, parts)
      invariant forall t :: 0 <= t < k && roster[t] in race.placement ==> race.placement[roster[t]] != Blank
    {
      ParticipantsNext(roster, race, k);
      assert roster[k] in newCount by {
        assert roster[k] in RosterSet(roster);
      }
      var entered;
      parts, newCount, entered := Enter(race, roster[k], parts, newCount, raceCount);
      if !entered {
        return parts, newCount, false;
      }
      k := k + 1;
    }
    assert roster[..k] == roster;
    ok := true;
  }

  /** The loop body for player `p`: a placed player joins the race and gains a race. */
  method Enter(race: Race, p: string, parts: seq<Entry>, count: map<string, nat>, ghost raceCount: map<string, nat>)
    returns (parts': seq<Entry>, count': map<string, nat>, ok: bool)
    requires count == Bump(raceCount, parts) && p in count
    ensures ok == !(p in race.placement && race.placement[p] == Blank)
    ensures ok ==> parts' == parts + (if p in race.placement && race.placement[p].Val? then [Entry(p, race.placement[p].v)] else [])
    ensures ok ==> count' == Bump(raceCount, parts')
  {
    parts', count', ok := parts, count, true;
    if p in race.placement && race.placement[p] != DNR {
      if race.placement[p] == Blank {
        return parts, count, false;
      }
      var e := Entry(p, race.placement[p].v);
      BumpNext(raceCount, parts, e);
      parts' := parts + [e];
      count' := count[p := count[p] + 1];
    }
  }

  /** Each roster player's peak becomes the larger of the peak and the new rating. */
  method UpdatePeaks(roster: seq<string>, peak: map<string, real>, elo: map<string, real>)
    returns (newPeak: map<string, real>)
    requires peak.Keys == RosterSet(roster) && peak.Keys <= elo.Keys
    ensures newPeak == Peaks(peak, elo)
  {
    newPeak := peak;
    var j := 0;
    while j < |roster|
      invariant 0 <= j <= |roster|
      invariant newPeak.Keys == peak.Keys
      invariant forall q :: q in newPeak ==>
        newPeak[q] == if q in roster[..j] then MaxReal(peak[q], elo[q]) else peak[q]
    {
      assert roster[..j + 1] == roster[..j] + [roster[j]];
      var p := roster[j];
      assert p in RosterSet(roster);
      newPeak := newPeak[p := MaxReal(newPeak[p], elo[p])];
      j := j + 1;
    }
    assert roster[..j] == roster;
  }

  /** One pass of the replay loop: collect the participants (raising their counts),
      skip a race nobody took part in, otherwise update ratings, then peaks, then
      append a tracker row. `ok` is false where a placement cannot be read. */
  method ReplayRace(roster: seq<string>, expected: (real, real) -> real,
                    elo: map<string, real>, raceCount: map<string, nat>, peak: map<string, real>,
                    tracker: seq<TrackerRow>, race: Race)
    returns (ok: bool, newElo: map<string, real>, newCount: map<string, nat>, newPeak: map<string, real>,
             newTracker: seq<TrackerRow>)
    requires WellFormed(roster, EloState(elo, raceCount, peak, tracker))
    ensures var r := Step(roster, expected, EloState(elo, raceCount, peak, tracker), race);
      ok == r.Some? && (ok ==> r.value == EloState(newElo, newCount, newPeak, newTracker))
  {
    newElo, newPeak, newTracker := elo, peak, tracker;
    var raceResults;
    raceResults, newCount, ok := CollectParticipants(roster, race, raceCount);
    if !ok || raceResults == [] {
      return;
    }
    ParticipantsInRoster(roster, race);
    newElo, newCount := UpdateEloRatings(elo, newCount, expected, raceResults);
    RoundsKeys(elo, Bump(raceCount, raceResults), expected, raceResults, |raceResults|);
    newPeak := UpdatePeaks(roster, peak, newElo);
    newTracker := tracker + [TrackerRow(race.date, race.time, race.mapName, newElo)];
  }

  /** The analysis run: the replay over the default roster from rating 1000, and the
      peak and current rating of every player (rounding left out). None where a
      placement cannot be read. */
  method ProcessRaces(races: seq<Race>, expected: (real, real) -> real) returns (report: Option<EloReport>)
    ensures var r := Replay(DefaultPlayers, expected, Initial(DefaultPlayers), races);
      report.Some? == r.Some? && (r.Some? ==> report.value == Report(DefaultPlayers, r.value))
  {
    var roster := DefaultPlayers;
    var currentElo := map p | p in roster :: BaseElo;
    var raceCounts: map<string, nat> := map p | p in roster :: 0;
    var peakElo := map p | p in roster :: BaseElo;
    var tracker: seq<TrackerRow> := [];
    ghost var initial := Initial(roster);
    assert EloState(currentElo, raceCounts, peakElo, tracker) == initial;
    var i := 0;
    while i < |races|
      invariant 0 <= i <= |races|
      invariant WellFormed(roster, EloState(currentElo, raceCounts, peakElo, tracker))
      invariant Replay(roster, expected, EloState(currentElo, raceCounts, peakElo, tracker), races[i..])
             == Replay(roster, expected, initial, races)
    {
      ghost var s := EloState(currentElo, raceCounts, peakElo, tracker);
      assert races[i..][0] == races[i] && races[i..][1..] == races[i + 1..];
      var ok;
      ok, currentElo, raceCounts, peakElo, tracker :=
        ReplayRace(roster, expected, currentElo, raceCounts, peakElo, tracker, races[i]);
      if !ok {
        return None;
      }
      i := i + 1;
    }
    report := Some(Report(roster, EloState(currentElo, raceCounts, peakElo, tracker)));
  }

  /** What the summary reports: every player's peak is at least the starting 1000 and
      at least their current rating, and their count is two per race they took part in. */
  lemma {:induction false} ReportBounds(races: seq<Race>, expected: (real, real) -> real)
    requires Replay(DefaultPlayers, expected, Initial(DefaultPlayers), races).Some?
    ensures var s := Replay(DefaultPlayers, expected, Initial(DefaultPlayers), races).value;
      var r := Report(DefaultPlayers, s);
      forall p :: p in DefaultPlayers ==>
        && r.ratings[p].peak >= r.ratings[p].current
        && r.ratings[p].peak >= BaseElo
        && s.raceCount[p] == 2 * Appearances(races, p)
  {
    DefaultPlayersDistinct();
    ReplayInvariants(DefaultPlayers, expected, Initial(DefaultPlayers), races);
  }
}
