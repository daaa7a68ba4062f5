/** The kart comparison tables (src/calculations/kart_analysis.py): per map, a pairwise
    win/loss table between karts, turned into a 0-10 win-rate matrix, and a top-5
    leaderboard of karts by their Elo-weighted placement score.

    A results row is read through the columns "<kart> Placement" and "<kart> Player",
    keyed by kart name exactly as the code looks them up. The two-level dictionaries
    `kart_pairs[a][b]` and `adjacency_matrix[a][b]` are one map keyed by the pair (a, b).
    Running into `int()` of an empty cell (or a division by placement 0) raises and
    aborts the analysis: that outcome is `None`. */
module Karts {
  import opened Common
  import Sorting

  const DefaultElo: real := 1000.0

  const LeaderboardSize: nat := 5

  /** One results row as the kart analysis reads it: its map and, per kart name, the
      placement column (missing key: no such column) and the player column (a missing
      column and an empty cell both read as no player). */
  datatype KartRace = KartRace(mapName: string, placement: map<string, Cell<int>>, player: map<string, string>)

  /** The kart has a placement column in this row and it does not hold "DNR". */
  predicate Placed(race: KartRace, k: string) {
    k in race.placement && race.placement[k] != DNR
  }

  /** Both placements are numbers and `a`'s is strictly lower (better). */
  predicate Beats(race: KartRace, a: string, b: string) {
    && a in race.placement && race.placement[a].Val?
    && b in race.placement && race.placement[b].Val?
    && race.placement[a].v < race.placement[b].v
  }

  /** The ordered pair (a, b) is compared in this row. */
  predicate Meet(race: KartRace, a: string, b: string) {
    a != b && Placed(race, a) && Placed(race, b)
  }

  /** Comparing (a, b) converts an empty placement cell with `int()`, which raises. */
  predicate ReadsBlank(race: KartRace, a: string, b: string) {
    Meet(race, a, b) && (race.placement[a].Blank? || race.placement[b].Blank?)
  }

  /** Some compared pair of the row reads an empty cell. */
  predicate Broken(race: KartRace, karts: seq<string>) {
    exists a, b :: a in karts && b in karts && ReadsBlank(race, a, b)
  }

  // ---------------------------------------------------------------------------
  // Pairwise win/loss table (`compute_kart_adjacency_matrix`)

  datatype WinLoss = WinLoss(win: nat, loss: nat)

  type PairTable = map<(string, string), WinLoss>

  function PairKeys(karts: seq<string>): set<(string, string)> {
    set a, b | a in karts && b in karts :: (a, b)
  }

  lemma PairKeysMeaning(karts: seq<string>)
    ensures forall k :: k in PairKeys(karts) <==> k.0 in karts && k.1 in karts
  {
    forall k: (string, string) | k.0 in karts && k.1 in karts
      ensures k in PairKeys(karts)
    {
      assert k == (k.0, k.1);
    }
  }

  /** `{kart: {other_kart: {"win": 0, "loss": 0} ...} ...}`. */
  function ZeroPairs(karts: seq<string>): (t: PairTable)
    ensures t.Keys == PairKeys(karts)
  {
    map k | k in PairKeys(karts) :: WinLoss(0, 0)
  }

  /** What comparing (a, b) in one row does to their counters: nothing for the same
      kart or a missing or "DNR" placement, otherwise a win when `a` placed strictly
      better and a loss in every other case (a tie included). */
  function Effect(wl: WinLoss, race: KartRace, a: string, b: string): WinLoss {
    if !Meet(race, a, b) then wl
    else if Beats(race, a, b) then WinLoss(wl.win + 1, wl.loss)
    else WinLoss(wl.win, wl.loss + 1)
  }

  function Compare(t: PairTable, race: KartRace, a: string, b: string): (r: PairTable)
    requires (a, b) in t
    ensures r.Keys == t.Keys
  {
    t[(a, b) := Effect(t[(a, b)], race, a, b)]
  }

  /** The inner loop: `a` against each kart of `bs`, in order. */
  function CompareRow(t: PairTable, race: KartRace, a: string, bs: seq<string>): (r: PairTable)
    requires forall b :: b in bs ==> (a, b) in t
    ensures r.Keys == t.Keys
  {
    if bs == [] then t
    else Compare(CompareRow(t, race, a, bs[..|bs| - 1]), race, a, bs[|bs| - 1])
  }

  /** Both loops over one row: each kart of `outer` against every kart of `karts`. */
  function CompareAll(t: PairTable, race: KartRace, outer: seq<string>, karts: seq<string>): (r: PairTable)
    requires forall a, b :: a in outer && b in karts ==> (a, b) in t
    ensures r.Keys == t.Keys
  {
    if outer == [] then t
    else CompareRow(CompareAll(t, race, outer[..|outer| - 1], karts), race, outer[|outer| - 1], karts)
  }

  /** The counters after the given rows, in order. */
  function Counted(rows: seq<KartRace>, karts: seq<string>): (t: PairTable)
    ensures t.Keys == PairKeys(karts)
  {
    if rows == [] then ZeroPairs(karts)
    else CompareAll(Counted(rows[..|rows| - 1], karts), rows[|rows| - 1], karts, karts)
  }

  /** Rows in which `a` placed strictly better than `b` (both compared). */
  function Wins(rows: seq<KartRace>, a: string, b: string): nat {
    if rows == [] then 0
    else
      var r := rows[|rows| - 1];
      Wins(rows[..|rows| - 1], a, b) + (if Meet(r, a, b) && Beats(r, a, b) then 1 else 0)
  }

  /** Rows in which (a, b) was compared and `a` did not place strictly better. */
  function Losses(rows: seq<KartRace>, a: string, b: string): nat {
    if rows == [] then 0
    else
      var r := rows[|rows| - 1];
      Losses(rows[..|rows| - 1], a, b) + (if Meet(r, a, b) && !Beats(r, a, b) then 1 else 0)
  }

  /** Rows in which (a, b) was compared and neither kart placed strictly better. */
  function Level(rows: seq<KartRace>, a: string, b: string): nat {
    if rows == [] then 0
    else
      var r := rows[|rows| - 1];
      Level(rows[..|rows| - 1], a, b) + (if Meet(r, a, b) && !Beats(r, a, b) && !Beats(r, b, a) then 1 else 0)
  }

  lemma {:induction false} CompareRowAt(t: PairTable, race: KartRace, a: string, bs: seq<string>, x: string, y: string)
    requires forall b :: b in bs ==> (a, b) in t
    requires Distinct(bs) && (x, y) in t
    ensures CompareRow(t, race, a, bs)[(x, y)] ==
      if x == a && y in bs then Effect(t[(x, y)], race, x, y) else t[(x, y)]
  {
    if bs != [] {
      var front, last := bs[..|bs| - 1], bs[|bs| - 1];
      CompareRowAt(t, race, a, front, x, y);
      assert y in bs <==> y in front || y == last;
      if x == a && y == last {
        assert last !in front;
      }
    }
  }

  lemma {:induction false} CompareAllAt(t: PairTable, race: KartRace, outer: seq<string>, karts: seq<string>, x: string, y: string)
    requires forall a, b :: a in outer && b in karts ==> (a, b) in t
    requires Distinct(outer) && Distinct(karts) && (x, y) in t
    ensures CompareAll(t, race, outer, karts)[(x, y)] ==
      if x in outer && y in karts then Effect(t[(x, y)], race, x, y) else t[(x, y)]
  {
    if outer != [] {
      var front, last := outer[..|outer| - 1], outer[|outer| - 1];
      CompareAllAt(t, race, front, karts, x, y);
      CompareRowAt(CompareAll(t, race, front, karts), race, last, karts, x, y);
      assert x in outer <==> x in front || x == last;
      if x == last {
        assert last !in front;
      }
    }
  }

  /** For a list of distinct karts, the counters of (a, b) are the rows in which `a`
      placed strictly better than `b` and the rows in which it did not. */
  lemma {:induction false} CountedMeaning(rows: seq<KartRace>, karts: seq<string>, a: string, b: string)
    requires Distinct(karts) && a in karts && b in karts
    ensures Counted(rows, karts)[(a, b)] == WinLoss(Wins(rows, a, b), Losses(rows, a, b))
  {
    if rows == [] {
      assert (a, b) in PairKeys(karts);
    } else {
      var front, r := rows[..|rows| - 1], rows[|rows| - 1];
      var t := Counted(front, karts);
      CountedMeaning(front, karts, a, b);
      assert (a, b) in PairKeys(karts);
      CompareAllAt(t, r, karts, karts, a, b);
      assert Counted(rows, karts)[(a, b)] == Effect(t[(a, b)], r, a, b);
      assert Wins(rows, a, b) == Wins(front, a, b) + (if Meet(r, a, b) && Beats(r, a, b) then 1 else 0);
      assert Losses(rows, a, b) == Losses(front, a, b) + (if Meet(r, a, b) && !Beats(r, a, b) then 1 else 0);
    }
  }

  lemma {:induction false} CompareRowKeepsDiagonal(t: PairTable, race: KartRace, a: string, bs: seq<string>, x: string)
    requires forall b :: b in bs ==> (a, b) in t
    requires (x, x) in t
    ensures CompareRow(t, race, a, bs)[(x, x)] == t[(x, x)]
  {
    if bs != [] {
      CompareRowKeepsDiagonal(t, race, a, bs[..|bs| - 1], x);
    }
  }

  lemma {:induction false} CompareAllKeepsDiagonal(t: PairTable, race: KartRace, outer: seq<string>, karts: seq<string>, x: string)
    requires forall a, b :: a in outer && b in karts ==> (a, b) in t
    requires (x, x) in t
    ensures CompareAll(t, race, outer, karts)[(x, x)] == t[(x, x)]
  {
    if outer != [] {
      var front := outer[..|outer| - 1];
      CompareAllKeepsDiagonal(t, race, front, karts, x);
      CompareRowKeepsDiagonal(CompareAll(t, race, front, karts), race, outer[|outer| - 1], karts, x);
    }
  }

  /** A kart is never compared with itself, whatever the kart list. */
  lemma {:induction false} DiagonalStaysZero(rows: seq<KartRace>, karts: seq<string>, k: string)
    requires k in karts
    ensures Counted(rows, karts)[(k, k)] == WinLoss(0, 0)
  {
    if rows != [] {
      var front := rows[..|rows| - 1];
      DiagonalStaysZero(front, karts, k);
      CompareAllKeepsDiagonal(Counted(front, karts), rows[|rows| - 1], karts, karts, k);
    }
  }

  /** Every loss of `b` against `a` is a win of `a` against `b` or a row where neither
      placed better; so the two counts agree when placements never tie, and a pair
      is compared equally often in both directions. */
  lemma {:induction false} Mirror(rows: seq<KartRace>, a: string, b: string)
    ensures Losses(rows, b, a) == Wins(rows, a, b) + Level(rows, a, b)
    ensures Level(rows, a, b) == Level(rows, b, a)
    ensures Wins(rows, a, b) + Losses(rows, a, b) == Wins(rows, b, a) + Losses(rows, b, a)
  {
    if rows != [] {
      Mirror(rows[..|rows| - 1], a, b);
    }
  }

  // ---------------------------------------------------------------------------
  // The 0-10 matrix

  /** A matrix cell: "DNR" when the pair never met, otherwise ten times the win rate. */
  datatype Score = NoRaces | Rate(rate: real)

  function ScoreOf(wl: WinLoss): Score {
    var total := wl.win + wl.loss;
    if total == 0 then NoRaces else Rate(wl.win as real / total as real * 10.0)
  }

  /** A cell is "DNR" exactly when the pair never met; otherwise it is a rate between
      0 and 10 that, times the meetings, gives ten times the wins. */
  lemma ScoreMeaning(wl: WinLoss)
    ensures ScoreOf(wl) == NoRaces <==> wl.win + wl.loss == 0
    ensures ScoreOf(wl).Rate? ==> 0.0 <= ScoreOf(wl).rate <= 10.0
    ensures ScoreOf(wl).Rate? ==> ScoreOf(wl).rate * (wl.win + wl.loss) as real == 10.0 * wl.win as real
  {
    var total := wl.win + wl.loss;
    if total > 0 {
      var q := wl.win as real / total as real;
      RatioWithin(wl.win, total, 0, 1);
      assert q * total as real == wl.win as real;
    }
  }

  function Normalise(t: PairTable): map<(string, string), Score> {
    map k | k in t :: ScoreOf(t[k])
  }

  /** Some row of the log is broken. */
  predicate AnyBroken(rows: seq<KartRace>, karts: seq<string>) {
    rows != [] && (AnyBroken(rows[..|rows| - 1], karts) || Broken(rows[|rows| - 1], karts))
  }

  lemma {:induction false} AnyBrokenMeaning(rows: seq<KartRace>, karts: seq<string>)
    ensures AnyBroken(rows, karts) <==> exists r :: r in rows && Broken(r, karts)
  {
    if rows != [] {
      AnyBrokenMeaning(rows[..|rows| - 1], karts);
      assert forall r :: r in rows <==> r in rows[..|rows| - 1] || r == rows[|rows| - 1];
    }
  }

  /** The adjacency matrix of the given rows, or `None` when a compared pair reads an
      empty placement cell. */
  function Adjacency(rows: seq<KartRace>, karts: seq<string>): Option<map<(string, string), Score>> {
    if AnyBroken(rows, karts) then None else Some(Normalise(Counted(rows, karts)))
  }

  /** The matrix has a cell for every ordered pair of listed karts and the diagonal is
      "DNR"; for distinct karts, the cell of (a, b) scores the rows `a` won against `b`
      and the rows it lost, so it is "DNR" exactly when they never met. */
  lemma AdjacencyMeaning(rows: seq<KartRace>, karts: seq<string>, a: string, b: string)
    requires Adjacency(rows, karts).Some?
    requires a in karts && b in karts
    ensures var m := Adjacency(rows, karts).value;
      && m.Keys == PairKeys(karts)
      && m[(a, a)] == NoRaces
      && (Distinct(karts) ==> m[(a, b)] == ScoreOf(WinLoss(Wins(rows, a, b), Losses(rows, a, b))))
  {
    var t := Counted(rows, karts);
    assert (a, a) in PairKeys(karts) && (a, b) in PairKeys(karts);
    DiagonalStaysZero(rows, karts, a);
    if Distinct(karts) {
      CountedMeaning(rows, karts, a, b);
    }
  }

  method CompareWith(t: PairTable, race: KartRace, a: string, karts: seq<string>) returns (ok: bool, r: PairTable)
    requires forall b :: b in karts ==> (a, b) in t
    ensures ok <==> forall b :: b in karts ==> !ReadsBlank(race, a, b)
    ensures ok ==> r == CompareRow(t, race, a, karts)
  {
    ok, r := true, t;
    var j := 0;
    while j < |karts|
      invariant 0 <= j <= |karts|
      invariant r == CompareRow(t, race, a, karts[..j])
      invariant forall i :: 0 <= i < j ==> !ReadsBlank(race, a, karts[i])
    {
      var b := karts[j];
      assert karts[..j + 1][..j] == karts[..j];
      assert CompareRow(t, race, a, karts[..j + 1]) == Compare(r, race, a, b);
      if a != b && Placed(race, a) && Placed(race, b) {
        var pa, pb := race.placement[a], race.placement[b];
        if pa.Blank? || pb.Blank? {
          assert b in karts && ReadsBlank(race, a, b);
          return false, r;
        }
        var wl := r[(a, b)];
        if pa.v < pb.v {
          wl := WinLoss(wl.win + 1, wl.loss);
        } else {
          wl := WinLoss(wl.win, wl.loss + 1);
        }
        assert wl == Effect(r[(a, b)], race, a, b);
        r := r[(a, b) := wl];
      }
      j := j + 1;
    }
    assert karts[..j] == karts;
  }

  method CompareRace(t: PairTable, race: KartRace, karts: seq<string>) returns (ok: bool, r: PairTable)
    requires forall a, b :: a in karts && b in karts ==> (a, b) in t
    ensures ok <==> !Broken(race, karts)
    ensures ok ==> r == CompareAll(t, race, karts, karts)
  {
    ok, r := true, t;
    var i := 0;
    while i < |karts|
      invariant 0 <= i <= |karts|
      invariant r.Keys == t.Keys
      invariant r == CompareAll(t, race, karts[..i], karts)
      invariant forall k, b :: 0 <= k < i && b in karts ==> !ReadsBlank(race, karts[k], b)
    {
      assert karts[..i + 1][..i] == karts[..i];
      ok, r := CompareWith(r, race, karts[i], karts);
      if !ok {
        return;
      }
      forall k, b | 0 <= k < i + 1 && b in karts
        ensures !ReadsBlank(race, karts[k], b)
      {
      }
      i := i + 1;
    }
    assert karts[..i] == karts;
    NoBlankPairs(race, karts);
  }

  lemma NoBlankPairs(race: KartRace, karts: seq<string>)
    requires forall k, b :: 0 <= k < |karts| && b in karts ==> !ReadsBlank(race, karts[k], b)
    ensures !Broken(race, karts)
  {
    forall a, b | a in karts && b in karts
      ensures !ReadsBlank(race, a, b)
    {
      var k :| 0 <= k < |karts| && karts[k] == a;
    }
  }

  /** `compute_kart_adjacency_matrix`: counts wins and losses row by row, then fills
      the matrix cell by cell. */
  method AdjacencyMatrix(rows: seq<KartRace>, karts: seq<string>) returns (m: Option<map<(string, string), Score>>)
    ensures m == Adjacency(rows, karts)
  {
    var t := ZeroPairs(karts);
    var i := 0;
    while i < |rows|
      invariant 0 <= i <= |rows|
      invariant t == Counted(rows[..i], karts)
      invariant !AnyBroken(rows[..i], karts)
    {
      ghost var before := t;
      assert rows[..i + 1][..i] == rows[..i];
      assert Counted(rows[..i + 1], karts) == CompareAll(before, rows[i], karts, karts);
      var ok;
      ok, t := CompareRace(t, rows[i], karts);
      if !ok {
        AnyBrokenMeaning(rows, karts);
        assert rows[i] in rows;
        return None;
      }
      i := i + 1;
    }
    assert rows[..i] == rows;
    var cells := FillMatrix(t, karts);
    m := Some(cells);
  }

  /** The normalisation loop: one cell per ordered pair of listed karts. */
  method FillMatrix(t: PairTable, karts: seq<string>) returns (m: map<(string, string), Score>)
    requires t.Keys == PairKeys(karts)
    ensures m == Normalise(t)
  {
    m := map[];
    var i := 0;
    while i < |karts|
      invariant 0 <= i <= |karts|
      invariant forall k :: k in m ==> k in t && m[k] == ScoreOf(t[k])
      invariant forall p, b :: 0 <= p < i && b in karts ==> (karts[p], b) in m
    {
      ghost var before := m;
      m := FillRow(t, karts[i], karts, m);
      forall p, b | 0 <= p < i + 1 && b in karts
        ensures (karts[p], b) in m
      {
        if p < i {
          assert (karts[p], b) in before;
        }
      }
      i := i + 1;
    }
    MatrixComplete(t, karts, m);
  }

  /** Cells for every pair of listed karts, each scoring its counters: the whole matrix. */
  lemma MatrixComplete(t: PairTable, karts: seq<string>, m: map<(string, string), Score>)
    requires t.Keys == PairKeys(karts)
    requires forall k :: k in m ==> k in t && m[k] == ScoreOf(t[k])
    requires forall p, b :: 0 <= p < |karts| && b in karts ==> (karts[p], b) in m
    ensures m == Normalise(t)
  {
    assert m.Keys == t.Keys by {
      CellsCover(t, karts, m);
    }
    SameCells(t, m);
  }

  lemma CellsCover(t: PairTable, karts: seq<string>, m: map<(string, string), Score>)
    requires t.Keys == PairKeys(karts)
    requires forall p, b :: 0 <= p < |karts| && b in karts ==> (karts[p], b) in m
    ensures t.Keys <= m.Keys
  {
    PairKeysMeaning(karts);
    forall k | k in t
      ensures k in m
    {
      var p :| 0 <= p < |karts| && karts[p] == k.0;
      assert (karts[p], k.1) == k;
    }
  }

  lemma SameCells(t: PairTable, m: map<(string, string), Score>)
    requires m.Keys == t.Keys
    requires forall k :: k in m ==> m[k] == ScoreOf(t[k])
    ensures m == Normalise(t)
  {
  }

  /** The inner normalisation loop: the cells of kart `a` against every listed kart. */
  method FillRow(t: PairTable, a: string, karts: seq<string>, m0: map<(string, string), Score>)
    returns (m: map<(string, string), Score>)
    requires forall b :: b in karts ==> (a, b) in t
    requires forall k :: k in m0 ==> k in t && m0[k] == ScoreOf(t[k])
    ensures forall k :: k in m ==> k in t && m[k] == ScoreOf(t[k])
    ensures forall k :: k in m0 ==> k in m
    ensures forall b :: b in karts ==> (a, b) in m
  {
    m := m0;
    var j := 0;
    while j < |karts|
      invariant 0 <= j <= |karts|
      invariant forall k :: k in m ==> k in t && m[k] == ScoreOf(t[k])
      invariant forall k :: k in m0 ==> k in m
      invariant forall q :: 0 <= q < j ==> (a, karts[q]) in m
    {
      var cell := CellFor(t[(a, karts[j])]);
      m := m[(a, karts[j]) := cell];
      j := j + 1;
    }
  }

  /** One cell: wins over meetings, times ten, or "DNR" when the pair never met. */
  method CellFor(wl: WinLoss) returns (cell: Score)
    ensures cell == ScoreOf(wl)
  {
    var total := wl.win + wl.loss;
    if total == 0 {
      cell := NoRaces;
    } else {
      cell := Rate(wl.win as real / total as real * 10.0);
    }
  }

  // ---------------------------------------------------------------------------
  // Leaderboard (`compute_kart_leaderboard`)

  datatype KartStat = KartStat(score: real, races: nat)

  /** The rating of the row's player for kart `k`: the latest tracker value when the
      player cell names a rated player, 1000 otherwise. */
  function RatingOf(elo: map<string, real>, race: KartRace, k: string): (x: real)
    ensures k !in race.player ==> x == DefaultElo
  {
    if k in race.player && race.player[k] != "" && race.player[k] in elo then elo[race.player[k]]
    else DefaultElo
  }

  /** A placed kart whose placement cannot be scored: an empty cell (`int()` raises)
      or placement 0 (`1 / placement` raises). */
  predicate Unscorable(race: KartRace, k: string) {
    Placed(race, k) && (race.placement[k].Blank? || race.placement[k] == Val(0))
  }

  /** `(player_elo / DEFAULT_ELO) * (1 / placement)`. */
  function KartScore(elo: map<string, real>, race: KartRace, k: string): real {
    if k in race.placement && race.placement[k].Val? && race.placement[k].v != 0 then
      (RatingOf(elo, race, k) / DefaultElo) * (1.0 / race.placement[k].v as real)
    else 0.0
  }

  function AddKart(st: map<string, KartStat>, race: KartRace, elo: map<string, real>, k: string): (r: map<string, KartStat>)
    requires k in st
    ensures r.Keys == st.Keys
  {
    if Placed(race, k) then st[k := KartStat(st[k].score + KartScore(elo, race, k), st[k].races + 1)] else st
  }

  /** The inner loop over the kart list for one row. */
  function AddRace(st: map<string, KartStat>, race: KartRace, elo: map<string, real>, ks: seq<string>): (r: map<string, KartStat>)
    requires forall k :: k in ks ==> k in st
    ensures r.Keys == st.Keys
  {
    if ks == [] then st
    else AddKart(AddRace(st, race, elo, ks[..|ks| - 1]), race, elo, ks[|ks| - 1])
  }

  /** Every kart starts at score 0 and no races; rows on other maps are skipped. */
  function Totals(mapName: string, rows: seq<KartRace>, elo: map<string, real>, karts: seq<string>): (st: map<string, KartStat>)
    ensures st.Keys == RosterSet(karts)
  {
    if rows == [] then map k | k in RosterSet(karts) :: KartStat(0.0, 0)
    else
      var before := Totals(mapName, rows[..|rows| - 1], elo, karts);
      var r := rows[|rows| - 1];
      if r.mapName == mapName then AddRace(before, r, elo, karts) else before
  }

  /** A placed kart of the row cannot be scored. */
  predicate RowFails(race: KartRace, karts: seq<string>) {
    exists k :: k in karts && Unscorable(race, k)
  }

  /** Some row of the map fails. */
  predicate Fails(mapName: string, rows: seq<KartRace>, karts: seq<string>) {
    rows != [] &&
    (Fails(mapName, rows[..|rows| - 1], karts) || (rows[|rows| - 1].mapName == mapName && RowFails(rows[|rows| - 1], karts)))
  }

  lemma {:induction false} FailsMeaning(mapName: string, rows: seq<KartRace>, karts: seq<string>)
    ensures Fails(mapName, rows, karts) <==>
      exists r, k :: r in rows && r.mapName == mapName && k in karts && Unscorable(r, k)
  {
    if rows != [] {
      FailsMeaning(mapName, rows[..|rows| - 1], karts);
      assert forall r :: r in rows <==> r in rows[..|rows| - 1] || r == rows[|rows| - 1];
    }
  }

  /** The average score scaled by 100; 0 for a kart that never raced. */
  function Average(s: KartStat): real {
    if s.races > 0 then s.score / s.races as real * 100.0 else 0.0
  }

  /** The kart list without repeats, in order of first appearance: the key order of a
      dictionary built over it. */
  function Unique(s: seq<string>): (u: seq<string>)
    ensures Distinct(u)
    ensures forall x :: x in u <==> x in s
  {
    if s == [] then []
    else
      var u := Unique(s[..|s| - 1]);
      if s[|s| - 1] in u then u else u + [s[|s| - 1]]
  }

  function Items(st: map<string, KartStat>, karts: seq<string>): (items: seq<(string, real)>)
    requires forall k :: k in karts ==> k in st
    ensures |items| == |Unique(karts)|
    ensures forall i :: 0 <= i < |items| ==> items[i] == (Unique(karts)[i], Average(st[Unique(karts)[i]]))
  {
    var u := Unique(karts);
    seq(|u|, i requires 0 <= i < |u| => (u[i], Average(st[u[i]])))
  }

  /** `sorted(..., key=average_score, reverse=True)`: higher averages first. */
  predicate AvgBefore(x: (string, real), y: (string, real)) {
    x.1 >= y.1
  }

  lemma AvgOrder()
    ensures Sorting.TotalPreorder(AvgBefore)
  {
  }

  function Leaderboard(mapName: string, rows: seq<KartRace>, elo: map<string, real>, karts: seq<string>): Option<seq<(string, real)>> {
    if Fails(mapName, rows, karts) then None
    else
      AvgOrder();
      var ranked := Sorting.SortBy(Items(Totals(mapName, rows, elo, karts), karts), AvgBefore);
      Some(ranked[..Min(LeaderboardSize, |ranked|)])
  }

  /** The leaderboard holds min(5, number of karts) entries, in non-increasing average
      score, each a listed kart with its own average and no kart twice; a kart left
      off scores no more than any kart on it, and one left off with the same score as a
      kart on it comes after that kart in the kart list (the sort is stable). */
  lemma LeaderboardMeaning(mapName: string, rows: seq<KartRace>, elo: map<string, real>, karts: seq<string>,
                           top: seq<(string, real)>)
    requires Leaderboard(mapName, rows, elo, karts) == Some(top)
    ensures var st := Totals(mapName, rows, elo, karts);
      && |top| == Min(LeaderboardSize, |Unique(karts)|)
      && (forall i, j :: 0 <= i < j < |top| ==> top[i].1 >= top[j].1)
      && (forall e :: e in top ==> e.0 in karts && e.1 == Average(st[e.0]))
      && (forall i, j :: 0 <= i < j < |top| ==> top[i].0 != top[j].0)
      && (forall k :: k in karts && (forall e :: e in top ==> e.0 != k) ==>
            forall e :: e in top ==> Average(st[k]) <= e.1)
      && (forall k :: k in karts && (forall e :: e in top ==> e.0 != k) ==>
            forall e :: e in top && e.1 == Average(st[k]) ==> Sorting.Before(Unique(karts), e.0, k))
  {
    var st := Totals(mapName, rows, elo, karts);
    var ranked := BoardRanked(mapName, rows, elo, karts, top);
    RankedFacts(st, karts, Items(st, karts), ranked, top);
  }

  /** A board is the head of a stable sort of the kart items by average score. */
  lemma BoardRanked(mapName: string, rows: seq<KartRace>, elo: map<string, real>, karts: seq<string>,
                    top: seq<(string, real)>) returns (ranked: seq<(string, real)>)
    requires Leaderboard(mapName, rows, elo, karts) == Some(top)
    ensures var st := Totals(mapName, rows, elo, karts);
      && (forall k :: k in karts ==> k in st)
      && multiset(ranked) == multiset(Items(st, karts))
      && Sorting.SortedBy(ranked, AvgBefore)
      && Sorting.KeepsTies(Items(st, karts), ranked, AvgBefore)
      && top == ranked[..Min(LeaderboardSize, |ranked|)]
  {
    var items := Items(Totals(mapName, rows, elo, karts), karts);
    AvgOrder();
    ranked := Sorting.SortBy(items, AvgBefore);
    Sorting.SortByStable(items, AvgBefore);
  }

  /** The facts above, about any stable sorted reordering of the items. */
  lemma RankedFacts(st: map<string, KartStat>, karts: seq<string>, items: seq<(string, real)>, ranked: seq<(string, real)>,
                    top: seq<(string, real)>)
    requires forall k :: k in karts ==> k in st
    requires items == Items(st, karts)
    requires multiset(ranked) == multiset(items) && Sorting.SortedBy(ranked, AvgBefore)
    requires Sorting.KeepsTies(items, ranked, AvgBefore)
    requires top == ranked[..Min(LeaderboardSize, |ranked|)]
    ensures && |top| == Min(LeaderboardSize, |Unique(karts)|)
      && (forall i, j :: 0 <= i < j < |top| ==> top[i].1 >= top[j].1)
      && (forall e :: e in top ==> e.0 in karts && e.1 == Average(st[e.0]))
      && (forall i, j :: 0 <= i < j < |top| ==> top[i].0 != top[j].0)
      && (forall k :: k in karts && (forall e :: e in top ==> e.0 != k) ==>
            forall e :: e in top ==> Average(st[k]) <= e.1)
      && (forall k :: k in karts && (forall e :: e in top ==> e.0 != k) ==>
            forall e :: e in top && e.1 == Average(st[k]) ==> Sorting.Before(Unique(karts), e.0, k))
  {
    assert |ranked| == |items| by {
      assert |multiset(ranked)| == |multiset(items)|;
    }
    RankedEntries(st, karts, items, ranked);
    forall i, j | 0 <= i < j < |ranked|
      ensures ranked[i].0 != ranked[j].0
    {
      RankedNamesDistinct(items, ranked, karts, i, j);
    }
    RankedLeftOff(st, karts, items, ranked);
    RankedTieOrder(st, karts, items, ranked);
  }

  /** A listed kart missing from the top five averages no more than any kart in it. */
  lemma RankedLeftOff(st: map<string, KartStat>, karts: seq<string>, items: seq<(string, real)>, ranked: seq<(string, real)>)
    requires forall k :: k in karts ==> k in st
    requires items == Items(st, karts)
    requires multiset(ranked) == multiset(items) && Sorting.SortedBy(ranked, AvgBefore)
    ensures var top := ranked[..Min(LeaderboardSize, |ranked|)];
      forall k :: k in karts && (forall e :: e in top ==> e.0 != k) ==>
        forall e :: e in top ==> Average(st[k]) <= e.1
  {
    var n := Min(LeaderboardSize, |ranked|);
    var top := ranked[..n];
    forall k | k in karts && (forall e :: e in top ==> e.0 != k)
      ensures forall e :: e in top ==> Average(st[k]) <= e.1
    {
      var u := Unique(karts);
      var p :| 0 <= p < |u| && u[p] == k;
      LeftOffBelow(items, ranked, n, items[p]);
    }
  }

  /** A listed kart left off the top five with the same average as a kart on it comes
      after that kart in the kart list: the stable sort keeps the tie in list order. */
  lemma RankedTieOrder(st: map<string, KartStat>, karts: seq<string>, items: seq<(string, real)>, ranked: seq<(string, real)>)
    requires forall k :: k in karts ==> k in st
    requires items == Items(st, karts)
    requires multiset(ranked) == multiset(items) && Sorting.KeepsTies(items, ranked, AvgBefore)
    ensures var top := ranked[..Min(LeaderboardSize, |ranked|)];
      forall k :: k in karts && (forall e :: e in top ==> e.0 != k) ==>
        forall e :: e in top && e.1 == Average(st[k]) ==> Sorting.Before(Unique(karts), e.0, k)
  {
    var top := ranked[..Min(LeaderboardSize, |ranked|)];
    forall k, e | k in karts && (forall e :: e in top ==> e.0 != k) && e in top && e.1 == Average(st[k])
      ensures Sorting.Before(Unique(karts), e.0, k)
    {
      TieAt(st, karts, items, ranked, k, e);
    }
  }

  lemma TieAt(st: map<string, KartStat>, karts: seq<string>, items: seq<(string, real)>, ranked: seq<(string, real)>,
              k: string, e: (string, real))
    requires forall k :: k in karts ==> k in st
    requires items == Items(st, karts)
    requires multiset(ranked) == multiset(items) && Sorting.KeepsTies(items, ranked, AvgBefore)
    requires k in karts && (forall e :: e in ranked[..Min(LeaderboardSize, |ranked|)] ==> e.0 != k)
    requires e in ranked[..Min(LeaderboardSize, |ranked|)] && e.1 == Average(st[k])
    ensures Sorting.Before(Unique(karts), e.0, k)
  {
    var n := Min(LeaderboardSize, |ranked|);
    var u := Unique(karts);
    var p :| 0 <= p < |u| && u[p] == k;
    var x := items[p];
    assert x in multiset(ranked);
    var q :| 0 <= q < |ranked| && ranked[q] == x;
    var i :| 0 <= i < n && ranked[..n][i] == e;
    assert x !in ranked[..n];
    assert ranked[i] == e && i < q;
    assert AvgBefore(ranked[q], ranked[i]);
    var p', q' :| 0 <= p' < q' < |items| && items[p'] == ranked[i] && items[q'] == ranked[q];
    Sorting.BeforeAt(u, p', q');
  }

  lemma RankedEntries(st: map<string, KartStat>, karts: seq<string>, items: seq<(string, real)>, ranked: seq<(string, real)>)
    requires forall k :: k in karts ==> k in st
    requires items == Items(st, karts)
    requires multiset(ranked) == multiset(items)
    ensures forall e :: e in ranked ==> e.0 in karts && e.1 == Average(st[e.0])
  {
    forall e | e in ranked
      ensures e.0 in karts && e.1 == Average(st[e.0])
    {
      assert e in multiset(items);
    }
  }

  /** An item whose kart is not among the first `n` of a sorted reordering scores no
      more than any of them. */
  lemma LeftOffBelow(items: seq<(string, real)>, ranked: seq<(string, real)>, n: nat, x: (string, real))
    requires multiset(ranked) == multiset(items) && Sorting.SortedBy(ranked, AvgBefore)
    requires n <= |ranked| && x in items
    requires forall e :: e in ranked[..n] ==> e.0 != x.0
    ensures forall e :: e in ranked[..n] ==> x.1 <= e.1
  {
    assert x in multiset(ranked);
    var q :| 0 <= q < |ranked| && ranked[q] == x;
    assert forall i :: 0 <= i < n ==> ranked[i] in ranked[..n];
    forall e | e in ranked[..n]
      ensures x.1 <= e.1
    {
      var i :| 0 <= i < n && ranked[i] == e;
      assert AvgBefore(ranked[i], ranked[q]);
    }
  }

  /** The ranked list is a reordering of one entry per distinct kart. */
  lemma RankedNamesDistinct(items: seq<(string, real)>, ranked: seq<(string, real)>, karts: seq<string>, i: int, j: int)
    requires |items| == |Unique(karts)|
    requires forall p :: 0 <= p < |items| ==> items[p].0 == Unique(karts)[p]
    requires multiset(ranked) == multiset(items)
    requires 0 <= i < j < |ranked|
    ensures ranked[i].0 != ranked[j].0
  {
    var u := Unique(karts);
    assert ranked[i] in multiset(items) && ranked[j] in multiset(items);
    var p :| 0 <= p < |items| && items[p] == ranked[i];
    var q :| 0 <= q < |items| && items[q] == ranked[j];
    ItemOnce(items, u, p);
    RepeatCounts(ranked, i, j);
  }

  /** An element found at two positions occurs at least twice. */
  lemma RepeatCounts<T>(s: seq<T>, i: int, j: int)
    requires 0 <= i < j < |s|
    ensures s[i] == s[j] ==> multiset(s)[s[i]] >= 2
  {
    assert s == s[..i] + [s[i]] + s[i + 1..j] + [s[j]] + s[j + 1..];
  }

  lemma ItemOnce(items: seq<(string, real)>, u: seq<string>, p: int)
    requires Distinct(u) && |items| == |u|
    requires forall q :: 0 <= q < |items| ==> items[q].0 == u[q]
    requires 0 <= p < |items|
    ensures multiset(items)[items[p]] == 1
  {
    var x := items[p];
    assert items == items[..p] + [x] + items[p + 1..];
    assert x !in items[..p] && x !in items[p + 1..];
  }

  /** `compute_kart_leaderboard`: accumulates each placed kart's score and race count
      over the map's rows, averages them and keeps the top five. */
  method KartLeaderboard(mapName: string, rows: seq<KartRace>, elo: map<string, real>, karts: seq<string>)
    returns (board: Option<seq<(string, real)>>)
    ensures board == Leaderboard(mapName, rows, elo, karts)
  {
    var st := map k | k in RosterSet(karts) :: KartStat(0.0, 0);
    var i := 0;
    while i < |rows|
      invariant 0 <= i <= |rows|
      invariant st == Totals(mapName, rows[..i], elo, karts)
      invariant !Fails(mapName, rows[..i], karts)
    {
      var race := rows[i];
      assert rows[..i + 1][..i] == rows[..i];
      if race.mapName == mapName {
        var ok;
        ok, st := ScoreRace(st, race, elo, karts);
        if !ok {
          var k :| k in karts && Unscorable(race, k);
          FailsMeaning(mapName, rows, karts);
          assert rows[i] in rows;
          return None;
        }
      }
      i := i + 1;
    }
    assert rows[..i] == rows;
    var items := AverageItems(st, karts);
    AvgOrder();
    var ranked := Sorting.SortBy(items, AvgBefore);
    board := Some(ranked[..Min(LeaderboardSize, |ranked|)]);
  }

  /** The averaging loop: one (kart, average score) item per key of the statistics,
      in key order. */
  method AverageItems(st: map<string, KartStat>, karts: seq<string>) returns (items: seq<(string, real)>)
    requires forall k :: k in karts ==> k in st
    ensures items == Items(st, karts)
  {
    var u := Unique(karts);
    items := [];
    var j := 0;
    while j < |u|
      invariant 0 <= j <= |u|
      invariant |items| == j
      invariant forall p :: 0 <= p < j ==> items[p] == (u[p], Average(st[u[p]]))
    {
      var s := st[u[j]];
      var avg := if s.races > 0 then s.score / s.races as real * 100.0 else 0.0;
      items := items + [(u[j], avg)];
      j := j + 1;
    }
  }

  /** The inner loop of one row: adds each placed kart's score, or fails on the first
      placed kart whose placement cannot be scored. */
  method ScoreRace(st: map<string, KartStat>, race: KartRace, elo: map<string, real>, karts: seq<string>)
    returns (ok: bool, r: map<string, KartStat>)
    requires forall k :: k in karts ==> k in st
    ensures ok <==> !RowFails(race, karts)
    ensures ok ==> r == AddRace(st, race, elo, karts)
  {
    ok, r := true, st;
    var j := 0;
    while j < |karts|
      invariant 0 <= j <= |karts|
      invariant r == AddRace(st, race, elo, karts[..j])
      invariant forall i :: 0 <= i < j ==> !Unscorable(race, karts[i])
    {
      assert karts[..j + 1][..j] == karts[..j];
      assert AddRace(st, race, elo, karts[..j + 1]) == AddKart(r, race, elo, karts[j]);
      ok, r := ScoreKart(r, race, elo, karts[j]);
      if !ok {
        return;
      }
      j := j + 1;
    }
    assert karts[..j] == karts;
  }

  /** The loop body for one kart of a row: a placed kart adds its score and a race. */
  method ScoreKart(st: map<string, KartStat>, race: KartRace, elo: map<string, real>, k: string)
    returns (ok: bool, r: map<string, KartStat>)
    requires k in st
    ensures ok <==> !Unscorable(race, k)
    ensures ok ==> r == AddKart(st, race, elo, k)
  {
    ok, r := true, st;
    if k in race.placement && race.placement[k] != DNR {
      var cell := race.placement[k];
      if cell.Blank? || cell.v == 0 {
        return false, r;
      }
      var player := if k in race.player then race.player[k] else "";
      var rating := if player != "" && player in elo then elo[player] else DefaultElo;
      var score := (rating / DefaultElo) * (1.0 / cell.v as real);
      assert score == KartScore(elo, race, k);
      r := r[k := KartStat(r[k].score + score, r[k].races + 1)];
    }
  }

  // ---------------------------------------------------------------------------
  // Latest ratings (the `elo_data` loop of `main`)

  /** A tracker row: its bookkeeping columns, then one (player, rating) column each. */
  datatype TrackerRow = TrackerRow(date: string, time: string, mapName: string, ratings: seq<(string, real)>)

  function WriteColumns(m: map<string, real>, cols: seq<(string, real)>): (r: map<string, real>)
    ensures r.Keys == m.Keys + set c | c in cols :: c.0
  {
    if cols == [] then m
    else
      var c := cols[|cols| - 1];
      WriteColumns(m, cols[..|cols| - 1])[c.0 := c.1]
  }

  /** Each player's rating as the row-by-row overwrite leaves it. */
  function LatestRatings(rows: seq<TrackerRow>): map<string, real> {
    if rows == [] then map[] else WriteColumns(LatestRatings(rows[..|rows| - 1]), rows[|rows| - 1].ratings)
  }

  /** The last value a row gives the player, if it has a column for them. */
  function ColumnValue(cols: seq<(string, real)>, p: string): Option<real> {
    if cols == [] then None
    else if cols[|cols| - 1].0 == p then Some(cols[|cols| - 1].1)
    else ColumnValue(cols[..|cols| - 1], p)
  }

  /** The player's value in the last tracker row that rates them. */
  function LastRating(rows: seq<TrackerRow>, p: string): Option<real> {
    if rows == [] then None
    else
      match ColumnValue(rows[|rows| - 1].ratings, p)
      case Some(x) => Some(x)
      case None => LastRating(rows[..|rows| - 1], p)
  }

  lemma {:induction false} WriteColumnsAt(m: map<string, real>, cols: seq<(string, real)>, p: string)
    ensures match ColumnValue(cols, p)
      case Some(x) => p in WriteColumns(m, cols) && WriteColumns(m, cols)[p] == x
      case None => (p in WriteColumns(m, cols) <==> p in m) && (p in m ==> WriteColumns(m, cols)[p] == m[p])
  {
    if cols != [] {
      WriteColumnsAt(m, cols[..|cols| - 1], p);
    }
  }

  /** The last row that rates a player decides their rating; a player no row rates
      has none (and the leaderboard falls back to 1000). */
  lemma {:induction false} LastRowWins(rows: seq<TrackerRow>, p: string)
    ensures p in LatestRatings(rows) <==> LastRating(rows, p).Some?
    ensures p in LatestRatings(rows) ==> LatestRatings(rows)[p] == LastRating(rows, p).value
  {
    if rows != [] {
      LastRowWins(rows[..|rows| - 1], p);
      WriteColumnsAt(LatestRatings(rows[..|rows| - 1]), rows[|rows| - 1].ratings, p);
    }
  }

  /** The `elo_data` loop: every rating column of every row, in order, overwrites. */
  method EloData(tracker: seq<TrackerRow>) returns (elo: map<string, real>)
    ensures elo == LatestRatings(tracker)
  {
    elo := map[];
    var i := 0;
    while i < |tracker|
      invariant 0 <= i <= |tracker|
      invariant elo == LatestRatings(tracker[..i])
    {
      assert tracker[..i + 1][..i] == tracker[..i];
      var cols := tracker[i].ratings;
      var before := elo;
      var j := 0;
      while j < |cols|
        invariant 0 <= j <= |cols|
        invariant elo == WriteColumns(before, cols[..j])
      {
        assert cols[..j + 1][..j] == cols[..j];
        elo := elo[cols[j].0 := cols[j].1];
        j := j + 1;
      }
      assert cols[..j] == cols;
      i := i + 1;
    }
    assert tracker[..i] == tracker;
  }
}
