/** The OCR token parser of the image-recognition logger (src/gui_img_recognition_logger.py),
    identical in its test helper (tests/OCR_testing_helper.py): the player-alias table,
    fuzzy matching of a detected name against it, the token-by-token parse of the OCR
    output into (placement, name, time) rows, and the filter that keeps the roster rows.

    The OCR engine's output is the input token sequence; rapidfuzz's similarity scorer
    is a parameter `score(query, alias)`. The time pattern
    `(\d{1,2})[:.*,]*?(\d{2})[:.*,]*?(\d{2})` is modelled with its backtracking order. */
module OcrParse {
  import opened Common

  // ---------------------------------------------------------------------------
  // The alias table (`load_player_aliases`)

  /** A dictionary from lowercased alias to player name, with its keys in insertion order
      (the order `list(aliases_mapping.keys())` gives the matcher). */
  datatype AliasTable = AliasTable(order: seq<string>, owner: map<string, string>)

  ghost predicate ValidTable(t: AliasTable) {
    Distinct(t.order) && forall k :: k in t.owner <==> k in t.order
  }

  /** `d[k] = v`: a new key goes to the end of the key order, an existing one keeps its place. */
  function Put(t: AliasTable, k: string, v: string): (r: AliasTable)
    ensures ValidTable(t) ==> ValidTable(r)
  {
    if k in t.owner then AliasTable(t.order, t.owner[k := v]) else AliasTable(t.order + [k], t.owner[k := v])
  }

  function PutAliases(t: AliasTable, aliases: seq<string>, p: string): (r: AliasTable)
    ensures ValidTable(t) ==> ValidTable(r)
  {
    if aliases == [] then t else Put(PutAliases(t, aliases[..|aliases| - 1], p), Lower(aliases[|aliases| - 1]), p)
  }

  /** One entry of the alias file: each alias, then the player's own name, lowercased,
      sent to the player. */
  function PutEntry(t: AliasTable, e: (string, seq<string>)): (r: AliasTable)
    ensures ValidTable(t) ==> ValidTable(r)
  {
    Put(PutAliases(t, e.1, e.0), Lower(e.0), e.0)
  }

  function LoadAliases(data: seq<(string, seq<string>)>): (t: AliasTable)
    ensures ValidTable(t)
  {
    if data == [] then AliasTable([], map[]) else PutEntry(LoadAliases(data[..|data| - 1]), data[|data| - 1])
  }

  /** The keys one entry writes. */
  function EntryKeys(e: (string, seq<string>)): set<string> {
    (set a | a in e.1 :: Lower(a)) + {Lower(e.0)}
  }

  /** No key is written by two different entries. */
  predicate NoClash(data: seq<(string, seq<string>)>) {
    forall i, j :: 0 <= i < j < |data| ==> EntryKeys(data[i]) !! EntryKeys(data[j])
  }

  lemma {:induction false} PutAliasesAt(t: AliasTable, aliases: seq<string>, p: string, k: string)
    ensures var r := PutAliases(t, aliases, p);
      && (k in r.owner <==> k in t.owner || k in (set a | a in aliases :: Lower(a)))
      && (k in (set a | a in aliases :: Lower(a)) ==> r.owner[k] == p)
      && (k !in (set a | a in aliases :: Lower(a)) && k in t.owner ==> r.owner[k] == t.owner[k])
  {
    if aliases != [] {
      var front := aliases[..|aliases| - 1];
      PutAliasesAt(t, front, p, k);
      assert (set a | a in aliases :: Lower(a)) == (set a | a in front :: Lower(a)) + {Lower(aliases[|aliases| - 1])} by {
        assert forall a :: a in aliases <==> a in front || a == aliases[|aliases| - 1];
      }
    }
  }

  lemma PutEntryAt(t: AliasTable, e: (string, seq<string>), k: string)
    ensures var r := PutEntry(t, e);
      && (k in r.owner <==> k in t.owner || k in EntryKeys(e))
      && (k in EntryKeys(e) ==> r.owner[k] == e.0)
      && (k !in EntryKeys(e) && k in t.owner ==> r.owner[k] == t.owner[k])
  {
    PutAliasesAt(t, e.1, e.0, k);
  }

  /** The table's keys are exactly the lowercased aliases and names of the file. */
  lemma {:induction false} AliasKeys(data: seq<(string, seq<string>)>, k: string)
    ensures k in LoadAliases(data).owner <==> exists i :: 0 <= i < |data| && k in EntryKeys(data[i])
  {
    if data != [] {
      var front, e := data[..|data| - 1], data[|data| - 1];
      AliasKeys(front, k);
      PutEntryAt(LoadAliases(front), e, k);
      assert forall i :: 0 <= i < |front| ==> data[i] == front[i];
    }
  }

  /** When no key is shared between entries, each key leads to the player whose entry
      wrote it. */
  lemma {:induction false} AliasOwners(data: seq<(string, seq<string>)>, i: nat, k: string)
    requires NoClash(data) && i < |data| && k in EntryKeys(data[i])
    ensures k in LoadAliases(data).owner && LoadAliases(data).owner[k] == data[i].0
  {
    var front, e := data[..|data| - 1], data[|data| - 1];
    PutEntryAt(LoadAliases(front), e, k);
    if i < |front| {
      assert NoClash(front) by {
        assert forall j :: 0 <= j < |front| ==> data[j] == front[j];
      }
      assert front[i] == data[i];
      AliasOwners(front, i, k);
    }
  }

  /** `load_player_aliases`: both loops over the (already parsed) alias file. */
  method LoadPlayerAliases(data: seq<(string, seq<string>)>) returns (t: AliasTable)
    ensures t == LoadAliases(data)
  {
    t := AliasTable([], map[]);
    var i := 0;
    while i < |data|
      invariant 0 <= i <= |data|
      invariant t == LoadAliases(data[..i])
    {
      assert data[..i + 1][..i] == data[..i];
      var p, aliases := data[i].0, data[i].1;
      var before := t;
      var j := 0;
      while j < |aliases|
        invariant 0 <= j <= |aliases|
        invariant t == PutAliases(before, aliases[..j], p)
      {
        assert aliases[..j + 1][..j] == aliases[..j];
        t := Put(t, Lower(aliases[j]), p);
        j := j + 1;
      }
      assert aliases[..j] == aliases;
      t := Put(t, Lower(p), p);
      i := i + 1;
    }
    assert data[..i] == data;
  }

  /** The player names the table leads to (`aliases_mapping.values()`). */
  function Players(t: AliasTable): set<string> {
    set k | k in t.owner :: t.owner[k]
  }

  // ---------------------------------------------------------------------------
  // Fuzzy matching (`fuzzy_match_player_name`)

  const MatchThreshold: real := 80.0

  /** `process.extractOne(query, aliases, scorer)`: the first alias with the highest score. */
  function Best(query: string, aliases: seq<string>, score: (string, string) -> real): (b: Option<(string, real)>)
    ensures b.None? <==> aliases == []
    ensures b.Some? ==> b.value.0 in aliases && b.value.1 == score(query, b.value.0)
    ensures b.Some? ==> forall a :: a in aliases ==> score(query, a) <= b.value.1
  {
    if aliases == [] then None
    else
      var b := Best(query, aliases[..|aliases| - 1], score);
      var a := aliases[|aliases| - 1];
      assert forall x :: x in aliases ==> x in aliases[..|aliases| - 1] || x == a;
      if b.None? || score(query, a) > b.value.1 then Some((a, score(query, a))) else b
  }

  /** The player whose alias scores best against the lowercased text, when that score
      is above 80; the text itself otherwise. */
  function FuzzyMatch(t: AliasTable, score: (string, string) -> real, text: string): string {
    match Best(Lower(text), t.order, score)
    case Some((a, s)) => if s > MatchThreshold && a in t.owner then t.owner[a] else text
    case None => text
  }

  /** A match is one of the table's players; no match leaves the text as detected. */
  lemma FuzzyMeaning(t: AliasTable, score: (string, string) -> real, text: string)
    requires ValidTable(t)
    ensures var r := FuzzyMatch(t, score, text);
      (exists a :: a in t.order && score(Lower(text), a) > MatchThreshold)
        ==> r in Players(t) && (exists a :: a in t.order && t.owner[a] == r &&
                                  forall b :: b in t.order ==> score(Lower(text), b) <= score(Lower(text), a))
    ensures (forall a :: a in t.order ==> score(Lower(text), a) <= MatchThreshold) ==> FuzzyMatch(t, score, text) == text
  {
    var b := Best(Lower(text), t.order, score);
    if b.Some? {
      assert b.value.0 in t.owner;
    }
  }

  // ---------------------------------------------------------------------------
  // The race-time pattern `(\d{1,2})[:.*,]*?(\d{2})[:.*,]*?(\d{2})`

  predicate IsSep(c: char) { c == ':' || c == '.' || c == '*' || c == ',' }

  predicate TwoDigitsAt(t: string, p: nat) {
    p + 2 <= |t| && IsDigit(t[p]) && IsDigit(t[p + 1])
  }

  /** `[:.*,]*?(\d{2})` from position `r`: the first position, past separators only,
      where two digits stand. */
  function ThirdGroup(t: string, r: nat): (p: Option<nat>)
    ensures p.Some? ==> r <= p.value && TwoDigitsAt(t, p.value)
    decreases |t| - r
  {
    if TwoDigitsAt(t, r) then Some(r)
    else if r < |t| && IsSep(t[r]) then ThirdGroup(t, r + 1)
    else None
  }

  /** `[:.*,]*?(\d{2})[:.*,]*?(\d{2})` from position `p`, trying fewer separators first. */
  function SecondGroup(t: string, p: nat): (g: Option<(nat, nat)>)
    ensures g.Some? ==> p <= g.value.0 && TwoDigitsAt(t, g.value.0) && g.value.0 + 2 <= g.value.1 && TwoDigitsAt(t, g.value.1)
    decreases |t| - p
  {
    if TwoDigitsAt(t, p) && ThirdGroup(t, p + 2).Some? then Some((p, ThirdGroup(t, p + 2).value))
    else if p < |t| && IsSep(t[p]) then SecondGroup(t, p + 1)
    else None
  }

  datatype TimeGroups = TimeGroups(minutes: string, seconds: string, hundredths: string)

  predicate GroupsShape(g: TimeGroups) {
    && 1 <= |g.minutes| <= 2 && AllDigits(g.minutes)
    && |g.seconds| == 2 && AllDigits(g.seconds)
    && |g.hundredths| == 2 && AllDigits(g.hundredths)
  }

  /** The three groups, once their positions are known. */
  function GroupsAt(t: string, i: nat, len: nat, q: (nat, nat)): (g: TimeGroups)
    requires len == 1 || len == 2
    requires i + len <= |t| && IsDigit(t[i]) && (len == 2 ==> IsDigit(t[i + 1]))
    requires TwoDigitsAt(t, q.0) && TwoDigitsAt(t, q.1)
    ensures GroupsShape(g)
  {
    TwoDigitsSlice(t, q.0);
    TwoDigitsSlice(t, q.1);
    TimeGroups(t[i..i + len], t[q.0..q.0 + 2], t[q.1..q.1 + 2])
  }

  lemma TwoDigitsSlice(t: string, p: nat)
    requires TwoDigitsAt(t, p)
    ensures |t[p..p + 2]| == 2 && AllDigits(t[p..p + 2])
  {
    assert t[p..p + 2] == [t[p], t[p + 1]];
  }

  /** The pattern anchored at position `i`: two minute digits first, then one. */
  function MatchAt(t: string, i: nat): (g: Option<TimeGroups>)
    ensures g.Some? ==> GroupsShape(g.value)
  {
    if i + 2 <= |t| && IsDigit(t[i]) && IsDigit(t[i + 1]) && SecondGroup(t, i + 2).Some? then
      Some(GroupsAt(t, i, 2, SecondGroup(t, i + 2).value))
    else if i + 1 <= |t| && IsDigit(t[i]) && SecondGroup(t, i + 1).Some? then
      Some(GroupsAt(t, i, 1, SecondGroup(t, i + 1).value))
    else None
  }

  /** `re.search`: the match at the leftmost position where one exists. */
  function SearchFrom(t: string, i: nat): (g: Option<TimeGroups>)
    requires i <= |t|
    ensures g.Some? ==> GroupsShape(g.value)
    decreases |t| - i
  {
    match MatchAt(t, i)
    case Some(g) => Some(g)
    case None => if i == |t| then None else SearchFrom(t, i + 1)
  }

  function DigitChar(d: nat): (c: char)
    requires d <= 9
    ensures IsDigit(c) && DigitValue(c) == d
  {
    ('0' as int + d) as char
  }

  /** `str(n)` for 0 <= n <= 99. */
  function IntText(n: nat): (s: string)
    requires n <= 99
    ensures 1 <= |s| <= 2 && AllDigits(s) && DigitsValue(s) == n
  {
    if n < 10 then [DigitChar(n)]
    else
      var s := [DigitChar(n / 10), DigitChar(n % 10)];
      assert s[..1] == [DigitChar(n / 10)] && s[..1][..0] == [];
      assert DigitsValue(s[..1]) == n / 10;
      s
  }

  /** `f"{int(minutes)}:{seconds}.{milliseconds}"`. */
  function TimeText(g: TimeGroups): string
    requires GroupsShape(g)
  {
    DigitsValueBound(g.minutes);
    IntText(DigitsValue(g.minutes)) + ":" + g.seconds + "." + g.hundredths
  }

  /** The normalised race time of a detected text, if the pattern occurs in it. */
  function NormaliseTime(text: string): Option<string> {
    match SearchFrom(text, 0)
    case Some(g) => Some(TimeText(g))
    case None => None
  }

  lemma DigitsValueBound(s: string)
    requires AllDigits(s) && |s| <= 2
    ensures DigitsValue(s) <= 99
  {
    if |s| == 2 {
      assert s[..1][..0] == [];
    }
  }

  /** A normalised time is its own normalisation: the pattern reads back the same
      minutes, seconds and hundredths. */
  lemma NormaliseIdempotent(text: string)
    requires NormaliseTime(text).Some?
    ensures NormaliseTime(NormaliseTime(text).value) == NormaliseTime(text)
  {
    var g := SearchFrom(text, 0).value;
    DigitsValueBound(g.minutes);
    var m := IntText(DigitsValue(g.minutes));
    ReadBack(m, g.seconds, g.hundredths);
  }

  /** The pattern on `m:ss.hh` finds `m`, `ss` and `hh` at its first position. */
  lemma ReadBack(m: string, ss: string, hh: string)
    requires 1 <= |m| <= 2 && AllDigits(m)
    requires |ss| == 2 && AllDigits(ss) && |hh| == 2 && AllDigits(hh)
    ensures MatchAt(m + ":" + ss + "." + hh, 0) == Some(TimeGroups(m, ss, hh))
  {
    var x := m + ":" + ss + "." + hh;
    var k := |m|;
    assert x[k] == ':' && x[k + 3] == '.';
    assert ThirdGroup(x, k + 3) == Some(k + 4);
    assert SecondGroup(x, k) == Some((k + 1, k + 4));
    assert x[0..k] == m && x[k + 1..k + 3] == ss && x[k + 4..k + 6] == hh;
    if k == 1 {
      assert !IsDigit(x[1]);
    }
  }

  // ---------------------------------------------------------------------------
  // The token parser (`parse_ocr_results`)

  const MinConfidence: real := 0.01

  /** An OCR detection: its text and confidence (the bounding box is not read). */
  datatype Token = Token(text: string, confidence: real)

  /** `temp_row`: the row being assembled. */
  datatype Pending = Pending(placement: Option<nat>, name: Option<string>, time: Option<string>)

  datatype ParsedRow = ParsedRow(placement: nat, name: string, time: string)

  /** The loop's variables: `found_time_label`, `current_placement`, `parsed_rows`, `temp_row`. */
  datatype Parser = Parser(found: bool, current: nat, rows: seq<ParsedRow>, temp: Pending)

  function Start(): Parser {
    Parser(false, 1, [], Pending(Some(1), None, None))
  }

  predicate IsTimeLabel(text: string) { Lower(Strip(text)) == "time" }

  /** A single stripped digit. */
  predicate IsPlacementDigit(text: string) { IsDigitText(Strip(text)) && |Strip(text)| == 1 }

  /** Both name and time are set to non-empty text (Python truthiness). */
  predicate Complete(p: Pending) {
    p.name.Some? && p.name.value != "" && p.time.Some? && p.time.value != ""
  }

  /** A table token fills the row's time when the pattern occurs in it and the row has
      none yet; otherwise it fills the row's name, matched against the aliases, when the
      row has none yet. */
  function Fill(p: Pending, text: string, t: AliasTable, score: (string, string) -> real): Pending {
    match NormaliseTime(text)
    case Some(x) => if p.time.None? then p.(time := Some(x)) else p
    case None => if p.name.None? then p.(name := Some(FuzzyMatch(t, score, text))) else p
  }

  /** One token: skipped below the confidence bar; the "time" label opens the table;
      before it nothing counts; a single digit marks the row's placement when none is
      pending; otherwise the token fills the row's time or, failing the pattern, its name
      (only when still empty), and a complete row is emitted with the next placement. */
  function Step(s: Parser, tok: Token, t: AliasTable, score: (string, string) -> real): Parser {
    if tok.confidence < MinConfidence then s
    else if IsTimeLabel(tok.text) then s.(found := true)
    else if !s.found then s
    else if s.temp.placement.None? && IsPlacementDigit(tok.text) then s.(temp := s.temp.(placement := Some(s.current)))
    else
      var temp := Fill(s.temp, tok.text, t, score);
      if Complete(temp) then
        Parser(s.found, s.current + 1, s.rows + [ParsedRow(s.current, temp.name.value, temp.time.value)], Pending(None, None, None))
      else s.(temp := temp)
  }

  function Run(s: Parser, toks: seq<Token>, t: AliasTable, score: (string, string) -> real): Parser {
    if toks == [] then s else Step(Run(s, toks[..|toks| - 1], t, score), toks[|toks| - 1], t, score)
  }

  function ParseOcr(toks: seq<Token>, t: AliasTable, score: (string, string) -> real): seq<ParsedRow> {
    Run(Start(), toks, t, score).rows
  }

  /** `parse_ocr_results`. */
  method ParseOcrResults(toks: seq<Token>, t: AliasTable, score: (string, string) -> real) returns (rows: seq<ParsedRow>)
    ensures rows == ParseOcr(toks, t, score)
  {
    var found := false;
    var current := 1;
    rows := [];
    var temp := Pending(Some(current), None, None);
    var i := 0;
    while i < |toks|
      invariant 0 <= i <= |toks|
      invariant Parser(found, current, rows, temp) == Run(Start(), toks[..i], t, score)
    {
      assert toks[..i + 1][..i] == toks[..i];
      found, current, rows, temp := Consume(found, current, rows, temp, toks[i], t, score);
      i := i + 1;
    }
    assert toks[..i] == toks;
  }

  /** The body of the token loop. */
  method Consume(found: bool, current: nat, rows: seq<ParsedRow>, temp: Pending, tok: Token, t: AliasTable, score: (string, string) -> real)
    returns (found': bool, current': nat, rows': seq<ParsedRow>, temp': Pending)
    ensures Parser(found', current', rows', temp') == Step(Parser(found, current, rows, temp), tok, t, score)
  {
    found', current', rows', temp' := found, current, rows, temp;
    var text, confidence := tok.text, tok.confidence;
    if confidence < MinConfidence {
      return;
    }
    if IsTimeLabel(text) {
      found' := true;
      return;
    }
    if !found {
      return;
    }
    if temp.placement.None? && IsPlacementDigit(text) {
      temp' := temp.(placement := Some(current));
      return;
    }
    temp' := FillPending(temp, text, t, score);
    if Complete(temp') {
      rows' := rows + [ParsedRow(current, temp'.name.value, temp'.time.value)];
      temp' := Pending(None, None, None);
      current' := current + 1;
    }
  }

  /** The time search, or failing it the fuzzy name match, on a table token. */
  method FillPending(temp: Pending, text: string, t: AliasTable, score: (string, string) -> real) returns (temp': Pending)
    ensures temp' == Fill(temp, text, t, score)
  {
    temp' := temp;
    var timeMatch := SearchFrom(text, 0);
    if timeMatch.Some? {
      var raceTime := TimeText(timeMatch.value);
      if temp.time.None? {
        temp' := temp.(time := Some(raceTime));
      }
    } else {
      var matched := FuzzyMatch(t, score, text);
      if temp.name.None? {
        temp' := temp.(name := Some(matched));
      }
    }
  }

  lemma FillNormal(p: Pending, text: string, t: AliasTable, score: (string, string) -> real)
    requires p.time.Some? ==> NormaliseTime(p.time.value) == p.time
    ensures var q := Fill(p, text, t, score);
      q.placement == p.placement && (q.time.Some? ==> NormaliseTime(q.time.value) == q.time)
  {
    if NormaliseTime(text).Some? {
      NormaliseIdempotent(text);
    }
  }

  /** A row as the parser emits it: the next placement, a non-empty name, a time already
      in normalised form. */
  predicate RowShape(r: ParsedRow, i: nat) {
    r.placement == i + 1 && r.name != "" && NormaliseTime(r.time) == Some(r.time)
  }

  /** What every reachable parser state keeps: rows carry placements 1, 2, ... in order,
      a non-empty name and a normalised time, and the next placement follows. */
  predicate Consistent(s: Parser) {
    && s.current == |s.rows| + 1
    && (forall i :: 0 <= i < |s.rows| ==> RowShape(s.rows[i], i))
    && (s.temp.time.Some? ==> NormaliseTime(s.temp.time.value) == s.temp.time)
  }

  lemma EmitConsistent(s: Parser, temp: Pending)
    requires Consistent(s) && Complete(temp) && NormaliseTime(temp.time.value) == temp.time
    ensures Consistent(Parser(s.found, s.current + 1, s.rows + [ParsedRow(s.current, temp.name.value, temp.time.value)], Pending(None, None, None)))
  {
    var rows := s.rows + [ParsedRow(s.current, temp.name.value, temp.time.value)];
    assert forall i :: 0 <= i < |s.rows| ==> rows[i] == s.rows[i];
    assert RowShape(rows[|s.rows|], |s.rows|);
  }

  lemma StepConsistent(s: Parser, tok: Token, t: AliasTable, score: (string, string) -> real)
    requires Consistent(s)
    ensures Consistent(Step(s, tok, t, score))
  {
    if tok.confidence < MinConfidence || IsTimeLabel(tok.text) || !s.found {
    } else if s.temp.placement.None? && IsPlacementDigit(tok.text) {
    } else {
      var temp := Fill(s.temp, tok.text, t, score);
      FillNormal(s.temp, tok.text, t, score);
      if Complete(temp) {
        EmitConsistent(s, temp);
      }
    }
  }

  /** Emitted rows are numbered 1, 2, ..., n in emission order, and each has a non-empty
      name and a time in normalised form. */
  lemma {:induction false} ParsedRowsShape(toks: seq<Token>, t: AliasTable, score: (string, string) -> real)
    ensures Consistent(Run(Start(), toks, t, score))
  {
    if toks != [] {
      ParsedRowsShape(toks[..|toks| - 1], t, score);
      StepConsistent(Run(Start(), toks[..|toks| - 1], t, score), toks[|toks| - 1], t, score);
    }
  }

  /** Within a row, the first time and the first name seen stay: later tokens never
      replace them, and the emitted row carries them. */
  lemma FirstValuesWin(s: Parser, tok: Token, t: AliasTable, score: (string, string) -> real)
    ensures var n := Step(s, tok, t, score);
      && (s.temp.time.Some? && |n.rows| == |s.rows| ==> n.temp.time == s.temp.time)
      && (s.temp.time.Some? && |n.rows| != |s.rows| ==> n.rows[|s.rows|].time == s.temp.time.value)
      && (s.temp.name.Some? && |n.rows| == |s.rows| ==> n.temp.name == s.temp.name)
      && (s.temp.name.Some? && |n.rows| != |s.rows| ==> n.rows[|s.rows|].name == s.temp.name.value)
  {
  }

  /** Parsing runs token after token, so a split of the input composes. */
  lemma {:induction false} RunAppend(s: Parser, a: seq<Token>, b: seq<Token>, t: AliasTable, score: (string, string) -> real)
    ensures Run(s, a + b, t, score) == Run(Run(s, a, t, score), b, t, score)
  {
    if b != [] {
      var front := b[..|b| - 1];
      RunAppend(s, a, front, t, score);
      assert (a + b)[..|a + b| - 1] == a + front;
      assert (a + b)[|a + b| - 1] == b[|b| - 1];
      assert Run(s, a + b, t, score) == Step(Run(s, a + front, t, score), b[|b| - 1], t, score);
    } else {
      assert a + b == a;
    }
  }

  /** Tokens before the first confident "time" label leave the parser where it started. */
  lemma {:induction false} PreambleIgnored(pre: seq<Token>, t: AliasTable, score: (string, string) -> real)
    requires forall tok :: tok in pre ==> tok.confidence < MinConfidence || !IsTimeLabel(tok.text)
    ensures Run(Start(), pre, t, score) == Start()
  {
    if pre != [] {
      PreambleIgnored(pre[..|pre| - 1], t, score);
    }
  }

  /** Hence the rows come from the tokens after the label alone. */
  lemma NothingBeforeLabel(pre: seq<Token>, post: seq<Token>, t: AliasTable, score: (string, string) -> real)
    requires forall tok :: tok in pre ==> tok.confidence < MinConfidence || !IsTimeLabel(tok.text)
    ensures ParseOcr(pre + post, t, score) == Run(Start(), post, t, score).rows
  {
    RunAppend(Start(), pre, post, t, score);
    PreambleIgnored(pre, t, score);
  }

  function Confident(toks: seq<Token>): seq<Token> {
    if toks == [] then []
    else Confident(toks[..|toks| - 1]) + (if toks[|toks| - 1].confidence < MinConfidence then [] else [toks[|toks| - 1]])
  }

  /** Low-confidence tokens change nothing: parsing the confident ones alone gives the
      same result. */
  lemma {:induction false} LowConfidenceIgnored(s: Parser, toks: seq<Token>, t: AliasTable, score: (string, string) -> real)
    ensures Run(s, toks, t, score) == Run(s, Confident(toks), t, score)
  {
    if toks != [] {
      var front, last := toks[..|toks| - 1], toks[|toks| - 1];
      LowConfidenceIgnored(s, front, t, score);
      if last.confidence >= MinConfidence {
        var c := Confident(front) + [last];
        assert Confident(toks) == c;
        assert c[..|c| - 1] == Confident(front);
      } else {
        assert Confident(toks) == Confident(front);
      }
    }
  }

  // ---------------------------------------------------------------------------
  // The roster filter (`filter_logged_rows`)

  const FormRows: nat := 8

  /** The rows, among the given ones, whose name is a player of the table. */
  function Kept(rows: seq<ParsedRow>, players: set<string>): seq<ParsedRow> {
    if rows == [] then []
    else Kept(rows[..|rows| - 1], players) + (if rows[|rows| - 1].name in players then [rows[|rows| - 1]] else [])
  }

  /** Their positions in the input. */
  function KeptPositions(rows: seq<ParsedRow>, players: set<string>): seq<nat> {
    if rows == [] then []
    else KeptPositions(rows[..|rows| - 1], players) + (if rows[|rows| - 1].name in players then [|rows| - 1] else [])
  }

  function FilterLogged(rows: seq<ParsedRow>, t: AliasTable): seq<ParsedRow> {
    Kept(rows[..Min(FormRows, |rows|)], Players(t))
  }

  /** The kept rows are the rows of the table's players, in input order and unchanged
      (placements included, gaps allowed): positions increase and each names its row. */
  lemma {:induction false} KeptMeaning(rows: seq<ParsedRow>, players: set<string>)
    ensures var k, pos := Kept(rows, players), KeptPositions(rows, players);
      && |pos| == |k|
      && (forall i :: 0 <= i < |k| ==> pos[i] < |rows| && k[i] == rows[pos[i]])
      && (forall i, j :: 0 <= i < j < |k| ==> pos[i] < pos[j])
      && (forall r :: r in k <==> r in rows && r.name in players)
  {
    KeptAt(rows, players);
    KeptOrdered(rows, players);
    KeptMembers(rows, players);
  }

  lemma {:induction false} KeptAt(rows: seq<ParsedRow>, players: set<string>)
    ensures var k, pos := Kept(rows, players), KeptPositions(rows, players);
      && |pos| == |k|
      && forall i :: 0 <= i < |k| ==> pos[i] < |rows| && k[i] == rows[pos[i]]
  {
    if rows != [] {
      var front := rows[..|rows| - 1];
      KeptAt(front, players);
      var k0, pos0 := Kept(front, players), KeptPositions(front, players);
      assert forall i :: 0 <= i < |k0| ==> pos0[i] < |front| && k0[i] == rows[pos0[i]];
    }
  }

  lemma {:induction false} KeptOrdered(rows: seq<ParsedRow>, players: set<string>)
    ensures forall i :: 0 <= i < |KeptPositions(rows, players)| ==> KeptPositions(rows, players)[i] < |rows|
    ensures forall i, j :: 0 <= i < j < |KeptPositions(rows, players)| ==> KeptPositions(rows, players)[i] < KeptPositions(rows, players)[j]
  {
    if rows != [] {
      KeptOrdered(rows[..|rows| - 1], players);
    }
  }

  lemma {:induction false} KeptMembers(rows: seq<ParsedRow>, players: set<string>)
    ensures forall r :: r in Kept(rows, players) <==> r in rows && r.name in players
  {
    if rows != [] {
      var front := rows[..|rows| - 1];
      KeptMembers(front, players);
      assert forall r :: r in rows <==> r in front || r == rows[|rows| - 1];
    }
  }

  /** At most eight rows, all among the first eight parsed ones and named after a player. */
  lemma FilterLoggedMeaning(rows: seq<ParsedRow>, t: AliasTable)
    ensures |FilterLogged(rows, t)| <= FormRows
    ensures forall r :: r in FilterLogged(rows, t) <==> r in rows[..Min(FormRows, |rows|)] && r.name in Players(t)
  {
    KeptMeaning(rows[..Min(FormRows, |rows|)], Players(t));
    KeptLength(rows[..Min(FormRows, |rows|)], Players(t));
  }

  lemma {:induction false} KeptLength(rows: seq<ParsedRow>, players: set<string>)
    ensures |Kept(rows, players)| <= |rows|
  {
    if rows != [] {
      KeptLength(rows[..|rows| - 1], players);
    }
  }

  /** `filter_logged_rows`. */
  method FilterLoggedRows(rows: seq<ParsedRow>, t: AliasTable) returns (logged: seq<ParsedRow>)
    ensures logged == FilterLogged(rows, t)
  {
    var players := Players(t);
    logged := [];
    var i := 0;
    while i < |rows|
      invariant 0 <= i <= Min(FormRows, |rows|)
      invariant logged == Kept(rows[..i], players)
    {
      if i >= FormRows {
        break;
      }
      assert rows[..i + 1][..i] == rows[..i];
      if rows[i].name in players {
        logged := logged + [rows[i]];
      }
      i := i + 1;
    }
  }

  /** The first image of the test cases: of four parsed rows, the one not named after a
      player is dropped and the others keep placements 1, 3 and 4. */
  lemma FirstRaceExample()
    ensures var t := AliasTable(["azhan", "raj", "sameer"], map["azhan" := "Azhan", "raj" := "Raj", "sameer" := "Sameer"]);
      var rows := [ParsedRow(1, "Azhan", "2:35.04"), ParsedRow(2, "CPU", "2:35.50"),
                   ParsedRow(3, "Raj", "2:35.70"), ParsedRow(4, "Sameer", "2:35.90")];
      FilterLogged(rows, t) == [ParsedRow(1, "Azhan", "2:35.04"), ParsedRow(3, "Raj", "2:35.70"), ParsedRow(4, "Sameer", "2:35.90")]
  {
    var t := AliasTable(["azhan", "raj", "sameer"], map["azhan" := "Azhan", "raj" := "Raj", "sameer" := "Sameer"]);
    assert Players(t) == {"Azhan", "Raj", "Sameer"} by {
      assert t.owner["azhan"] == "Azhan" && t.owner["raj"] == "Raj" && t.owner["sameer"] == "Sameer";
    }
    var rows := [ParsedRow(1, "Azhan", "2:35.04"), ParsedRow(2, "CPU", "2:35.50"),
                 ParsedRow(3, "Raj", "2:35.70"), ParsedRow(4, "Sameer", "2:35.90")];
    assert rows[..Min(FormRows, |rows|)] == rows;
    assert rows[..3][..2][..1][..0] == [];
    assert rows[..2][..1] == rows[..1] && rows[..3][..2] == rows[..2] && rows[..4][..3] == rows[..3];
    assert "CPU" !in Players(t);
    assert Kept(rows[..1], Players(t)) == [rows[0]];
    assert Kept(rows[..2], Players(t)) == [rows[0]];
    assert Kept(rows[..3], Players(t)) == [rows[0], rows[2]];
  }
}
