/** The line-based screenshot logger (src/Xgui_image_recognition_logger.py): the text the
    OCR engine reads from a results screenshot is split into lines, each line that starts
    with `placement  player  M:SS.hh` becomes a race entry, and the entries of all the
    screenshots are appended to the log. The OCR engine itself is not modelled: each
    screenshot is given as the text it yields. `\w` is ASCII letters, digits and `_`;
    `\s` is `Common.IsSpace`. */
module LineParser {
  import opened Common

  const UnknownKart: string := "Unknown Kart"

  /** The kart database: screenshot file names of known karts. */
  const KartDatabase: map<string, string> := map["Puppy_kart.png" := "Puppy", "TheKart_kart.png" := "The Kart"]

  // ---------------------------------------------------------------------------
  // `recognize_kart`

  /** `Path(p).name`: the last component that is neither empty nor ".". */
  function BaseName(path: string): (name: string)
    ensures '/' !in name
  {
    LastComponent(SplitOn(path, '/'))
  }

  function LastComponent(parts: seq<string>): (name: string)
    requires forall k :: 0 <= k < |parts| ==> '/' !in parts[k]
    ensures '/' !in name
  {
    if parts == [] then ""
    else if parts[|parts| - 1] != "" && parts[|parts| - 1] != "." then parts[|parts| - 1]
    else LastComponent(parts[..|parts| - 1])
  }

  function RecognizeKart(path: string): (kart: string)
    ensures BaseName(path) in KartDatabase ==> kart == KartDatabase[BaseName(path)]
    ensures BaseName(path) !in KartDatabase ==> kart == UnknownKart
  {
    var name := BaseName(path);
    if name in KartDatabase then KartDatabase[name] else UnknownKart
  }

  lemma {:induction false} SplitOnLast(x: string, sep: char, y: string)
    requires sep !in y
    ensures var parts := SplitOn(x + [sep] + y, sep); |parts| >= 2 && parts[|parts| - 1] == y
  {
    if x == [] {
      assert x + [sep] + y == [sep] + y;
      assert ([sep] + y)[1..] == y;
      SplitOnWhole(y, sep);
    } else {
      assert (x + [sep] + y)[1..] == x[1..] + [sep] + y;
      SplitOnLast(x[1..], sep, y);
    }
  }

  lemma {:induction false} SplitOnWhole(y: string, sep: char)
    requires sep !in y
    ensures SplitOn(y, sep) == [y]
  {
    if y != [] {
      assert sep !in y[1..];
      SplitOnWhole(y[1..], sep);
      assert [y[0]] + y[1..] == y;
    }
  }

  /** The kart depends only on the file name, not on the folder it is in. */
  lemma KartIgnoresFolder(folder: string, name: string)
    requires '/' !in name && name != "" && name != "."
    ensures RecognizeKart(folder + "/" + name) == RecognizeKart(name)
  {
    SplitOnLast(folder, '/', name);
    SplitOnWhole(name, '/');
  }

  lemma BaseNamePlain(name: string)
    requires '/' !in name && name != "" && name != "."
    ensures BaseName(name) == name
  {
    SplitOnWhole(name, '/');
  }

  /** The two database screenshots are recognised, a file of another name is not. */
  lemma RecognizePuppy()
    ensures RecognizeKart("Puppy_kart.png") == "Puppy"
  {
    BaseNamePlain("Puppy_kart.png");
  }

  lemma RecognizeTheKart()
    ensures RecognizeKart("TheKart_kart.png") == "The Kart"
  {
    BaseNamePlain("TheKart_kart.png");
  }

  lemma RecognizeOther()
    ensures RecognizeKart("Other_kart.png") == UnknownKart
  {
    BaseNamePlain("Other_kart.png");
  }

  // ---------------------------------------------------------------------------
  // The line pattern `(\d+)\s+([\w\s]+)\s+(\d+:\d{2}\.\d{2})`, matched at a line's start

  predicate IsWordChar(c: char) { IsDigit(c) || 'a' <= c <= 'z' || 'A' <= c <= 'Z' || c == '_' }

  predicate InClass(c: char) { IsWordChar(c) || IsSpace(c) }

  /** `:\d{2}\.\d{2}` at position `e`. */
  predicate ClockTailAt(s: string, e: int) {
    && 0 <= e && e + 6 <= |s|
    && s[e] == ':' && IsDigit(s[e + 1]) && IsDigit(s[e + 2])
    && s[e + 3] == '.' && IsDigit(s[e + 4]) && IsDigit(s[e + 5])
  }

  /** The three captured groups. */
  datatype Groups = Groups(placement: string, player: string, time: string)

  /** A way of reading the start of `s` as the pattern: digits `[0, a)`, blanks `[a, b)`,
      the player `[b, g)`, blanks `[g, t)`, then the time's digits `[t, e)` and its tail. */
  predicate Shaped(s: string, a: int, b: int, g: int, t: int, e: int) {
    && 0 < a < b < g < t < e && ClockTailAt(s, e)
    && (forall i :: 0 <= i < a ==> IsDigit(s[i]))
    && (forall i :: a <= i < b ==> IsSpace(s[i]))
    && (forall i :: b <= i < g ==> InClass(s[i]))
    && (forall i :: g <= i < t ==> IsSpace(s[i]))
    && (forall i :: t <= i < e ==> IsDigit(s[i]))
  }

  /** The end of the run of `p`-characters that starts at `i`. */
  function RunEnd(s: string, i: nat, p: char -> bool): (j: nat)
    requires i <= |s|
    ensures i <= j <= |s|
    ensures forall k :: i <= k < j ==> p(s[k])
    ensures j < |s| ==> !p(s[j])
    decreases |s| - i
  {
    if i == |s| || !p(s[i]) then i else RunEnd(s, i + 1, p)
  }

  /** The start of the run of `p`-characters that ends at `j`. */
  function RunStart(s: string, j: nat, p: char -> bool): (i: nat)
    requires j <= |s|
    ensures i <= j
    ensures forall k :: i <= k < j ==> p(s[k])
    ensures i > 0 ==> !p(s[i - 1])
  {
    if j == 0 || !p(s[j - 1]) then j else RunStart(s, j - 1, p)
  }

  /** The positions the pattern's matcher settles on: the end of the leading digits, the
      end of the blanks after them, the end of the run the player class covers, and the
      start of the digits that end there. */
  function Cuts(s: string): (c: (nat, nat, nat, nat))
    ensures c.0 <= c.1 <= |s| && c.0 <= c.2 <= |s| && c.3 <= c.2
  {
    var a := RunEnd(s, 0, IsDigit);
    var blanks := RunEnd(s, a, IsSpace);
    var e := RunEnd(s, a, InClass);
    (a, blanks, e, RunStart(s, e, IsDigit))
  }

  /** `re.match` of the pattern, with the groups the backtracking matcher settles on: all
      the leading digits; as many blanks as leave the player non-empty; the player up to
      the one blank before the time's digits. */
  function LineMatch(s: string): Option<Groups> {
    var (a, blanks, e, t) := Cuts(s);
    if a == 0 || blanks == a || !ClockTailAt(s, e) then None
    else if t == e || t < a + 3 || !IsSpace(s[t - 1]) then None
    else Some(Groups(s[..a], s[Min(blanks, t - 2)..t - 1], s[t..e + 6]))
  }

  lemma LineMatchCuts(s: string)
    requires LineMatch(s).Some?
    ensures var (a, blanks, e, t) := Cuts(s);
      && Shaped(s, a, Min(blanks, t - 2), t - 1, t, e)
      && LineMatch(s).value == Groups(s[..a], s[Min(blanks, t - 2)..t - 1], s[t..e + 6])
  {
  }

  /** Every match the function reports is a reading of the line as the pattern. */
  lemma LineMatchSound(s: string)
    ensures LineMatch(s).Some? ==> exists a, b, g, t, e :: (Shaped(s, a, b, g, t, e) &&
      LineMatch(s).value == Groups(s[..a], s[b..g], s[t..e + 6]))
  {
    if LineMatch(s).Some? {
      LineMatchCuts(s);
      var (a, blanks, e, t) := Cuts(s);
      assert Shaped(s, a, Min(blanks, t - 2), t - 1, t, e);
    }
  }

  /** Any reading of the line as the pattern makes the function match, and the placement
      and the time it reports are the ones of that reading: only the split of the blanks
      around the player can differ. */
  lemma LineMatchComplete(s: string, a: int, b: int, g: int, t: int, e: int)
    requires Shaped(s, a, b, g, t, e)
    ensures LineMatch(s).Some?
    ensures LineMatch(s).value.placement == s[..a] && LineMatch(s).value.time == s[t..e + 6]
  {
    CutsOfShaped(s, a, b, g, t, e);
  }

  lemma CutsOfShaped(s: string, a: int, b: int, g: int, t: int, e: int)
    requires Shaped(s, a, b, g, t, e)
    ensures Cuts(s).0 == a && Cuts(s).1 > a && Cuts(s).2 == e && Cuts(s).3 == t
  {
    RunEndIs(s, 0, IsDigit, a);
    RunEndIs(s, a, InClass, e);
    RunStartIs(s, e, IsDigit, t);
    assert RunEnd(s, a, IsSpace) > a;
  }

  lemma {:induction false} RunEndIs(s: string, i: nat, p: char -> bool, j: nat)
    requires i <= j <= |s|
    requires forall k :: i <= k < j ==> p(s[k])
    requires j < |s| ==> !p(s[j])
    ensures RunEnd(s, i, p) == j
    decreases j - i
  {
    if i < j {
      RunEndIs(s, i + 1, p, j);
    }
  }

  lemma {:induction false} RunStartIs(s: string, j: nat, p: char -> bool, i: nat)
    requires i <= j <= |s|
    requires forall k :: i <= k < j ==> p(s[k])
    requires i > 0 ==> !p(s[i - 1])
    ensures RunStart(s, j, p) == i
    decreases j - i
  {
    if i < j {
      RunStartIs(s, j - 1, p, i);
    }
  }

  // ---------------------------------------------------------------------------
  // `extract_race_data`

  datatype RaceEntry = RaceEntry(mapName: string, player: string, placement: int, kart: string, time: string)

  /** The entry one line yields, if it matches. */
  function LineEntry(line: string, mapName: string): Option<RaceEntry> {
    match LineMatch(line)
    case None => None
    case Some(g) => Some(RaceEntry(mapName, Strip(g.player), DigitsValue(g.placement), UnknownKart, g.time))
  }

  /** The entries of the lines, in line order. */
  function RaceData(lines: seq<string>, mapName: string): (data: seq<RaceEntry>)
    ensures |data| <= |lines|
    ensures forall k :: 0 <= k < |data| ==> data[k].mapName == mapName && data[k].kart == UnknownKart
  {
    if lines == [] then []
    else
      var front := RaceData(lines[..|lines| - 1], mapName);
      match LineEntry(lines[|lines| - 1], mapName)
      case None => front
      case Some(entry) => front + [entry]
  }

  /** Lines contribute independently and in order: the entries of two blocks of lines are
      the first block's followed by the second's. */
  lemma {:induction false} RaceDataAppend(xs: seq<string>, ys: seq<string>, mapName: string)
    ensures RaceData(xs + ys, mapName) == RaceData(xs, mapName) + RaceData(ys, mapName)
  {
    if ys == [] {
      assert xs + ys == xs;
    } else {
      assert (xs + ys)[..|xs + ys| - 1] == xs + ys[..|ys| - 1];
      RaceDataAppend(xs, ys[..|ys| - 1], mapName);
    }
  }

  /** A single line yields its own entry, or nothing. */
  lemma RaceDataOne(line: string, mapName: string)
    ensures RaceData([line], mapName) == match LineEntry(line, mapName) case None => [] case Some(x) => [x]
  {
    assert [line][..0] == [];
  }

  /** The time group is `M:SS.hh` with the digits and marks in place, the placement group
      the line's leading digits. */
  lemma GroupsShape(line: string)
    requires LineMatch(line).Some?
    ensures var m := LineMatch(line).value;
      && |m.time| >= 7 && m.time[|m.time| - 6] == ':' && m.time[|m.time| - 3] == '.'
      && AllDigits(m.time[..|m.time| - 6])
      && 0 < |m.placement| <= |line| && m.placement == line[..|m.placement|] && AllDigits(m.placement)
  {
    LineMatchCuts(line);
    var (a, blanks, e, t) := Cuts(line);
    ShapedParts(line, a, Min(blanks, t - 2), t - 1, t, e);
  }

  /** The placement and time groups of any reading of a line as the pattern. */
  lemma ShapedParts(s: string, a: int, b: int, g: int, t: int, e: int)
    requires Shaped(s, a, b, g, t, e)
    ensures var time := s[t..e + 6];
      && |time| >= 7 && time[|time| - 6] == ':' && time[|time| - 3] == '.'
      && AllDigits(time[..|time| - 6])
      && AllDigits(s[..a])
  {
    var time := s[t..e + 6];
    assert time[..|time| - 6] == s[t..e];
    assert forall i :: 0 <= i < e - t ==> s[t..e][i] == s[t + i];
    assert forall i :: 0 <= i < a ==> s[..a][i] == s[i];
  }

  /** The entry's placement is the value of the line's leading digits and its time has the
      `M:SS.hh` shape. */
  lemma LineEntryShape(line: string, mapName: string)
    requires LineEntry(line, mapName).Some?
    ensures var x := LineEntry(line, mapName).value;
      && |x.time| >= 7 && x.time[|x.time| - 6] == ':' && x.time[|x.time| - 3] == '.'
      && AllDigits(x.time[..|x.time| - 6])
      && exists a :: 0 < a <= |line| && AllDigits(line[..a]) && x.placement == DigitsValue(line[..a])
  {
    GroupsShape(line);
    var m := LineMatch(line).value;
    assert LineEntry(line, mapName).value.placement == DigitsValue(line[..|m.placement|]);
  }

  method ExtractRaceData(text: string, mapName: string) returns (data: seq<RaceEntry>)
    ensures data == RaceData(SplitOn(text, '\n'), mapName)
  {
    var lines := SplitOn(text, '\n');
    data := [];
    var i := 0;
    while i < |lines|
      invariant 0 <= i <= |lines|
      invariant data == RaceData(lines[..i], mapName)
    {
      assert lines[..i + 1][..i] == lines[..i];
      var entry := LineEntry(lines[i], mapName);
      if entry.Some? {
        data := data + [entry.value];
      }
      i := i + 1;
    }
    assert lines[..i] == lines;
  }

  // ---------------------------------------------------------------------------
  // `process_and_log_images`

  /** The entries of all the screenshots, screenshot by screenshot. */
  function AllRaceData(texts: seq<string>, mapName: string): (data: seq<RaceEntry>)
    ensures forall k :: 0 <= k < |data| ==> data[k].mapName == mapName && data[k].kart == UnknownKart
  {
    if texts == [] then []
    else AllRaceData(texts[..|texts| - 1], mapName) + RaceData(SplitOn(texts[|texts| - 1], '\n'), mapName)
  }

  datatype Status = NoMap | NoData | Logged(entries: nat, images: nat)

  /** The results log the screenshots are appended to. */
  class ImageLog {
    var rows: seq<RaceEntry>

    constructor ()
      ensures rows == []
    {
      rows := [];
    }

    /** Rejects a missing map before looking at any screenshot; appends the entries of all
        the screenshots, and only when there is at least one. */
    method ProcessAndLogImages(mapName: string, texts: seq<string>) returns (status: Status)
      modifies this
      ensures mapName == "" || mapName == SelectLabel <==> status == NoMap
      ensures status == NoData <==> status != NoMap && AllRaceData(texts, mapName) == []
      ensures status.Logged? ==> status == Logged(|AllRaceData(texts, mapName)|, |texts|) && status.entries > 0
      ensures status.Logged? ==> rows == old(rows) + AllRaceData(texts, mapName)
      ensures !status.Logged? ==> rows == old(rows)
    {
      if mapName == "" || mapName == SelectLabel {
        return NoMap;
      }
      var all: seq<RaceEntry> := [];
      var i := 0;
      while i < |texts|
        invariant 0 <= i <= |texts|
        invariant all == AllRaceData(texts[..i], mapName)
        invariant rows == old(rows)
      {
        assert texts[..i + 1][..i] == texts[..i];
        var data := ExtractRaceData(texts[i], mapName);
        assert AllRaceData(texts[..i + 1], mapName) == AllRaceData(texts[..i], mapName) + data;
        all := all + data;
        i := i + 1;
        assert all == AllRaceData(texts[..i], mapName);
      }
      assert texts[..i] == texts;
      if all != [] {
        rows := rows + all;
        return Logged(|all|, |texts|);
      }
      return NoData;
    }
  }

  /** A typical results line. */
  lemma ResultLineExample()
    ensures LineEntry("1 Azhan 1:23.45", "Shanghai") == Some(RaceEntry("Shanghai", "Azhan", 1, UnknownKart, "1:23.45"))
  {
    ResultLineGroups();
    ResultLineFields();
  }

  lemma ResultLineFields()
    ensures Strip("Azhan") == "Azhan" && DigitsValue("1") == 1
  {
    StripPlain("Azhan", IsSpace);
    assert "1"[..0] == [];
  }

  lemma ResultLineClass()
    ensures RunEnd("1 Azhan 1:23.45", 1, InClass) == 9
  {
    var s := "1 Azhan 1:23.45";
    assert s[1..9] == " Azhan 1";
    assert forall k :: 1 <= k < 9 ==> InClass(s[k]) by {
      forall k | 1 <= k < 9 ensures InClass(s[k]) {
        assert s[k] == s[1..9][k - 1];
      }
    }
    RunEndIs(s, 1, InClass, 9);
  }

  lemma ResultLinePlacement()
    ensures RunEnd("1 Azhan 1:23.45", 0, IsDigit) == 1 && RunEnd("1 Azhan 1:23.45", 1, IsSpace) == 2
  {
    RunEndIs("1 Azhan 1:23.45", 0, IsDigit, 1);
    RunEndIs("1 Azhan 1:23.45", 1, IsSpace, 2);
  }

  lemma ResultLineMinutes()
    ensures RunStart("1 Azhan 1:23.45", 9, IsDigit) == 8
  {
    var s := "1 Azhan 1:23.45";
    assert IsDigit(s[8]) && !IsDigit(s[7]);
    RunStartIs(s, 9, IsDigit, 8);
  }

  lemma ResultLineCuts()
    ensures Cuts("1 Azhan 1:23.45") == (1, 2, 9, 8)
  {
    ResultLinePlacement();
    ResultLineClass();
    ResultLineMinutes();
  }

  lemma ResultLineTail()
    ensures ClockTailAt("1 Azhan 1:23.45", 9) && IsSpace("1 Azhan 1:23.45"[7])
  {
  }

  lemma ResultLineSlices()
    ensures "1 Azhan 1:23.45"[..1] == "1"
    ensures "1 Azhan 1:23.45"[2..7] == "Azhan"
    ensures "1 Azhan 1:23.45"[8..15] == "1:23.45"
  {
  }

  lemma ResultLineGroups()
    ensures LineMatch("1 Azhan 1:23.45") == Some(Groups("1", "Azhan", "1:23.45"))
  {
    ResultLineCuts();
    ResultLineTail();
    ResultLineSlices();
  }
}
