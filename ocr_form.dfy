/** The OCR parser of the text-recognition logger (src/gui_OCR_logger.py,
    `fill_race_data_with_ocr_results`). It shares the alias table and the token shape of
    the image logger's parser but differs in four ways: its confidence bar is 0.001; a
    race time needs exactly one separator out of `:`, `.`, `*` between its digit groups;
    a name is the first alias of the table contained in the lowercased text, else that
    text itself; and a row is emitted only once a placement is pending, which after the
    first row takes a single-digit token. At most eight parsed rows reach the form. */
module OcrForm {
  import opened Common
  import opened OcrParse

  const FormConfidence: real := 0.001

  // ---------------------------------------------------------------------------
  // The race-time pattern `(\d{1,2})[:.*](\d{2})[:.*](\d{2})`

  predicate IsFormSep(c: char) { c == ':' || c == '.' || c == '*' }

  /** `[:.*](\d{2})[:.*](\d{2})` at position `p`: the positions of the two digit pairs. */
  predicate TailAt(t: string, p: nat) {
    p + 6 <= |t| && IsFormSep(t[p]) && TwoDigitsAt(t, p + 1) && IsFormSep(t[p + 3]) && TwoDigitsAt(t, p + 4)
  }

  /** The pattern anchored at `i`: two minute digits first, then one. */
  function FormMatchAt(t: string, i: nat): (g: Option<TimeGroups>)
    ensures g.Some? ==> GroupsShape(g.value)
  {
    if i + 2 <= |t| && IsDigit(t[i]) && IsDigit(t[i + 1]) && TailAt(t, i + 2) then
      Some(GroupsAt(t, i, 2, (i + 3, i + 6)))
    else if i + 1 <= |t| && IsDigit(t[i]) && TailAt(t, i + 1) then
      Some(GroupsAt(t, i, 1, (i + 2, i + 5)))
    else None
  }

  /** `re.search`: the match at the leftmost position where one exists. */
  function FormSearchFrom(t: string, i: nat): (g: Option<TimeGroups>)
    requires i <= |t|
    ensures g.Some? ==> GroupsShape(g.value)
    decreases |t| - i
  {
    match FormMatchAt(t, i)
    case Some(g) => Some(g)
    case None => if i == |t| then None else FormSearchFrom(t, i + 1)
  }

  function FormTime(text: string): Option<string> {
    match FormSearchFrom(text, 0)
    case Some(g) => Some(TimeText(g))
    case None => None
  }

  /** The pattern on `m:ss.hh` finds `m`, `ss` and `hh` at its first position. */
  lemma FormReadBack(m: string, ss: string, hh: string)
    requires 1 <= |m| <= 2 && AllDigits(m)
    requires |ss| == 2 && AllDigits(ss) && |hh| == 2 && AllDigits(hh)
    ensures FormMatchAt(m + ":" + ss + "." + hh, 0) == Some(TimeGroups(m, ss, hh))
  {
    var x := m + ":" + ss + "." + hh;
    var k := |m|;
    assert x[k] == ':' && x[k + 3] == '.';
    assert TailAt(x, k);
    assert x[0..k] == m && x[k + 1..k + 3] == ss && x[k + 4..k + 6] == hh;
    if k == 1 {
      assert !IsDigit(x[1]);
    }
  }

  /** A normalised time is read back unchanged. */
  lemma FormTimeIdempotent(text: string)
    requires FormTime(text).Some?
    ensures FormTime(FormTime(text).value) == FormTime(text)
  {
    var g := FormSearchFrom(text, 0).value;
    DigitsValueBound(g.minutes);
    FormReadBack(IntText(DigitsValue(g.minutes)), g.seconds, g.hundredths);
  }

  /** Two separators in a row defeat the text logger's time pattern. */
  lemma DoubleSeparatorRejected()
    ensures FormTime("1::23.45") == None
  {
    var x := "1::23.45";
    assert !TailAt(x, 1) && !IsDigit(x[1]);
    assert forall i :: 0 <= i <= |x| ==> FormMatchAt(x, i) == None;
    assert FormSearchFrom(x, 8) == None;
    assert FormSearchFrom(x, 5) == None;
    assert FormSearchFrom(x, 2) == None;
  }

  /** The image logger's time pattern skips any number of separators. */
  lemma DoubleSeparatorSkipped()
    ensures OcrParse.NormaliseTime("1::23.45") == Some("1:23.45")
  {
    var x := "1::23.45";
    assert ThirdGroup(x, 5) == Some(6);
    assert SecondGroup(x, 3) == Some((3, 6));
    assert SecondGroup(x, 1) == Some((3, 6));
    assert x[0..1] == "1" && x[3..5] == "23" && x[6..8] == "45";
    var g := TimeGroups("1", "23", "45");
    assert OcrParse.MatchAt(x, 0) == Some(g);
    assert DigitsValue("1") == 1 by {
      assert "1"[..0] == [];
    }
    assert IntText(1) == "1";
    assert TimeText(g) == "1:23.45";
  }

  // ---------------------------------------------------------------------------
  // Names by alias substring

  /** The first alias of the table, in its key order, that occurs in the text. */
  function FirstAlias(order: seq<string>, text: string): (a: Option<string>)
    ensures a.Some? ==> a.value in order && Contains(text, a.value)
    ensures a.None? ==> forall x :: x in order ==> !Contains(text, x)
  {
    if order == [] then None
    else if Contains(text, order[0]) then Some(order[0])
    else FirstAlias(order[1..], text)
  }

  /** No alias earlier than the chosen one occurs in the text. */
  lemma {:induction false} FirstAliasIsFirst(order: seq<string>, text: string)
    requires FirstAlias(order, text).Some?
    ensures exists j :: (0 <= j < |order| && order[j] == FirstAlias(order, text).value &&
      forall i :: 0 <= i < j ==> !Contains(text, order[i]))
  {
    if !Contains(text, order[0]) {
      FirstAliasIsFirst(order[1..], text);
      var j :| 0 <= j < |order[1..]| && order[1..][j] == FirstAlias(order[1..], text).value &&
        forall i :: 0 <= i < j ==> !Contains(text, order[1..][i]);
      assert forall i :: 1 <= i < j + 1 ==> order[i] == order[1..][i - 1];
    }
  }

  /** The name a non-time token proposes: the player of the first contained alias, or
      the lowercased text when none is contained. */
  function ProposedName(t: AliasTable, text: string): string {
    match FirstAlias(t.order, Lower(text))
    case Some(a) => if a in t.owner then t.owner[a] else Lower(text)
    case None => Lower(text)
  }

  // ---------------------------------------------------------------------------
  // The token parser

  /** A token past the label and the placement test: the time when the pattern occurs
      and none is pending, else the proposed name when none is pending. */
  function FormFill(p: Pending, text: string, t: AliasTable): Pending {
    match FormTime(text)
    case Some(x) => if p.time.None? then p.(time := Some(x)) else p
    case None => if p.name.None? then p.(name := Some(ProposedName(t, text))) else p
  }

  /** Placement, name and time all set, name and time non-empty. */
  predicate FormComplete(p: Pending) {
    p.placement.Some? && p.placement.value != 0 && Complete(p)
  }

  function FormStep(s: Parser, tok: Token, t: AliasTable): Parser {
    if tok.confidence < FormConfidence then s
    else if IsTimeLabel(tok.text) then s.(found := true)
    else if !s.found then s
    else if s.temp.placement.None? && IsPlacementDigit(tok.text) then s.(temp := s.temp.(placement := Some(s.current)))
    else
      var temp := FormFill(s.temp, tok.text, t);
      if FormComplete(temp) then
        Parser(s.found, s.current + 1, s.rows + [ParsedRow(temp.placement.value, temp.name.value, temp.time.value)], Pending(None, None, None))
      else s.(temp := temp)
  }

  function FormRun(s: Parser, toks: seq<Token>, t: AliasTable): Parser {
    if toks == [] then s else FormStep(FormRun(s, toks[..|toks| - 1], t), toks[|toks| - 1], t)
  }

  function FormParse(toks: seq<Token>, t: AliasTable): seq<ParsedRow> {
    FormRun(Start(), toks, t).rows
  }

  /** The rows written to the form: the first eight. */
  function FormRowsShown(rows: seq<ParsedRow>): (shown: seq<ParsedRow>)
    ensures |shown| == Min(FormRows, |rows|)
    ensures forall i :: 0 <= i < |shown| ==> shown[i] == rows[i]
  {
    rows[..Min(FormRows, |rows|)]
  }

  /** The parsing loop of `fill_race_data_with_ocr_results`, then the rows it writes to
      the form. */
  method FillRaceData(toks: seq<Token>, t: AliasTable) returns (shown: seq<ParsedRow>)
    ensures shown == FormRowsShown(FormParse(toks, t))
  {
    var found := false;
    var current := 1;
    var rows := [];
    var temp := Pending(Some(current), None, None);
    var i := 0;
    while i < |toks|
      invariant 0 <= i <= |toks|
      invariant Parser(found, current, rows, temp) == FormRun(Start(), toks[..i], t)
    {
      assert toks[..i + 1][..i] == toks[..i];
      assert FormRun(Start(), toks[..i + 1], t) == FormStep(FormRun(Start(), toks[..i], t), toks[i], t);
      var text, confidence := toks[i].text, toks[i].confidence;
      i := i + 1;
      if confidence < FormConfidence {
        continue;
      }
      if Lower(Strip(text)) == "time" {
        found := true;
        continue;
      }
      if !found {
        continue;
      }
      if temp.placement.None? && IsDigitText(Strip(text)) && |Strip(text)| == 1 {
        temp := temp.(placement := Some(current));
        continue;
      }
      var timeMatch := FormSearchFrom(text, 0);
      if timeMatch.Some? {
        var raceTime := TimeText(timeMatch.value);
        if temp.time.None? {
          temp := temp.(time := Some(raceTime));
        }
      } else {
        var name := ProposedName(t, text);
        if temp.name.None? {
          temp := temp.(name := Some(name));
        }
      }
      if temp.name.Some? && temp.name.value != "" && temp.time.Some? && temp.time.value != ""
         && temp.placement.Some? && temp.placement.value != 0 {
        rows := rows + [ParsedRow(temp.placement.value, temp.name.value, temp.time.value)];
        temp := Pending(None, None, None);
        current := current + 1;
      }
    }
    assert toks[..i] == toks;
    shown := [];
    var k := 0;
    while k < |rows|
      invariant 0 <= k <= Min(FormRows, |rows|)
      invariant shown == rows[..k]
    {
      if k >= FormRows {
        break;
      }
      shown := shown + [rows[k]];
      k := k + 1;
    }
  }

  // ---------------------------------------------------------------------------
  // Properties

  predicate FormRowShape(r: ParsedRow, i: nat) {
    r.placement == i + 1 && r.name != "" && FormTime(r.time) == Some(r.time)
  }

  /** A pending placement is always the running counter. */
  predicate FormConsistent(s: Parser) {
    && s.current == |s.rows| + 1
    && (forall i :: 0 <= i < |s.rows| ==> FormRowShape(s.rows[i], i))
    && (s.temp.placement.Some? ==> s.temp.placement.value == s.current)
    && (s.temp.time.Some? ==> FormTime(s.temp.time.value) == s.temp.time)
  }

  lemma FormFillNormal(p: Pending, text: string, t: AliasTable)
    requires p.time.Some? ==> FormTime(p.time.value) == p.time
    ensures var q := FormFill(p, text, t);
      q.placement == p.placement && (q.time.Some? ==> FormTime(q.time.value) == q.time)
  {
    if FormTime(text).Some? {
      FormTimeIdempotent(text);
    }
  }

  lemma FormEmitConsistent(s: Parser, temp: Pending)
    requires FormConsistent(s) && FormComplete(temp) && temp.placement.value == s.current
    requires FormTime(temp.time.value) == temp.time
    ensures FormConsistent(Parser(s.found, s.current + 1, s.rows + [ParsedRow(temp.placement.value, temp.name.value, temp.time.value)], Pending(None, None, None)))
  {
    var rows := s.rows + [ParsedRow(temp.placement.value, temp.name.value, temp.time.value)];
    assert forall i :: 0 <= i < |s.rows| ==> rows[i] == s.rows[i];
    assert FormRowShape(rows[|s.rows|], |s.rows|);
  }

  lemma FormStepConsistent(s: Parser, tok: Token, t: AliasTable)
    requires FormConsistent(s)
    ensures FormConsistent(FormStep(s, tok, t))
  {
    if tok.confidence < FormConfidence || IsTimeLabel(tok.text) || !s.found {
    } else if s.temp.placement.None? && IsPlacementDigit(tok.text) {
    } else {
      var temp := FormFill(s.temp, tok.text, t);
      FormFillNormal(s.temp, tok.text, t);
      if FormComplete(temp) {
        FormEmitConsistent(s, temp);
      }
    }
  }

  /** Rows are numbered 1, 2, ..., n in emission order, each with a non-empty name and a
      normalised time. */
  lemma {:induction false} FormRowsShape(toks: seq<Token>, t: AliasTable)
    ensures FormConsistent(FormRun(Start(), toks, t))
  {
    if toks != [] {
      FormRowsShape(toks[..|toks| - 1], t);
      FormStepConsistent(FormRun(Start(), toks[..|toks| - 1], t), toks[|toks| - 1], t);
    }
  }

  /** After a row is emitted no placement is pending, and only a confident single-digit
      token past the label sets one, to the running counter rather than its own digit. */
  lemma PlacementFromDigit(s: Parser, tok: Token, t: AliasTable)
    requires s.temp.placement.None?
    ensures var n := FormStep(s, tok, t);
      n.temp.placement.Some? ==>
        && tok.confidence >= FormConfidence && s.found && !IsTimeLabel(tok.text)
        && IsPlacementDigit(tok.text) && n.temp.placement == Some(s.current)
    ensures |FormStep(s, tok, t).rows| == |s.rows|
  {
  }

  /** A non-time token fills an empty name with the player of the first alias in the
      lowercased text, or with that text itself. */
  lemma NameChoice(p: Pending, text: string, t: AliasTable)
    requires ValidTable(t) && p.name.None? && FormTime(text).None?
    ensures var q := FormFill(p, text, t);
      && (FirstAlias(t.order, Lower(text)).Some? ==> q.name == Some(t.owner[FirstAlias(t.order, Lower(text)).value]))
      && (FirstAlias(t.order, Lower(text)).None? ==> q.name == Some(Lower(text)))
  {
  }

  lemma {:induction false} FormRunAppend(s: Parser, a: seq<Token>, b: seq<Token>, t: AliasTable)
    ensures FormRun(s, a + b, t) == FormRun(FormRun(s, a, t), b, t)
  {
    if b != [] {
      var front := b[..|b| - 1];
      FormRunAppend(s, a, front, t);
      assert (a + b)[..|a + b| - 1] == a + front;
      assert (a + b)[|a + b| - 1] == b[|b| - 1];
      assert FormRun(s, a + b, t) == FormStep(FormRun(s, a + front, t), b[|b| - 1], t);
    } else {
      assert a + b == a;
    }
  }

  lemma {:induction false} FormPreambleIgnored(pre: seq<Token>, t: AliasTable)
    requires forall tok :: tok in pre ==> tok.confidence < FormConfidence || !IsTimeLabel(tok.text)
    ensures FormRun(Start(), pre, t) == Start()
  {
    if pre != [] {
      FormPreambleIgnored(pre[..|pre| - 1], t);
    }
  }

  /** Tokens before the first confident "time" label contribute nothing. */
  lemma FormNothingBeforeLabel(pre: seq<Token>, post: seq<Token>, t: AliasTable)
    requires forall tok :: tok in pre ==> tok.confidence < FormConfidence || !IsTimeLabel(tok.text)
    ensures FormParse(pre + post, t) == FormRun(Start(), post, t).rows
  {
    FormRunAppend(Start(), pre, post, t);
    FormPreambleIgnored(pre, t);
  }

  /** Tokens below the 0.001 bar change nothing. */
  lemma FormLowConfidenceStep(s: Parser, tok: Token, t: AliasTable)
    requires tok.confidence < FormConfidence
    ensures FormStep(s, tok, t) == s
  {
  }
}
