/** The third version of the program (`Result_Soft_ver_3.py`): the tier is
    guessed from a pasted sample line, administrative lines are skipped by
    pattern, a window that fails to parse skips both its lines, every
    subject gets a mark column and a grade column, Grade-12 students are
    assigned a stream whose subjects make up their "main" percentage, and
    the sheet's columns come from fixed lists. */
module Ver3 {
  import opened Wrappers
  import opened Chars
  import opened Patterns
  import opened OrderedDict
  import opened Rows
  import opened Stats
  import opened Ranking
  import opened Summary
  import opened SubjectMaps
  import Engine45
  import App

  function Table(grade12: bool): map<string, (string, string)> {
    if grade12 then Grade12LabelsV3 else Grade10LabelsV3
  }

  /** `handle_sample` on the window state: the tier is Grade 12 exactly
      when some grade token `[A-D][12]` is followed, after white space, by a
      result keyword. */
  method HandleSample(app: App.CBSEParserApp, entry: string) returns (ok: bool)
    requires app.Valid()
    modifies app
    ensures app.Valid()
    ensures app.sampleLine == Strip(entry) && app.fileChosen == old(app.fileChosen)
    ensures ok <==> app.fileChosen && app.sampleLine != []
    ensures ok ==> app.grade12 == HasGradeThenKeyword(app.sampleLine) && app.subjectCount == (if app.grade12 then 5 else 6)
    ensures !ok ==> app.grade12 == old(app.grade12) && app.subjectCount == old(app.subjectCount)
  {
    ok := app.HandleSample(entry, s => HasGradeThenKeyword(s));
  }

  // ---------------------------------------------------------------------
  // Column headers
  // ---------------------------------------------------------------------

  /** The headers `generate_custom_headers` gives the code at position
      `idx`: its table entry, else `Sub<idx+1>-<code>` and `<code>-G<idx+1>`. */
  function HeaderEntry(table: map<string, (string, string)>, code: string, idx: nat): (string, string) {
    if code in table then table[code]
    else ("Sub" + NatToString(idx + 1) + "-" + code, code + "-G" + NatToString(idx + 1))
  }

  function HeaderEntries(codes: seq<string>, grade12: bool): (es: seq<(string, (string, string))>)
    ensures |es| == |codes|
    ensures forall idx :: 0 <= idx < |codes| ==> es[idx] == (codes[idx], HeaderEntry(Table(grade12), codes[idx], idx))
  {
    seq(|codes|, idx requires 0 <= idx < |codes| => (codes[idx], HeaderEntry(Table(grade12), codes[idx], idx)))
  }

  /** `generate_custom_headers`: a dict keyed by code. */
  function CustomHeaders(codes: seq<string>, grade12: bool): Dict<(string, string)> {
    PutAll([], HeaderEntries(codes, grade12))
  }

  /** The headers dict has one entry per distinct code, in order of first
      appearance. */
  lemma CustomHeadersKeys(codes: seq<string>, grade12: bool)
    ensures Keys(CustomHeaders(codes, grade12)) == FirstAppearance(codes)
  {
    var es := HeaderEntries(codes, grade12);
    assert Keys(es) == codes;
    PutAllKeys(es);
  }

  /** A table code gets its table headers wherever it appears; any other
      code gets the fallback headers of one of its positions. */
  lemma CustomHeadersByCode(codes: seq<string>, grade12: bool, code: string)
    requires code in codes
    ensures code in Table(grade12) ==> Get(CustomHeaders(codes, grade12), code) == Some(Table(grade12)[code])
    ensures exists idx :: (0 <= idx < |codes| && codes[idx] == code &&
      Get(CustomHeaders(codes, grade12), code) == Some(HeaderEntry(Table(grade12), code, idx)))
  {
    var es := HeaderEntries(codes, grade12);
    var table := Table(grade12);
    assert Keys(es) == codes;
    PutAllGet([], es, code);
    var p := (v: (string, string)) => exists idx :: 0 <= idx < |codes| && codes[idx] == code && v == HeaderEntry(table, code, idx);
    forall j | 0 <= j < |es| && es[j].0 == code ensures p(es[j].1) {
      assert codes[j] == code;
    }
    LastValueWhere(es, code, p);
    if code in table {
      LastValueWhere(es, code, (v: (string, string)) => v == table[code]);
    }
  }

  /** The mark and grade labels `parse_and_save` gives the code at `idx`. */
  function LabelsFor(table: map<string, (string, string)>, code: string, idx: nat): (string, string) {
    if code in table then table[code] else ("SUB-" + code, code + "-G" + NatToString(idx + 1))
  }

  // ---------------------------------------------------------------------
  // One row
  // ---------------------------------------------------------------------

  /** An entry of the `scores` list. */
  datatype Score = Score(subject: string, mark: int, grade: string)

  /** The two assignments of position `idx`: the grade under the grade
      label, then the integer mark under the label. */
  function PositionEntries(table: map<string, (string, string)>, code: string, pair: (int, string), idx: nat): seq<(string, Value)> {
    var labels := LabelsFor(table, code, idx);
    [(labels.1, Str(pair.1)), (labels.0, Int(pair.0))]
  }

  /** The assignments of the fill loop for the first `n` positions. */
  function Assignments(table: map<string, (string, string)>, codes: seq<string>, pairs: seq<(int, string)>, n: nat): (es: seq<(string, Value)>)
    requires n <= |codes| && n <= |pairs|
    ensures |es| == 2 * n
    decreases n
  {
    if n == 0 then []
    else Assignments(table, codes, pairs, n - 1) + PositionEntries(table, codes[n - 1], pairs[n - 1], n - 1)
  }

  function ScoreList(table: map<string, (string, string)>, codes: seq<string>, pairs: seq<(int, string)>, n: nat): (sc: seq<Score>)
    requires n <= |codes| && n <= |pairs|
    ensures |sc| == n
    decreases n
  {
    if n == 0 then []
    else ScoreList(table, codes, pairs, n - 1) + [Score(LabelsFor(table, codes[n - 1], n - 1).0, pairs[n - 1].0, pairs[n - 1].1)]
  }

  function MarksOf(sc: seq<Score>): (ms: seq<int>)
    ensures |ms| == |sc| && forall k :: 0 <= k < |sc| ==> ms[k] == sc[k].mark
  {
    seq(|sc|, k requires 0 <= k < |sc| => sc[k].mark)
  }

  /** `[m for s, m, _ in scores if s in main]`: duplicates included. */
  function MainMarks(sc: seq<Score>, main: set<string>): seq<int> {
    if sc == [] then []
    else (if sc[0].subject in main then [sc[0].mark] else []) + MainMarks(sc[1..], main)
  }

  function SubjectsOf(sc: seq<Score>): set<string> {
    set k | 0 <= k < |sc| :: sc[k].subject
  }

  /** The stream of a Grade-12 student: PCM if any PCM subject was taken,
      else PCB if any PCB subject was, else commerce. */
  function ChooseStream(subjects: set<string>): set<string> {
    if subjects * Main12Pcm != {} then Main12Pcm
    else if subjects * Main12Pcb != {} then Main12Pcb
    else Main12Com
  }

  /** `round(sum / len, 2) if list else ''`, without the rounding. */
  function MainPercent(ms: seq<int>): Value {
    if ms == [] then Str("") else Num(Mean(ms))
  }

  /** `Main %` is left blank exactly when the student took none of the
      chosen main subjects; otherwise it is the mean of those marks,
      duplicates included. */
  lemma {:induction false} MainPercentBlankIff(sc: seq<Score>, main: set<string>)
    ensures MainPercent(MainMarks(sc, main)) == Str("") <==> forall k :: 0 <= k < |sc| ==> sc[k].subject !in main
    ensures MainMarks(sc, main) != [] ==> MainPercent(MainMarks(sc, main)) == Num(Mean(MainMarks(sc, main)))
  {
    if sc != [] {
      MainPercentBlankIff(sc[1..], main);
      if sc[0].subject !in main {
        assert MainMarks(sc, main) == MainMarks(sc[1..], main);
        forall k | 1 <= k < |sc| ensures sc[k].subject == sc[1..][k - 1].subject { }
      } else {
        assert MainMarks(sc, main)[0] == sc[0].mark;
      }
    }
  }

  /** The aggregate entries `row.update` adds; the rank entries are
      placeholders that the ranking replaces. */
  function Updates(grade12: bool, result: string, sc: seq<Score>): seq<(string, Value)> {
    if grade12 then Updates12(result, sc) else Updates10(result, sc)
  }

  const AggregateKeys12: seq<string> := ["Result", "Total", "Main %", "Main % Rank"]
  const AggregateKeys10: seq<string> := [
    "Result", "Main Total", "Main %", "Main % Rank", "Top 5 Total", "Top 5 %", "Top 5 % Rank"]

  /** Grade 12: the total of every mark, and the mean over the stream's subjects. */
  function Updates12(result: string, sc: seq<Score>): seq<(string, Value)> {
    var ms := MainMarks(sc, ChooseStream(SubjectsOf(sc)));
    Entries(AggregateKeys12, [Str(result), Int(Sum(MarksOf(sc))), MainPercent(ms), Str("")])
  }

  /** Grade 10: the main subjects' total and mean, and the best five marks. */
  function Updates10(result: string, sc: seq<Score>): seq<(string, Value)> {
    var ms := MainMarks(sc, Main10V3);
    Entries(AggregateKeys10, [Str(result), Int(Sum(ms)), MainPercent(ms), Str(""),
                              Int(Sum(Top5(MarksOf(sc)))), Num(TopFivePercent(MarksOf(sc))), Str("")])
  }

  /** All assignments a row receives, in order. */
  function RowEntries(grade12: bool, h: Header, codes: seq<string>, pairs: seq<(int, string)>, result: string): seq<(string, Value)> {
    var n := Min(|codes|, |pairs|);
    Identity(h) + Assignments(Table(grade12), codes, pairs, n) + Updates(grade12, result, ScoreList(Table(grade12), codes, pairs, n))
  }

  function RowOf(grade12: bool, h: Header, codes: seq<string>, pairs: seq<(int, string)>, result: string): Row {
    PutAll([], RowEntries(grade12, h, codes, pairs, result))
  }

  /** The fill loop `for idx, code in enumerate(codes[:len(pairs)])`. */
  method FillRow(table: map<string, (string, string)>, h: Header, codes: seq<string>, pairs: seq<(int, string)>)
    returns (row: Row, scores: seq<Score>)
    ensures row == PutAll([], Identity(h) + Assignments(table, codes, pairs, Min(|codes|, |pairs|)))
    ensures scores == ScoreList(table, codes, pairs, Min(|codes|, |pairs|))
  {
    row := PutAll([], Identity(h));
    scores := [];
    assert Identity(h) + Assignments(table, codes, pairs, 0) == Identity(h);
    for idx := 0 to Min(|codes|, |pairs|)
      invariant row == PutAll([], Identity(h) + Assignments(table, codes, pairs, idx))
      invariant scores == ScoreList(table, codes, pairs, idx)
    {
      var labels := LabelsFor(table, codes[idx], idx);
      FillStep(table, h, codes, pairs, idx);
      row := Put(row, labels.1, Str(pairs[idx].1));
      row := Put(row, labels.0, Int(pairs[idx].0));
      scores := scores + [Score(labels.0, pairs[idx].0, pairs[idx].1)];
    }
  }

  /** One turn of the fill loop adds the grade, then the mark, of position `idx`. */
  lemma FillStep(table: map<string, (string, string)>, h: Header, codes: seq<string>, pairs: seq<(int, string)>, idx: nat)
    requires idx < |codes| && idx < |pairs|
    ensures var labels := LabelsFor(table, codes[idx], idx);
      PutAll([], Identity(h) + Assignments(table, codes, pairs, idx + 1))
      == Put(Put(PutAll([], Identity(h) + Assignments(table, codes, pairs, idx)), labels.1, Str(pairs[idx].1)), labels.0, Int(pairs[idx].0))
  {
    var before := Identity(h) + Assignments(table, codes, pairs, idx);
    var two := PositionEntries(table, codes[idx], pairs[idx], idx);
    AssignTwo(before, two);
    Associate(Identity(h), Assignments(table, codes, pairs, idx), two);
  }

  /** The fill loop and the `row.update` of one accepted window. */
  method BuildRow(grade12: bool, h: Header, codes: seq<string>, pairs: seq<(int, string)>, result: string) returns (row: Row)
    ensures row == RowOf(grade12, h, codes, pairs, result)
  {
    var scores;
    row, scores := FillRow(Table(grade12), h, codes, pairs);
    ghost var filled := Identity(h) + Assignments(Table(grade12), codes, pairs, Min(|codes|, |pairs|));
    var updates := Updates(grade12, result, scores);
    PutAllAppend([], filled, updates);
    assert RowEntries(grade12, h, codes, pairs, result) == filled + updates;
    row := PutAll(row, updates);
  }

  // ---------------------------------------------------------------------
  // The scan
  // ---------------------------------------------------------------------

  function Classify(grade12: bool, line1: string, line2: string): Window {
    if IsSkipLine(line1) || !StartsWith8Digits(line1) then Skip
    else match HeaderMatch(line1)
      case None => Resync
      case Some(h) =>
        var codes := FindCodes(line1);
        var pairs := PairsOf(line2);
        if |codes| < 5 || |pairs| < 5 then Resync
        else Emit(RowOf(grade12, h, codes, pairs, ResultKeyword(line1)))
  }

  /** The rows found from cursor `i` on: a skipped line moves the cursor by
      one, a failed window and a record by two. */
  function Scan(grade12: bool, lines: seq<string>, i: nat): seq<Row>
    decreases |lines| - i
  {
    if i + 1 >= |lines| then []
    else match Classify(grade12, Strip(lines[i]), Strip(lines[i + 1]))
      case Skip => Scan(grade12, lines, i + 1)
      case Resync => Scan(grade12, lines, i + 2)
      case Emit(r) => [r] + Scan(grade12, lines, i + 2)
  }

  /** The body of the cursor loop for one window of two stripped lines. */
  method ReadWindow(grade12: bool, line1: string, line2: string) returns (w: Window)
    ensures w == Classify(grade12, line1, line2)
  {
    if IsSkipLine(line1) || !StartsWith8Digits(line1) {
      return Skip;
    }
    var m := HeaderMatch(line1);
    if m.None? {
      return Resync;
    }
    var codes := FindCodes(line1);
    var pairs := PairsOf(line2);
    if |codes| < 5 || |pairs| < 5 {
      return Resync;
    }
    var result := ResultKeyword(line1);
    var row := BuildRow(grade12, m.value, codes, pairs, result);
    return Emit(row);
  }

  /** The cursor loop of `parse_and_save` over the lines as read. */
  method ParseRecords(grade12: bool, lines: seq<string>) returns (data: seq<Row>)
    ensures data == Scan(grade12, lines, 0)
  {
    data := [];
    var i := 0;
    while i < |lines| - 1
      invariant i <= |lines|
      invariant data + Scan(grade12, lines, i) == Scan(grade12, lines, 0)
      decreases |lines| - i
    {
      var w := ReadWindow(grade12, Strip(lines[i]), Strip(lines[i + 1]));
      ScanStep(grade12, lines, i, w);
      match w
      case Skip =>
        i := i + 1;
      case Resync =>
        i := i + 2;
      case Emit(row) =>
        AppendOne(data, row, Scan(grade12, lines, i + 2));
        data := data + [row];
        i := i + 2;
    }
  }

  lemma ScanStep(grade12: bool, lines: seq<string>, i: nat, w: Window)
    requires i + 1 < |lines| && w == Classify(grade12, Strip(lines[i]), Strip(lines[i + 1]))
    ensures Scan(grade12, lines, i) == match w
      case Skip => Scan(grade12, lines, i + 1)
      case Resync => Scan(grade12, lines, i + 2)
      case Emit(r) => [r] + Scan(grade12, lines, i + 2)
  {
  }

  // ---------------------------------------------------------------------
  // What a row holds
  // ---------------------------------------------------------------------

  /** The codes `findall(r'\b\d{3}\b', ...)` returns: three digits each. */
  predicate CodesOfLine(codes: seq<string>) {
    forall j :: 0 <= j < |codes| ==> |codes[j]| == 3 && AllDigits(codes[j])
  }

  /** The converted pairs of line 2: a mark of at most three digits and a grade. */
  predicate PairsOfLine(pairs: seq<(int, string)>) {
    forall k :: 0 <= k < |pairs| ==> 0 <= pairs[k].0 <= 999 && IsGrade(pairs[k].1)
  }

  /** Subject labels end in a digit; no identity or aggregate key does. */
  predicate EndsInDigit(key: string) {
    key != [] && IsDigit(key[|key| - 1])
  }

  lemma AggregateKeysEndInLetters()
    ensures forall j :: 0 <= j < |AggregateKeys12| ==> !EndsInDigit(AggregateKeys12[j])
    ensures forall j :: 0 <= j < |AggregateKeys10| ==> !EndsInDigit(AggregateKeys10[j])
  {
  }

  /** Mark labels start with a letter and grade labels with a digit, so the
      two never meet; both end in a digit. */
  lemma LabelShapes(grade12: bool, code: string, idx: nat)
    requires |code| == 3 && AllDigits(code)
    ensures var labels := LabelsFor(Table(grade12), code, idx);
      && labels.0 != [] && !IsDigit(labels.0[0]) && EndsInDigit(labels.0)
      && labels.1 != [] && IsDigit(labels.1[0]) && EndsInDigit(labels.1)
  {
    var labels := LabelsFor(Table(grade12), code, idx);
    if code !in Table(grade12) {
      var n := NatToString(idx + 1);
      assert labels.0[0] == 'S' && labels.0[|labels.0| - 1] == code[2];
      assert labels.1[0] == code[0] && labels.1[|labels.1| - 1] == n[|n| - 1];
    }
  }

  /** Every assignment of the fill loop to `key` satisfies `p` when each
      position's grade and mark under `key` does. */
  lemma {:induction false} AssignmentsWhere(table: map<string, (string, string)>, codes: seq<string>, pairs: seq<(int, string)>,
                                            n: nat, key: string, p: Value -> bool)
    requires n <= |codes| && n <= |pairs|
    requires forall idx :: 0 <= idx < n && LabelsFor(table, codes[idx], idx).1 == key ==> p(Str(pairs[idx].1))
    requires forall idx :: 0 <= idx < n && LabelsFor(table, codes[idx], idx).0 == key ==> p(Int(pairs[idx].0))
    ensures forall j :: 0 <= j < 2 * n && Assignments(table, codes, pairs, n)[j].0 == key ==> p(Assignments(table, codes, pairs, n)[j].1)
    decreases n
  {
    if n > 0 {
      AssignmentsWhere(table, codes, pairs, n - 1, key, p);
      var prev := Assignments(table, codes, pairs, n - 1);
      var a := Assignments(table, codes, pairs, n);
      assert a == prev + PositionEntries(table, codes[n - 1], pairs[n - 1], n - 1);
      forall j | 0 <= j < 2 * n && a[j].0 == key ensures p(a[j].1) {
        if j < 2 * (n - 1) {
          assert a[j] == prev[j];
        }
      }
    }
  }

  /** Position `idx` writes its grade, then its mark. */
  lemma {:induction false} AssignmentsAt(table: map<string, (string, string)>, codes: seq<string>, pairs: seq<(int, string)>, n: nat, idx: nat)
    requires idx < n <= |codes| && n <= |pairs|
    ensures Assignments(table, codes, pairs, n)[2 * idx] == (LabelsFor(table, codes[idx], idx).1, Str(pairs[idx].1))
    ensures Assignments(table, codes, pairs, n)[2 * idx + 1] == (LabelsFor(table, codes[idx], idx).0, Int(pairs[idx].0))
    decreases n
  {
    var prev := Assignments(table, codes, pairs, n - 1);
    assert Assignments(table, codes, pairs, n) == prev + PositionEntries(table, codes[n - 1], pairs[n - 1], n - 1);
    if idx < n - 1 {
      AssignmentsAt(table, codes, pairs, n - 1, idx);
    }
  }

  /** The identity and aggregate keys end in a letter. */
  lemma FixedKeysEndInLetters(grade12: bool, h: Header, result: string, sc: seq<Score>)
    ensures forall j :: 0 <= j < |Identity(h)| ==> !EndsInDigit(Identity(h)[j].0)
    ensures forall j :: 0 <= j < |Updates(grade12, result, sc)| ==> !EndsInDigit(Updates(grade12, result, sc)[j].0)
  {
    AggregateKeysEndInLetters();
  }

  /** The value a row holds under a subject key satisfies `p` when every
      assignment to that key does. */
  lemma RowWhere(grade12: bool, h: Header, codes: seq<string>, pairs: seq<(int, string)>, result: string,
                 idx: nat, key: string, p: Value -> bool)
    requires idx < |codes| && idx < |pairs| && EndsInDigit(key)
    requires key == LabelsFor(Table(grade12), codes[idx], idx).0 || key == LabelsFor(Table(grade12), codes[idx], idx).1
    requires forall j :: 0 <= j < Min(|codes|, |pairs|) && LabelsFor(Table(grade12), codes[j], j).1 == key ==> p(Str(pairs[j].1))
    requires forall j :: 0 <= j < Min(|codes|, |pairs|) && LabelsFor(Table(grade12), codes[j], j).0 == key ==> p(Int(pairs[j].0))
    ensures Get(RowOf(grade12, h, codes, pairs, result), key).Some?
    ensures p(Get(RowOf(grade12, h, codes, pairs, result), key).value)
  {
    var n := Min(|codes|, |pairs|);
    var table := Table(grade12);
    var a := Assignments(table, codes, pairs, n);
    AssignmentsWhere(table, codes, pairs, n, key, p);
    FixedKeysEndInLetters(grade12, h, result, ScoreList(table, codes, pairs, n));
    AssignmentsAt(table, codes, pairs, n, idx);
    var pos := if key == a[2 * idx].0 then 2 * idx else 2 * idx + 1;
    PartsWhere(Identity(h), a, Updates(grade12, result, ScoreList(table, codes, pairs, n)), key, p, pos);
  }

  /** The row built from identity entries, assignments and aggregate
      entries holds under a subject key a value with every property the
      assignments to it have. */
  lemma PartsWhere(id: seq<(string, Value)>, a: seq<(string, Value)>, u: seq<(string, Value)>, key: string, p: Value -> bool, pos: nat)
    requires EndsInDigit(key)
    requires forall j :: 0 <= j < |id| ==> !EndsInDigit(id[j].0)
    requires forall j :: 0 <= j < |u| ==> !EndsInDigit(u[j].0)
    requires forall j :: 0 <= j < |a| && a[j].0 == key ==> p(a[j].1)
    requires pos < |a| && a[pos].0 == key
    ensures Get(PutAll([], id + a + u), key).Some? && p(Get(PutAll([], id + a + u), key).value)
  {
    var es := id + a + u;
    MiddleWhere(id, a, u, key, p);
    assert es[|id| + pos] == a[pos];
    PutAllWhere(es, key, p);
  }

  /** Each subject's mark label holds an integer mark of at most three
      digits and its grade label holds a grade, whoever wrote there last. */
  lemma MarkAndGradeCells(grade12: bool, h: Header, codes: seq<string>, pairs: seq<(int, string)>, result: string, idx: nat)
    requires CodesOfLine(codes) && PairsOfLine(pairs)
    requires idx < |codes| && idx < |pairs|
    ensures var row := RowOf(grade12, h, codes, pairs, result);
      var labels := LabelsFor(Table(grade12), codes[idx], idx);
      && Get(row, labels.0).Some? && Get(row, labels.0).value.Int?
      && 0 <= Get(row, labels.0).value.n <= 999
      && Get(row, labels.1).Some? && Get(row, labels.1).value.Str?
      && IsGrade(Get(row, labels.1).value.s)
  {
    var table := Table(grade12);
    var labels := LabelsFor(table, codes[idx], idx);
    LabelShapes(grade12, codes[idx], idx);
    forall j | 0 <= j < |codes| ensures LabelsFor(table, codes[j], j).1 != labels.0 && LabelsFor(table, codes[j], j).0 != labels.1 {
      LabelShapes(grade12, codes[j], j);
    }
    RowWhere(grade12, h, codes, pairs, result, idx, labels.0, (v: Value) => v.Int? && 0 <= v.n <= 999);
    RowWhere(grade12, h, codes, pairs, result, idx, labels.1, (v: Value) => v.Str? && IsGrade(v.s));
  }

  lemma {:induction false} ScoreListAt(table: map<string, (string, string)>, codes: seq<string>, pairs: seq<(int, string)>, n: nat, k: nat)
    requires k < n <= |codes| && n <= |pairs|
    ensures ScoreList(table, codes, pairs, n)[k] == Score(LabelsFor(table, codes[k], k).0, pairs[k].0, pairs[k].1)
    decreases n
  {
    if k < n - 1 {
      ScoreListAt(table, codes, pairs, n - 1, k);
      assert ScoreList(table, codes, pairs, n)[k] == ScoreList(table, codes, pairs, n - 1)[k];
    }
  }

  /** The `scores` list carries every mark read, whatever its subject. */
  lemma ScoreMarks(table: map<string, (string, string)>, codes: seq<string>, pairs: seq<(int, string)>, n: nat)
    requires n <= |codes| && n <= |pairs|
    ensures MarksOf(ScoreList(table, codes, pairs, n)) == MarksRead(pairs, n)
  {
    forall k | 0 <= k < n ensures MarksOf(ScoreList(table, codes, pairs, n))[k] == MarksRead(pairs, n)[k] {
      ScoreListAt(table, codes, pairs, n, k);
    }
  }

  /** Grade 12: `Total` is the sum of every mark read, those under `SUB-`
      labels included. */
  lemma TotalCountsEveryMark(h: Header, codes: seq<string>, pairs: seq<(int, string)>, result: string)
    ensures Get(RowOf(true, h, codes, pairs, result), "Total") == Some(Int(Sum(MarksRead(pairs, Min(|codes|, |pairs|)))))
  {
    var n := Min(|codes|, |pairs|);
    var u := Updates(true, result, ScoreList(Table(true), codes, pairs, n));
    assert u == Updates12(result, ScoreList(Table(true), codes, pairs, n));
    assert u[1] == ("Total", Int(Sum(MarksOf(ScoreList(Table(true), codes, pairs, n)))));
    assert u[2].0[0] == 'M' && u[3].0[0] == 'M';
    assert RowEntries(true, h, codes, pairs, result) == Identity(h) + Assignments(Table(true), codes, pairs, n) + u;
    SuffixWins(Identity(h) + Assignments(Table(true), codes, pairs, n), u, 1);
    ScoreMarks(Table(true), codes, pairs, n);
  }

  /** Grade 10: `Top 5 %` is always a number, the sum of the five best
      marks read divided by five. */
  lemma TopFivePercentCell(h: Header, codes: seq<string>, pairs: seq<(int, string)>, result: string)
    ensures Get(RowOf(false, h, codes, pairs, result), "Top 5 %") ==
      Some(Num(TopFivePercent(MarksRead(pairs, Min(|codes|, |pairs|)))))
  {
    var n := Min(|codes|, |pairs|);
    var u := Updates(false, result, ScoreList(Table(false), codes, pairs, n));
    assert u == Updates10(result, ScoreList(Table(false), codes, pairs, n));
    assert u[5] == ("Top 5 %", Num(TopFivePercent(MarksOf(ScoreList(Table(false), codes, pairs, n)))));
    assert |u[6].0| == 12 && |u[5].0| == 7;
    assert RowEntries(false, h, codes, pairs, result) == Identity(h) + Assignments(Table(false), codes, pairs, n) + u;
    SuffixWins(Identity(h) + Assignments(Table(false), codes, pairs, n), u, 5);
    ScoreMarks(Table(false), codes, pairs, n);
  }

  // ---------------------------------------------------------------------
  // What the scan promises
  // ---------------------------------------------------------------------

  /** The skip patterns add nothing to the eight-digit test: a window is
      skipped exactly when line 1 does not start with eight digits. It
      yields a row exactly when, besides, the header matches and there are
      five codes and five mark-grade pairs, for either tier. */
  lemma ClassifyIff(grade12: bool, line1: string, line2: string)
    ensures Classify(grade12, line1, line2).Skip? <==> !StartsWith8Digits(line1)
    ensures Classify(grade12, line1, line2).Emit? <==>
      && StartsWith8Digits(line1) && HeaderMatch(line1).Some?
      && |FindCodes(line1)| >= 5 && |FindMarkGrades(line2)| >= 5
    ensures Classify(grade12, line1, line2).Emit? == Classify(!grade12, line1, line2).Emit?
  {
    if IsSkipLine(line1) {
      SkipLinesAreNotRecordLines(line1);
    }
  }

  /** A yielded row is the row of its window's header, codes and pairs. */
  lemma EmittedRow(grade12: bool, line1: string, line2: string, r: Row)
    requires Classify(grade12, line1, line2) == Emit(r)
    ensures HeaderMatch(line1).Some?
    ensures r == RowOf(grade12, HeaderMatch(line1).value, FindCodes(line1), PairsOf(line2), ResultKeyword(line1))
    ensures CodesOfLine(FindCodes(line1)) && PairsOfLine(PairsOf(line2))
    ensures |FindCodes(line1)| >= 5 && |PairsOf(line2)| >= 5
  {
  }

  /** Every row comes from a window of two consecutive stripped lines at
      or after the cursor. */
  lemma {:induction false} ScanRowsFromWindows(grade12: bool, lines: seq<string>, i: nat)
    ensures forall r :: r in Scan(grade12, lines, i) ==>
      exists j :: i <= j && j + 1 < |lines| && Classify(grade12, Strip(lines[j]), Strip(lines[j + 1])) == Emit(r)
    decreases |lines| - i
  {
    if i + 1 < |lines| {
      ScanRowsFromWindows(grade12, lines, i + 1);
      ScanRowsFromWindows(grade12, lines, i + 2);
    }
  }

  /** A row takes two lines, so there are at most half as many rows as
      lines from the cursor on. */
  lemma {:induction false} ScanLength(grade12: bool, lines: seq<string>, i: nat)
    requires i <= |lines|
    ensures 2 * |Scan(grade12, lines, i)| <= |lines| - i
    decreases |lines| - i
  {
    if i + 1 < |lines| {
      var next := ScanShrinks(grade12, lines, i);
      ScanLength(grade12, lines, next);
    }
  }

  /** One window either skips a line or consumes two for at most one row. */
  lemma ScanShrinks(grade12: bool, lines: seq<string>, i: nat) returns (next: nat)
    requires i + 1 < |lines|
    ensures i < next <= |lines|
    ensures 2 * |Scan(grade12, lines, i)| <= 2 * |Scan(grade12, lines, next)| + (next - i)
  {
    var w := Classify(grade12, Strip(lines[i]), Strip(lines[i + 1]));
    ScanStep(grade12, lines, i, w);
    next := if w.Skip? then i + 1 else i + 2;
  }

  /** Grade 10: every row holds a number under `Top 5 %`, so the
      `Top 5 % Rank` column is always a dense rank. */
  lemma TopFiveRankIsDense(lines: seq<string>, k: nat)
    requires k < |Scan(false, lines, 0)|
    ensures NumericColumn(Scan(false, lines, 0), "Top 5 %").Some?
    ensures var vs := NumericColumn(Scan(false, lines, 0), "Top 5 %").value;
      CellAt(Scan(false, lines, 0), k, "Top 5 % Rank") == Val(Int(DenseRank(vs, vs[k])))
  {
    var data := Scan(false, lines, 0);
    forall q | 0 <= q < |data| ensures Number(Get(data[q], "Top 5 %")).Some? {
      var line1, line2 := RowFromWindow(false, lines, q);
      EmittedTopFive(line1, line2, data[q]);
    }
  }

  lemma EmittedTopFive(line1: string, line2: string, r: Row)
    requires Classify(false, line1, line2) == Emit(r)
    ensures Number(Get(r, "Top 5 %")).Some?
  {
    EmittedRow(false, line1, line2, r);
    TopFivePercentCell(HeaderMatch(line1).value, FindCodes(line1), PairsOf(line2), ResultKeyword(line1));
  }

  // ---------------------------------------------------------------------
  // Streams
  // ---------------------------------------------------------------------

  /** English, physical education and informatics are in every stream's
      list; a student taking any PCM subject, English among them, is PCM. */
  lemma StreamIsPcmIff(subjects: set<string>)
    ensures ChooseStream(subjects) == Main12Pcm <==> subjects * Main12Pcm != {}
  {
    assert "BIO-044" in Main12Pcb && "BIO-044" !in Main12Pcm;
    assert "ECO-030" in Main12Com && "ECO-030" !in Main12Pcm;
  }

  /** The biology stream is chosen exactly for a student with biology and
      none of the PCM subjects; everyone else without a PCM subject is
      commerce. */
  lemma StreamIsPcbIff(subjects: set<string>)
    ensures ChooseStream(subjects) == Main12Pcb <==> "BIO-044" in subjects && subjects * Main12Pcm == {}
    ensures ChooseStream(subjects) == Main12Com <==> "BIO-044" !in subjects && subjects * Main12Pcm == {}
  {
    assert "BIO-044" in Main12Pcb && "BIO-044" !in Main12Pcm && "BIO-044" !in Main12Com;
    assert "ECO-030" in Main12Com && "ECO-030" !in Main12Pcb;
    if subjects * Main12Pcm == {} && subjects * Main12Pcb != {} {
      var s :| s in subjects * Main12Pcb;
      assert s !in subjects * Main12Pcm;
      assert s in subjects && s !in Main12Pcm;
      assert s == "ENG-301" || s == "PHY-042" || s == "CHE-043" || s == "BIO-044" || s == "PHED-048" || s == "IP-065";
      assert "ENG-301" in Main12Pcm && "PHY-042" in Main12Pcm && "CHE-043" in Main12Pcm;
      assert "PHED-048" in Main12Pcm && "IP-065" in Main12Pcm;
    }
    if "BIO-044" in subjects {
      assert "BIO-044" in subjects * Main12Pcb;
    }
  }

  // ---------------------------------------------------------------------
  // The output sheet
  // ---------------------------------------------------------------------

  const GradeColumns12: seq<string> := [
    "ENG-301-G", "PHY-042-G", "CHE-043-G", "BIO-044-G", "MAT-041-G",
    "ACC-054-G", "BST-055-G", "ECO-030-G", "PHED-048-G", "IP--065-G"]
  const MarkColumns12: seq<string> := [
    "ENG-301", "PHY-042", "CHE-043", "BIO-044", "MAT-041",
    "ACC-054", "BST-055", "ECO-030", "PHED-048", "IP--065"]
  const ResultColumns12: seq<string> := ["Result", "Total", "Percentage", "Main %", "Main % Rank"]

  const GradeColumns10: seq<string> := [
    "ENG-184-G", "HND-085-G", "SNK-122-G", "MAT-041-G", "MAT-241-G",
    "SCI-086-G", "SST-087-G", "IT--402-G"]
  const MarkColumns10: seq<string> := [
    "ENG-184", "HND-085", "SNK-122", "MAT-041", "MAT-241",
    "SCI-086", "SST-087", "IT--402"]
  const ResultColumns10: seq<string> := [
    "Result", "Main Total", "Main %", "Main % Rank", "Top 5 Total", "Top 5 %", "Top 5 % Rank"]

  function GradeColumns(grade12: bool): seq<string> {
    if grade12 then GradeColumns12 else GradeColumns10
  }

  function MarkColumns(grade12: bool): seq<string> {
    if grade12 then MarkColumns12 else MarkColumns10
  }

  function ResultColumns(grade12: bool): seq<string> {
    if grade12 then ResultColumns12 else ResultColumns10
  }

  /** The columns of the data frame: every key of every row. */
  function PresentColumns(data: seq<Row>): set<string> {
    if data == [] then {} else (set k | k in Keys(data[0])) + PresentColumns(data[1..])
  }

  /** `df[fixed_cols + grade cols + mark cols + result cols]`, each list
      filtered to the columns present. */
  function OutputColumns(grade12: bool, data: seq<Row>): seq<string> {
    var present := PresentColumns(data);
    FixedColumns + Engine45.SelectColumns(GradeColumns(grade12), present)
      + Engine45.SelectColumns(MarkColumns(grade12), present)
      + Engine45.SelectColumns(ResultColumns(grade12), present)
  }

  function Number(v: Option<Value>): Option<real> {
    if v.None? || v.value.Str? then None
    else if v.value.Num? then Some(v.value.x)
    else Some(v.value.n as real)
  }

  /** The values of a column when each row holds a number there. */
  function NumericColumn(data: seq<Row>, col: string): (r: Option<seq<real>>)
    ensures r.Some? ==> |r.value| == |data|
    ensures r.Some? ==> forall k :: 0 <= k < |data| ==> Number(Get(data[k], col)) == Some(r.value[k])
    ensures r.None? ==> exists k :: 0 <= k < |data| && Number(Get(data[k], col)).None?
  {
    if data == [] then Some([])
    else match (Number(Get(data[0], col)), NumericColumn(data[1..], col))
      case (Some(x), Some(rest)) =>
        assert forall k :: 1 <= k < |data| ==> data[k] == data[1..][k - 1];
        Some([x] + rest)
      case (None, _) => None
      case (_, None) =>
        var k :| 0 <= k < |data[1..]| && Number(Get(data[1..][k], col)).None?;
        assert data[k + 1] == data[1..][k];
        None
  }

  function RankedColumn(col: string): string {
    if col == "Main % Rank" then "Main %" else "Top 5 %"
  }

  function CellAt(data: seq<Row>, k: nat, col: string): Cell
    requires k < |data|
  {
    if col == "Main % Rank" || col == "Top 5 % Rank" then
      match NumericColumn(data, RankedColumn(col))
      case Some(vs) => Val(Int(DenseRank(vs, vs[k])))
      case None => Unranked
    else match Get(data[k], col)
      case Some(v) => Val(v)
      case None => Missing
  }

  function BuildWorkbook(grade12: bool, data: seq<Row>): Workbook
    requires |data| > 0
  {
    var cols := OutputColumns(grade12, data);
    var subjects := Engine45.SelectColumns(MarkColumns(grade12), PresentColumns(data));
    Workbook(cols,
      seq(|data|, k requires 0 <= k < |data| => seq(|cols|, c requires 0 <= c < |cols| => CellAt(data, k, cols[c]))),
      seq(|subjects|, j requires 0 <= j < |subjects| => SubjectLine(data, subjects[j])))
  }

  /** The workbook, or `None` for a bulletin without a single record, where
      selecting the fixed columns of an empty frame raises. */
  function Output(grade12: bool, lines: seq<string>): Option<Workbook> {
    var data := Scan(grade12, lines, 0);
    if data == [] then None else Some(BuildWorkbook(grade12, data))
  }

  // ---------------------------------------------------------------------
  // Columns the sheet never has
  // ---------------------------------------------------------------------

  function AggregateKeys(grade12: bool): seq<string> {
    if grade12 then AggregateKeys12 else AggregateKeys10
  }

  predicate EndsWithG(c: string) {
    c != [] && c[|c| - 1] == 'G'
  }

  /** `c` is the mark or the grade label of one of the first `n` codes. */
  predicate IsLabelAt(table: map<string, (string, string)>, codes: seq<string>, n: nat, c: string)
    requires n <= |codes|
  {
    exists idx :: 0 <= idx < n && (c == LabelsFor(table, codes[idx], idx).0 || c == LabelsFor(table, codes[idx], idx).1)
  }

  lemma RowKeys(grade12: bool, h: Header, codes: seq<string>, pairs: seq<(int, string)>, result: string, c: string)
    ensures c in Keys(RowOf(grade12, h, codes, pairs, result)) ==>
      || c in FixedColumns || c in AggregateKeys(grade12)
      || IsLabelAt(Table(grade12), codes, Min(|codes|, |pairs|), c)
  {
    var n := Min(|codes|, |pairs|);
    var table := Table(grade12);
    var a := Assignments(table, codes, pairs, n);
    var u := Updates(grade12, result, ScoreList(table, codes, pairs, n));
    if c in Keys(RowOf(grade12, h, codes, pairs, result)) {
      assert RowEntries(grade12, h, codes, pairs, result) == Identity(h) + a + u;
      KeyOfParts(Identity(h), a, u, c);
      AssignmentKeys(table, codes, pairs, n, c);
      UpdateKeys(grade12, result, ScoreList(table, codes, pairs, n), c);
      FixedColumnsOf(h, c);
    }
  }

  /** The keys of the assignments are the codes' labels. */
  lemma AssignmentKeys(table: map<string, (string, string)>, codes: seq<string>, pairs: seq<(int, string)>, n: nat, c: string)
    requires n <= |codes| && n <= |pairs|
    ensures c in Keys(Assignments(table, codes, pairs, n)) ==> IsLabelAt(table, codes, n, c)
  {
    var a := Assignments(table, codes, pairs, n);
    if c in Keys(a) {
      var j :| 0 <= j < |a| && Keys(a)[j] == c;
      var idx := j / 2;
      AssignmentsAt(table, codes, pairs, n, idx);
      assert j == 2 * idx || j == 2 * idx + 1;
      assert 0 <= idx < n && (c == LabelsFor(table, codes[idx], idx).0 || c == LabelsFor(table, codes[idx], idx).1);
    }
  }

  lemma UpdateKeys(grade12: bool, result: string, sc: seq<Score>, c: string)
    ensures c in Keys(Updates(grade12, result, sc)) ==> c in AggregateKeys(grade12)
  {
    var u := Updates(grade12, result, sc);
    if c in Keys(u) {
      var j :| 0 <= j < |u| && Keys(u)[j] == c;
      UpdatesKeys(grade12, result, sc);
      assert c == AggregateKeys(grade12)[j];
    }
  }

  lemma FixedColumnsOf(h: Header, c: string)
    ensures c in Keys(Identity(h)) ==> c in FixedColumns
  {
    if c in Keys(Identity(h)) {
      var j :| 0 <= j < 3 && Keys(Identity(h))[j] == c;
      assert c == FixedColumns[j];
    }
  }

  lemma UpdatesKeys(grade12: bool, result: string, sc: seq<Score>)
    ensures |Updates(grade12, result, sc)| == |AggregateKeys(grade12)|
    ensures forall j :: 0 <= j < |AggregateKeys(grade12)| ==> Updates(grade12, result, sc)[j].0 == AggregateKeys(grade12)[j]
  {
  }

  /** No identity or aggregate key ends in a digit or in `G`. */
  lemma FixedKeyEndings()
    ensures forall j :: 0 <= j < |FixedColumns| ==> !EndsInDigit(FixedColumns[j]) && !EndsWithG(FixedColumns[j])
    ensures forall j :: 0 <= j < |AggregateKeys12| ==> !EndsInDigit(AggregateKeys12[j]) && !EndsWithG(AggregateKeys12[j])
    ensures forall j :: 0 <= j < |AggregateKeys10| ==> !EndsInDigit(AggregateKeys10[j]) && !EndsWithG(AggregateKeys10[j])
  {
  }

  /** A name that no table mark label has, that starts with a letter other
      than `S` and ends in a digit, is never a key. */
  predicate MisnamedMark(grade12: bool, c: string) {
    && EndsInDigit(c) && !IsDigit(c[0]) && c[0] != 'S'
    && forall code :: code in Table(grade12) ==> Table(grade12)[code].0 != c
  }

  /** Names ending in `G`, and names of marks the table never uses, are
      never keys of a row. */
  lemma NotARowKey(grade12: bool, h: Header, codes: seq<string>, pairs: seq<(int, string)>, result: string, c: string)
    requires CodesOfLine(codes)
    requires EndsWithG(c) || MisnamedMark(grade12, c)
    ensures c !in Keys(RowOf(grade12, h, codes, pairs, result))
  {
    FixedKeyEndings();
    assert c !in FixedColumns && c !in AggregateKeys(grade12);
    NotALabel(grade12, codes, Min(|codes|, |pairs|), c);
    RowKeys(grade12, h, codes, pairs, result, c);
  }

  lemma NotALabel(grade12: bool, codes: seq<string>, n: nat, c: string)
    requires n <= |codes| && CodesOfLine(codes)
    requires EndsWithG(c) || MisnamedMark(grade12, c)
    ensures !IsLabelAt(Table(grade12), codes, n, c)
  {
    forall idx | 0 <= idx < n
      ensures c != LabelsFor(Table(grade12), codes[idx], idx).0 && c != LabelsFor(Table(grade12), codes[idx], idx).1
    {
      LabelShapes(grade12, codes[idx], idx);
      if codes[idx] !in Table(grade12) {
        assert LabelsFor(Table(grade12), codes[idx], idx).0[0] == 'S';
      }
    }
  }

  /** "Percentage" is never a Grade-12 key. */
  lemma PercentageNotARowKey(h: Header, codes: seq<string>, pairs: seq<(int, string)>, result: string)
    requires CodesOfLine(codes)
    ensures "Percentage" !in Keys(RowOf(true, h, codes, pairs, result))
  {
    var c := "Percentage";
    assert |c| == 10 && !EndsInDigit(c);
    assert c !in FixedColumns && c !in AggregateKeys(true);
    forall idx | 0 <= idx < Min(|codes|, |pairs|)
      ensures c != LabelsFor(Table(true), codes[idx], idx).0 && c != LabelsFor(Table(true), codes[idx], idx).1
    {
      LabelShapes(true, codes[idx], idx);
    }
    RowKeys(true, h, codes, pairs, result, c);
  }

  /** A column of the frame is a key of some row. */
  lemma {:induction false} PresentColumnsFrom(data: seq<Row>, c: string)
    requires c in PresentColumns(data)
    ensures exists q :: 0 <= q < |data| && c in Keys(data[q])
  {
    if c !in Keys(data[0]) {
      PresentColumnsFrom(data[1..], c);
      var q :| 0 <= q < |data[1..]| && c in Keys(data[1..][q]);
      assert data[1..][q] == data[q + 1];
    }
  }

  /** The two stripped lines that yielded the row at `q`. */
  lemma RowFromWindow(grade12: bool, lines: seq<string>, q: nat) returns (line1: string, line2: string)
    requires q < |Scan(grade12, lines, 0)|
    ensures Classify(grade12, line1, line2) == Emit(Scan(grade12, lines, 0)[q])
  {
    var data := Scan(grade12, lines, 0);
    ScanRowsFromWindows(grade12, lines, 0);
    assert data[q] in data;
    var j :| 0 <= j && j + 1 < |lines| && Classify(grade12, Strip(lines[j]), Strip(lines[j + 1])) == Emit(data[q]);
    line1, line2 := Strip(lines[j]), Strip(lines[j + 1]);
  }

  lemma WindowRowLacks(grade12: bool, line1: string, line2: string, r: Row, c: string)
    requires Classify(grade12, line1, line2) == Emit(r)
    requires EndsWithG(c) || MisnamedMark(grade12, c) || (grade12 && c == "Percentage")
    ensures c !in Keys(r)
  {
    EmittedRow(grade12, line1, line2, r);
    if grade12 && c == "Percentage" {
      PercentageNotARowKey(HeaderMatch(line1).value, FindCodes(line1), PairsOf(line2), ResultKeyword(line1));
    } else {
      NotARowKey(grade12, HeaderMatch(line1).value, FindCodes(line1), PairsOf(line2), ResultKeyword(line1), c);
    }
  }

  /** Names ending in `G`, mark names the table never uses and, for
      Grade 12, "Percentage" are never columns of the frame the parse
      builds. */
  lemma NeverPresent(grade12: bool, lines: seq<string>, c: string)
    requires EndsWithG(c) || MisnamedMark(grade12, c) || (grade12 && c == "Percentage")
    ensures c !in PresentColumns(Scan(grade12, lines, 0))
  {
    var data := Scan(grade12, lines, 0);
    if c in PresentColumns(data) {
      PresentColumnsFrom(data, c);
      var q :| 0 <= q < |data| && c in Keys(data[q]);
      var line1, line2 := RowFromWindow(grade12, lines, q);
      WindowRowLacks(grade12, line1, line2, data[q], c);
      assert false;
    }
  }

  /** Every wanted grade column ends in `G`. */
  lemma GradeColumnsEndWithG(grade12: bool)
    ensures forall j :: 0 <= j < |GradeColumns(grade12)| ==> EndsWithG(GradeColumns(grade12)[j])
  {
  }

  /** The Grade-12 mark columns `ACC-054`, `BST-055` and `IP--065`, and the
      Grade-10 ones `MAT-041`, `MAT-241` and `IT--402`, are names the
      table never gives a mark. */
  lemma MisnamedMarkColumns()
    ensures MisnamedMark(true, "ACC-054") && MisnamedMark(true, "BST-055") && MisnamedMark(true, "IP--065")
    ensures MisnamedMark(false, "MAT-041") && MisnamedMark(false, "MAT-241") && MisnamedMark(false, "IT--402")
  {
  }

  /** The sheet never holds a grade column: the wanted grade names end in
      `G`, the table's grade labels end in the position number. */
  lemma NoGradeColumns(grade12: bool, lines: seq<string>)
    ensures Engine45.SelectColumns(GradeColumns(grade12), PresentColumns(Scan(grade12, lines, 0))) == []
  {
    var present := PresentColumns(Scan(grade12, lines, 0));
    var cols := Engine45.SelectColumns(GradeColumns(grade12), present);
    if cols != [] {
      assert cols[0] in GradeColumns(grade12);
      var j :| 0 <= j < |GradeColumns(grade12)| && GradeColumns(grade12)[j] == cols[0];
      GradeColumnsEndWithG(grade12);
      NeverPresent(grade12, lines, cols[0]);
      assert false;
    }
  }

  /** The sheet is the identity columns, then the mark columns and result
      columns that the rows have. */
  lemma SheetColumns(grade12: bool, lines: seq<string>)
    ensures var data := Scan(grade12, lines, 0);
      OutputColumns(grade12, data) == FixedColumns + Engine45.SelectColumns(MarkColumns(grade12), PresentColumns(data))
        + Engine45.SelectColumns(ResultColumns(grade12), PresentColumns(data))
  {
    NoGradeColumns(grade12, lines);
  }

  /** A name that is neither an identity column nor a column of the frame
      is not on the sheet. */
  lemma AbsentFromSheet(grade12: bool, data: seq<Row>, c: string)
    requires c !in FixedColumns && c !in PresentColumns(data)
    ensures c !in OutputColumns(grade12, data)
  {
  }

  /** A mark name the table never uses is not on the sheet. */
  lemma MisnamedNotOnSheet(grade12: bool, lines: seq<string>, c: string)
    requires MisnamedMark(grade12, c)
    ensures c !in OutputColumns(grade12, Scan(grade12, lines, 0))
  {
    FixedKeyEndings();
    assert c !in FixedColumns;
    NeverPresent(grade12, lines, c);
    AbsentFromSheet(grade12, Scan(grade12, lines, 0), c);
  }

  /** The misnamed mark columns, and "Percentage", are never on the sheet. */
  lemma MisnamedColumnsNotOnSheet(lines: seq<string>)
    ensures "ACC-054" !in OutputColumns(true, Scan(true, lines, 0))
    ensures "BST-055" !in OutputColumns(true, Scan(true, lines, 0))
    ensures "IP--065" !in OutputColumns(true, Scan(true, lines, 0))
    ensures "Percentage" !in OutputColumns(true, Scan(true, lines, 0))
    ensures "MAT-041" !in OutputColumns(false, Scan(false, lines, 0))
    ensures "MAT-241" !in OutputColumns(false, Scan(false, lines, 0))
    ensures "IT--402" !in OutputColumns(false, Scan(false, lines, 0))
  {
    MisnamedMarkColumns();
    MisnamedNotOnSheet(true, lines, "ACC-054");
    MisnamedNotOnSheet(true, lines, "BST-055");
    MisnamedNotOnSheet(true, lines, "IP--065");
    MisnamedNotOnSheet(false, lines, "MAT-041");
    MisnamedNotOnSheet(false, lines, "MAT-241");
    MisnamedNotOnSheet(false, lines, "IT--402");
    NeverPresent(true, lines, "Percentage");
    assert |"Percentage"| == 10;
    AbsentFromSheet(true, Scan(true, lines, 0), "Percentage");
  }

  // ---------------------------------------------------------------------
  // The application
  // ---------------------------------------------------------------------

  /** `parse_and_save` for the tier the sample decided. */
  method ParseAndSave(app: App.CBSEParserApp, lines: seq<string>) returns (out: Option<Workbook>)
    ensures out == Output(app.grade12, lines)
  {
    var data := ParseRecords(app.grade12, lines);
    if data == [] {
      return None;
    }
    return Some(BuildWorkbook(app.grade12, data));
  }
}
