/** The second version of the program (`Result_Soft_ver_2.py`): the tier is
    guessed from a pasted sample line, a record must carry exactly the
    tier's number of subjects, every subject is stored under its full name
    with its grade under "<name> Grade", and the sheet's subject columns are
    the subjects met, in sorted order. */
module Ver2 {
  import opened Wrappers
  import opened Chars
  import opened Patterns
  import opened OrderedDict
  import opened Rows
  import opened Stats
  import opened Summary
  import opened SubjectMaps
  import opened Strings
  import App

  function Names(grade12: bool): map<string, string> {
    if grade12 then Grade12Names else Grade10Names
  }

  /** `self.subject_count`: five subjects for Grade 12, six for Grade 10. */
  function SubjectCount(grade12: bool): nat {
    if grade12 then 5 else 6
  }

  /** `handle_sample` on the window state: the tier is Grade 12 exactly
      when some grade token `[A-D][12]` is followed, after white space, by a
      result keyword. */
  method HandleSample(app: App.CBSEParserApp, entry: string) returns (ok: bool)
    requires app.Valid()
    modifies app
    ensures app.Valid()
    ensures app.sampleLine == Strip(entry) && app.fileChosen == old(app.fileChosen)
    ensures ok <==> app.fileChosen && app.sampleLine != []
    ensures ok ==> app.grade12 == HasGradeThenKeyword(app.sampleLine) && app.subjectCount == (if app.grade12 then 5 else 6)
    ensures !ok ==> app.grade12 == old(app.grade12) && app.subjectCount == old(app.subjectCount)
  {
    ok := app.HandleSample(entry, s => HasGradeThenKeyword(s));
  }

  /** `subject_map.get(code, f"Sub{idx+1}")`. */
  function SubjectName(grade12: bool, code: string, idx: nat): string {
    if code in Names(grade12) then Names(grade12)[code] else "Sub" + NatToString(idx + 1)
  }

  const GradeSuffix: string := " Grade"

  /** The key a subject's grade is stored under. */
  function GradeKey(subject: string): string {
    subject + GradeSuffix
  }

  // ---------------------------------------------------------------------
  // One row
  // ---------------------------------------------------------------------

  /** An entry of the `scores` list. */
  datatype Score = Score(subject: string, mark: int)

  /** The two assignments of position `idx`: the grade under the grade
      key, then the integer mark under the subject name. */
  function PositionEntries(grade12: bool, code: string, pair: (int, string), idx: nat): seq<(string, Value)> {
    var s := SubjectName(grade12, code, idx);
    [(GradeKey(s), Str(pair.1)), (s, Int(pair.0))]
  }

  /** The assignments of the fill loop for the first `n` positions. */
  function Assignments(grade12: bool, codes: seq<string>, pairs: seq<(int, string)>, n: nat): (es: seq<(string, Value)>)
    requires n <= |codes| && n <= |pairs|
    ensures |es| == 2 * n
    decreases n
  {
    if n == 0 then []
    else Assignments(grade12, codes, pairs, n - 1) + PositionEntries(grade12, codes[n - 1], pairs[n - 1], n - 1)
  }

  function ScoreList(grade12: bool, codes: seq<string>, pairs: seq<(int, string)>, n: nat): (sc: seq<Score>)
    requires n <= |codes| && n <= |pairs|
    ensures |sc| == n
    decreases n
  {
    if n == 0 then []
    else ScoreList(grade12, codes, pairs, n - 1) + [Score(SubjectName(grade12, codes[n - 1], n - 1), pairs[n - 1].0)]
  }

  function MarksOf(sc: seq<Score>): (ms: seq<int>)
    ensures |ms| == |sc| && forall k :: 0 <= k < |sc| ==> ms[k] == sc[k].mark
  {
    seq(|sc|, k requires 0 <= k < |sc| => sc[k].mark)
  }

  /** `[m for s, m in scores if s in main_pool]`. */
  function MainMarks(sc: seq<Score>, main: set<string>): seq<int> {
    if sc == [] then []
    else (if sc[0].subject in main then [sc[0].mark] else []) + MainMarks(sc[1..], main)
  }

  const AggregateKeys12: seq<string> := ["Result", "Total", "Percentage"]
  const AggregateKeys10: seq<string> := ["Result", "Main Total", "Main %", "Top 5 Total", "Top 5 %"]

  function AggregateKeys(grade12: bool): seq<string> {
    if grade12 then AggregateKeys12 else AggregateKeys10
  }

  /** Grade 12: the total of every mark, and that total over the number of
      subjects read. */
  function Updates12(result: string, sc: seq<Score>): seq<(string, Value)>
    requires sc != []
  {
    Entries(AggregateKeys12, [Str(result), Int(Sum(MarksOf(sc))), Num(Mean(MarksOf(sc)))])
  }

  /** Grade 10: the main subjects' total and mean, `''` when there is no
      main subject, and the best five marks with their total over five. */
  function Updates10(result: string, sc: seq<Score>): seq<(string, Value)> {
    var ms := MainMarks(sc, Main10Names);
    Entries(AggregateKeys10, [Str(result),
                              if ms == [] then Str("") else Int(Sum(ms)),
                              if ms == [] then Str("") else Num(Mean(ms)),
                              Int(Sum(Top5(MarksOf(sc)))), Num(TopFivePercent(MarksOf(sc)))])
  }

  /** The entries of `row.update`. */
  function Updates(grade12: bool, result: string, sc: seq<Score>): seq<(string, Value)>
    requires grade12 ==> sc != []
  {
    if grade12 then Updates12(result, sc) else Updates10(result, sc)
  }

  /** A record reaches the fill loop with exactly the tier's number of
      codes and at least as many mark-grade pairs. */
  predicate Accepted(grade12: bool, codes: seq<string>, pairs: seq<(int, string)>) {
    |codes| == SubjectCount(grade12) && |codes| <= |pairs|
  }

  /** All assignments a row receives, in order. */
  function RowEntries(grade12: bool, h: Header, codes: seq<string>, pairs: seq<(int, string)>, result: string): seq<(string, Value)>
    requires Accepted(grade12, codes, pairs)
  {
    Identity(h) + Assignments(grade12, codes, pairs, |codes|) + Updates(grade12, result, ScoreList(grade12, codes, pairs, |codes|))
  }

  function RowOf(grade12: bool, h: Header, codes: seq<string>, pairs: seq<(int, string)>, result: string): Row
    requires Accepted(grade12, codes, pairs)
  {
    PutAll([], RowEntries(grade12, h, codes, pairs, result))
  }

  /** The fill loop `for idx, subject in enumerate(subjects)`. */
  method FillRow(grade12: bool, h: Header, codes: seq<string>, pairs: seq<(int, string)>)
    returns (row: Row, scores: seq<Score>)
    requires |codes| <= |pairs|
    ensures row == PutAll([], Identity(h) + Assignments(grade12, codes, pairs, |codes|))
    ensures scores == ScoreList(grade12, codes, pairs, |codes|)
  {
    row := PutAll([], Identity(h));
    scores := [];
    assert Identity(h) + Assignments(grade12, codes, pairs, 0) == Identity(h);
    for idx := 0 to |codes|
      invariant row == PutAll([], Identity(h) + Assignments(grade12, codes, pairs, idx))
      invariant scores == ScoreList(grade12, codes, pairs, idx)
    {
      var subject := SubjectName(grade12, codes[idx], idx);
      FillStep(grade12, h, codes, pairs, idx);
      row := Put(row, GradeKey(subject), Str(pairs[idx].1));
      row := Put(row, subject, Int(pairs[idx].0));
      scores := scores + [Score(subject, pairs[idx].0)];
    }
  }

  /** One turn of the fill loop adds the grade, then the mark, of position `idx`. */
  lemma FillStep(grade12: bool, h: Header, codes: seq<string>, pairs: seq<(int, string)>, idx: nat)
    requires idx < |codes| && idx < |pairs|
    ensures var s := SubjectName(grade12, codes[idx], idx);
      PutAll([], Identity(h) + Assignments(grade12, codes, pairs, idx + 1))
      == Put(Put(PutAll([], Identity(h) + Assignments(grade12, codes, pairs, idx)), GradeKey(s), Str(pairs[idx].1)), s, Int(pairs[idx].0))
  {
    var two := PositionEntries(grade12, codes[idx], pairs[idx], idx);
    AssignTwo(Identity(h) + Assignments(grade12, codes, pairs, idx), two);
    Associate(Identity(h), Assignments(grade12, codes, pairs, idx), two);
  }

  /** The fill loop and the `row.update` of one accepted window. */
  method BuildRow(grade12: bool, h: Header, codes: seq<string>, pairs: seq<(int, string)>, result: string) returns (row: Row)
    requires Accepted(grade12, codes, pairs)
    ensures row == RowOf(grade12, h, codes, pairs, result)
  {
    var scores;
    row, scores := FillRow(grade12, h, codes, pairs);
    ghost var filled := Identity(h) + Assignments(grade12, codes, pairs, |codes|);
    var updates := Updates(grade12, result, scores);
    PutAllAppend([], filled, updates);
    assert RowEntries(grade12, h, codes, pairs, result) == filled + updates;
    row := PutAll(row, updates);
  }

  // ---------------------------------------------------------------------
  // The scan
  // ---------------------------------------------------------------------

  /** `re.findall(r'\b\d{3}\b', line1)[:self.subject_count]`. */
  function CodesRead(grade12: bool, line1: string): (codes: seq<string>)
    ensures |codes| == Min(|FindCodes(line1)|, SubjectCount(grade12))
    ensures forall j :: 0 <= j < |codes| ==> codes[j] == FindCodes(line1)[j]
  {
    var all := FindCodes(line1);
    all[..Min(|all|, SubjectCount(grade12))]
  }

  function Classify(grade12: bool, line1: string, line2: string): Window {
    if IsSkipLine(line1) || !StartsWith8Digits(line1) then Skip
    else match HeaderMatch(line1)
      case None => Resync
      case Some(h) =>
        var codes := CodesRead(grade12, line1);
        var pairs := PairsOf(line2);
        if |codes| < SubjectCount(grade12) || |pairs| < SubjectCount(grade12) then Resync
        else Emit(RowOf(grade12, h, codes, pairs, ResultKeyword(line1)))
  }

  /** The rows found from cursor `i` on: a skipped line moves the cursor by
      one, a failed window and a record by two. */
  function Scan(grade12: bool, lines: seq<string>, i: nat): seq<Row>
    decreases |lines| - i
  {
    if i + 1 >= |lines| then []
    else match Classify(grade12, Strip(lines[i]), Strip(lines[i + 1]))
      case Skip => Scan(grade12, lines, i + 1)
      case Resync => Scan(grade12, lines, i + 2)
      case Emit(r) => [r] + Scan(grade12, lines, i + 2)
  }

  /** The body of the cursor loop for one window of two stripped lines. */
  method ReadWindow(grade12: bool, line1: string, line2: string) returns (w: Window)
    ensures w == Classify(grade12, line1, line2)
  {
    if IsSkipLine(line1) || !StartsWith8Digits(line1) {
      return Skip;
    }
    var m := HeaderMatch(line1);
    if m.None? {
      return Resync;
    }
    var codes := CodesRead(grade12, line1);
    var pairs := PairsOf(line2);
    if |codes| < SubjectCount(grade12) || |pairs| < SubjectCount(grade12) {
      return Resync;
    }
    var result := ResultKeyword(line1);
    var row := BuildRow(grade12, m.value, codes, pairs, result);
    return Emit(row);
  }

  /** The cursor loop of `parse_and_save` over the lines as read. */
  method ParseRecords(grade12: bool, lines: seq<string>) returns (data: seq<Row>)
    ensures data == Scan(grade12, lines, 0)
  {
    data := [];
    var i := 0;
    while i < |lines| - 1
      invariant i <= |lines|
      invariant data + Scan(grade12, lines, i) == Scan(grade12, lines, 0)
      decreases |lines| - i
    {
      var w := ReadWindow(grade12, Strip(lines[i]), Strip(lines[i + 1]));
      ScanStep(grade12, lines, i, w);
      match w
      case Skip =>
        i := i + 1;
      case Resync =>
        i := i + 2;
      case Emit(row) =>
        AppendOne(data, row, Scan(grade12, lines, i + 2));
        data := data + [row];
        i := i + 2;
    }
  }

  lemma ScanStep(grade12: bool, lines: seq<string>, i: nat, w: Window)
    requires i + 1 < |lines| && w == Classify(grade12, Strip(lines[i]), Strip(lines[i + 1]))
    ensures Scan(grade12, lines, i) == match w
      case Skip => Scan(grade12, lines, i + 1)
      case Resync => Scan(grade12, lines, i + 2)
      case Emit(r) => [r] + Scan(grade12, lines, i + 2)
  {
  }

  // ---------------------------------------------------------------------
  // What the scan promises
  // ---------------------------------------------------------------------

  /** A window is skipped exactly when line 1 does not start with eight
      digits, and yields a row exactly when, besides, the header matches and
      line 1 has the tier's number of codes and line 2 as many pairs. */
  lemma ClassifyIff(grade12: bool, line1: string, line2: string)
    ensures Classify(grade12, line1, line2).Skip? <==> !StartsWith8Digits(line1)
    ensures Classify(grade12, line1, line2).Emit? <==>
      && StartsWith8Digits(line1) && HeaderMatch(line1).Some?
      && |FindCodes(line1)| >= SubjectCount(grade12) && |FindMarkGrades(line2)| >= SubjectCount(grade12)
  {
    if IsSkipLine(line1) {
      SkipLinesAreNotRecordLines(line1);
    }
  }

  /** A yielded row is the row of its window's header, its first
      `subject_count` codes and its pairs. */
  lemma EmittedRow(grade12: bool, line1: string, line2: string, r: Row)
    requires Classify(grade12, line1, line2) == Emit(r)
    ensures HeaderMatch(line1).Some?
    ensures Accepted(grade12, CodesRead(grade12, line1), PairsOf(line2))
    ensures r == RowOf(grade12, HeaderMatch(line1).value, CodesRead(grade12, line1), PairsOf(line2), ResultKeyword(line1))
  {
  }

  /** Every row comes from a window of two consecutive stripped lines at
      or after the cursor. */
  lemma {:induction false} ScanRowsFromWindows(grade12: bool, lines: seq<string>, i: nat)
    ensures forall r :: r in Scan(grade12, lines, i) ==>
      exists j :: i <= j && j + 1 < |lines| && Classify(grade12, Strip(lines[j]), Strip(lines[j + 1])) == Emit(r)
    decreases |lines| - i
  {
    if i + 1 < |lines| {
      ScanRowsFromWindows(grade12, lines, i + 1);
      ScanRowsFromWindows(grade12, lines, i + 2);
    }
  }

  /** The two stripped lines that yielded the row at `q`. */
  lemma RowFromWindow(grade12: bool, lines: seq<string>, q: nat) returns (line1: string, line2: string)
    requires q < |Scan(grade12, lines, 0)|
    ensures Classify(grade12, line1, line2) == Emit(Scan(grade12, lines, 0)[q])
  {
    var data := Scan(grade12, lines, 0);
    ScanRowsFromWindows(grade12, lines, 0);
    assert data[q] in data;
    var j :| 0 <= j && j + 1 < |lines| && Classify(grade12, Strip(lines[j]), Strip(lines[j + 1])) == Emit(data[q]);
    line1, line2 := Strip(lines[j]), Strip(lines[j + 1]);
  }

  /** A row takes two lines, so there are at most half as many rows as
      lines from the cursor on. */
  lemma {:induction false} ScanLength(grade12: bool, lines: seq<string>, i: nat)
    requires i <= |lines|
    ensures 2 * |Scan(grade12, lines, i)| <= |lines| - i
    decreases |lines| - i
  {
    if i + 1 < |lines| {
      var w := Classify(grade12, Strip(lines[i]), Strip(lines[i + 1]));
      ScanStep(grade12, lines, i, w);
      if w.Skip? {
        ScanLength(grade12, lines, i + 1);
      } else {
        ScanLength(grade12, lines, i + 2);
      }
    }
  }

  // ---------------------------------------------------------------------
  // What a row holds
  // ---------------------------------------------------------------------

  /** Subject names end in a digit, a capital or a full stop; no identity,
      grade or aggregate key does. */
  predicate MarkLike(k: string) {
    k != [] && (IsDigit(k[|k| - 1]) || 'A' <= k[|k| - 1] <= 'Z' || k[|k| - 1] == '.')
  }

  /** Grade keys end in "de"; no subject name, identity or aggregate key does. */
  predicate GradeLike(k: string) {
    |k| >= 2 && k[|k| - 2] == 'd' && k[|k| - 1] == 'e'
  }

  /** No blank is followed by a capital G, so " Grade" does not occur. */
  predicate NoSpaceG(k: string) {
    forall i :: 0 <= i < |k| - 1 ==> !(k[i] == ' ' && k[i + 1] == 'G')
  }

  /** The shape of the keys that are neither subject names nor grade keys. */
  predicate PlainKey(k: string) {
    !MarkLike(k) && !GradeLike(k) && NoSpaceG(k)
  }

  lemma TableNameShapes(grade12: bool)
    ensures forall code :: code in Names(grade12) ==> MarkLike(Names(grade12)[code]) && NoSpaceG(Names(grade12)[code])
  {
    if grade12 {
      Grade12NameShapes();
    } else {
      Grade10NameShapes();
    }
  }

  lemma Grade12NameShapes()
    ensures forall code :: code in Grade12Names ==> MarkLike(Grade12Names[code]) && NoSpaceG(Grade12Names[code])
  {
    Grade12NamesMarkLike();
    Grade12NamesNoSpaceG();
  }

  lemma Grade12NamesMarkLike()
    ensures forall code :: code in Grade12Names ==> MarkLike(Grade12Names[code])
  {
  }

  lemma Grade12NamesNoSpaceG()
    ensures forall code :: code in Grade12Names ==> NoSpaceG(Grade12Names[code])
  {
  }

  lemma Grade10NameShapes()
    ensures forall code :: code in Grade10Names ==> MarkLike(Grade10Names[code]) && NoSpaceG(Grade10Names[code])
  {
    Grade10NamesMarkLike();
    Grade10NamesNoSpaceG();
  }

  lemma Grade10NamesMarkLike()
    ensures forall code :: code in Grade10Names ==> MarkLike(Grade10Names[code])
  {
  }

  lemma Grade10NamesNoSpaceG()
    ensures forall code :: code in Grade10Names ==> NoSpaceG(Grade10Names[code])
  {
  }

  /** Every subject name, from the table or the `Sub<n>` fallback, is mark-like
      and free of " G". */
  lemma NameShapes(grade12: bool, code: string, idx: nat)
    ensures MarkLike(SubjectName(grade12, code, idx)) && NoSpaceG(SubjectName(grade12, code, idx))
  {
    if code in Names(grade12) {
      TableNameShapes(grade12);
    } else {
      var n := NatToString(idx + 1);
      var s := "Sub" + n;
      assert s[|s| - 1] == n[|n| - 1];
      forall i | 0 <= i < |s| - 1 ensures !(s[i] == ' ' && s[i + 1] == 'G') {
        if i >= 3 {
          assert s[i] == n[i - 3];
        }
      }
    }
  }

  /** Each aggregate key is written once. */
  lemma AggregateKeysDistinct()
    ensures forall i, j :: 0 <= i < j < |AggregateKeys12| ==> AggregateKeys12[i] != AggregateKeys12[j]
    ensures forall i, j :: 0 <= i < j < |AggregateKeys10| ==> AggregateKeys10[i] != AggregateKeys10[j]
  {
  }

  lemma FixedKeyShapes()
    ensures forall j :: 0 <= j < |FixedColumns| ==> PlainKey(FixedColumns[j])
    ensures forall j :: 0 <= j < |AggregateKeys12| ==> PlainKey(AggregateKeys12[j])
    ensures forall j :: 0 <= j < |AggregateKeys10| ==> PlainKey(AggregateKeys10[j])
  {
  }

  /** A grade key ends in "de", and different subjects have different grade keys. */
  lemma GradeKeyShape(a: string, b: string)
    ensures GradeLike(GradeKey(a)) && !MarkLike(GradeKey(a))
    ensures GradeKey(a) == GradeKey(b) ==> a == b
  {
    if GradeKey(a) == GradeKey(b) {
      assert a == GradeKey(a)[..|a|];
      assert b == GradeKey(b)[..|b|];
    }
  }

  /** A key without a blank before a `G` does not contain " Grade". */
  lemma NoGradeSuffix(k: string)
    requires NoSpaceG(k)
    ensures !Contains(k, GradeSuffix)
  {
    forall i | 0 <= i <= |k| ensures !OccursAt(k, GradeSuffix, i) {
      if i + 6 <= |k| {
        assert !(k[i] == ' ' && k[i + 1] == 'G');
        assert k[i..i + 6][0] == k[i] && k[i..i + 6][1] == k[i + 1];
        assert GradeSuffix[0] == ' ' && GradeSuffix[1] == 'G';
      }
    }
  }

  /** `(s + " Grade").replace(" Grade", "")` gives `s` back. */
  lemma GradeKeyRoundTrip(s: string)
    requires NoSpaceG(s)
    ensures Contains(GradeKey(s), GradeSuffix)
    ensures RemoveAll(GradeKey(s), GradeSuffix) == s
  {
    var k := GradeKey(s);
    assert k[|s|..|s| + 6] == GradeSuffix;
    assert OccursAt(k, GradeSuffix, |s|);
    forall i | 0 <= i < |s| ensures !OccursAt(k, GradeSuffix, i) {
      if i + 6 <= |k| {
        assert k[i..i + 6][0] == k[i] && k[i..i + 6][1] == k[i + 1];
        assert k[i] == s[i];
        if i + 1 < |s| {
          assert !(s[i] == ' ' && s[i + 1] == 'G');
          assert k[i + 1] == s[i + 1];
        } else {
          assert k[i + 1] == ' ';
        }
      }
    }
    RemoveSuffix(s, GradeSuffix);
  }

  /** Position `idx` writes its grade, then its mark. */
  lemma {:induction false} AssignmentsAt(grade12: bool, codes: seq<string>, pairs: seq<(int, string)>, n: nat, idx: nat)
    requires idx < n <= |codes| && n <= |pairs|
    ensures Assignments(grade12, codes, pairs, n)[2 * idx] == (GradeKey(SubjectName(grade12, codes[idx], idx)), Str(pairs[idx].1))
    ensures Assignments(grade12, codes, pairs, n)[2 * idx + 1] == (SubjectName(grade12, codes[idx], idx), Int(pairs[idx].0))
    decreases n
  {
    var prev := Assignments(grade12, codes, pairs, n - 1);
    assert Assignments(grade12, codes, pairs, n) == prev + PositionEntries(grade12, codes[n - 1], pairs[n - 1], n - 1);
    if idx < n - 1 {
      AssignmentsAt(grade12, codes, pairs, n - 1, idx);
    }
  }

  /** `k` is the subject name or the grade key of one of the codes. */
  predicate IsKeyAt(grade12: bool, codes: seq<string>, k: string) {
    exists idx :: 0 <= idx < |codes| && (k == SubjectName(grade12, codes[idx], idx) || k == GradeKey(SubjectName(grade12, codes[idx], idx)))
  }

  /** The keys the fill loop writes are the codes' names and grade keys. */
  lemma AssignmentKeys(grade12: bool, codes: seq<string>, pairs: seq<(int, string)>, k: string)
    requires |codes| <= |pairs|
    ensures k in Keys(Assignments(grade12, codes, pairs, |codes|)) <==> IsKeyAt(grade12, codes, k)
  {
    if k in Keys(Assignments(grade12, codes, pairs, |codes|)) {
      WrittenKeyIsKeyAt(grade12, codes, pairs, k);
    }
    if IsKeyAt(grade12, codes, k) {
      KeyAtIsWritten(grade12, codes, pairs, k);
    }
  }

  lemma WrittenKeyIsKeyAt(grade12: bool, codes: seq<string>, pairs: seq<(int, string)>, k: string)
    requires |codes| <= |pairs| && k in Keys(Assignments(grade12, codes, pairs, |codes|))
    ensures IsKeyAt(grade12, codes, k)
  {
    var a := Assignments(grade12, codes, pairs, |codes|);
    var j :| 0 <= j < |a| && Keys(a)[j] == k;
    var idx := j / 2;
    AssignmentsAt(grade12, codes, pairs, |codes|, idx);
    assert j == 2 * idx || j == 2 * idx + 1;
  }

  lemma KeyAtIsWritten(grade12: bool, codes: seq<string>, pairs: seq<(int, string)>, k: string)
    requires |codes| <= |pairs| && IsKeyAt(grade12, codes, k)
    ensures k in Keys(Assignments(grade12, codes, pairs, |codes|))
  {
    var a := Assignments(grade12, codes, pairs, |codes|);
    var idx :| 0 <= idx < |codes| && (k == SubjectName(grade12, codes[idx], idx) || k == GradeKey(SubjectName(grade12, codes[idx], idx)));
    AssignmentsAt(grade12, codes, pairs, |codes|, idx);
    assert Keys(a)[2 * idx] == a[2 * idx].0 && Keys(a)[2 * idx + 1] == a[2 * idx + 1].0;
  }

  lemma UpdatesKeys(grade12: bool, result: string, sc: seq<Score>)
    requires grade12 ==> sc != []
    ensures Keys(Updates(grade12, result, sc)) == AggregateKeys(grade12)
  {
  }

  /** A row's keys are exactly the identity keys, the tier's aggregate keys
      and the names and grade keys of its codes. */
  lemma KeysOfRow(grade12: bool, h: Header, codes: seq<string>, pairs: seq<(int, string)>, result: string, k: string)
    requires Accepted(grade12, codes, pairs)
    ensures k in Keys(RowOf(grade12, h, codes, pairs, result)) <==>
      k in FixedColumns || k in AggregateKeys(grade12) || IsKeyAt(grade12, codes, k)
  {
    var a := Assignments(grade12, codes, pairs, |codes|);
    var u := Updates(grade12, result, ScoreList(grade12, codes, pairs, |codes|));
    PutAllKeyIff(RowEntries(grade12, h, codes, pairs, result), k);
    KeysAppend(Identity(h) + a, u);
    KeysAppend(Identity(h), a);
    IdentityKeys(h);
    UpdatesKeys(grade12, result, ScoreList(grade12, codes, pairs, |codes|));
    AssignmentKeys(grade12, codes, pairs, k);
  }

  lemma IdentityKeys(h: Header)
    ensures Keys(Identity(h)) == FixedColumns
  {
  }

  /** The mark of position `idx` is stored under its subject name and its
      grade under the grade key, unless a later position has the same name
      and overwrites both. */
  lemma SubjectCells(grade12: bool, h: Header, codes: seq<string>, pairs: seq<(int, string)>, result: string, idx: nat)
    requires Accepted(grade12, codes, pairs) && idx < |codes|
    requires forall j :: idx < j < |codes| ==> SubjectName(grade12, codes[j], j) != SubjectName(grade12, codes[idx], idx)
    ensures var s := SubjectName(grade12, codes[idx], idx);
      var row := RowOf(grade12, h, codes, pairs, result);
      Get(row, s) == Some(Int(pairs[idx].0)) && Get(row, GradeKey(s)) == Some(Str(pairs[idx].1))
  {
    var s := SubjectName(grade12, codes[idx], idx);
    var a := Assignments(grade12, codes, pairs, |codes|);
    var u := Updates(grade12, result, ScoreList(grade12, codes, pairs, |codes|));
    RowWrites(grade12, result, codes, pairs, idx);
    LastPositionWins(Identity(h), a, u, 2 * idx, GradeKey(s), s, Str(pairs[idx].1), Int(pairs[idx].0));
    RowGet(grade12, h, codes, pairs, result, s);
    RowGet(grade12, h, codes, pairs, result, GradeKey(s));
  }

  /** The fill loop `for idx, subject in enumerate(subjects)` writes the
      grade and then the mark of position `idx`, and neither key is written
      again, by a later position or by the aggregate update. */
  lemma RowWrites(grade12: bool, result: string, codes: seq<string>, pairs: seq<(int, string)>, idx: nat)
    requires Accepted(grade12, codes, pairs) && idx < |codes|
    requires forall j :: idx < j < |codes| ==> SubjectName(grade12, codes[j], j) != SubjectName(grade12, codes[idx], idx)
    ensures var a := Assignments(grade12, codes, pairs, |codes|);
      var s := SubjectName(grade12, codes[idx], idx);
      && LastWriteAt(a, Updates(grade12, result, ScoreList(grade12, codes, pairs, |codes|)), 2 * idx, GradeKey(s), s)
      && a[2 * idx].1 == Str(pairs[idx].1) && a[2 * idx + 1].1 == Int(pairs[idx].0)
  {
    var s := SubjectName(grade12, codes[idx], idx);
    AssignmentsAt(grade12, codes, pairs, |codes|, idx);
    LaterAssignments(grade12, codes, pairs, idx);
    NameShapes(grade12, codes[idx], idx);
    NoAggregateIsSubject(grade12, result, ScoreList(grade12, codes, pairs, |codes|), s);
    GradeKeyShape(s, s);
  }

  /** A row is looked up through the three runs of its entries. */
  lemma RowGet(grade12: bool, h: Header, codes: seq<string>, pairs: seq<(int, string)>, result: string, k: string)
    requires Accepted(grade12, codes, pairs)
    ensures Get(RowOf(grade12, h, codes, pairs, result), k)
      == Get(PutAll([], Identity(h) + Assignments(grade12, codes, pairs, |codes|) + Updates(grade12, result, ScoreList(grade12, codes, pairs, |codes|))), k)
  {
  }

  /** Positions `p` and `p + 1` of `a` write the keys `k1` and `k2`, and
      nothing after them in `a` or in `u` writes either key. */
  predicate LastWriteAt(a: seq<(string, Value)>, u: seq<(string, Value)>, p: nat, k1: string, k2: string) {
    && p + 1 < |a| && a[p].0 == k1 && a[p + 1].0 == k2 && k1 != k2
    && (forall j :: p + 1 < j < |a| ==> a[j].0 != k1 && a[j].0 != k2)
    && (forall j :: 0 <= j < |u| ==> u[j].0 != k1 && u[j].0 != k2)
  }

  /** Two adjacent entries survive when nothing after them writes the same
      keys. */
  lemma LastPositionWins(x: seq<(string, Value)>, a: seq<(string, Value)>, u: seq<(string, Value)>, p: nat, k1: string, k2: string, v1: Value, v2: Value)
    requires LastWriteAt(a, u, p, k1, k2) && a[p].1 == v1 && a[p + 1].1 == v2
    ensures Get(PutAll([], x + a + u), k1) == Some(v1)
    ensures Get(PutAll([], x + a + u), k2) == Some(v2)
  {
    MiddleWins(x, a, u, p + 1);
    MiddleWins(x, a, u, p);
  }

  /** After position `idx`, the fill loop writes neither its name nor its
      grade key again, unless a later position has the same name. */
  lemma LaterAssignments(grade12: bool, codes: seq<string>, pairs: seq<(int, string)>, idx: nat)
    requires idx < |codes| <= |pairs|
    requires forall j :: idx < j < |codes| ==> SubjectName(grade12, codes[j], j) != SubjectName(grade12, codes[idx], idx)
    ensures var s := SubjectName(grade12, codes[idx], idx);
      var a := Assignments(grade12, codes, pairs, |codes|);
      && a[2 * idx + 1].0 != GradeKey(s)
      && forall j :: 2 * idx + 1 < j < 2 * |codes| ==> a[j].0 != s && a[j].0 != GradeKey(s)
  {
    var n := |codes|;
    var a := Assignments(grade12, codes, pairs, n);
    var names := seq(n, p requires 0 <= p < n => SubjectName(grade12, codes[p], p));
    forall p | 0 <= p < n ensures a[2 * p].0 == GradeKey(names[p]) && a[2 * p + 1].0 == names[p] && MarkLike(names[p]) {
      AssignmentsAt(grade12, codes, pairs, n, p);
      NameShapes(grade12, codes[p], p);
    }
    LaterKeys(a, names, idx);
  }

  /** In a run of grade-then-name assignments over mark-like names, what
      follows position `idx` writes neither its name nor its grade key
      unless a later name is the same. */
  lemma LaterKeys(a: seq<(string, Value)>, names: seq<string>, idx: nat)
    requires |a| == 2 * |names| && idx < |names|
    requires forall p :: 0 <= p < |names| ==> a[2 * p].0 == GradeKey(names[p]) && a[2 * p + 1].0 == names[p] && MarkLike(names[p])
    requires forall p :: idx < p < |names| ==> names[p] != names[idx]
    ensures a[2 * idx + 1].0 != GradeKey(names[idx])
    ensures forall j :: 2 * idx + 1 < j < |a| ==> a[j].0 != names[idx] && a[j].0 != GradeKey(names[idx])
  {
    var s := names[idx];
    GradeKeyShape(s, s);
    forall j | 2 * idx + 1 < j < |a| ensures a[j].0 != s && a[j].0 != GradeKey(s) {
      var p := j / 2;
      GradeKeyShape(names[p], s);
      assert j == 2 * p || j == 2 * p + 1;
    }
  }

  /** No aggregate entry is written under a subject name or a grade key. */
  lemma NoAggregateIsSubject(grade12: bool, result: string, sc: seq<Score>, s: string)
    requires grade12 ==> sc != []
    requires MarkLike(s)
    ensures forall j :: 0 <= j < |Updates(grade12, result, sc)| ==>
      Updates(grade12, result, sc)[j].0 != s && Updates(grade12, result, sc)[j].0 != GradeKey(s)
  {
    var u := Updates(grade12, result, sc);
    FixedKeyShapes();
    UpdatesKeys(grade12, result, sc);
    GradeKeyShape(s, s);
    assert forall j :: 0 <= j < |u| ==> u[j].0 == AggregateKeys(grade12)[j];
  }

  lemma {:induction false} ScoreListAt(grade12: bool, codes: seq<string>, pairs: seq<(int, string)>, n: nat, k: nat)
    requires k < n <= |codes| && n <= |pairs|
    ensures ScoreList(grade12, codes, pairs, n)[k] == Score(SubjectName(grade12, codes[k], k), pairs[k].0)
    decreases n
  {
    if k < n - 1 {
      ScoreListAt(grade12, codes, pairs, n - 1, k);
      assert ScoreList(grade12, codes, pairs, n)[k] == ScoreList(grade12, codes, pairs, n - 1)[k];
    }
  }

  /** The `scores` list carries every mark read, in order. */
  lemma ScoreMarks(grade12: bool, codes: seq<string>, pairs: seq<(int, string)>, n: nat)
    requires n <= |codes| && n <= |pairs|
    ensures MarksOf(ScoreList(grade12, codes, pairs, n)) == MarksRead(pairs, n)
  {
    forall k | 0 <= k < n ensures MarksOf(ScoreList(grade12, codes, pairs, n))[k] == MarksRead(pairs, n)[k] {
      ScoreListAt(grade12, codes, pairs, n, k);
    }
  }

  /** The main-subject list is empty exactly when no subject read is main. */
  lemma {:induction false} MainMarksEmpty(sc: seq<Score>, main: set<string>)
    ensures MainMarks(sc, main) == [] <==> forall k :: 0 <= k < |sc| ==> sc[k].subject !in main
  {
    if sc != [] {
      MainMarksEmpty(sc[1..], main);
      assert forall k :: 1 <= k < |sc| ==> sc[k] == sc[1..][k - 1];
    }
  }

  /** Grade 12: `Total` is the sum of the five marks read and `Percentage`
      their mean, the total over `len(scores)`, which is five and never zero. */
  lemma TotalAndPercentage(h: Header, codes: seq<string>, pairs: seq<(int, string)>, result: string)
    requires Accepted(true, codes, pairs)
    ensures Get(RowOf(true, h, codes, pairs, result), "Total") == Some(Int(Sum(MarksRead(pairs, 5))))
    ensures Get(RowOf(true, h, codes, pairs, result), "Percentage") == Some(Num(Mean(MarksRead(pairs, 5))))
  {
    var sc := ScoreList(true, codes, pairs, 5);
    var before := Identity(h) + Assignments(true, codes, pairs, 5);
    assert RowEntries(true, h, codes, pairs, result) == before + Updates12(result, sc);
    Grade12Cells(before, result, sc);
    ScoreMarks(true, codes, pairs, 5);
  }

  lemma Grade12Cells(before: seq<(string, Value)>, result: string, sc: seq<Score>)
    requires sc != []
    ensures Get(PutAll([], before + Updates12(result, sc)), "Total") == Some(Int(Sum(MarksOf(sc))))
    ensures Get(PutAll([], before + Updates12(result, sc)), "Percentage") == Some(Num(Mean(MarksOf(sc))))
  {
    var u := Updates12(result, sc);
    assert u[1] == ("Total", Int(Sum(MarksOf(sc))));
    assert u[2] == ("Percentage", Num(Mean(MarksOf(sc))));
    assert |u[2].0| == 10;
    SuffixWins(before, u, 1);
    SuffixWins(before, u, 2);
  }

  /** Grade 10: `Main Total` and `Main %` are `''` exactly when no subject
      read is a main subject, and otherwise the total and the mean of the
      main marks. */
  lemma MainCells(h: Header, codes: seq<string>, pairs: seq<(int, string)>, result: string)
    requires Accepted(false, codes, pairs)
    ensures var row := RowOf(false, h, codes, pairs, result);
      var ms := MainMarks(ScoreList(false, codes, pairs, 6), Main10Names);
      && (Get(row, "Main Total") == Some(Str("")) <==> forall k :: 0 <= k < 6 ==> SubjectName(false, codes[k], k) !in Main10Names)
      && (ms == [] ==> Get(row, "Main %") == Some(Str("")))
      && (ms != [] ==> Get(row, "Main Total") == Some(Int(Sum(ms))) && Get(row, "Main %") == Some(Num(Mean(ms))))
  {
    var sc := ScoreList(false, codes, pairs, 6);
    var before := Identity(h) + Assignments(false, codes, pairs, 6);
    assert RowEntries(false, h, codes, pairs, result) == before + Updates10(result, sc);
    Grade10Cells(before, result, sc);
    NoMainSubject(codes, pairs);
  }

  /** No main mark is collected exactly when no position's name is a main
      subject. */
  lemma NoMainSubject(codes: seq<string>, pairs: seq<(int, string)>)
    requires 6 <= |codes| && 6 <= |pairs|
    ensures MainMarks(ScoreList(false, codes, pairs, 6), Main10Names) == [] <==>
      forall k :: 0 <= k < 6 ==> SubjectName(false, codes[k], k) !in Main10Names
  {
    var sc := ScoreList(false, codes, pairs, 6);
    MainMarksEmpty(sc, Main10Names);
    forall k | 0 <= k < 6 ensures sc[k].subject == SubjectName(false, codes[k], k) {
      ScoreListAt(false, codes, pairs, 6, k);
    }
  }

  /** Grade 10: `Top 5 Total` is the total of the five best of the six
      marks read, and `Top 5 %` that total over five. */
  lemma TopFiveCells(h: Header, codes: seq<string>, pairs: seq<(int, string)>, result: string)
    requires Accepted(false, codes, pairs)
    ensures var row := RowOf(false, h, codes, pairs, result);
      && Get(row, "Top 5 Total") == Some(Int(Sum(Top5(MarksRead(pairs, 6)))))
      && Get(row, "Top 5 %") == Some(Num(TopFivePercent(MarksRead(pairs, 6))))
  {
    var sc := ScoreList(false, codes, pairs, 6);
    var before := Identity(h) + Assignments(false, codes, pairs, 6);
    assert RowEntries(false, h, codes, pairs, result) == before + Updates10(result, sc);
    Grade10Cells(before, result, sc);
    ScoreMarks(false, codes, pairs, 6);
  }

  lemma Grade10Cells(before: seq<(string, Value)>, result: string, sc: seq<Score>)
    ensures var row := PutAll([], before + Updates10(result, sc));
      var ms := MainMarks(sc, Main10Names);
      && Get(row, "Main Total") == Some(if ms == [] then Str("") else Int(Sum(ms)))
      && Get(row, "Main %") == Some(if ms == [] then Str("") else Num(Mean(ms)))
      && Get(row, "Top 5 Total") == Some(Int(Sum(Top5(MarksOf(sc)))))
      && Get(row, "Top 5 %") == Some(Num(TopFivePercent(MarksOf(sc))))
  {
    var u := Updates10(result, sc);
    AggregateKeysDistinct();
    assert forall j :: 0 <= j < |u| ==> u[j].0 == AggregateKeys10[j];
    SuffixWins(before, u, 1);
    SuffixWins(before, u, 2);
    SuffixWins(before, u, 3);
    SuffixWins(before, u, 4);
  }

}
