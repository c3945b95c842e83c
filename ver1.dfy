/** The first version of the program (`Result_Soft.py`): the tier is guessed
    from a pasted sample line by the three-grade pattern, and each record
    becomes a flat list of texts — identity, subject codes, the three
    internal grades for Grade 12, every mark and grade, and the result —
    laid out under numbered columns. */
module Ver1 {
  import opened Chars
  import opened Wrappers
  import opened Patterns
  import opened Stats
  import App

  /** `self.subject_count`. */
  function SubjectCount(grade12: bool): nat {
    if grade12 then 5 else 6
  }

  /** The tier test of `handle_sample`: the three-grade pattern occurs in
      the sample. */
  predicate ThreeGradeSample(sample: string) {
    SearchThreeGrades(sample, 0).Some?
  }

  /** `handle_sample` on the window state. */
  method HandleSample(app: App.CBSEParserApp, entry: string) returns (ok: bool)
    requires app.Valid()
    modifies app
    ensures app.Valid()
    ensures app.sampleLine == Strip(entry) && app.fileChosen == old(app.fileChosen)
    ensures ok <==> app.fileChosen && app.sampleLine != []
    ensures ok ==> app.grade12 == ThreeGradeSample(app.sampleLine) && app.subjectCount == SubjectCount(app.grade12)
    ensures !ok ==> app.grade12 == old(app.grade12) && app.subjectCount == old(app.subjectCount)
  {
    ok := app.HandleSample(entry, s => ThreeGradeSample(s));
  }

  // ---------------------------------------------------------------------
  // One record
  // ---------------------------------------------------------------------

  /** `for mark, grade in marks_grades: row += [mark, grade]`, as a value. */
  function MarkGradeCells(ms: seq<MarkMatch>): (cells: seq<string>)
    ensures |cells| == 2 * |ms|
    ensures forall k :: 0 <= k < |ms| ==> cells[2 * k] == ms[k].mark && cells[2 * k + 1] == ms[k].grade
  {
    if ms == [] then []
    else
      var init := MarkGradeCells(ms[..|ms| - 1]);
      init + [ms[|ms| - 1].mark, ms[|ms| - 1].grade]
  }

  /** The three internal grades and the result, or `None` when a Grade-12
      line lacks the three-grade pattern. Grade 10 takes the first keyword
      found, or `""`. */
  function Outcome(grade12: bool, line1: string): Option<IsgMatch> {
    if grade12 then SearchThreeGrades(line1, 0)
    else Some(IsgMatch("", "", "", ResultKeyword(line1)))
  }

  /** The row list of a record. */
  function RowCells(grade12: bool, h: Header, codes: seq<string>, o: IsgMatch, ms: seq<MarkMatch>): seq<string> {
    [h.roll, h.gender, h.name] + codes
      + (if grade12 then [o.isg1, o.isg2, o.isg3] else [])
      + MarkGradeCells(ms) + [o.result]
  }

  /** The loop that builds the row list with `+=`. */
  method BuildRow(grade12: bool, h: Header, codes: seq<string>, o: IsgMatch, ms: seq<MarkMatch>) returns (row: seq<string>)
    ensures row == RowCells(grade12, h, codes, o, ms)
  {
    row := [h.roll, h.gender, h.name] + codes;
    if grade12 {
      row := row + [o.isg1, o.isg2, o.isg3];
    }
    ghost var start := row;
    for k := 0 to |ms|
      invariant row == start + MarkGradeCells(ms[..k])
    {
      assert ms[..k + 1][..k] == ms[..k];
      row := row + [ms[k].mark, ms[k].grade];
    }
    assert ms[..|ms|] == ms;
    row := row + [o.result];
  }

  /** What the loop does with a window of two stripped lines. */
  datatype Step = Skip | Resync | Record(row: seq<string>)

  function Classify(grade12: bool, line1: string, line2: string): Step {
    if IsSkipLine(line1) || !StartsWith8Digits(line1) then Skip
    else match HeaderMatch(line1)
      case None => Resync
      case Some(h) =>
        var n := SubjectCount(grade12);
        var found := FindCodes(line1);
        var codes := found[..Min(|found|, n)];
        match Outcome(grade12, line1)
        case None => Resync
        case Some(o) =>
          var ms := FindMarkGrades(line2);
          if |codes| < n || |ms| < n then Resync
          else Record(RowCells(grade12, h, codes, o, ms[..n]))
  }

  /** The rows found from cursor `i` on. */
  function Scan(grade12: bool, lines: seq<string>, i: nat): seq<seq<string>>
    decreases |lines| - i
  {
    if i + 1 >= |lines| then []
    else match Classify(grade12, Strip(lines[i]), Strip(lines[i + 1]))
      case Skip => Scan(grade12, lines, i + 1)
      case Resync => Scan(grade12, lines, i + 2)
      case Record(r) => [r] + Scan(grade12, lines, i + 2)
  }

  /** The body of the cursor loop for one window. */
  method ReadWindow(grade12: bool, line1: string, line2: string) returns (s: Step)
    ensures s == Classify(grade12, line1, line2)
  {
    if IsSkipLine(line1) || !StartsWith8Digits(line1) {
      return Skip;
    }
    var m := HeaderMatch(line1);
    if m.None? {
      return Resync;
    }
    var n := SubjectCount(grade12);
    var found := FindCodes(line1);
    var codes := found[..Min(|found|, n)];
    var o := Outcome(grade12, line1);
    if o.None? {
      return Resync;
    }
    var ms := FindMarkGrades(line2);
    if |codes| < n || |ms| < n {
      return Resync;
    }
    var row := BuildRow(grade12, m.value, codes, o.value, ms[..n]);
    return Record(row);
  }

  /** The cursor loop of `parse_and_save`. */
  method ParseRecords(grade12: bool, lines: seq<string>) returns (data: seq<seq<string>>)
    ensures data == Scan(grade12, lines, 0)
  {
    data := [];
    var i := 0;
    while i < |lines| - 1
      invariant i <= |lines|
      invariant data + Scan(grade12, lines, i) == Scan(grade12, lines, 0)
      decreases |lines| - i
    {
      var s := ReadWindow(grade12, Strip(lines[i]), Strip(lines[i + 1]));
      ScanStep(grade12, lines, i, s);
      match s
      case Skip =>
        i := i + 1;
      case Resync =>
        i := i + 2;
      case Record(row) =>
        AppendOne(data, row, Scan(grade12, lines, i + 2));
        data := data + [row];
        i := i + 2;
    }
  }

  lemma ScanStep(grade12: bool, lines: seq<string>, i: nat, s: Step)
    requires i + 1 < |lines| && s == Classify(grade12, Strip(lines[i]), Strip(lines[i + 1]))
    ensures Scan(grade12, lines, i) == match s
      case Skip => Scan(grade12, lines, i + 1)
      case Resync => Scan(grade12, lines, i + 2)
      case Record(r) => [r] + Scan(grade12, lines, i + 2)
  {
  }

  lemma AppendOne(xs: seq<seq<string>>, x: seq<string>, ys: seq<seq<string>>)
    ensures (xs + [x]) + ys == xs + ([x] + ys)
  {
  }

  // ---------------------------------------------------------------------
  // The columns
  // ---------------------------------------------------------------------

  function Numbered(prefix: string, n: nat): (cs: seq<string>)
    ensures |cs| == n && forall k :: 0 <= k < n ==> cs[k] == prefix + NatToString(k + 1)
  {
    seq(n, k requires 0 <= k < n => prefix + NatToString(k + 1))
  }

  /** `sum([[f'Marks{i+1}', f'Grade{i+1}'] for i in range(n)], [])`. */
  function MarkGradeColumns(n: nat): (cs: seq<string>)
    ensures |cs| == 2 * n
    ensures forall k :: 0 <= k < n ==> cs[2 * k] == "Marks" + NatToString(k + 1) && cs[2 * k + 1] == "Grade" + NatToString(k + 1)
  {
    if n == 0 then []
    else MarkGradeColumns(n - 1) + ["Marks" + NatToString(n), "Grade" + NatToString(n)]
  }

  function Columns(grade12: bool): seq<string> {
    var n := SubjectCount(grade12);
    ["Roll No", "Gender", "Name"] + Numbered("Sub", n)
      + (if grade12 then Numbered("ISG", 3) else [])
      + MarkGradeColumns(n) + ["Result"]
  }

  /** The sheet: the columns and the rows under them. */
  datatype Sheet = Sheet(columns: seq<string>, rows: seq<seq<string>>)

  function Output(grade12: bool, lines: seq<string>): Sheet {
    Sheet(Columns(grade12), Scan(grade12, lines, 0))
  }

  /** `parse_and_save` for the tier the sample decided. */
  method ParseAndSave(app: App.CBSEParserApp, lines: seq<string>) returns (sheet: Sheet)
    ensures sheet == Output(app.grade12, lines)
  {
    var data := ParseRecords(app.grade12, lines);
    sheet := Sheet(Columns(app.grade12), data);
  }

  // ---------------------------------------------------------------------
  // What the sheet holds
  // ---------------------------------------------------------------------

  /** A window is skipped exactly when line 1 does not start with eight
      digits, and yields a row exactly when, besides, the header matches, a
      Grade-12 line carries three grades and a keyword, and there are enough
      codes and mark-grade pairs. */
  lemma ClassifyIff(grade12: bool, line1: string, line2: string)
    ensures Classify(grade12, line1, line2).Skip? <==> !StartsWith8Digits(line1)
    ensures Classify(grade12, line1, line2).Record? <==>
      && StartsWith8Digits(line1) && HeaderMatch(line1).Some?
      && (grade12 ==> SearchThreeGrades(line1, 0).Some?)
      && |FindCodes(line1)| >= SubjectCount(grade12) && |FindMarkGrades(line2)| >= SubjectCount(grade12)
  {
    if IsSkipLine(line1) {
      SkipLinesAreNotRecordLines(line1);
    }
  }

  /** The column of the `k`-th code, mark and grade. */
  function SubIndex(k: nat): nat {
    3 + k
  }

  function MarkIndex(grade12: bool, k: nat): nat {
    3 + SubjectCount(grade12) + (if grade12 then 3 else 0) + 2 * k
  }

  /** Every row is as wide as the column list, so the frame can be built;
      the `k`-th code sits under `Sub<k+1>`, the `k`-th mark and grade under
      `Marks<k+1>` and `Grade<k+1>`, and the last cell is the result. */
  lemma RecordLayout(grade12: bool, line1: string, line2: string, row: seq<string>, k: nat)
    requires Classify(grade12, line1, line2) == Record(row)
    requires k < SubjectCount(grade12)
    ensures |row| == |Columns(grade12)|
    ensures row[SubIndex(k)] == FindCodes(line1)[k] && Columns(grade12)[SubIndex(k)] == "Sub" + NatToString(k + 1)
    ensures row[MarkIndex(grade12, k)] == FindMarkGrades(line2)[k].mark
    ensures Columns(grade12)[MarkIndex(grade12, k)] == "Marks" + NatToString(k + 1)
    ensures row[MarkIndex(grade12, k) + 1] == FindMarkGrades(line2)[k].grade
    ensures Columns(grade12)[MarkIndex(grade12, k) + 1] == "Grade" + NatToString(k + 1)
    ensures row[|row| - 1] == Outcome(grade12, line1).value.result
    ensures row[|row| - 1] in Keywords || (!grade12 && row[|row| - 1] == "")
  {
    var n := SubjectCount(grade12);
    var found := FindCodes(line1);
    var ms := FindMarkGrades(line2);
    RowLayout(grade12, HeaderMatch(line1).value, found[..n], Outcome(grade12, line1).value, ms[..n], k);
    ColumnsLayout(grade12, k);
  }

  /** The row list of a record with `n` codes and `n` pairs. */
  lemma RowLayout(grade12: bool, h: Header, codes: seq<string>, o: IsgMatch, ms: seq<MarkMatch>, k: nat)
    requires |codes| == |ms| == SubjectCount(grade12) && k < |codes|
    ensures var row := RowCells(grade12, h, codes, o, ms);
      && |row| == 4 + 3 * SubjectCount(grade12) + (if grade12 then 3 else 0)
      && row[SubIndex(k)] == codes[k]
      && row[MarkIndex(grade12, k)] == ms[k].mark && row[MarkIndex(grade12, k) + 1] == ms[k].grade
      && row[|row| - 1] == o.result
  {
    var isgs: seq<string> := if grade12 then [o.isg1, o.isg2, o.isg3] else [];
    var head := [h.roll, h.gender, h.name] + codes + isgs;
    var cells := MarkGradeCells(ms);
    var row := RowCells(grade12, h, codes, o, ms);
    assert row == head + cells + [o.result];
    assert row[SubIndex(k)] == head[SubIndex(k)];
    assert row[MarkIndex(grade12, k)] == cells[2 * k];
    assert row[MarkIndex(grade12, k) + 1] == cells[2 * k + 1];
  }

  /** The column list, laid out the same way. */
  lemma ColumnsLayout(grade12: bool, k: nat)
    requires k < SubjectCount(grade12)
    ensures var cols := Columns(grade12);
      && |cols| == 4 + 3 * SubjectCount(grade12) + (if grade12 then 3 else 0)
      && cols[SubIndex(k)] == "Sub" + NatToString(k + 1)
      && cols[MarkIndex(grade12, k)] == "Marks" + NatToString(k + 1)
      && cols[MarkIndex(grade12, k) + 1] == "Grade" + NatToString(k + 1)
      && cols[|cols| - 1] == "Result"
  {
    var n := SubjectCount(grade12);
    var head := ["Roll No", "Gender", "Name"] + Numbered("Sub", n) + (if grade12 then Numbered("ISG", 3) else []);
    var mg := MarkGradeColumns(n);
    var cols := Columns(grade12);
    assert cols == head + mg + ["Result"];
    assert cols[SubIndex(k)] == head[SubIndex(k)];
    assert cols[MarkIndex(grade12, k)] == mg[2 * k];
    assert cols[MarkIndex(grade12, k) + 1] == mg[2 * k + 1];
  }

  /** Every row, in Grade 12 and in Grade 10, has exactly one cell per column:
      3 + n codes, three internal grades for Grade 12, 2n marks and grades
      and the result. */
  lemma RowsFitColumns(grade12: bool, lines: seq<string>)
    ensures forall r :: r in Output(grade12, lines).rows ==> |r| == |Output(grade12, lines).columns|
    ensures |Columns(grade12)| == 4 + 3 * SubjectCount(grade12) + (if grade12 then 3 else 0)
  {
    forall r | r in Scan(grade12, lines, 0) ensures |r| == |Columns(grade12)| {
      var line1, line2 := RowFromWindow(grade12, lines, r);
      RecordLayout(grade12, line1, line2, r, 0);
    }
    ColumnsLayout(grade12, 0);
  }

  /** The two stripped lines that yielded a row. */
  lemma RowFromWindow(grade12: bool, lines: seq<string>, r: seq<string>) returns (line1: string, line2: string)
    requires r in Scan(grade12, lines, 0)
    ensures Classify(grade12, line1, line2) == Record(r)
  {
    ScanRowsFromWindows(grade12, lines, 0);
    var j :| 0 <= j && j + 1 < |lines| && Classify(grade12, Strip(lines[j]), Strip(lines[j + 1])) == Record(r);
    line1, line2 := Strip(lines[j]), Strip(lines[j + 1]);
  }

  /** Every row comes from a window of two consecutive stripped lines at or
      after the cursor. */
  lemma {:induction false} ScanRowsFromWindows(grade12: bool, lines: seq<string>, i: nat)
    ensures forall r :: r in Scan(grade12, lines, i) ==>
      exists j :: i <= j && j + 1 < |lines| && Classify(grade12, Strip(lines[j]), Strip(lines[j + 1])) == Record(r)
    decreases |lines| - i
  {
    if i + 1 < |lines| {
      ScanRowsFromWindows(grade12, lines, i + 1);
      ScanRowsFromWindows(grade12, lines, i + 2);
    }
  }
}
