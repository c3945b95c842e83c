/** The sheet of the second version: the subject columns are the names
    recovered from the grade keys of all rows, sorted and without repeats;
    every row is laid out over the final column list, and the summary
    covers the columns that are neither identity, result, aggregate nor
    grade columns. */
module Ver2Sheet {
  import opened Wrappers
  import opened Patterns
  import opened OrderedDict
  import opened Rows
  import opened Strings
  import opened Ver2
  import App

  // ---------------------------------------------------------------------
  // The columns
  // ---------------------------------------------------------------------

  /** `k.replace(" Grade", "") for k in row if " Grade" in k`, over the keys `ks`. */
  function KeyGradeNames(ks: seq<string>): (r: seq<string>)
    ensures forall y :: y in r <==> exists j :: 0 <= j < |ks| && Contains(ks[j], GradeSuffix) && y == RemoveAll(ks[j], GradeSuffix)
  {
    if ks == [] then []
    else
      var rest := KeyGradeNames(ks[1..]);
      assert forall j :: 1 <= j < |ks| ==> ks[j] == ks[1..][j - 1];
      (if Contains(ks[0], GradeSuffix) then [RemoveAll(ks[0], GradeSuffix)] else []) + rest
  }

  /** The same over every row, row after row. */
  function GradeNames(data: seq<Row>): (r: seq<string>)
    ensures forall y :: y in r <==> exists q :: 0 <= q < |data| && y in KeyGradeNames(Keys(data[q]))
  {
    if data == [] then []
    else
      assert forall q :: 1 <= q < |data| ==> data[q] == data[1..][q - 1];
      KeyGradeNames(Keys(data[0])) + GradeNames(data[1..])
  }

  /** `all_subjects`: `sorted(set(...))` of those names. */
  function AllSubjects(data: seq<Row>): seq<string> {
    SortedSet(GradeNames(data))
  }

  /** `[s + " Grade" for s in all_subjects]`. */
  function GradeColumns(subjects: seq<string>): (cs: seq<string>)
    ensures |cs| == |subjects| && forall j :: 0 <= j < |subjects| ==> cs[j] == GradeKey(subjects[j])
  {
    seq(|subjects|, j requires 0 <= j < |subjects| => GradeKey(subjects[j]))
  }

  /** `final_columns`: identity, grade columns, mark columns, then the
      result and the tier's aggregate columns. */
  function FinalColumns(grade12: bool, data: seq<Row>): seq<string> {
    var subjects := AllSubjects(data);
    FixedColumns + GradeColumns(subjects) + subjects + AggregateKeys(grade12)
  }

  /** The columns the summary leaves out by name. */
  const NonMarkColumns: seq<string> := [
    "Roll No", "Gender", "Name", "Result", "Total", "Percentage",
    "Main Total", "Main %", "Top 5 Total", "Top 5 %"]

  /** `col.endswith("Grade")`. */
  predicate EndsWithGrade(c: string) {
    |c| >= 5 && c[|c| - 5..] == "Grade"
  }

  /** The summary's `subjects`: the columns, in order, that are not left
      out by name and do not end in "Grade". */
  function SummarySubjects(cols: seq<string>): (r: seq<string>)
    ensures forall y :: y in r <==> y in cols && y !in NonMarkColumns && !EndsWithGrade(y)
  {
    if cols == [] then []
    else
      assert forall y :: y in cols <==> y == cols[0] || y in cols[1..];
      (if cols[0] !in NonMarkColumns && !EndsWithGrade(cols[0]) then [cols[0]] else []) + SummarySubjects(cols[1..])
  }

  // ---------------------------------------------------------------------
  // The workbook
  // ---------------------------------------------------------------------

  /** `df.reindex(columns=...)`: a key the row lacks becomes an empty cell. */
  function CellOf(r: Row, col: string): Cell {
    match Get(r, col)
    case Some(v) => Val(v)
    case None => Missing
  }

  /** The sheet of the rows found: the final columns, every row laid out
      over them and a summary line per summary subject. With no row there
      is no subject, so no summary line. */
  function BuildWorkbook(grade12: bool, data: seq<Row>): Workbook {
    var cols := FinalColumns(grade12, data);
    var subjects := SummarySubjects(cols);
    Workbook(cols,
      seq(|data|, k requires 0 <= k < |data| => seq(|cols|, c requires 0 <= c < |cols| => CellOf(data[k], cols[c]))),
      if data == [] then [] else seq(|subjects|, j requires 0 <= j < |subjects| => SubjectLine(data, subjects[j])))
  }

  function Output(grade12: bool, lines: seq<string>): Workbook {
    BuildWorkbook(grade12, Scan(grade12, lines, 0))
  }

  /** `parse_and_save` for the tier the sample decided. */
  method ParseAndSave(app: App.CBSEParserApp, lines: seq<string>) returns (wb: Workbook)
    ensures wb == Output(app.grade12, lines)
  {
    var data := ParseRecords(app.grade12, lines);
    wb := BuildWorkbook(app.grade12, data);
  }

  // ---------------------------------------------------------------------
  // What the columns are
  // ---------------------------------------------------------------------

  /** `y` is the subject name of one of the codes. */
  predicate IsNameAt(grade12: bool, codes: seq<string>, y: string) {
    exists idx :: 0 <= idx < |codes| && y == SubjectName(grade12, codes[idx], idx)
  }

  /** No identity or aggregate key contains " Grade". */
  lemma PlainKeysHaveNoSuffix(grade12: bool)
    ensures forall k :: k in FixedColumns ==> !Contains(k, GradeSuffix)
    ensures forall k :: k in AggregateKeys(grade12) ==> !Contains(k, GradeSuffix)
  {
    FixedKeyShapes();
    forall k | k in FixedColumns || k in AggregateKeys(grade12) ensures !Contains(k, GradeSuffix) {
      NoGradeSuffix(k);
    }
  }

  /** The names recovered from a row's grade keys are exactly the subject
      names of its codes, and those are exactly the names whose grade key
      the row holds. */
  lemma RowGradeNames(grade12: bool, h: Header, codes: seq<string>, pairs: seq<(int, string)>, result: string, y: string)
    requires Accepted(grade12, codes, pairs)
    ensures var ks := Keys(RowOf(grade12, h, codes, pairs, result));
      && (y in KeyGradeNames(ks) <==> IsNameAt(grade12, codes, y))
      && (GradeKey(y) in ks <==> IsNameAt(grade12, codes, y))
  {
    var ks := Keys(RowOf(grade12, h, codes, pairs, result));
    forall k ensures k in ks <==> k in FixedColumns || k in AggregateKeys(grade12) || IsKeyAt(grade12, codes, k) {
      KeysOfRow(grade12, h, codes, pairs, result, k);
    }
    GradeNamesOfKeys(grade12, codes, ks, y);
  }

  /** The same for any key list made of the identity keys, the aggregate
      keys and the names and grade keys of the codes. */
  lemma GradeNamesOfKeys(grade12: bool, codes: seq<string>, ks: seq<string>, y: string)
    requires forall k :: k in ks <==> k in FixedColumns || k in AggregateKeys(grade12) || IsKeyAt(grade12, codes, k)
    ensures y in KeyGradeNames(ks) <==> IsNameAt(grade12, codes, y)
    ensures GradeKey(y) in ks <==> IsNameAt(grade12, codes, y)
  {
    if y in KeyGradeNames(ks) {
      var j :| 0 <= j < |ks| && Contains(ks[j], GradeSuffix) && y == RemoveAll(ks[j], GradeSuffix);
      assert ks[j] in ks;
      GradeNameOfKey(grade12, codes, ks[j]);
    }
    if IsNameAt(grade12, codes, y) {
      var idx :| 0 <= idx < |codes| && y == SubjectName(grade12, codes[idx], idx);
      assert IsKeyAt(grade12, codes, GradeKey(y));
      NameShapes(grade12, codes[idx], idx);
      GradeKeyRoundTrip(y);
      var j :| 0 <= j < |ks| && ks[j] == GradeKey(y);
    }
    if GradeKey(y) in ks {
      GradeKeyInRow(grade12, codes, y);
    }
  }

  /** A key of a row that contains " Grade" is the grade key of a subject
      name of its codes, and removing " Grade" gives that name. */
  lemma GradeNameOfKey(grade12: bool, codes: seq<string>, k: string)
    requires k in FixedColumns || k in AggregateKeys(grade12) || IsKeyAt(grade12, codes, k)
    requires Contains(k, GradeSuffix)
    ensures IsNameAt(grade12, codes, RemoveAll(k, GradeSuffix))
  {
    PlainKeysHaveNoSuffix(grade12);
    var idx :| 0 <= idx < |codes| && (k == SubjectName(grade12, codes[idx], idx) || k == GradeKey(SubjectName(grade12, codes[idx], idx)));
    var s := SubjectName(grade12, codes[idx], idx);
    NameShapes(grade12, codes[idx], idx);
    NoGradeSuffix(s);
    GradeKeyRoundTrip(s);
  }

  /** A grade key among a row's keys is the grade key of one of its codes. */
  lemma GradeKeyInRow(grade12: bool, codes: seq<string>, y: string)
    requires GradeKey(y) in FixedColumns || GradeKey(y) in AggregateKeys(grade12) || IsKeyAt(grade12, codes, GradeKey(y))
    ensures IsNameAt(grade12, codes, y)
  {
    FixedKeyShapes();
    GradeKeyShape(y, y);
    assert GradeKey(y) !in FixedColumns && GradeKey(y) !in AggregateKeys(grade12);
    var idx :| 0 <= idx < |codes| && (GradeKey(y) == SubjectName(grade12, codes[idx], idx) || GradeKey(y) == GradeKey(SubjectName(grade12, codes[idx], idx)));
    NameShapes(grade12, codes[idx], idx);
    GradeKeyShape(y, SubjectName(grade12, codes[idx], idx));
  }

  // ---------------------------------------------------------------------
  // What the sheet holds
  // ---------------------------------------------------------------------

  /** The keys of a row the scan found are the identity keys, the
      aggregate keys and the names and grade keys of its window's codes. */
  lemma ScannedRowKeys(grade12: bool, lines: seq<string>, q: nat) returns (codes: seq<string>)
    requires q < |Scan(grade12, lines, 0)|
    ensures forall k :: k in Keys(Scan(grade12, lines, 0)[q]) <==>
      k in FixedColumns || k in AggregateKeys(grade12) || IsKeyAt(grade12, codes, k)
  {
    var line1, line2 := RowFromWindow(grade12, lines, q);
    EmittedRow(grade12, line1, line2, Scan(grade12, lines, 0)[q]);
    codes := CodesRead(grade12, line1);
    var h, pairs, result := HeaderMatch(line1).value, PairsOf(line2), ResultKeyword(line1);
    forall k ensures k in Keys(RowOf(grade12, h, codes, pairs, result)) <==>
      k in FixedColumns || k in AggregateKeys(grade12) || IsKeyAt(grade12, codes, k)
    {
      KeysOfRow(grade12, h, codes, pairs, result, k);
    }
  }

  /** For a row the scan found, the names recovered from its keys are the
      names whose grade key it holds, and they are subject names. */
  lemma ScannedRowNames(grade12: bool, lines: seq<string>, q: nat, y: string)
    requires q < |Scan(grade12, lines, 0)|
    ensures var r := Scan(grade12, lines, 0)[q];
      && (y in KeyGradeNames(Keys(r)) <==> GradeKey(y) in Keys(r))
      && (GradeKey(y) in Keys(r) ==> MarkLike(y) && NoSpaceG(y))
  {
    var codes := ScannedRowKeys(grade12, lines, q);
    GradeNamesOfKeys(grade12, codes, Keys(Scan(grade12, lines, 0)[q]), y);
    if IsNameAt(grade12, codes, y) {
      var idx :| 0 <= idx < |codes| && y == SubjectName(grade12, codes[idx], idx);
      NameShapes(grade12, codes[idx], idx);
    }
  }

  /** The subject columns are sorted without repeats, and they are exactly
      the subjects whose grade some row holds; each is a subject name. */
  lemma SheetSubjects(grade12: bool, lines: seq<string>, y: string)
    ensures var data := Scan(grade12, lines, 0);
      && StrictlySorted(AllSubjects(data))
      && (y in AllSubjects(data) <==> exists q :: 0 <= q < |data| && GradeKey(y) in Keys(data[q]))
      && (y in AllSubjects(data) ==> MarkLike(y) && NoSpaceG(y))
  {
    var data := Scan(grade12, lines, 0);
    forall q | 0 <= q < |data|
      ensures (y in KeyGradeNames(Keys(data[q])) <==> GradeKey(y) in Keys(data[q]))
      ensures GradeKey(y) in Keys(data[q]) ==> MarkLike(y) && NoSpaceG(y)
    {
      ScannedRowNames(grade12, lines, q, y);
    }
  }

  /** Every key of every row is a column of the sheet: laying the rows out
      over the final columns loses nothing. */
  lemma NothingDropped(grade12: bool, lines: seq<string>, q: nat, k: string)
    requires q < |Scan(grade12, lines, 0)| && k in Keys(Scan(grade12, lines, 0)[q])
    ensures k in FinalColumns(grade12, Scan(grade12, lines, 0))
  {
    var data := Scan(grade12, lines, 0);
    var subjects := AllSubjects(data);
    var codes := ScannedRowKeys(grade12, lines, q);
    if IsKeyAt(grade12, codes, k) {
      var idx :| 0 <= idx < |codes| && (k == SubjectName(grade12, codes[idx], idx) || k == GradeKey(SubjectName(grade12, codes[idx], idx)));
      var s := SubjectName(grade12, codes[idx], idx);
      GradeNamesOfKeys(grade12, codes, Keys(data[q]), s);
      SheetSubjects(grade12, lines, s);
      var j :| 0 <= j < |subjects| && subjects[j] == s;
      ColumnsHold(grade12, subjects, j);
    }
  }

  /** The final columns hold every subject and its grade column. */
  lemma ColumnsHold(grade12: bool, subjects: seq<string>, j: nat)
    requires j < |subjects|
    ensures var cols := FixedColumns + GradeColumns(subjects) + subjects + AggregateKeys(grade12);
      subjects[j] in cols && GradeKey(subjects[j]) in cols
  {
    assert GradeColumns(subjects)[j] == GradeKey(subjects[j]);
  }

  /** A cell is empty exactly when the row lacks its column, and then the
      column is a subject or grade column: identity, result and aggregate
      cells are always filled. */
  lemma MissingOnlyForOtherSubjects(grade12: bool, lines: seq<string>, q: nat, c: nat)
    requires var data := Scan(grade12, lines, 0); q < |data| && c < |FinalColumns(grade12, data)|
    ensures var data := Scan(grade12, lines, 0);
      var wb := BuildWorkbook(grade12, data);
      var subjects := AllSubjects(data);
      && (wb.rows[q][c] == Missing <==> wb.columns[c] !in Keys(data[q]))
      && (wb.rows[q][c] == Missing ==> wb.columns[c] in subjects || wb.columns[c] in GradeColumns(subjects))
  {
    var data := Scan(grade12, lines, 0);
    var codes := ScannedRowKeys(grade12, lines, q);
    MissingCell(grade12, data, q, c);
  }

  lemma MissingCell(grade12: bool, data: seq<Row>, q: nat, c: nat)
    requires q < |data| && c < |FinalColumns(grade12, data)|
    requires forall k :: k in FixedColumns || k in AggregateKeys(grade12) ==> k in Keys(data[q])
    ensures var wb := BuildWorkbook(grade12, data);
      var subjects := AllSubjects(data);
      && (wb.rows[q][c] == Missing <==> wb.columns[c] !in Keys(data[q]))
      && (wb.rows[q][c] == Missing ==> wb.columns[c] in subjects || wb.columns[c] in GradeColumns(subjects))
  {
    var cols := FinalColumns(grade12, data);
    var wb := BuildWorkbook(grade12, data);
    assert wb.rows[q][c] == CellOf(data[q], cols[c]);
    assert cols[c] in cols;
  }

  lemma {:induction false} SummarySubjectsAppend(a: seq<string>, b: seq<string>)
    ensures SummarySubjects(a + b) == SummarySubjects(a) + SummarySubjects(b)
    decreases |a|
  {
    if a == [] {
      assert a + b == b;
    } else {
      assert (a + b)[0] == a[0] && (a + b)[1..] == a[1..] + b;
      SummarySubjectsAppend(a[1..], b);
    }
  }

  /** The filter keeps a list whose every element passes it. */
  lemma {:induction false} SummaryKeepsAll(cols: seq<string>)
    requires forall j :: 0 <= j < |cols| ==> cols[j] !in NonMarkColumns && !EndsWithGrade(cols[j])
    ensures SummarySubjects(cols) == cols
    decreases |cols|
  {
    if cols != [] {
      SummaryKeepsAll(cols[1..]);
    }
  }

  /** The filter drops a list whose every element fails it. */
  lemma {:induction false} SummaryDropsAll(cols: seq<string>)
    requires forall j :: 0 <= j < |cols| ==> cols[j] in NonMarkColumns || EndsWithGrade(cols[j])
    ensures SummarySubjects(cols) == []
    decreases |cols|
  {
    if cols != [] {
      SummaryDropsAll(cols[1..]);
    }
  }

  /** No left-out column is mark-like, and no mark-like name ends in "Grade". */
  lemma NonMarkShapes()
    ensures forall j :: 0 <= j < |NonMarkColumns| ==> !MarkLike(NonMarkColumns[j])
    ensures forall y :: MarkLike(y) ==> !EndsWithGrade(y)
  {
    forall y | MarkLike(y) ensures !EndsWithGrade(y) {
      if |y| >= 5 {
        assert y[|y| - 5..][4] == y[|y| - 1];
      }
    }
  }

  /** The summary covers exactly the subject columns, in their order. */
  lemma SummaryIsSubjects(grade12: bool, lines: seq<string>)
    ensures var data := Scan(grade12, lines, 0);
      SummarySubjects(FinalColumns(grade12, data)) == AllSubjects(data)
  {
    var subjects := AllSubjects(Scan(grade12, lines, 0));
    forall j | 0 <= j < |subjects| ensures MarkLike(subjects[j]) {
      SheetSubjects(grade12, lines, subjects[j]);
    }
    SummaryOfColumns(grade12, subjects);
  }

  /** Over the final column list of mark-like subjects, the summary keeps
      the subjects and nothing else. */
  lemma SummaryOfColumns(grade12: bool, subjects: seq<string>)
    requires forall j :: 0 <= j < |subjects| ==> MarkLike(subjects[j])
    ensures SummarySubjects(FixedColumns + GradeColumns(subjects) + subjects + AggregateKeys(grade12)) == subjects
  {
    var gc := GradeColumns(subjects);
    SubjectsKept(subjects);
    GradeColumnsDropped(subjects);
    PlainColumnsDropped(grade12);
    SummarySubjectsAppend(FixedColumns + gc + subjects, AggregateKeys(grade12));
    SummarySubjectsAppend(FixedColumns + gc, subjects);
    SummarySubjectsAppend(FixedColumns, gc);
  }

  lemma SubjectsKept(subjects: seq<string>)
    requires forall j :: 0 <= j < |subjects| ==> MarkLike(subjects[j])
    ensures SummarySubjects(subjects) == subjects
  {
    NonMarkShapes();
    SummaryKeepsAll(subjects);
  }

  lemma GradeColumnsDropped(subjects: seq<string>)
    ensures SummarySubjects(GradeColumns(subjects)) == []
  {
    var gc := GradeColumns(subjects);
    forall j | 0 <= j < |gc| ensures EndsWithGrade(gc[j]) {
      assert gc[j][|gc[j]| - 5..] == "Grade";
    }
    SummaryDropsAll(gc);
  }

  lemma PlainColumnsDropped(grade12: bool)
    ensures SummarySubjects(FixedColumns) == [] && SummarySubjects(AggregateKeys(grade12)) == []
  {
    SummaryDropsAll(FixedColumns);
    SummaryDropsAll(AggregateKeys(grade12));
  }

  /** The summary has one line per subject column, in order; a bulletin
      without a record gives a sheet with the identity and aggregate
      columns only, no row and no summary line. */
  lemma WorkbookSummary(grade12: bool, lines: seq<string>)
    ensures var data := Scan(grade12, lines, 0);
      var wb := Output(grade12, lines);
      var subjects := AllSubjects(data);
      && |wb.summary| == |subjects|
      && (forall j :: 0 <= j < |subjects| ==> wb.summary[j] == SubjectLine(data, subjects[j]))
      && (data == [] ==> wb.columns == FixedColumns + AggregateKeys(grade12) && wb.rows == [])
  {
    SummaryIsSubjects(grade12, lines);
    SheetOf(grade12, Scan(grade12, lines, 0));
  }

  /** The same for any rows whose summary subjects are the subject columns. */
  lemma SheetOf(grade12: bool, data: seq<Row>)
    requires SummarySubjects(FinalColumns(grade12, data)) == AllSubjects(data)
    ensures var wb := BuildWorkbook(grade12, data);
      var subjects := AllSubjects(data);
      && |wb.summary| == |subjects|
      && (forall j :: 0 <= j < |subjects| ==> wb.summary[j] == SubjectLine(data, subjects[j]))
      && (data == [] ==> wb.columns == FixedColumns + AggregateKeys(grade12) && wb.rows == [])
  {
    SheetSummary(grade12, data);
    if data == [] {
      EmptySheet(grade12);
    }
  }

  lemma SheetSummary(grade12: bool, data: seq<Row>)
    requires SummarySubjects(FinalColumns(grade12, data)) == AllSubjects(data)
    ensures var wb := BuildWorkbook(grade12, data);
      var subjects := AllSubjects(data);
      && |wb.summary| == |subjects|
      && (forall j :: 0 <= j < |subjects| ==> wb.summary[j] == SubjectLine(data, subjects[j]))
  {
    if data == [] {
      assert GradeNames(data) == [];
    }
  }

  /** Without a record only the identity and aggregate columns remain. */
  lemma EmptySheet(grade12: bool)
    ensures var wb := BuildWorkbook(grade12, []);
      wb.columns == FixedColumns + AggregateKeys(grade12) && wb.rows == [] && wb.summary == []
  {
    assert GradeNames([]) == [];
    assert AllSubjects([]) == [];
    assert GradeColumns([]) == [];
  }
}
