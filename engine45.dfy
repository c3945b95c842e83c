/** The parser shared by ver_4 and ver_5: both read the stripped, non-blank
    lines of a bulletin with one cursor loop, emit one record per accepted
    two-line window, rank the students and build the output sheet and the
    per-subject summary. The two versions differ only in their Grade-12
    code table, their output column lists, their validation step and one
    summary line; those are parameters here. */
module Engine45 {
  import opened Wrappers
  import opened Chars
  import opened Patterns
  import opened OrderedDict
  import opened Stats
  import opened Ranking
  import opened Summary

  // ---------------------------------------------------------------------
  // Input lines
  // ---------------------------------------------------------------------

  /** `[ln.strip() for ln in f if ln.strip()]`. */
  function PrepareLines(raw: seq<string>): (lines: seq<string>)
    ensures |lines| <= |raw|
    ensures forall k :: 0 <= k < |lines| ==> Kept(lines[k])
  {
    if raw == [] then []
    else
      var rest := PrepareLines(raw[1..]);
      var l := Strip(raw[0]);
      if l != [] then
        KeptCons(l, rest);
        [l] + rest
      else rest
  }

  lemma KeptCons(l: string, rest: seq<string>)
    requires Kept(l) && forall k :: 0 <= k < |rest| ==> Kept(rest[k])
    ensures forall k :: 0 <= k < |rest| + 1 ==> Kept(([l] + rest)[k])
  {
    forall k | 0 <= k < |rest| + 1 ensures Kept(([l] + rest)[k]) {
      if k > 0 {
        assert ([l] + rest)[k] == rest[k - 1];
      }
    }
  }

  /** A line as kept: not blank, with no space at either end. */
  predicate Kept(line: string) {
    line != [] && !IsSpace(line[0]) && !IsSpace(line[|line| - 1])
  }

  /** A kept line is its own strip. */
  lemma KeptIsStripped(line: string)
    requires Kept(line)
    ensures Strip(line) == line
  {
    StripUnchanged(line);
  }

  /** `[ln.strip() for ln in f]`. */
  function StripAll(raw: seq<string>): seq<string> {
    seq(|raw|, k requires 0 <= k < |raw| => Strip(raw[k]))
  }

  /** The kept lines are exactly the stripped input lines that are not blank. */
  lemma {:induction false} PrepareLinesKeeps(raw: seq<string>)
    ensures forall l :: l in PrepareLines(raw) <==> l != [] && l in StripAll(raw)
  {
    if raw != [] {
      PrepareLinesKeeps(raw[1..]);
      assert StripAll(raw) == [Strip(raw[0])] + StripAll(raw[1..]);
    }
  }

  // ---------------------------------------------------------------------
  // One record
  // ---------------------------------------------------------------------

  /** The column label of a subject code: its table entry, else `SUB-<code>`. */
  function LabelFor(labels: map<string, string>, code: string): string {
    if code in labels then labels[code] else "SUB-" + code
  }

  /** The assignments `row[label(codes[j])] = marks[j]` for
      `j < min(len(codes), len(marks))`, in order. */
  function Assignments(labels: map<string, string>, codes: seq<string>, marks: seq<int>): (es: seq<(string, int)>)
    ensures |es| == Min(|codes|, |marks|)
    ensures forall j :: 0 <= j < |es| ==> es[j] == (LabelFor(labels, codes[j]), marks[j])
  {
    seq(Min(|codes|, |marks|), j requires 0 <= j < Min(|codes|, |marks|) => (LabelFor(labels, codes[j]), marks[j]))
  }

  datatype Totals =
    | Grade12Totals(total: int, percentage: real)
    | Grade10Totals(mainTotal: int, mainPercent: real, top5Total: int, top5Percent: real)

  /** The aggregate columns of a row. A Grade-12 row totals the marks under
      labels of the code table; a Grade-10 row totals the main subjects and
      the five best table subjects. An empty list gives 0. */
  function ComputeTotals(grade12: bool, labels: map<string, string>, main: set<string>, marks: Dict<int>): Totals {
    var vals := ValuesWhere(marks, labels.Values);
    if grade12 then
      Grade12Totals(Sum(vals), if vals == [] then 0.0 else Mean(vals))
    else
      var mains := ValuesWhere(marks, main);
      var top := Top5(vals);
      Grade10Totals(Sum(mains), if mains == [] then 0.0 else Mean(mains),
                    Sum(top), if top == [] then 0.0 else Sum(top) as real / 5.0)
  }

  /** The tier the parser runs for and its tables. */
  datatype Tier = Tier(grade12: bool, labels: map<string, string>, main: set<string>)

  datatype Record = Record(roll: string, gender: string, name: string, marks: Dict<int>, result: string, totals: Totals)

  /** The subject row of a window: codes of line 1 zipped with the marks of
      line 2. */
  function SubjectRow(t: Tier, line1: string, line2: string): Dict<int> {
    PutAll([], Assignments(t.labels, FindCodes(line1), FindMarks(line2)))
  }

  /** The record a two-line window yields, if line 1 opens a record. */
  function WindowRecord(t: Tier, line1: string, line2: string): Option<Record> {
    if !IsStudentLine(line1) then None
    else match HeaderMatch(line1)
      case None => None
      case Some(h) =>
        var marks := SubjectRow(t, line1, line2);
        Some(Record(h.roll, h.gender, h.name, marks, ResultWordIgnoreCase(line1 + " " + line2),
                    ComputeTotals(t.grade12, t.labels, t.main, marks)))
  }

  // ---------------------------------------------------------------------
  // The scan
  // ---------------------------------------------------------------------

  /** The records found from cursor `i` on: a window that yields no record
      moves the cursor by one line, a record by two; the loop stops when no
      second line is left. */
  function Scan(t: Tier, lines: seq<string>, i: nat): seq<Record>
    decreases |lines| - i
  {
    if i + 1 >= |lines| then []
    else match WindowRecord(t, lines[i], lines[i + 1])
      case None => Scan(t, lines, i + 1)
      case Some(r) => [r] + Scan(t, lines, i + 2)
  }

  /** The loop `for j in range(min(len(codes), len(marks))): row[label] = marks[j]`. */
  method FillSubjects(labels: map<string, string>, codes: seq<string>, marks: seq<int>) returns (row: Dict<int>)
    ensures row == PutAll([], Assignments(labels, codes, marks))
  {
    ghost var es := Assignments(labels, codes, marks);
    row := [];
    for j := 0 to Min(|codes|, |marks|)
      invariant row == PutAll([], es[..j])
    {
      PutAllStep(es, j);
      row := Put(row, LabelFor(labels, codes[j]), marks[j]);
    }
    assert es[..|es|] == es;
  }

  /** One more assignment extends the run by one. */
  lemma PutAllStep<V>(es: seq<(string, V)>, j: nat)
    requires j < |es|
    ensures PutAll([], es[..j + 1]) == Put(PutAll([], es[..j]), es[j].0, es[j].1)
  {
    assert es[..j + 1][..j] == es[..j];
  }

  /** The cursor loop of `parse_and_save`. */
  method ParseRecords(t: Tier, lines: seq<string>) returns (data: seq<Record>)
    ensures data == Scan(t, lines, 0)
  {
    data := [];
    var i := 0;
    while i < |lines| - 1
      invariant i <= |lines|
      invariant data + Scan(t, lines, i) == Scan(t, lines, 0)
      decreases |lines| - i
    {
      var line1 := lines[i];
      var line2 := lines[i + 1];
      if !IsStudentLine(line1) {
        i := i + 1;
        continue;
      }
      var m := HeaderMatch(line1);
      if m.None? {
        i := i + 1;
        continue;
      }
      var codes := FindCodes(line1);
      var marks := FindMarks(line2);
      var row := FillSubjects(t.labels, codes, marks);
      var result := ResultWordIgnoreCase(line1 + " " + line2);
      var totals := ComputeTotals(t.grade12, t.labels, t.main, row);
      var rec := Record(m.value.roll, m.value.gender, m.value.name, row, result, totals);
      assert row == SubjectRow(t, line1, line2);
      assert WindowRecord(t, line1, line2) == Some(rec);
      assert Scan(t, lines, i) == [rec] + Scan(t, lines, i + 2);
      assert (data + [rec]) + Scan(t, lines, i + 2) == data + Scan(t, lines, i);
      data := data + [rec];
      i := i + 2;
    }
  }

  // ---------------------------------------------------------------------
  // What the scan promises
  // ---------------------------------------------------------------------

  /** A window yields a record exactly when line 1 starts with eight digits
      and a space and the header pattern matches; the result keyword plays
      no part in it. The record carries the roll and gender of line 1. */
  lemma WindowRecordAccepts(t: Tier, line1: string, line2: string)
    ensures WindowRecord(t, line1, line2).Some? <==> IsStudentLine(line1) && HeaderMatch(line1).Some?
    ensures WindowRecord(t, line1, line2).Some? ==>
      var r := WindowRecord(t, line1, line2).value;
      && r.roll == line1[..8]
      && (r.gender == "M" || r.gender == "F")
      && (r.result == "" || r.result in Keywords)
  {
  }

  /** Every record comes from a window `lines[k], lines[k + 1]` at or after
      the cursor, so the last line never opens a record. */
  lemma {:induction false} ScanRecordsFromWindows(t: Tier, lines: seq<string>, i: nat)
    ensures forall r :: r in Scan(t, lines, i) ==>
      exists k :: i <= k && k + 1 < |lines| && WindowRecord(t, lines[k], lines[k + 1]) == Some(r)
    decreases |lines| - i
  {
    if i + 1 < |lines| {
      match WindowRecord(t, lines[i], lines[i + 1])
      case None =>
        ScanRecordsFromWindows(t, lines, i + 1);
      case Some(r0) =>
        ScanRecordsFromWindows(t, lines, i + 2);
    }
  }

  /** Each record uses up two lines: there are at most half as many records
      as lines left. */
  lemma {:induction false} ScanUsesTwoLinesPerRecord(t: Tier, lines: seq<string>, i: nat)
    ensures 2 * |Scan(t, lines, i)| <= |lines| - i || i >= |lines|
    decreases |lines| - i
  {
    if i + 1 < |lines| {
      match WindowRecord(t, lines[i], lines[i + 1])
      case None =>
        ScanUsesTwoLinesPerRecord(t, lines, i + 1);
      case Some(r0) =>
        ScanUsesTwoLinesPerRecord(t, lines, i + 2);
    }
  }

  /** Each code is paired with the mark at the same position, and a label
      assigned twice keeps the later mark. The row has at most
      `min(#codes, #marks)` subjects, each a distinct label. */
  lemma SubjectRowValues(t: Tier, line1: string, line2: string, key: string)
    ensures var es := Assignments(t.labels, FindCodes(line1), FindMarks(line2));
            Get(SubjectRow(t, line1, line2), key) == LastValue(es, key)
    ensures |SubjectRow(t, line1, line2)| <= Min(|FindCodes(line1)|, |FindMarks(line2)|)
    ensures DistinctKeys(SubjectRow(t, line1, line2))
  {
    var es := Assignments(t.labels, FindCodes(line1), FindMarks(line2));
    PutAllGet([], es, key);
    PutAllKeys(es);
    FirstAppearanceShorter(Keys(es));
    PutAllDistinct([], es);
  }

  lemma {:induction false} FirstAppearanceShorter(ks: seq<string>)
    ensures |FirstAppearance(ks)| <= |ks|
    decreases |ks|
  {
    if ks != [] {
      FirstAppearanceShorter(ks[..|ks| - 1]);
    }
  }

  /** The Grade-12 total and percentage depend only on the codes found in
      the table: an unknown code's `SUB-` column never enters them, because
      no table label starts with `SUB-`. */
  lemma TotalsIgnoreUnknownCodes(t: Tier, line1: string, line2: string)
    ensures var es := Assignments(t.labels, FindCodes(line1), FindMarks(line2));
            ValuesWhere(SubjectRow(t, line1, line2), t.labels.Values) == Values(PutAll([], Only(es, t.labels.Values)))
  {
    var es := Assignments(t.labels, FindCodes(line1), FindMarks(line2));
    RestrictPutAll([], es, t.labels.Values);
  }

  /** The marks of a subject row are all between 0 and 999. */
  lemma SubjectRowBounded(t: Tier, line1: string, line2: string)
    ensures Bounded(Values(SubjectRow(t, line1, line2)), 0, 999)
  {
    var es := Assignments(t.labels, FindCodes(line1), FindMarks(line2));
    var vs := Values(SubjectRow(t, line1, line2));
    PutAllValuesFrom(es);
    forall k | 0 <= k < |vs| ensures 0 <= vs[k] <= 999 {
      assert vs[k] in vs;
      var j :| 0 <= j < |es| && es[j].1 == vs[k];
    }
  }

  lemma SelectedBounded(row: Dict<int>, labels: set<string>)
    requires Bounded(Values(row), 0, 999)
    ensures Bounded(ValuesWhere(row, labels), 0, 999)
  {
    RestrictValuesFrom(row, labels);
    var vs := ValuesWhere(row, labels);
    forall k | 0 <= k < |vs| ensures 0 <= vs[k] <= 999 {
      assert vs[k] in vs;
      var j :| 0 <= j < |Values(row)| && Values(row)[j] == vs[k];
    }
  }

  /** A mean of three-digit marks, or 0 when there are none, stays within 0 and 999. */
  lemma PercentBounds(vals: seq<int>)
    requires Bounded(vals, 0, 999)
    ensures 0 <= Sum(vals)
    ensures 0.0 <= (if vals == [] then 0.0 else Mean(vals)) <= 999.0
  {
    SumBounds(vals, 0, 999);
    if vals != [] { MeanBounds(vals, 0, 999); }
  }

  /** The Grade-12 total is a sum of marks and its percentage their mean. */
  lemma Grade12TotalsBounds(labels: map<string, string>, main: set<string>, row: Dict<int>)
    requires Bounded(Values(row), 0, 999)
    ensures ComputeTotals(true, labels, main, row).total >= 0
    ensures 0.0 <= ComputeTotals(true, labels, main, row).percentage <= 999.0
  {
    SelectedBounded(row, labels.Values);
    PercentBounds(ValuesWhere(row, labels.Values));
  }

  /** The Grade-10 percentages stay within 0 and 999, and the Top-5 total
      never exceeds the total of all table subjects. */
  lemma Grade10TotalsBounds(labels: map<string, string>, main: set<string>, row: Dict<int>)
    requires Bounded(Values(row), 0, 999)
    ensures var g := ComputeTotals(false, labels, main, row);
      && 0 <= g.mainTotal && 0.0 <= g.mainPercent <= 999.0
      && 0 <= g.top5Total <= Sum(ValuesWhere(row, labels.Values))
      && 0.0 <= g.top5Percent <= 999.0
  {
    var vals := ValuesWhere(row, labels.Values);
    SelectedBounded(row, labels.Values);
    SelectedBounded(row, main);
    PercentBounds(ValuesWhere(row, main));
    Top5Bounds(vals);
  }

  /** The best five of three-digit marks: at most their total, and their
      sum over five within 0 and 999. */
  lemma Top5Bounds(vals: seq<int>)
    requires Bounded(vals, 0, 999)
    ensures 0 <= Sum(Top5(vals)) <= Sum(vals)
    ensures 0.0 <= Sum(Top5(vals)) as real / 5.0 <= 999.0
  {
    Top5Largest(vals);
    Top5SumAtMostSum(vals);
    SubBagBounded(Top5(vals), vals, 0, 999);
    SumBounds(Top5(vals), 0, 999);
  }

  // ---------------------------------------------------------------------
  // The output sheet
  // ---------------------------------------------------------------------

  /** A cell of the output sheet; `Blank` is a subject the student did not
      take. */
  datatype Cell = Text(text: string) | Int(n: int) | Num(x: real) | Blank

  function MarkCell(r: Record, col: string): Cell {
    match Get(r.marks, col)
    case Some(v) => Int(v)
    case None => Blank
  }

  /** The value a record holds under a column name. */
  function CellOf(r: Record, col: string): Cell {
    if col == "Roll No" then Text(r.roll)
    else if col == "Gender" then Text(r.gender)
    else if col == "Name" then Text(r.name)
    else if col == "Result" then Text(r.result)
    else match r.totals
      case Grade12Totals(total, pct) =>
        if col == "Total" then Int(total)
        else if col == "Percentage" then Num(pct)
        else MarkCell(r, col)
      case Grade10Totals(mainTotal, mainPct, top5Total, top5Pct) =>
        if col == "Main Total" then Int(mainTotal)
        else if col == "Main %" then Num(mainPct)
        else if col == "Top 5 Total" then Int(top5Total)
        else if col == "Top 5 %" then Num(top5Pct)
        else MarkCell(r, col)
  }

  function TotalsColumns(totals: Totals): set<string> {
    match totals
    case Grade12Totals(_, _) => {"Total", "Percentage"}
    case Grade10Totals(_, _, _, _) => {"Main Total", "Main %", "Top 5 Total", "Top 5 %"}
  }

  /** The keys of a record's row dict. */
  function RecordColumns(r: Record): set<string> {
    {"Roll No", "Gender", "Name", "Result"} + (set k | k in Keys(r.marks)) + TotalsColumns(r.totals)
  }

  /** The rank columns of a tier: one for Grade 12, two for Grade 10. */
  function RankColumns(grade12: bool): seq<string> {
    if grade12 then ["Rank"] else ["Main % Rank", "Top 5 % Rank"]
  }

  /** The column a rank column ranks. */
  function RankedColumn(col: string): string {
    if col == "Rank" then "Percentage" else if col == "Main % Rank" then "Main %" else "Top 5 %"
  }

  /** The columns of the data frame: every key of every row, and the rank
      columns once there is a row to rank. */
  function PresentColumns(grade12: bool, data: seq<Record>): set<string> {
    if data == [] then {}
    else RecordColumns(data[0]) + PresentColumns(grade12, data[1..]) + (set c | c in RankColumns(grade12))
  }

  /** `[c for c in wanted if c in present]`. */
  function SelectColumns(wanted: seq<string>, present: set<string>): (cols: seq<string>)
    ensures |cols| <= |wanted|
    ensures forall c :: c in cols <==> c in wanted && c in present
  {
    if wanted == [] then []
    else (if wanted[0] in present then [wanted[0]] else []) + SelectColumns(wanted[1..], present)
  }

  lemma {:induction false} SelectNothing(wanted: seq<string>)
    ensures SelectColumns(wanted, {}) == []
  {
    if wanted != [] {
      SelectNothing(wanted[1..]);
    }
  }

  /** Filtering a list keeps the order of its parts. */
  lemma {:induction false} SelectColumnsAppend(a: seq<string>, b: seq<string>, present: set<string>)
    ensures SelectColumns(a + b, present) == SelectColumns(a, present) + SelectColumns(b, present)
  {
    if a != [] {
      SelectColumnsAppend(a[1..], b, present);
      assert (a + b)[1..] == a[1..] + b;
    } else {
      assert a + b == b;
    }
  }

  function Score(c: Cell): real {
    match c
    case Num(x) => x
    case Int(n) => n as real
    case _ => 0.0
  }

  /** The values of one column, as ranked. */
  function Scores(data: seq<Record>, col: string): (vs: seq<real>)
    ensures |vs| == |data|
  {
    seq(|data|, k requires 0 <= k < |data| => Score(CellOf(data[k], col)))
  }

  function OutputCell(grade12: bool, data: seq<Record>, k: nat, col: string): Cell
    requires k < |data|
  {
    if col in RankColumns(grade12) then
      var vs := Scores(data, RankedColumn(col));
      Int(DenseRank(vs, vs[k]))
    else CellOf(data[k], col)
  }

  /** One line of the summary sheet. `distinctionPercent` is the ver_4
      line that ver_5 dropped. */
  datatype SubjectStats = SubjectStats(
    subject: string, highest: Option<int>, lowest: Option<int>, average: Option<real>,
    distinctions: nat, distinctionPercent: Option<real>, centuries: nat)

  /** The subject columns of the sheet: those whose name has a `-`. */
  function SubjectColumns(cols: seq<string>): (subs: seq<string>)
    ensures forall c :: c in subs <==> c in cols && '-' in c
  {
    if cols == [] then []
    else (if '-' in cols[0] then [cols[0]] else []) + SubjectColumns(cols[1..])
  }

  function MarkColumn(data: seq<Record>, col: string): (cells: Column)
    ensures |cells| == |data|
  {
    seq(|data|, k requires 0 <= k < |data| => Get(data[k].marks, col))
  }

  function SubjectSummary(data: seq<Record>, col: string, withPercent: bool): SubjectStats
    requires |data| > 0
  {
    var cells := MarkColumn(data, col);
    SubjectStats(col, Highest(cells), Lowest(cells), Average(cells), Distinctions(cells),
                 if withPercent then Some(DistinctionPercent(cells)) else None, Centuries(cells))
  }

  /** The summary sheet, absent when the sheet has no subject column. */
  function SummarySheet(data: seq<Record>, cols: seq<string>, withPercent: bool): Option<seq<SubjectStats>> {
    var subs := SubjectColumns(cols);
    if subs == [] || data == [] then None
    else Some(seq(|subs|, j requires 0 <= j < |subs| => SubjectSummary(data, subs[j], withPercent)))
  }

  datatype Workbook = Workbook(columns: seq<string>, rows: seq<seq<Cell>>, summary: Option<seq<SubjectStats>>)

  /** The sheet `parse_and_save` writes for the records found: the wanted
      columns that exist, filled from the records and their ranks, and the
      summary. */
  function BuildWorkbook(grade12: bool, wanted: seq<string>, withPercent: bool, data: seq<Record>): Workbook {
    var cols := SelectColumns(wanted, PresentColumns(grade12, data));
    var rows := seq(|data|, k requires 0 <= k < |data| =>
      seq(|cols|, c requires 0 <= c < |cols| => OutputCell(grade12, data, k, cols[c])));
    Workbook(cols, rows, SummarySheet(data, cols, withPercent))
  }

  /** The workbook for a bulletin given as its raw lines. */
  function Output(t: Tier, wanted: seq<string>, withPercent: bool, raw: seq<string>): Workbook {
    BuildWorkbook(t.grade12, wanted, withPercent, Scan(t, PrepareLines(raw), 0))
  }

  /** `parse_and_save`, without the writing of the file. */
  method ParseAndSave(t: Tier, wanted: seq<string>, withPercent: bool, raw: seq<string>) returns (wb: Workbook)
    ensures wb == Output(t, wanted, withPercent, raw)
  {
    var lines := PrepareLines(raw);
    var data := ParseRecords(t, lines);
    wb := BuildWorkbook(t.grade12, wanted, withPercent, data);
  }

  // ---------------------------------------------------------------------
  // What the sheet promises
  // ---------------------------------------------------------------------

  /** Every row has one cell per column; the rank cells of a tier are the
      dense ranks of the ranked column. */
  lemma WorkbookShape(grade12: bool, wanted: seq<string>, withPercent: bool, data: seq<Record>)
    ensures var wb := BuildWorkbook(grade12, wanted, withPercent, data);
      && |wb.rows| == |data|
      && (forall k :: 0 <= k < |data| ==> |wb.rows[k]| == |wb.columns|)
      && (forall k, c :: 0 <= k < |data| && 0 <= c < |wb.columns| && wb.columns[c] in RankColumns(grade12) ==>
            wb.rows[k][c] == Int(DenseRank(Scores(data, RankedColumn(wb.columns[c])), Scores(data, RankedColumn(wb.columns[c]))[k])))
  {
  }

  /** No data, no columns; with data, the identity columns and the tier's
      rank columns are present whenever they are wanted. */
  lemma ColumnsPresent(grade12: bool, wanted: seq<string>, withPercent: bool, data: seq<Record>)
    ensures data == [] ==> BuildWorkbook(grade12, wanted, withPercent, data).columns == []
    ensures data != [] ==> forall c :: c in wanted && (c in {"Roll No", "Gender", "Name", "Result"} || c in RankColumns(grade12)) ==>
      c in BuildWorkbook(grade12, wanted, withPercent, data).columns
  {
    if data == [] {
      SelectNothing(wanted);
    }
  }

  /** A column whose name starts with `SUB-` is never written when none is
      wanted. */
  lemma NoUnknownSubjectColumns(grade12: bool, wanted: seq<string>, withPercent: bool, data: seq<Record>)
    requires forall c :: c in wanted ==> !StartsWith(c, "SUB-")
    ensures forall c :: c in BuildWorkbook(grade12, wanted, withPercent, data).columns ==> !StartsWith(c, "SUB-")
  {
  }

  /** Each summary line describes a subject column of the sheet, its
      highest mark is at least its lowest, and its counts are ordered
      centuries <= distinctions <= students. */
  lemma SummaryFacts(grade12: bool, wanted: seq<string>, withPercent: bool, data: seq<Record>)
    ensures match BuildWorkbook(grade12, wanted, withPercent, data).summary
      case None => true
      case Some(lines) =>
        forall j :: 0 <= j < |lines| ==>
          && lines[j].subject in BuildWorkbook(grade12, wanted, withPercent, data).columns
          && '-' in lines[j].subject
          && lines[j].centuries <= lines[j].distinctions <= |data|
          && (lines[j].highest.Some? ==> lines[j].lowest.value <= lines[j].highest.value)
          && (lines[j].distinctionPercent.Some? ==> 0.0 <= lines[j].distinctionPercent.value <= 100.0)
  {
    var wb := BuildWorkbook(grade12, wanted, withPercent, data);
    if wb.summary.Some? {
      var subs := SubjectColumns(wb.columns);
      forall j | 0 <= j < |subs| ensures
          var l := SubjectSummary(data, subs[j], withPercent);
          && l.centuries <= l.distinctions <= |data|
          && (l.highest.Some? ==> l.lowest.value <= l.highest.value)
          && (l.distinctionPercent.Some? ==> 0.0 <= l.distinctionPercent.value <= 100.0) {
        var cells := MarkColumn(data, subs[j]);
        CenturiesWithinDistinctions(cells);
        if withPercent { DistinctionPercentBounds(cells); }
      }
    }
  }
}
