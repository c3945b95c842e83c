/** The fifth version of the program (`Result_Soft_ver_5.py`): the tier is chosen
    beforehand, the file and the pasted sample are checked against the
    tier's code table using the first student line only, and the shared
    engine builds the sheet. */
module Ver5 {
  import opened Wrappers
  import opened Chars
  import opened Patterns
  import opened SubjectMaps
  import Engine45

  function Labels(grade12: bool): map<string, string> {
    if grade12 then Grade12Labels else Grade10Labels
  }

  function TierFor(grade12: bool): Engine45.Tier {
    Engine45.Tier(grade12, Labels(grade12), Main10)
  }

  const FinalColumns12: seq<string> := [
    "Roll No", "Gender", "Name",
    "ENG-301", "PHY-042", "CHE-043", "MAT-041", "BIO-044",
    "ECO-030", "BST-054", "ACC-055", "HIS-027", "POL_SC-028",
    "GEO-029", "PAINT-049", "PHED-048", "IP-065",
    "Result", "Total", "Percentage", "Rank"]

  const FinalColumns10: seq<string> := [
    "Roll No", "Gender", "Name",
    "ENG-184", "HND-085", "IT-402", "MAT-041", "MAT-241",
    "SCI-086", "SNK-122", "SST-087",
    "Result", "Main Total", "Main %", "Main % Rank",
    "Top 5 Total", "Top 5 %", "Top 5 % Rank"]

  function FinalColumns(grade12: bool): seq<string> {
    if grade12 then FinalColumns12 else FinalColumns10
  }

  // ---------------------------------------------------------------------
  // Validation
  // ---------------------------------------------------------------------

  /** The first line of the file that, once stripped, starts with eight
      digits and a space. */
  function FirstRecordLine(lines: seq<string>): (r: Option<string>)
    ensures r.Some? ==> IsStudentLine(r.value)
  {
    if lines == [] then None
    else if IsStudentLine(Strip(lines[0])) then Some(Strip(lines[0]))
    else FirstRecordLine(lines[1..])
  }

  /** There is no first student line exactly when no line is one. */
  lemma {:induction false} NoFirstRecordLine(lines: seq<string>)
    ensures FirstRecordLine(lines).None? <==> forall k :: 0 <= k < |lines| ==> !IsStudentLine(Strip(lines[k]))
  {
    if lines != [] {
      NoFirstRecordLine(lines[1..]);
      assert forall k :: 1 <= k < |lines| ==> lines[k] == lines[1..][k - 1];
    }
  }

  /** The stripped line at `k` is the answer when it is a student line and
      no earlier line is. */
  lemma {:induction false} FirstRecordLineAt(lines: seq<string>, k: nat)
    requires k < |lines| && IsStudentLine(Strip(lines[k]))
    requires forall q :: 0 <= q < k ==> !IsStudentLine(Strip(lines[q]))
    ensures FirstRecordLine(lines) == Some(Strip(lines[k]))
  {
    if k > 0 {
      assert !IsStudentLine(Strip(lines[0]));
      assert forall q :: 0 <= q < k - 1 ==> lines[1..][q] == lines[q + 1];
      FirstRecordLineAt(lines[1..], k - 1);
    }
  }

  /** The loop over the file that stops at the first student line; `""`
      when there is none. */
  method ReadFirstRecordLine(lines: seq<string>) returns (first: string)
    ensures first == FirstRecordLine(lines).GetOr("")
    ensures first == "" <==> FirstRecordLine(lines).None?
  {
    first := "";
    var k := 0;
    while k < |lines|
      invariant k <= |lines|
      invariant FirstRecordLine(lines) == FirstRecordLine(lines[k..])
    {
      assert lines[k..][1..] == lines[k + 1..];
      if IsStudentLine(Strip(lines[k])) {
        first := Strip(lines[k]);
        return;
      }
      k := k + 1;
    }
  }

  function CodeSet(s: string): set<string> {
    set c | c in FindCodes(s)
  }

  /** The codes both tables share; they are never held against a file. */
  function CommonCodes(): set<string> {
    Grade10Labels.Keys * Grade12Labels.Keys
  }

  datatype Verdict =
    | MissingInput
    | NoStudentRecord
    | WrongTier(wrongInFile: set<string>, wrongInSample: set<string>, expectedInFile: bool, expectedInSample: bool)
    | Validated

  /** `validate_sample`: the file's first student line and the stripped
      sample must each carry a code of the chosen tier and no code of the
      other tier apart from the shared ones. */
  function Verdict5(grade12: bool, fileChosen: bool, sampleText: string, fileLines: seq<string>): Verdict {
    var sample := Strip(sampleText);
    if !fileChosen || sample == [] then MissingInput
    else match FirstRecordLine(fileLines)
      case None => NoStudentRecord
      case Some(first) =>
        var valid := Labels(grade12).Keys;
        var other := Labels(!grade12).Keys;
        var inFile := CodeSet(first);
        var inSample := CodeSet(sample);
        var wrongInFile := (inFile * other) - CommonCodes();
        var wrongInSample := (inSample * other) - CommonCodes();
        var expectedInFile := inFile * valid != {};
        var expectedInSample := inSample * valid != {};
        if !(expectedInFile && expectedInSample) || wrongInFile != {} || wrongInSample != {} then
          WrongTier(wrongInFile, wrongInSample, expectedInFile, expectedInSample)
        else Validated
  }

  method ValidateSample(grade12: bool, fileChosen: bool, sampleText: string, fileLines: seq<string>) returns (v: Verdict)
    ensures v == Verdict5(grade12, fileChosen, sampleText, fileLines)
  {
    var sample := Strip(sampleText);
    if !fileChosen || sample == [] {
      return MissingInput;
    }
    var first := ReadFirstRecordLine(fileLines);
    if first == "" {
      return NoStudentRecord;
    }
    var valid := Labels(grade12).Keys;
    var other := Labels(!grade12).Keys;
    var inFile := CodeSet(first);
    var inSample := CodeSet(sample);
    var wrongInFile := (inFile * other) - CommonCodes();
    var wrongInSample := (inSample * other) - CommonCodes();
    var expectedInFile := inFile * valid != {};
    var expectedInSample := inSample * valid != {};
    if !(expectedInFile && expectedInSample) || wrongInFile != {} || wrongInSample != {} {
      return WrongTier(wrongInFile, wrongInSample, expectedInFile, expectedInSample);
    }
    return Validated;
  }

  /** A text carries a code of the chosen tier and no code of the other
      tier except the shared ones. */
  predicate FitsTier(grade12: bool, s: string) {
    && (exists k :: 0 <= k < |FindCodes(s)| && FindCodes(s)[k] in Labels(grade12))
    && (forall k :: 0 <= k < |FindCodes(s)| && FindCodes(s)[k] in Labels(!grade12) ==> FindCodes(s)[k] in CommonCodes())
  }

  /** Validation passes exactly when a file and a sample are given, the file
      has a student line, and that line and the sample both fit the tier. */
  lemma ValidatedIff(grade12: bool, fileChosen: bool, sampleText: string, fileLines: seq<string>)
    ensures Verdict5(grade12, fileChosen, sampleText, fileLines) == Validated <==>
      && fileChosen && Strip(sampleText) != []
      && FirstRecordLine(fileLines).Some?
      && FitsTier(grade12, FirstRecordLine(fileLines).value)
      && FitsTier(grade12, Strip(sampleText))
  {
    if fileChosen && Strip(sampleText) != [] && FirstRecordLine(fileLines).Some? {
      FitsTierBySets(grade12, FirstRecordLine(fileLines).value);
      FitsTierBySets(grade12, Strip(sampleText));
    }
  }

  lemma FitsTierBySets(grade12: bool, s: string)
    ensures FitsTier(grade12, s) <==>
      CodeSet(s) * Labels(grade12).Keys != {} && (CodeSet(s) * Labels(!grade12).Keys) - CommonCodes() == {}
  {
    SeqBySets(FindCodes(s), Labels(grade12).Keys, Labels(!grade12).Keys, CommonCodes());
  }

  /** The element-wise test on a list of codes, restated on the set of them. */
  lemma SeqBySets(cs: seq<string>, valid: set<string>, wrong: set<string>, common: set<string>)
    ensures ((exists k :: 0 <= k < |cs| && cs[k] in valid) &&
             (forall k :: 0 <= k < |cs| && cs[k] in wrong ==> cs[k] in common)) <==>
      (set c | c in cs) * valid != {} && ((set c | c in cs) * wrong) - common == {}
  {
    var cset := set c | c in cs;
    if exists k :: 0 <= k < |cs| && cs[k] in valid {
      var k :| 0 <= k < |cs| && cs[k] in valid;
      assert cs[k] in cset * valid;
    }
    if cset * valid != {} {
      var c :| c in cset * valid;
      var k :| 0 <= k < |cs| && cs[k] == c;
    }
    if forall k :: 0 <= k < |cs| && cs[k] in wrong ==> cs[k] in common {
      forall c | c in cset * wrong ensures c in common {
        var k :| 0 <= k < |cs| && cs[k] == c;
      }
    } else {
      var k :| 0 <= k < |cs| && cs[k] in wrong && cs[k] !in common;
      assert cs[k] in (cset * wrong) - common;
    }
  }

  /** The shared mathematics code 041 is never reported as a wrong code. */
  lemma SharedCodeNeverWrong(grade12: bool, fileChosen: bool, sampleText: string, fileLines: seq<string>)
    ensures match Verdict5(grade12, fileChosen, sampleText, fileLines)
      case WrongTier(wf, ws, _, _) => "041" !in wf && "041" !in ws
      case _ => true
  {
    SharedCodes();
  }

  /** Only the first student line of the file is looked at: what follows it
      never changes the verdict. */
  lemma OnlyFirstRecordMatters(grade12: bool, fileChosen: bool, sampleText: string, head: seq<string>, tail: seq<string>)
    requires FirstRecordLine(head).Some?
    ensures Verdict5(grade12, fileChosen, sampleText, head + tail) == Verdict5(grade12, fileChosen, sampleText, head)
  {
    FirstRecordLineOfPrefix(head, tail);
  }

  lemma {:induction false} FirstRecordLineOfPrefix(head: seq<string>, tail: seq<string>)
    requires FirstRecordLine(head).Some?
    ensures FirstRecordLine(head + tail) == FirstRecordLine(head)
  {
    assert (head + tail)[0] == head[0];
    if !IsStudentLine(Strip(head[0])) {
      FirstRecordLineOfPrefix(head[1..], tail);
      assert (head + tail)[1..] == head[1..] + tail;
    }
  }

  // ---------------------------------------------------------------------
  // The sheet
  // ---------------------------------------------------------------------

  /** No table label is a `SUB-` label, so unknown codes never enter the
      totals, and no such column is written. */
  lemma UnknownCodesLeftOut(grade12: bool, code: string)
    requires code !in Labels(grade12)
    ensures Engine45.LabelFor(Labels(grade12), code) !in Labels(grade12).Values
    ensures Engine45.LabelFor(Labels(grade12), code) !in FinalColumns(grade12)
  {
    var l := "SUB-" + code;
    assert l[..4] == "SUB-";
    assert l[1] == 'U';
  }

  /** `parse_and_save` for the chosen tier. */
  method ParseAndSave(grade12: bool, raw: seq<string>) returns (wb: Engine45.Workbook)
    ensures wb == Engine45.Output(TierFor(grade12), FinalColumns(grade12), false, raw)
  {
    wb := Engine45.ParseAndSave(TierFor(grade12), FinalColumns(grade12), false, raw);
  }
}
