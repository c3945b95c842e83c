/** The fourth version of the program (`Result_Soft_ver_4.py`): the same parser
    as the fifth, with a Grade-12 table without the humanities codes, a
    validation over the whole file text that exempts no shared code, and a
    summary that also reports the distinction percentage. */
module Ver4 {
  import opened Chars
  import opened Patterns
  import opened SubjectMaps
  import Engine45

  /** `grade_col_for`: the grade column that goes with a mark column. */
  function GradeColFor(mark: string): (g: string)
    ensures |g| == |mark| + 2 && g[..|mark|] == mark && g[|mark|..] == "-G"
  {
    mark + "-G"
  }

  /** Distinct mark columns get distinct grade columns. */
  lemma GradeColForInjective(a: string, b: string)
    requires GradeColFor(a) == GradeColFor(b)
    ensures a == b
  {
    assert a == GradeColFor(a)[..|a|];
    assert b == GradeColFor(b)[..|b|];
  }

  function Labels(grade12: bool): map<string, string> {
    if grade12 then Grade12LabelsV4 else Grade10Labels
  }

  function TierFor(grade12: bool): Engine45.Tier {
    Engine45.Tier(grade12, Labels(grade12), Main10)
  }

  const FinalColumns12: seq<string> := [
    "Roll No", "Gender", "Name",
    "ACC-055", "BIO-044", "BST-054", "CHE-043", "ECO-030",
    "ENG-301", "IP-065", "MAT-041", "PHED-048", "PHY-042",
    "Result", "Total", "Percentage", "Rank"]

  const FinalColumns10: seq<string> := [
    "Roll No", "Gender", "Name",
    "ENG-184", "HND-085", "IT-402", "MAT-041", "MAT-241",
    "SCI-086", "SNK-122", "SST-087",
    "Result", "Main Total", "Main %", "Main % Rank",
    "Top 5 Total", "Top 5 %", "Top 5 % Rank"]

  function FinalColumns(grade12: bool): seq<string> {
    if grade12 then FinalColumns12 else FinalColumns10
  }

  // ---------------------------------------------------------------------
  // Validation
  // ---------------------------------------------------------------------

  function CodeSet(s: string): set<string> {
    set c | c in FindCodes(s)
  }

  datatype Verdict =
    | MissingInput
    | WrongTier(wrongInFile: set<string>, wrongInSample: set<string>, expectedInFile: bool, expectedInSample: bool)
    | Validated

  /** `handle_sample`: the codes of the whole file text and of the stripped
      sample must include one of the chosen tier's and none of the other
      tier's. */
  function Verdict4(grade12: bool, fileChosen: bool, sampleText: string, fileText: string): Verdict {
    var sample := Strip(sampleText);
    if !fileChosen || sample == [] then MissingInput
    else
      var expected := Labels(grade12).Keys;
      var wrong := Labels(!grade12).Keys;
      var inFile := CodeSet(fileText);
      var inSample := CodeSet(sample);
      var wrongInFile := inFile * wrong;
      var wrongInSample := inSample * wrong;
      var expectedInFile := inFile * expected != {};
      var expectedInSample := inSample * expected != {};
      if !(expectedInFile && expectedInSample) || wrongInFile != {} || wrongInSample != {} then
        WrongTier(wrongInFile, wrongInSample, expectedInFile, expectedInSample)
      else Validated
  }

  /** A text carries a code of the chosen tier and no code of the other. */
  predicate FitsTier(grade12: bool, s: string) {
    && (exists k :: 0 <= k < |FindCodes(s)| && FindCodes(s)[k] in Labels(grade12))
    && (forall k :: 0 <= k < |FindCodes(s)| ==> FindCodes(s)[k] !in Labels(!grade12))
  }

  /** Validation passes exactly when a file and a sample are given and the
      whole file text and the sample both fit the tier. */
  lemma ValidatedIff(grade12: bool, fileChosen: bool, sampleText: string, fileText: string)
    ensures Verdict4(grade12, fileChosen, sampleText, fileText) == Validated <==>
      fileChosen && Strip(sampleText) != [] && FitsTier(grade12, fileText) && FitsTier(grade12, Strip(sampleText))
  {
    if fileChosen && Strip(sampleText) != [] {
      FitsTierBySets(grade12, fileText);
      FitsTierBySets(grade12, Strip(sampleText));
    }
  }

  lemma FitsTierBySets(grade12: bool, s: string)
    ensures FitsTier(grade12, s) <==>
      CodeSet(s) * Labels(grade12).Keys != {} && CodeSet(s) * Labels(!grade12).Keys == {}
  {
    SeqBySets(FindCodes(s), Labels(grade12).Keys, Labels(!grade12).Keys);
  }

  /** The element-wise test on a list of codes, restated on the set of them. */
  lemma SeqBySets(cs: seq<string>, valid: set<string>, wrong: set<string>)
    ensures ((exists k :: 0 <= k < |cs| && cs[k] in valid) && !(exists k :: 0 <= k < |cs| && cs[k] in wrong)) <==>
      (set c | c in cs) * valid != {} && (set c | c in cs) * wrong == {}
  {
    var cset := set c | c in cs;
    if exists k :: 0 <= k < |cs| && cs[k] in valid {
      var k :| 0 <= k < |cs| && cs[k] in valid;
      assert cs[k] in cset * valid;
    }
    if cset * valid != {} {
      var c :| c in cset * valid;
      var k :| 0 <= k < |cs| && cs[k] == c;
    }
    if exists k :: 0 <= k < |cs| && cs[k] in wrong {
      var k :| 0 <= k < |cs| && cs[k] in wrong;
      assert cs[k] in cset * wrong;
    }
    if cset * wrong != {} {
      var c :| c in cset * wrong;
      var k :| 0 <= k < |cs| && cs[k] == c;
    }
  }

  /** With no exemption for shared codes, a mathematics code 041 anywhere in
      the file or in the sample always fails validation, for either tier,
      and is reported as wrong. */
  lemma SharedCodeAlwaysRejected(grade12: bool, fileChosen: bool, sampleText: string, fileText: string)
    requires fileChosen && Strip(sampleText) != []
    requires "041" in FindCodes(fileText) || "041" in FindCodes(Strip(sampleText))
    ensures Verdict4(grade12, fileChosen, sampleText, fileText).WrongTier?
    ensures var v := Verdict4(grade12, fileChosen, sampleText, fileText);
      "041" in v.wrongInFile || "041" in v.wrongInSample
  {
    var wrong := Labels(!grade12).Keys;
    assert "041" in wrong by {
      SharedCodes();
    }
    if "041" in FindCodes(fileText) {
      assert "041" in CodeSet(fileText) * wrong;
    } else {
      assert "041" in CodeSet(Strip(sampleText)) * wrong;
    }
  }

  // ---------------------------------------------------------------------
  // The sheet
  // ---------------------------------------------------------------------

  /** The humanities codes have no Grade-12 entry here: they get `SUB-`
      labels, which never enter the Grade-12 total and are never written. */
  lemma HumanitiesCodesLeftOut(code: string)
    requires code in {"027", "028", "029", "049"}
    ensures Engine45.LabelFor(Grade12LabelsV4, code) == "SUB-" + code
    ensures Engine45.LabelFor(Grade12LabelsV4, code) !in Grade12LabelsV4.Values
    ensures Engine45.LabelFor(Grade12LabelsV4, code) !in FinalColumns12
  {
    var l := "SUB-" + code;
    assert l[..4] == "SUB-";
    assert l[1] == 'U';
  }

  /** `parse_and_save` for the chosen tier, with the distinction percentage
      in the summary. */
  method ParseAndSave(grade12: bool, raw: seq<string>) returns (wb: Engine45.Workbook)
    ensures wb == Engine45.Output(TierFor(grade12), FinalColumns(grade12), true, raw)
  {
    wb := Engine45.ParseAndSave(TierFor(grade12), FinalColumns(grade12), true, raw);
  }
}
