/** The window state of the first three versions of the program, which
    guess the tier from a pasted sample line: whether a bulletin file has
    been picked, the stripped sample, the tier and the number of subjects a
    record must have. The versions differ only in the test that tells a
    Grade-12 sample, which `HandleSample` takes as a parameter. */
module App {
  import opened Chars

  class CBSEParserApp {
    var fileChosen: bool
    var sampleLine: string
    var grade12: bool
    var subjectCount: nat

    /** The subject count always follows the tier. */
    predicate Valid()
      reads this
    {
      subjectCount == if grade12 then 5 else 6
    }

    /** The initial state: no file, no sample, Grade 10 with six subjects. */
    constructor ()
      ensures Valid()
      ensures !fileChosen && sampleLine == "" && !grade12 && subjectCount == 6
    {
      fileChosen := false;
      sampleLine := "";
      grade12 := false;
      subjectCount := 6;
    }

    /** `select_file`: a picked path replaces the previous one; a cancelled
        dialog keeps it. */
    method SelectFile(picked: bool)
      modifies this
      ensures fileChosen == (old(fileChosen) || picked)
      ensures sampleLine == old(sampleLine) && grade12 == old(grade12) && subjectCount == old(subjectCount)
    {
      if picked {
        fileChosen := true;
      }
    }

    /** `handle_sample`: keeps the stripped sample, and with a file and a
        non-blank sample sets the tier by `isGrade12Sample` and the subject
        count by the tier; otherwise it reports the error and changes
        neither. */
    method HandleSample(entry: string, isGrade12Sample: string -> bool) returns (ok: bool)
      requires Valid()
      modifies this
      ensures Valid()
      ensures sampleLine == Strip(entry) && fileChosen == old(fileChosen)
      ensures ok <==> fileChosen && sampleLine != []
      ensures ok ==> grade12 == isGrade12Sample(sampleLine) && subjectCount == (if grade12 then 5 else 6)
      ensures !ok ==> grade12 == old(grade12) && subjectCount == old(subjectCount)
    {
      sampleLine := Strip(entry);
      if !fileChosen || sampleLine == [] {
        return false;
      }
      grade12 := isGrade12Sample(sampleLine);
      subjectCount := if grade12 then 5 else 6;
      return true;
    }
  }
}
