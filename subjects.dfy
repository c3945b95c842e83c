/** The fixed tables of subject codes: which three-digit CBSE code is which
    subject column, and which subjects count as "main" subjects, in each
    version of the program. */
module SubjectMaps {

  // -------------------------------------------------------------------
  // ver_4 and ver_5: code -> column label
  // -------------------------------------------------------------------

  const Grade10Labels: map<string, string> := map[
    "184" := "ENG-184", "085" := "HND-085", "122" := "SNK-122", "041" := "MAT-041",
    "241" := "MAT-241", "086" := "SCI-086", "087" := "SST-087", "402" := "IT-402"]

  /** The Grade-12 table of ver_5, with the humanities codes. */
  const Grade12Labels: map<string, string> := map[
    "301" := "ENG-301", "042" := "PHY-042", "043" := "CHE-043", "044" := "BIO-044",
    "041" := "MAT-041", "055" := "ACC-055", "054" := "BST-054", "030" := "ECO-030",
    "048" := "PHED-048", "065" := "IP-065", "027" := "HIS-027", "028" := "POL_SC-028",
    "029" := "GEO-029", "049" := "PAINT-049"]

  /** The Grade-12 table of ver_4, without the humanities codes. */
  const Grade12LabelsV4: map<string, string> := map[
    "301" := "ENG-301", "042" := "PHY-042", "043" := "CHE-043", "044" := "BIO-044",
    "041" := "MAT-041", "055" := "ACC-055", "054" := "BST-054", "030" := "ECO-030",
    "048" := "PHED-048", "065" := "IP-065"]

  const Main10: set<string> := {"MAT-041", "MAT-241", "SCI-086", "SST-087", "ENG-184", "HND-085", "SNK-122"}
  const Main12Pcm: set<string> := {"ENG-301", "PHY-042", "CHE-043", "MAT-041", "PHED-048", "IP-065"}
  const Main12Pcb: set<string> := {"ENG-301", "PHY-042", "CHE-043", "BIO-044", "PHED-048", "IP-065"}
  const Main12Com: set<string> := {"ENG-301", "ECO-030", "BST-054", "ACC-055", "PHED-048", "IP-065"}
  const Main12Arts: set<string> := {"ENG-301", "HIS-027", "POL_SC-028", "GEO-029", "PAINT-049", "IP-065"}

  /** Mathematics (041) is the only code both tiers share. */
  lemma SharedCodes()
    ensures Grade10Labels.Keys * Grade12Labels.Keys == {"041"}
    ensures Grade10Labels.Keys * Grade12LabelsV4.Keys == {"041"}
  {
  }

  /** The ver_4 Grade-12 table is the ver_5 one without 027, 028, 029 and 049. */
  lemma Grade12V4IsPartOfV5()
    ensures Grade12LabelsV4.Keys == Grade12Labels.Keys - {"027", "028", "029", "049"}
    ensures forall c :: c in Grade12LabelsV4 ==> Grade12LabelsV4[c] == Grade12Labels[c]
  {
  }

  /** Every main Grade-10 subject is a Grade-10 column label. */
  lemma Main10AreLabels()
    ensures Main10 <= Grade10Labels.Values
  {
    assert Grade10Labels["041"] == "MAT-041" && Grade10Labels["241"] == "MAT-241";
    assert Grade10Labels["086"] == "SCI-086" && Grade10Labels["087"] == "SST-087";
    assert Grade10Labels["184"] == "ENG-184" && Grade10Labels["085"] == "HND-085";
    assert Grade10Labels["122"] == "SNK-122";
  }

  // -------------------------------------------------------------------
  // ver_3: code -> (mark column, grade column)
  // -------------------------------------------------------------------

  const Grade10LabelsV3: map<string, (string, string)> := map[
    "184" := ("ENG-184", "184-G1"), "085" := ("HND-085", "085-G2"), "122" := ("SNK-122", "122-G3"),
    "041" := ("MAT-S-041", "041-G4"), "241" := ("MAT-B-241", "241-G5"), "086" := ("SCI-086", "086-G6"),
    "087" := ("SST-087", "087-G7"), "402" := ("IT-402", "402-G8")]

  const Grade12LabelsV3: map<string, (string, string)> := map[
    "301" := ("ENG-301", "301-G1"), "042" := ("PHY-042", "042-G2"), "043" := ("CHE-043", "043-G3"),
    "044" := ("BIO-044", "044-G4"), "041" := ("MAT-041", "041-G5"), "055" := ("ACC-055", "055-G6"),
    "054" := ("BST-054", "054-G7"), "030" := ("ECO-030", "030-G8"), "048" := ("PHED-048", "048-G9"),
    "065" := ("IP-065", "065-G10")]

  const Main10V3: set<string> := {"MAT-S-041", "MAT-B-241", "SCI-086", "SST-087", "ENG-184", "HND-085", "SNK-122"}

  // -------------------------------------------------------------------
  // ver_2: code -> subject name
  // -------------------------------------------------------------------

  const Grade12Names: map<string, string> := map[
    "030" := "ECONOMICS", "041" := "MATHEMATICS", "042" := "PHYSICS", "043" := "CHEMISTRY",
    "044" := "BIOLOGY", "048" := "PHYSICAL EDUCATION", "054" := "BUSINESS STUDIES",
    "055" := "ACCOUNTANCY", "065" := "INFORMATICS PRAC.", "301" := "ENGLISH CORE"]

  const Grade10Names: map<string, string> := map[
    "041" := "MATHEMATICS STANDARD", "085" := "HINDI COURSE-B", "086" := "SCIENCE",
    "087" := "SOCIAL SCIENCE", "122" := "SANSKRIT", "184" := "ENGLISH LNG & LIT.",
    "241" := "MATHEMATICS BASIC", "402" := "INFORMATION TECHNOLOGY"]

  const Main10Names: set<string> := {"MATHEMATICS STANDARD", "MATHEMATICS BASIC", "SCIENCE",
    "SOCIAL SCIENCE", "ENGLISH LNG & LIT.", "HINDI COURSE-B", "SANSKRIT"}
}
