/** Hand-written scanners for the fixed regular expressions the five
    versions apply to a bulletin line. Each scanner follows the order in
    which Python's backtracking matcher tries the alternatives of its
    pattern, so the match it finds and the groups it captures are the ones
    `re.match`, `re.search` and `re.findall` return. */
module Patterns {
  import opened Chars
  import opened Wrappers

  /** The result keywords, in the order of the alternation `PASS|FAIL|COMP|ABST`. */
  const Keywords: seq<string> := ["PASS", "FAIL", "COMP", "ABST"]

  predicate StartsWith(s: string, p: string) {
    |p| <= |s| && s[..|p|] == p
  }

  /** `^\d{8}` */
  predicate StartsWith8Digits(s: string) {
    |s| >= 8 && AllDigits(s[..8])
  }

  /** `^\d{8}\s`: the line that opens a student record. */
  predicate IsStudentLine(s: string) {
    StartsWith8Digits(s) && |s| > 8 && IsSpace(s[8])
  }

  /** End of the greedy `\s*` run that starts at `i`. */
  function SpaceRunEnd(s: string, i: nat): (j: nat)
    requires i <= |s|
    ensures i <= j <= |s|
    ensures forall k :: i <= k < j ==> IsSpace(s[k])
    ensures j == |s| || !IsSpace(s[j])
    decreases |s| - i
  {
    if i < |s| && IsSpace(s[i]) then SpaceRunEnd(s, i + 1) else i
  }

  // ---------------------------------------------------------------------
  // Subject codes: `re.findall(r"\b\d{3}\b", s)`
  // ---------------------------------------------------------------------

  /** A word-bounded run of exactly three digits starts at `p`. */
  predicate CodeAt(s: string, p: nat) {
    && p + 3 <= |s|
    && IsDigit(s[p]) && IsDigit(s[p + 1]) && IsDigit(s[p + 2])
    && (p == 0 || !IsWordChar(s[p - 1]))
    && (p + 3 == |s| || !IsWordChar(s[p + 3]))
  }

  /** Start positions of the matches `findall` reports when it scans from
      `i`: after a match it resumes at the match end, otherwise one
      character further. */
  function CodePositions(s: string, i: nat): (ps: seq<nat>)
    requires i <= |s|
    ensures forall k :: 0 <= k < |ps| ==> i <= ps[k] && CodeAt(s, ps[k])
    ensures forall k :: 0 <= k < |ps| - 1 ==> ps[k] + 3 <= ps[k + 1]
    decreases |s| - i
  {
    if i + 3 > |s| then []
    else if CodeAt(s, i) then [i] + CodePositions(s, i + 3)
    else CodePositions(s, i + 1)
  }

  /** The three-digit codes of a line, left to right. */
  function FindCodes(s: string): (codes: seq<string>)
    ensures |codes| == |CodePositions(s, 0)|
    ensures forall k :: 0 <= k < |codes| ==> |codes[k]| == 3 && AllDigits(codes[k])
    ensures forall k :: 0 <= k < |codes| ==>
      CodePositions(s, 0)[k] + 3 <= |s| && codes[k] == s[CodePositions(s, 0)[k]..CodePositions(s, 0)[k] + 3]
  {
    var ps := CodePositions(s, 0);
    seq(|ps|, k requires 0 <= k < |ps| => s[ps[k]..ps[k] + 3])
  }

  /** The scan misses no code: every word-bounded three-digit run at or
      after `i` is reported, because two such runs never overlap. */
  lemma {:induction false} CodePositionsComplete(s: string, i: nat, p: nat)
    requires i <= p && CodeAt(s, p)
    ensures p in CodePositions(s, i)
    decreases |s| - i
  {
    if i + 3 > |s| {
    } else if CodeAt(s, i) {
      if p != i {
        assert p >= i + 3;
        CodePositionsComplete(s, i + 3, p);
      }
    } else {
      CodePositionsComplete(s, i + 1, p);
    }
  }

  /** The eight-digit roll number at the start of a record line is never
      taken for a subject code: every code starts after position 8. */
  lemma RollIsNotACode(s: string)
    requires StartsWith8Digits(s)
    ensures forall k :: 0 <= k < |CodePositions(s, 0)| ==> CodePositions(s, 0)[k] >= 9
  {
    var ps := CodePositions(s, 0);
    forall k | 0 <= k < |ps| ensures ps[k] >= 9 {
      assert CodeAt(s, ps[k]);
    }
  }

  // ---------------------------------------------------------------------
  // Marks and grades: `re.findall(r"(\d{m,3})\s+([A-D][12])", s)`
  // ---------------------------------------------------------------------

  /** A grade token `[A-D][12]` starts at `i`. */
  predicate GradeTokenAt(s: string, i: nat) {
    i + 2 <= |s| && 'A' <= s[i] <= 'D' && (s[i + 1] == '1' || s[i + 1] == '2')
  }

  predicate IsGrade(g: string) {
    |g| == 2 && GradeTokenAt(g, 0)
  }

  datatype MarkMatch = MarkMatch(mark: string, grade: string)

  predicate WellFormedMark(m: MarkMatch, minDigits: nat) {
    minDigits <= |m.mark| <= 3 && AllDigits(m.mark) && IsGrade(m.grade)
  }

  /** Length of the greedy digit run at `i`, capped at `cap`. */
  function DigitRun(s: string, i: nat, cap: nat): (d: nat)
    requires i <= |s|
    ensures d <= cap && i + d <= |s|
    ensures forall k :: i <= k < i + d ==> IsDigit(s[k])
    ensures d < cap ==> i + d == |s| || !IsDigit(s[i + d])
    decreases cap
  {
    if cap > 0 && i < |s| && IsDigit(s[i]) then 1 + DigitRun(s, i + 1, cap - 1) else 0
  }

  /** The match attempt at `i`, with its end position. Only the greedy digit
      count and the greedy space run can succeed: a shorter digit run leaves
      a digit where `\s` is needed, a shorter space run leaves a space where
      `[A-D]` is needed. */
  function MarkMatchAt(s: string, i: nat, minDigits: nat): (r: Option<(nat, MarkMatch)>)
    requires i <= |s| && 1 <= minDigits <= 3
    ensures r.Some? ==> i < r.value.0 <= |s| && WellFormedMark(r.value.1, minDigits)
  {
    var d := DigitRun(s, i, 3);
    if d < minDigits || i + d >= |s| || !IsSpace(s[i + d]) then None
    else
      var e := SpaceRunEnd(s, i + d);
      if GradeTokenAt(s, e) then Some((e + 2, MarkMatch(s[i..i + d], s[e..e + 2]))) else None
  }

  /** The scan of `re.findall` from `i` to `n`, given the end of the match
      attempt at each position: after a match it resumes at the match end,
      otherwise one character further. Yields the start and end of each
      match. */
  function Findall(attempt: nat -> Option<nat>, i: nat, n: nat): (ps: seq<(nat, nat)>)
    requires i <= n
    requires forall p: nat :: i <= p <= n && attempt(p).Some? ==> p < attempt(p).value <= n
    ensures forall k :: 0 <= k < |ps| ==> i <= ps[k].0 < ps[k].1 <= n && attempt(ps[k].0) == Some(ps[k].1)
    ensures forall k :: 0 <= k < |ps| - 1 ==> ps[k].1 <= ps[k + 1].0
    decreases n - i
  {
    if i >= n then []
    else match attempt(i)
      case Some(e) => [(i, e)] + Findall(attempt, e, n)
      case None => Findall(attempt, i + 1, n)
  }

  /** The scan misses no match that does not overlap an earlier one: every
      position from `i` where an attempt succeeds, and which lies strictly
      inside no reported match, is reported. */
  lemma {:induction false} FindallComplete(attempt: nat -> Option<nat>, i: nat, n: nat, p: nat)
    requires i <= n
    requires forall p: nat :: i <= p <= n && attempt(p).Some? ==> p < attempt(p).value <= n
    requires i <= p <= n && attempt(p).Some?
    requires forall k :: 0 <= k < |Findall(attempt, i, n)| ==> !(Findall(attempt, i, n)[k].0 < p < Findall(attempt, i, n)[k].1)
    ensures exists k :: 0 <= k < |Findall(attempt, i, n)| && Findall(attempt, i, n)[k].0 == p
    decreases n - i
  {
    var ps := Findall(attempt, i, n);
    if i >= n {
      assert false;
    } else if attempt(i).Some? {
      var e := attempt(i).value;
      assert ps == [(i, e)] + Findall(attempt, e, n);
      if p == i {
        assert ps[0].0 == p;
      } else {
        assert p >= e by { assert !(ps[0].0 < p < ps[0].1); }
        var tail := Findall(attempt, e, n);
        forall k | 0 <= k < |tail| ensures !(tail[k].0 < p < tail[k].1) {
          assert tail[k] == ps[k + 1];
        }
        FindallComplete(attempt, e, n, p);
        var k :| 0 <= k < |tail| && tail[k].0 == p;
        assert ps[k + 1].0 == p;
      }
    } else {
      assert p != i;
      FindallComplete(attempt, i + 1, n, p);
    }
  }

  /** End of the mark-and-grade match at `p`, if there is one. */
  function MarkEnd(s: string, p: nat, minDigits: nat): (r: Option<nat>)
    requires 1 <= minDigits <= 3
    ensures r.Some? ==> p < r.value <= |s|
    ensures r.Some? <==> p <= |s| && MarkMatchAt(s, p, minDigits).Some?
    ensures r.Some? ==> MarkMatchAt(s, p, minDigits).value.0 == r.value
  {
    if p > |s| then None
    else match MarkMatchAt(s, p, minDigits)
      case Some((e, _)) => Some(e)
      case None => None
  }

  /** The match attempt of the mark-and-grade pattern, position by position. */
  function MarkAttempt(s: string, minDigits: nat): (attempt: nat -> Option<nat>)
    requires 1 <= minDigits <= 3
    ensures forall p: nat :: attempt(p) == MarkEnd(s, p, minDigits)
  {
    (p: nat) => MarkEnd(s, p, minDigits)
  }

  /** Start and end of each mark-and-grade match `findall` reports from `i`. */
  function MarkPositions(s: string, i: nat, minDigits: nat): (ps: seq<(nat, nat)>)
    requires i <= |s| && 1 <= minDigits <= 3
  {
    Findall(MarkAttempt(s, minDigits), i, |s|)
  }

  /** All non-overlapping matches from `i`, left to right: the `k`-th one is
      the match attempt at the `k`-th reported start, which ends where the
      `k`-th reported match ends. */
  function MarkMatches(s: string, i: nat, minDigits: nat): (ms: seq<MarkMatch>)
    requires i <= |s| && 1 <= minDigits <= 3
    ensures forall k :: 0 <= k < |ms| ==> WellFormedMark(ms[k], minDigits)
  {
    var attempt := MarkAttempt(s, minDigits);
    var ps := Findall(attempt, i, |s|);
    seq(|ps|, k requires 0 <= k < |ps| =>
      assert attempt(ps[k].0) == MarkEnd(s, ps[k].0, minDigits);
      MarkMatchAt(s, ps[k].0, minDigits).value.1)
  }

  /** One match per reported position: the `k`-th pair is what the attempt
      at the `k`-th reported start captures, and that attempt ends where the
      `k`-th reported match ends. */
  lemma MarkMatchesAtPositions(s: string, i: nat, minDigits: nat)
    requires i <= |s| && 1 <= minDigits <= 3
    ensures |MarkMatches(s, i, minDigits)| == |MarkPositions(s, i, minDigits)|
    ensures forall k :: 0 <= k < |MarkMatches(s, i, minDigits)| ==>
      var (p, e) := MarkPositions(s, i, minDigits)[k];
      i <= p < e <= |s| && MarkMatchAt(s, p, minDigits) == Some((e, MarkMatches(s, i, minDigits)[k]))
  {
    var attempt := MarkAttempt(s, minDigits);
    var ps := Findall(attempt, i, |s|);
    assert ps == MarkPositions(s, i, minDigits);
    forall k | 0 <= k < |ps|
      ensures MarkMatchAt(s, ps[k].0, minDigits) == Some((ps[k].1, MarkMatches(s, i, minDigits)[k]))
    {
      assert attempt(ps[k].0) == MarkEnd(s, ps[k].0, minDigits);
    }
  }

  /** The scan misses no mark-and-grade match that lies strictly inside no
      reported one. */
  lemma MarkPositionsComplete(s: string, i: nat, minDigits: nat, p: nat)
    requires i <= |s| && 1 <= minDigits <= 3
    requires i <= p <= |s| && MarkMatchAt(s, p, minDigits).Some?
    requires forall k :: 0 <= k < |MarkPositions(s, i, minDigits)| ==>
      !(MarkPositions(s, i, minDigits)[k].0 < p < MarkPositions(s, i, minDigits)[k].1)
    ensures exists k :: 0 <= k < |MarkPositions(s, i, minDigits)| && MarkPositions(s, i, minDigits)[k].0 == p
  {
    var attempt := MarkAttempt(s, minDigits);
    assert attempt(p).Some?;
    assert forall q: nat :: i <= q <= |s| && attempt(q).Some? ==> q < attempt(q).value <= |s|;
    assert MarkPositions(s, i, minDigits) == Findall(attempt, i, |s|);
    FindallComplete(attempt, i, |s|, p);
  }

  /** The marks of `re.findall(r"(\d{1,3})\s+[A-D][12]", s)`, converted with `int`. */
  function FindMarks(s: string): (marks: seq<int>)
    ensures |marks| == |MarkMatches(s, 0, 1)|
    ensures forall k :: 0 <= k < |marks| ==> 0 <= marks[k] <= 999
    ensures forall k :: 0 <= k < |marks| ==> marks[k] == DigitsValue(MarkMatches(s, 0, 1)[k].mark)
  {
    var ms := MarkMatches(s, 0, 1);
    seq(|ms|, k requires 0 <= k < |ms| => MarkValueBound(ms[k].mark); DigitsValue(ms[k].mark))
  }

  /** The pairs of `re.findall(r"(\d{2,3})\s+([A-D][1-2])", s)`. */
  function FindMarkGrades(s: string): (ms: seq<MarkMatch>)
    ensures forall k :: 0 <= k < |ms| ==> WellFormedMark(ms[k], 2)
  {
    MarkMatches(s, 0, 2)
  }

  /** The pairs are `findall`'s matches: one per reported position, each
      the groups captured there, and no match that overlaps no earlier
      one is missed. */
  lemma FindMarkGradesAtPositions(s: string)
    ensures |FindMarkGrades(s)| == |MarkPositions(s, 0, 2)|
    ensures forall k :: 0 <= k < |FindMarkGrades(s)| ==>
      var (p, e) := MarkPositions(s, 0, 2)[k];
      p < e <= |s| && MarkMatchAt(s, p, 2) == Some((e, FindMarkGrades(s)[k]))
  {
    MarkMatchesAtPositions(s, 0, 2);
  }

  // ---------------------------------------------------------------------
  // Result keyword
  // ---------------------------------------------------------------------

  predicate KeywordAt(s: string, i: nat, kw: string, ignoreCase: bool) {
    i + |kw| <= |s| && forall k :: 0 <= k < |kw| ==> (if ignoreCase then Upper(s[i + k]) else s[i + k]) == kw[k]
  }

  /** `kw` matches at `i`: with `wordBounded`, as `\b(kw)\b` under `re.I`;
      otherwise as the plain, case-sensitive `kw`. */
  predicate KeywordMatches(s: string, i: nat, kw: string, wordBounded: bool) {
    if wordBounded then
      && KeywordAt(s, i, kw, true)
      && (i == 0 || !IsWordChar(s[i - 1]))
      && (i + |kw| == |s| || !IsWordChar(s[i + |kw|]))
    else KeywordAt(s, i, kw, false)
  }

  /** The alternation tried at one position, first alternative first. */
  function KeywordMatchAt(s: string, i: nat, wordBounded: bool): (r: Option<string>)
    ensures r.Some? ==> r.value in Keywords && KeywordMatches(s, i, r.value, wordBounded)
    ensures r.None? ==> forall kw :: kw in Keywords ==> !KeywordMatches(s, i, kw, wordBounded)
  {
    if KeywordMatches(s, i, "PASS", wordBounded) then Some("PASS")
    else if KeywordMatches(s, i, "FAIL", wordBounded) then Some("FAIL")
    else if KeywordMatches(s, i, "COMP", wordBounded) then Some("COMP")
    else if KeywordMatches(s, i, "ABST", wordBounded) then Some("ABST")
    else None
  }

  /** `re.search`: the leftmost position from `i` where a keyword matches. */
  function SearchKeyword(s: string, i: nat, wordBounded: bool): (r: Option<(nat, string)>)
    requires i <= |s|
    ensures r.Some? ==> i <= r.value.0 <= |s| && KeywordMatchAt(s, r.value.0, wordBounded) == Some(r.value.1)
    ensures r.Some? ==> forall q :: i <= q < r.value.0 ==> KeywordMatchAt(s, q, wordBounded).None?
    ensures r.None? ==> forall q :: i <= q <= |s| ==> KeywordMatchAt(s, q, wordBounded).None?
    decreases |s| - i
  {
    match KeywordMatchAt(s, i, wordBounded)
    case Some(kw) => Some((i, kw))
    case None => if i == |s| then None else SearchKeyword(s, i + 1, wordBounded)
  }

  /** `result.group(1).upper() if result else ""` for
      `re.search(r"\b(PASS|FAIL|COMP|ABST)\b", s, re.I)`. */
  function ResultWordIgnoreCase(s: string): (r: string)
    ensures r == "" || r in Keywords
    ensures r == "" <==> SearchKeyword(s, 0, true).None?
  {
    match SearchKeyword(s, 0, true)
    case Some((_, kw)) => kw
    case None => ""
  }

  /** `m.group(1) if m else ""` for `re.search(r'(PASS|FAIL|COMP|ABST)', s)`. */
  function ResultKeyword(s: string): (r: string)
    ensures r == "" || r in Keywords
    ensures r == "" <==> SearchKeyword(s, 0, false).None?
  {
    match SearchKeyword(s, 0, false)
    case Some((_, kw)) => kw
    case None => ""
  }

  /** The case-insensitive, word-bounded search of the later versions finds
      a keyword wherever the plain one finds an upper-case keyword standing
      alone as a word. */
  lemma {:induction false} PlainKeywordIsWordKeyword(s: string, i: nat, kw: string)
    requires kw in Keywords && KeywordMatches(s, i, kw, false)
    requires (i == 0 || !IsWordChar(s[i - 1])) && (i + 4 == |s| || !IsWordChar(s[i + 4]))
    ensures KeywordMatches(s, i, kw, true)
  {
    forall k | 0 <= k < |kw| ensures Upper(s[i + k]) == kw[k] {
      assert s[i + k] == kw[k];
      assert 'A' <= kw[k] <= 'Z';
    }
  }

  // ---------------------------------------------------------------------
  // Tier detection from a sample line
  // ---------------------------------------------------------------------

  /** `(A[1-2]|B[1-2]|C[1-2]|D[1-2])\s+(PASS|FAIL|COMP|ABST)` matches at `i`. */
  predicate GradeThenKeywordAt(s: string, i: nat) {
    && GradeTokenAt(s, i) && i + 2 < |s| && IsSpace(s[i + 2])
    && KeywordMatchAt(s, SpaceRunEnd(s, i + 2), false).Some?
  }

  /** `bool(re.search(...))` for the pattern above. */
  predicate HasGradeThenKeyword(s: string) {
    exists i :: 0 <= i <= |s| && GradeThenKeywordAt(s, i)
  }

  /** The leftmost position from `i` to `n` where `matches` holds: the
      position loop of `re.search`. */
  function Leftmost(matches: nat -> bool, i: nat, n: nat): (r: Option<nat>)
    requires i <= n
    ensures r.Some? ==> i <= r.value <= n && matches(r.value)
    ensures r.Some? ==> forall q :: i <= q < r.value ==> !matches(q)
    ensures r.None? ==> forall q :: i <= q <= n ==> !matches(q)
    decreases n - i
  {
    if matches(i) then Some(i)
    else if i == n then None
    else Leftmost(matches, i + 1, n)
  }

  /** `re.search` for the same pattern: the leftmost match from `i`. */
  function SearchGradeThenKeyword(s: string, i: nat): Option<nat>
    requires i <= |s|
  {
    Leftmost((q: nat) => GradeThenKeywordAt(s, q), i, |s|)
  }

  /** The tier test holds exactly when the search finds a match, and the
      match found is the leftmost one. */
  lemma GradeThenKeywordSearchIff(s: string)
    ensures HasGradeThenKeyword(s) <==> SearchGradeThenKeyword(s, 0).Some?
    ensures SearchGradeThenKeyword(s, 0).Some? ==>
      var p := SearchGradeThenKeyword(s, 0).value;
      p <= |s| && GradeThenKeywordAt(s, p) && forall q :: 0 <= q < p ==> !GradeThenKeywordAt(s, q)
  {
    var f := (q: nat) => GradeThenKeywordAt(s, q);
    var r := Leftmost(f, 0, |s|);
    if r.Some? {
      assert f(r.value);
      forall q | 0 <= q < r.value ensures !GradeThenKeywordAt(s, q) {
        assert !f(q);
      }
    } else {
      forall q | 0 <= q <= |s| ensures !GradeThenKeywordAt(s, q) {
        assert !f(q);
      }
    }
  }

  datatype IsgMatch = IsgMatch(isg1: string, isg2: string, isg3: string, result: string)

  /** Three grade tokens then a keyword, each separated by `\s+`, at `i`. */
  function ThreeGradesAt(s: string, i: nat): (r: Option<IsgMatch>)
    ensures r.Some? ==> IsGrade(r.value.isg1) && IsGrade(r.value.isg2) && IsGrade(r.value.isg3)
    ensures r.Some? ==> r.value.result in Keywords
  {
    if !GradeTokenAt(s, i) || i + 2 >= |s| || !IsSpace(s[i + 2]) then None
    else
      var j := SpaceRunEnd(s, i + 2);
      if !GradeTokenAt(s, j) || j + 2 >= |s| || !IsSpace(s[j + 2]) then None
      else
        var k := SpaceRunEnd(s, j + 2);
        if !GradeTokenAt(s, k) || k + 2 >= |s| || !IsSpace(s[k + 2]) then None
        else match KeywordMatchAt(s, SpaceRunEnd(s, k + 2), false)
          case None => None
          case Some(kw) => Some(IsgMatch(s[i..i + 2], s[j..j + 2], s[k..k + 2], kw))
  }

  /** Whether the three-grade pattern matches, position by position. */
  function ThreeGradesAttempt(s: string): (matches: nat -> bool)
    ensures forall q: nat :: matches(q) == ThreeGradesAt(s, q).Some?
  {
    (q: nat) => ThreeGradesAt(s, q).Some?
  }

  /** `re.search` for the three-grade pattern: the leftmost match from `i`. */
  function SearchThreeGrades(s: string, i: nat): (r: Option<IsgMatch>)
    requires i <= |s|
    ensures r.None? ==> forall q :: i <= q <= |s| ==> ThreeGradesAt(s, q).None?
    ensures r.Some? ==> exists q :: LeftmostThreeGrades(s, i, q, r)
  {
    match Leftmost(ThreeGradesAttempt(s), i, |s|)
    case Some(q) =>
      assert LeftmostThreeGrades(s, i, q, ThreeGradesAt(s, q));
      ThreeGradesAt(s, q)
    case None => None
  }

  /** The three-grade pattern matches at `q` with groups `r`, and at no
      position between `i` and `q`. */
  predicate LeftmostThreeGrades(s: string, i: nat, q: nat, r: Option<IsgMatch>) {
    && i <= q <= |s| && ThreeGradesAt(s, q) == r
    && forall q' :: i <= q' < q ==> ThreeGradesAt(s, q').None?
  }

  /** Where the three-grade pattern matches, the one-grade pattern matches at
      its third grade token. */
  lemma ThreeGradesImplyGradeThenKeyword(s: string, i: nat)
    requires ThreeGradesAt(s, i).Some?
    ensures HasGradeThenKeyword(s)
  {
    var j := SpaceRunEnd(s, i + 2);
    var k := SpaceRunEnd(s, j + 2);
    assert GradeTokenAt(s, k) && k + 2 < |s| && IsSpace(s[k + 2]);
    assert KeywordMatchAt(s, SpaceRunEnd(s, k + 2), false).Some?;
    assert GradeThenKeywordAt(s, k);
  }

  /** The converse fails: one grade before the result is enough for the
      one-grade pattern but not for the three-grade one. */
  lemma OneGradeIsNotThreeGrades()
    ensures HasGradeThenKeyword("A1 PASS")
    ensures SearchThreeGrades("A1 PASS", 0).None?
  {
    assert GradeThenKeywordAt("A1 PASS", 0);
  }

  /** A sample without any grade token is a Grade-10 sample. */
  lemma NoGradeTokenIsNotGradeThenKeyword(s: string)
    requires forall q :: 0 <= q < |s| ==> !GradeTokenAt(s, q)
    ensures !HasGradeThenKeyword(s)
  {
  }

  /** A subject code before the result, as on a Grade-10 first line, does
      not make the sample a Grade-12 one. */
  lemma CodeThenResultIsNotGradeThenKeyword()
    ensures !HasGradeThenKeyword("041 PASS")
  {
    var s := "041 PASS";
    forall q | 0 <= q < |s| ensures !GradeTokenAt(s, q) {
      assert s[q] !in "ABCD" || s[q + 1] !in "12";
    }
    NoGradeTokenIsNotGradeThenKeyword(s);
  }

  // ---------------------------------------------------------------------
  // The record header: `re.match(r"^(\d{8})\s+([MF])\s+(.*?)\s+(\d{3})", s)`
  // ---------------------------------------------------------------------

  datatype Header = Header(roll: string, gender: string, name: string)

  /** `\s+(\d{3})` matches at `q`. The space run is taken greedily; a shorter
      one would leave a space where a digit is needed. */
  predicate CodeAfterSpaces(s: string, q: nat) {
    q < |s| && IsSpace(s[q]) && var r := SpaceRunEnd(s, q);
    r + 3 <= |s| && IsDigit(s[r]) && IsDigit(s[r + 1]) && IsDigit(s[r + 2])
  }

  /** The lazy `(.*?)` starting at `q`: the first end position after which
      `\s+\d{3}` matches; `.` does not cross a newline. */
  function LazyNameEnd(s: string, q: nat): (r: Option<nat>)
    requires q <= |s|
    ensures r.Some? ==> q <= r.value < |s| && CodeAfterSpaces(s, r.value)
    ensures r.Some? ==> forall k :: q <= k < r.value ==> !CodeAfterSpaces(s, k) && s[k] != '\n'
    decreases |s| - q
  {
    if CodeAfterSpaces(s, q) then Some(q)
    else if q == |s| || s[q] == '\n' then None
    else LazyNameEnd(s, q + 1)
  }

  /** Backtracking into the `\s+` before the name: the name may start
      anywhere from `start` back down to `lo`, latest first. */
  function NameSpan(s: string, start: nat, lo: nat): (r: Option<(nat, nat)>)
    requires lo <= start <= |s|
    ensures r.Some? ==> lo <= r.value.0 <= r.value.1 < |s| && LazyNameEnd(s, r.value.0) == Some(r.value.1)
    decreases start
  {
    match LazyNameEnd(s, start)
    case Some(q) => Some((start, q))
    case None => if start > lo then NameSpan(s, start - 1, lo) else None
  }

  /** The header match: roll, gender and the stripped name group. The space
      run after the roll is taken greedily, because a shorter one would
      leave a space where `[MF]` is needed. */
  function HeaderMatch(s: string): (r: Option<Header>)
    ensures r.Some? ==> StartsWith8Digits(s) && r.value.roll == s[..8]
    ensures r.Some? ==> r.value.gender == "M" || r.value.gender == "F"
  {
    if !StartsWith8Digits(s) then None
    else
      var k := SpaceRunEnd(s, 8);
      if k == 8 || k + 1 >= |s| || (s[k] != 'M' && s[k] != 'F') || !IsSpace(s[k + 1]) then None
      else match NameSpan(s, SpaceRunEnd(s, k + 1), k + 2)
        case None => None
        case Some((a, b)) => Some(Header(s[..8], [s[k]], Strip(s[a..b])))
  }

  /** No `\s+\d{3}` starts inside the name, judged on the name alone. */
  predicate NoCodeInName(name: string) {
    forall q :: 0 <= q < |name| && IsSpace(name[q]) ==>
      var r := SpaceRunEnd(name, q);
      !(r + 3 <= |name| && IsDigit(name[r]) && IsDigit(name[r + 1]) && IsDigit(name[r + 2]))
  }

  /** `name` sits in `s` at offset `a`. */
  predicate PlacedAt(s: string, a: nat, name: string) {
    a + |name| <= |s| && forall k :: 0 <= k < |name| ==> s[a + k] == name[k]
  }

  /** A space run inside `name` (whose last character is not a space) ends
      at the same place whether measured in `name` or in the whole line. */
  lemma {:induction false} SpaceRunEndShift(s: string, a: nat, name: string, q: nat)
    requires PlacedAt(s, a, name) && q < |name| && !IsSpace(name[|name| - 1])
    ensures SpaceRunEnd(s, a + q) == a + SpaceRunEnd(name, q)
    decreases |name| - q
  {
    assert s[a + q] == name[q];
    if IsSpace(name[q]) {
      SpaceRunEndShift(s, a, name, q + 1);
    }
  }

  /** Reading the lazy name from its first character reaches exactly the
      space before the first code. */
  lemma {:induction false} LazyNameEndOverName(s: string, a: nat, name: string, q: nat)
    requires PlacedAt(s, a, name) && q <= |name|
    requires name != [] && !IsSpace(name[|name| - 1])
    requires NoCodeInName(name) && forall k :: 0 <= k < |name| ==> name[k] != '\n'
    requires a + |name| + 4 <= |s| && s[a + |name|] == ' '
    requires IsDigit(s[a + |name| + 1]) && IsDigit(s[a + |name| + 2]) && IsDigit(s[a + |name| + 3])
    ensures LazyNameEnd(s, a + q) == Some(a + |name|)
    decreases |name| - q
  {
    if q == |name| {
      assert SpaceRunEnd(s, a + |name| + 1) == a + |name| + 1;
      assert CodeAfterSpaces(s, a + q);
    } else {
      assert s[a + q] == name[q];
      NoCodeInsideName(s, a, name, q);
      LazyNameEndOverName(s, a, name, q + 1);
    }
  }

  /** Inside the name, `\s+\d{3}` never matches: a space run there ends
      before three digits are seen, or runs into the single space that
      follows the name. */
  lemma NoCodeInsideName(s: string, a: nat, name: string, q: nat)
    requires PlacedAt(s, a, name) && q < |name|
    requires !IsSpace(name[|name| - 1]) && NoCodeInName(name)
    requires a + |name| + 4 <= |s| && s[a + |name|] == ' '
    ensures !CodeAfterSpaces(s, a + q)
  {
    assert s[a + q] == name[q];
    if IsSpace(name[q]) {
      SpaceRunEndShift(s, a, name, q);
      var r := SpaceRunEnd(name, q);
      if r + 3 <= |name| {
        assert s[a + r] == name[r] && s[a + r + 1] == name[r + 1] && s[a + r + 2] == name[r + 2];
      } else if r + 1 == |name| {
        assert !IsDigit(s[a + r + 1]);
      } else {
        assert !IsDigit(s[a + r + 2]);
      }
    }
  }

  /** The header match on a line whose layout is given position by position. */
  lemma HeaderOnLayout(s: string, name: string)
    requires StartsWith8Digits(s) && |s| >= 11 && s[8] == ' ' && (s[9] == 'M' || s[9] == 'F') && s[10] == ' '
    requires name != [] && !IsSpace(name[0]) && !IsSpace(name[|name| - 1])
    requires NoCodeInName(name) && forall k :: 0 <= k < |name| ==> name[k] != '\n'
    requires PlacedAt(s, 11, name) && 15 + |name| <= |s| && s[11 + |name|] == ' '
    requires IsDigit(s[12 + |name|]) && IsDigit(s[13 + |name|]) && IsDigit(s[14 + |name|])
    ensures HeaderMatch(s) == Some(Header(s[..8], [s[9]], name))
  {
    var n := |name|;
    assert SpaceRunEnd(s, 8) == 9;
    assert SpaceRunEnd(s, 10) == 11 by { assert s[11] == name[0]; }
    LazyNameEndOverName(s, 11, name, 0);
    assert NameSpan(s, 11, 11) == Some((11, 11 + n));
    assert s[11..11 + n] == name;
    StripUnchanged(name);
  }

  /** Round trip: a line laid out as roll, gender, name and codes, with
      single spaces, gives back that roll, gender and name. */
  lemma HeaderRoundTrip(roll: string, g: char, name: string, code: string, rest: string)
    requires |roll| == 8 && AllDigits(roll) && (g == 'M' || g == 'F')
    requires name != [] && !IsSpace(name[0]) && !IsSpace(name[|name| - 1])
    requires NoCodeInName(name) && forall k :: 0 <= k < |name| ==> name[k] != '\n'
    requires |code| == 3 && AllDigits(code)
    ensures HeaderMatch(roll + " " + [g] + " " + name + " " + code + rest) == Some(Header(roll, [g], name))
  {
    var head := roll + " " + [g] + " ";
    var tail := name + " " + code + rest;
    var s := head + tail;
    assert roll + " " + [g] + " " + name + " " + code + rest == s;
    var n := |name|;
    assert |head| == 11;
    assert s[..8] == head[..8] == roll;
    assert s[8] == head[8] == ' ' && s[9] == head[9] == g && s[10] == head[10] == ' ';
    assert PlacedAt(s, 11, name) by {
      forall k | 0 <= k < n ensures s[11 + k] == name[k] {
        assert s[11 + k] == tail[k];
      }
    }
    assert s[11 + n] == tail[n] == ' ';
    assert s[12 + n] == tail[n + 1] == code[0];
    assert s[13 + n] == tail[n + 2] == code[1];
    assert s[14 + n] == tail[n + 3] == code[2];
    HeaderOnLayout(s, name);
  }

  // ---------------------------------------------------------------------
  // Administrative lines skipped by the first three versions
  // ---------------------------------------------------------------------

  /** `^W\s+c`: the word `w`, a space run, then the character `c`. */
  predicate WordSpacesThen(s: string, w: string, c: char) {
    StartsWith(s, w) && |s| > |w| && IsSpace(s[|w|]) && var e := SpaceRunEnd(s, |w|); e < |s| && s[e] == c
  }

  /** `^SCHOOL\s+:\s+-` */
  predicate SchoolBanner(s: string) {
    WordSpacesThen(s, "SCHOOL", ':') && var e := SpaceRunEnd(s, 6) + 1;
    e < |s| && IsSpace(s[e]) && var f := SpaceRunEnd(s, e); f < |s| && s[f] == '-'
  }

  predicate AllDashes(s: string) {
    |s| >= 1 && forall k :: 0 <= k < |s| ==> s[k] == '-'
  }

  /** `^-+$`, where `$` also matches before a final newline. */
  predicate DashLine(s: string) {
    AllDashes(s) || (|s| >= 2 && s[|s| - 1] == '\n' && AllDashes(s[..|s| - 1]))
  }

  /** Any of the nine skip patterns, in the source's order. */
  predicate IsSkipLine(s: string) {
    || StartsWith(s, "DATE:-")
    || WordSpacesThen(s, "ROLL", 'F')
    || WordSpacesThen(s, "NO", 'L')
    || DashLine(s)
    || SchoolBanner(s)
    || StartsWith(s, "TOTAL CANDIDATES")
    || StartsWith(s, "\U{000C}")
    || s == "" || s == "\n"
    || StartsWith(s, "REGION:")
  }

  /** No skip pattern can match a line that starts with eight digits, so
      "skip pattern or no eight digits" is the same test as "no eight
      digits". */
  lemma SkipLinesAreNotRecordLines(s: string)
    requires IsSkipLine(s)
    ensures !StartsWith8Digits(s)
  {
    if |s| >= 8 {
      assert s[..8][0] == s[0];
      assert !IsDigit(s[0]) by {
        if StartsWith(s, "DATE:-") { assert s[..6][0] == s[0]; }
        else if WordSpacesThen(s, "ROLL", 'F') { assert s[..4][0] == s[0]; }
        else if WordSpacesThen(s, "NO", 'L') { assert s[..2][0] == s[0]; }
        else if DashLine(s) { assert s[..|s| - 1][0] == s[0]; }
        else if SchoolBanner(s) { assert s[..6][0] == s[0]; }
        else if StartsWith(s, "TOTAL CANDIDATES") { assert s[..16][0] == s[0]; }
        else if StartsWith(s, "\U{000C}") { assert s[..1][0] == s[0]; }
        else { assert s[..7][0] == s[0]; }
      }
    }
  }

  /** A stripped line never begins with a form feed, so the `^\f` pattern
      never fires on the lines the loops test. */
  lemma FormFeedNeverSeenAfterStrip(s: string)
    ensures !StartsWith(Strip(s), "\U{000C}")
  {
  }
}
