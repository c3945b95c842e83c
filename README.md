# CBSE result bulletin parser — a Dafny model

The modelled program is a small desktop tool that reads a CBSE (Central
Board of Secondary Education) result bulletin for one school. The bulletin
is a fixed-layout text file with two lines per student. The first line
holds the roll number, gender, name, the three-digit subject codes and the
result keyword (`PASS`, `FAIL`, `COMP`, `ABST`). The second line holds each
subject's mark and positional grade (`A1` … `D2`). The tool turns the
bulletin into a workbook: one row per student, with per-subject marks,
totals, percentages and dense ranks, plus a per-subject summary (highest,
lowest, average, distinctions at 75 or more, centuries).

The repository holds five successive versions of the tool. All five are
modelled, version by version, on top of shared modules:

- `Chars`, `Strings` — Python's `str.isspace` set, `strip()`, `int()` and
  `str()` on naturals, `str.replace(pat, "")`, and string ordering for
  `sorted(set(...))`.
- `Patterns` — hand-written scanners for every fixed regular expression
  the versions use: the record-line test, the header match with its lazy
  name group, `\b\d{3}\b`, both mark/grade patterns, the result-keyword
  searches, the three-grade Grade-12 test and the nine skip patterns.
  The scanners come with lemmas that tie what they report to the match
  attempt at each position: every reported match is a match, a search
  returns the leftmost match, and a `findall` scan misses no match that
  does not overlap an earlier one.
- `OrderedDict` — a Python `dict` as a sequence of key/value pairs.
  Overwriting a key keeps its position; a new key goes at the end.
- `Stats`, `Ranking`, `Summary` — sums, means, the top-five selection,
  `rank(method="dense", ascending=False)`, and the summary statistics.
- `SubjectMaps` — the subject tables and main-subject sets of each version.
- `App` — the tkinter application's state: whether a file was chosen,
  the sample line, the tier and the subject count.
- `Ver1`, `Ver2` + `Ver2Sheet`, `Ver3` — the parsers of `Result_Soft.py`,
  `Result_Soft_ver_2.py` and `Result_Soft_ver_3.py`.
- `Engine45` — the scan loop and sheet builder shared by
  `Result_Soft_ver_4.py` and `Result_Soft_ver_5.py`. The two versions
  differ only in constants and in whether a distinction percentage is
  computed.
- `Ver4`, `Ver5` — these instantiate the engine and model each version's
  sample validation.

Each version's cursor loop over the bulletin is a `method` with a `while`
loop. It is proved equal to a recursive specification function `Scan`.
Each row-filling `for` loop is a method proved equal to an ordered-dict
fold. All properties are proved about those functions. Inputs are the
lines already read from the file. The tier is a Boolean.

Two consequences of the code are worth stating:

- Marks are taken from up to three digits. Percentages and means are
  therefore bounded by 999, not by 100.
- In `Result_Soft_ver_3.py`, several fixed column names do not match any
  key the rows carry, so those columns never appear on the sheet:
  - every `-G` grade column;
  - the Grade-12 columns `ACC-054`, `BST-055`, `IP--065` and `Percentage`;
  - the Grade-10 columns `MAT-041`, `MAT-241` and `IT--402`.

  The model keeps the code's lists and proves that these columns are
  absent.

## Model

| member | source | states |
|---|---|---|
| App.CBSEParserApp.constructor | Result_Soft.py:37-40 | a new window has no file, an empty sample line, the Grade-10 tier and six subjects |
| App.CBSEParserApp.SelectFile | Result_Soft.py:61-65 | a file stays chosen once picked; cancelling the dialog changes nothing; the sample and tier are untouched |
| App.CBSEParserApp.HandleSample | Result_Soft.py:67-75 | for a given tier test: the sample is stored stripped; it is accepted exactly when a file is chosen and the stripped sample is non-empty; on acceptance the tier follows the sample test and the subject count is 5 for Grade 12, else 6; on refusal the tier and count are kept |
| Ver1.HandleSample | Result_Soft.py:67-78 | the first version's sample handler: same acceptance condition; Grade 12 exactly when the sample has three grades followed by a result keyword; subject count 5 for Grade 12, else 6; on refusal tier and count are kept |
| Ver2.HandleSample | Result_Soft_ver_2.py:88-96 | the second version's sample handler: same acceptance condition; Grade 12 exactly when some grade token `[A-D][12]` is followed, after white space, by a result keyword; subject count 5 for Grade 12, else 6; on refusal tier and count are kept |
| Ver3.HandleSample | Result_Soft_ver_3.py:142-151 | the third version's sample handler, with the same tier test and the same guarantees as the second version's |
| Chars.Strip | Result_Soft.py:124-125 | the result of `strip()` neither starts nor ends with whitespace and is no longer than the input |
| Chars.StripSlice | Result_Soft.py:124-125 | the stripped line is the input with its longest whitespace prefix and longest whitespace suffix cut off, and nothing else changed |
| Chars.StripIdempotent | Result_Soft_ver_5.py:291 | stripping an already stripped line changes nothing |
| Chars.Upper | Result_Soft_ver_5.py:322 | `upper()` on ASCII: the result is a capital exactly when the input is a letter, and any character that is not a lower-case letter is unchanged |
| Chars.DigitsValue | Result_Soft_ver_5.py:311 | `int()` of an n-digit run is below 10^n |
| Chars.MarkValueBound | Result_Soft_ver_5.py:311 | a mark of one to three digits is between 0 and 999 |
| Chars.NatToString | Result_Soft.py:167-170 | `str(n)` is a non-empty digit string with no leading zero unless n is 0 |
| Chars.NatToStringRoundTrip | Result_Soft.py:167-170 | `int(str(n)) == n` |
| Chars.NatToStringInjective | Result_Soft.py:167-170 | different numbers give different strings, so the numbered column labels are distinct |
| Strings.RemoveAll | Result_Soft_ver_2.py:184 | `replace(pat, "")` never makes the string longer |
| Strings.RemoveAbsent | Result_Soft_ver_2.py:184 | a string that does not contain the pattern is left unchanged |
| Strings.SortedSet | Result_Soft_ver_2.py:184 | `sorted(set(xs))` is strictly increasing and holds exactly the elements of xs |
| Strings.LessTransitive | Result_Soft_ver_2.py:184 | Python's string order is transitive (with `LessIrreflexive` and `LessTotal`, a strict total order) |
| Strings.SortedUnique | Result_Soft_ver_2.py:184 | two strictly sorted lists with the same elements are equal, so the sorted subject list depends only on the set of subjects |
| Patterns.CodePositions | Result_Soft_ver_5.py:310 | every reported position starts a word-bounded three-digit run; positions increase by at least three |
| Patterns.FindCodes | Result_Soft_ver_5.py:310 | `findall(r"\b\d{3}\b")`: one code per reported match, in order; the `k`-th code is the three digits of the line at the `k`-th reported position |
| Patterns.CodePositionsComplete | Result_Soft_ver_5.py:310 | every word-bounded three-digit run at or after the start is reported |
| Patterns.RollIsNotACode | Result_Soft_ver_5.py:310 | on a line that starts with eight digits, no code is found before position 9, so the roll number is never read as a subject code |
| Patterns.Findall | Result_Soft_ver_5.py:311 | the `re.findall` scan over the match attempt at each position: every reported start is a match whose end is the one reported, reported matches are in order and do not overlap |
| Patterns.FindallComplete | Result_Soft_ver_5.py:311 | the scan misses no match: every position where an attempt succeeds and which lies strictly inside no reported match is reported |
| Patterns.MarkEnd | Result_Soft_ver_5.py:311 | the mark-and-grade pattern ends at a position exactly when its attempt there succeeds, and the end lies after the start, within the line |
| Patterns.MarkMatches | Result_Soft_ver_5.py:311 | every match of `(\d{1,3})\s+[A-D][12]` is well formed: a digit run of the allowed length followed by whitespace and a grade token |
| Patterns.MarkMatchesAtPositions | Result_Soft_ver_5.py:311 | one captured pair per reported match: the `k`-th pair is what the attempt at the `k`-th reported start captures, and that attempt ends at the `k`-th reported end |
| Patterns.MarkPositionsComplete | Result_Soft_ver_5.py:311 | every position where the mark-and-grade pattern matches, and which lies strictly inside no reported match, is reported |
| Patterns.FindMarks | Result_Soft_ver_5.py:311 | one mark per match, each between 0 and 999, the `k`-th being the integer value of the `k`-th match's digits |
| Patterns.FindMarkGrades | Result_Soft_ver_3.py:200 | `(\d{2,3})\s+([A-D][1-2])`: each pair has a two- or three-digit mark and a grade token |
| Patterns.FindMarkGradesAtPositions | Result_Soft_ver_3.py:200 | one pair per reported match of the two-digit-minimum pattern: the `k`-th pair is what the attempt at the `k`-th reported start captures, ending at the `k`-th reported end |
| Patterns.KeywordMatchAt | Result_Soft_ver_5.py:321 | a keyword is returned exactly when one of the four keywords occurs at the position |
| Patterns.SearchKeyword | Result_Soft_ver_5.py:321 | `re.search` semantics: the leftmost matching position, and none exactly when no position matches |
| Patterns.ResultWordIgnoreCase | Result_Soft_ver_5.py:321-322 | the result is `""` exactly when no word-bounded keyword occurs in any letter case; otherwise it is one of the four keywords in capitals |
| Patterns.ResultKeyword | Result_Soft_ver_3.py:206-207 | the case-sensitive search gives `""` exactly when no keyword occurs; otherwise one of the four keywords |
| Patterns.PlainKeywordIsWordKeyword | Result_Soft_ver_5.py:321 | a stand-alone capitalised keyword found by the earlier versions' search is also found by the later versions' search |
| Patterns.ThreeGradesAt | Result_Soft.py:142 | a match carries three grade tokens and a result keyword |
| Patterns.Leftmost | Result_Soft.py:73 | the `re.search` position loop: the position returned matches and no earlier one does; none exactly when no position matches |
| Patterns.SearchThreeGrades | Result_Soft.py:73 | none exactly when no position matches the three-grade pattern; otherwise the groups of the match at the leftmost matching position |
| Patterns.ThreeGradesImplyGradeThenKeyword | Result_Soft_ver_2.py:93 | every sample the first version calls Grade 12 is also Grade 12 for the second and third versions |
| Patterns.OneGradeIsNotThreeGrades | Result_Soft_ver_2.py:93 | the converse fails: `A1 PASS` is Grade 12 for the second and third versions but not for the first |
| Patterns.GradeThenKeywordSearchIff | Result_Soft_ver_2.py:93 | `bool(re.search(...))` for the grade-then-keyword pattern holds exactly when the leftmost search finds a position, and the position found is the leftmost match |
| Patterns.NoGradeTokenIsNotGradeThenKeyword | Result_Soft_ver_2.py:93 | a sample with no grade token is a Grade-10 sample |
| Patterns.CodeThenResultIsNotGradeThenKeyword | Result_Soft_ver_3.py:148 | a subject code followed by the result, as on a Grade-10 line, is not taken for a Grade-12 sample |
| Patterns.LazyNameEnd | Result_Soft_ver_5.py:304 | the lazy name group `(.*?)` ends at the first place where spaces and a three-digit code follow |
| Patterns.NameSpan | Result_Soft_ver_5.py:304 | the name group is the shortest one for which the rest of the header pattern matches |
| Patterns.HeaderMatch | Result_Soft_ver_5.py:304-309 | a header match means the line starts with eight digits; the roll number is those digits and the gender is M or F |
| Patterns.HeaderOnLayout | Result_Soft_ver_5.py:304-309 | on a line laid out as roll, gender, name and code separated by spaces, the match returns that roll, that gender and the name |
| Patterns.HeaderRoundTrip | Result_Soft_ver_5.py:304-309 | composing a record line from its parts and matching it gives the parts back |
| Patterns.SkipLinesAreNotRecordLines | Result_Soft_ver_3.py:182-191 | no skip pattern matches a line that starts with eight digits, so the skip list adds nothing to the record-line test |
| Patterns.FormFeedNeverSeenAfterStrip | Result_Soft_ver_3.py:183-188 | the `^\f` skip pattern never fires, because a stripped line never starts with a form feed |
| OrderedDict.Get | Result_Soft_ver_5.py:318 | `dict.get`: none exactly when the key is absent; otherwise the value stored under it |
| OrderedDict.Put | Result_Soft_ver_5.py:319 | `d[k] = v`: k then holds v; an existing key keeps its place, a new key goes at the end |
| OrderedDict.PutOther | Result_Soft_ver_5.py:319 | an assignment leaves every other key's value as it was |
| OrderedDict.PutDistinct | Result_Soft_ver_5.py:319 | a dict never holds a key twice |
| OrderedDict.PutAllGet | Result_Soft_ver_5.py:317-319 | after a run of assignments, each key holds the value of its last assignment, or its earlier value if it was never assigned |
| OrderedDict.PutAllKeys | Result_Soft_ver_5.py:317-319 | the keys, in order, are the assigned keys in order of first assignment |
| OrderedDict.Restrict | Result_Soft_ver_5.py:326 | keeps exactly the keys that are in the given set, and never adds entries |
| OrderedDict.RestrictPutAll | Result_Soft_ver_5.py:317-326 | filtering a built dict equals building it from the filtered assignments |
| OrderedDict.PutAllAppend | Result_Soft_ver_5.py:313-322 | two batches of assignments have the same effect as one batch |
| OrderedDict.PutAllValuesFrom | Result_Soft_ver_5.py:319 | every value in a built dict is one that was assigned |
| OrderedDict.MiddleWins | Result_Soft_ver_2.py:153-176 | a value assigned in a middle batch survives when no later assignment has that key |
| Stats.SumBounds | Result_Soft_ver_5.py:326-327 | n values between lo and hi sum to between n·lo and n·hi |
| Stats.MeanBounds | Result_Soft_ver_5.py:329 | the mean of a non-empty list of bounded values is within the same bounds |
| Stats.SortDesc | Result_Soft_ver_5.py:333 | `sorted(reverse=True)` is descending, a permutation of its input, and has the same sum |
| Stats.Top5 | Result_Soft_ver_5.py:333 | `[:5]` of the descending sort keeps min(5, n) values |
| Stats.Top5Largest | Result_Soft_ver_5.py:333 | the kept values are drawn from the input; no value left out exceeds a kept one; with five or fewer values, all are kept |
| Stats.Top5SumAtMostSum | Result_Soft_ver_5.py:333-336 | over non-negative marks, the top-five total never exceeds the total |
| Ranking.DenseRank | Result_Soft_ver_5.py:344-351 | every dense rank is at least 1 |
| Ranking.DenseRanks | Result_Soft_ver_5.py:344-351 | the rank column has one entry per row, the dense rank of that row's value |
| Ranking.RankOneIffMaximum | Result_Soft_ver_5.py:344-351 | rank 1 exactly for the largest value |
| Ranking.LargerValueBetterRank | Result_Soft_ver_5.py:344-351 | a strictly larger value gets a strictly smaller rank |
| Ranking.SameRankIffSameValue | Result_Soft_ver_5.py:344-351 | two present values share a rank exactly when they are equal |
| Ranking.RankAtMostDistinctCount | Result_Soft_ver_5.py:344-351 | no rank exceeds the number of distinct values |
| Ranking.RanksHaveNoGaps | Result_Soft_ver_5.py:344-351 | below every rank r > 1 there is a value ranked r − 1 |
| Ranking.RankImage | Result_Soft_ver_5.py:344-351 | every rank from 1 to the number of distinct values is given to some value |
| Ranking.RankOrderIndependent | Result_Soft_ver_5.py:344-351 | ranks depend only on the multiset of values, not on row order |
| Summary.Highest | Result_Soft_ver_5.py:385 | none exactly when no row has a mark; otherwise a present mark no smaller than any other |
| Summary.Lowest | Result_Soft_ver_5.py:386 | none exactly when no row has a mark; otherwise a present mark no larger than any other |
| Summary.CountAtLeast | Result_Soft_ver_5.py:388 | never more than the number of marks present |
| Summary.CountEqual | Result_Soft_ver_5.py:389 | never more than the number of marks present |
| Summary.HighestAtLeastLowest | Result_Soft_ver_5.py:385-386 | the lowest mark never exceeds the highest |
| Summary.CountAtLeastMonotone | Result_Soft_ver_5.py:388 | a higher threshold never counts more rows |
| Summary.CountEqualAtMostCountAtLeast | Result_Soft_ver_5.py:388-389 | rows equal to a value are no more than rows at or above it |
| Summary.CenturiesWithinDistinctions | Result_Soft_ver_5.py:388-389 | centuries ≤ distinctions ≤ number of rows |
| Summary.DistinctionPercentBounds | Result_Soft_ver_4.py:355 | the distinction percentage is between 0 and 100 |
| Summary.AverageBetween | Result_Soft_ver_5.py:387 | the average lies between the lowest and highest mark |
| SubjectMaps.SharedCodes | Result_Soft_ver_5.py:13-39 | 041 is the only code in both the Grade-10 and Grade-12 tables |
| SubjectMaps.Grade12V4IsPartOfV5 | Result_Soft_ver_4.py:24-35 | the fourth version's Grade-12 table is the fifth's without 027, 028, 029 and 049, with the same labels |
| SubjectMaps.Main10AreLabels | Result_Soft_ver_5.py:44-48 | every Grade-10 main subject is a label of the Grade-10 table |
| Engine45.PrepareLines | Result_Soft_ver_5.py:291 | every kept line is stripped and non-empty, and there are no more lines than were read |
| Engine45.PrepareLinesKeeps | Result_Soft_ver_5.py:291 | a line is kept exactly when it is the stripped form of a read line and non-empty |
| Engine45.Assignments | Result_Soft_ver_5.py:316-319 | min(#codes, #marks) assignments; the j-th sets the j-th code's label (table label or `SUB-` + code) to the j-th mark |
| Engine45.FillSubjects | Result_Soft_ver_5.py:313-319 | the `for j in range(...)` loop yields the dict built from those assignments, in order |
| Engine45.ParseRecords | Result_Soft_ver_5.py:294-340 | the cursor loop's records equal the scan specification from line 0 |
| Engine45.WindowRecordAccepts | Result_Soft_ver_5.py:300-322 | a window gives a record exactly when the first line starts with eight digits and whitespace and the header matches; the record carries that roll and gender, and a result that is `""` or a capitalised keyword |
| Engine45.ScanRecordsFromWindows | Result_Soft_ver_5.py:295-340 | every record comes from a window of two adjacent lines at or after the cursor; the last line never starts a record |
| Engine45.ScanUsesTwoLinesPerRecord | Result_Soft_ver_5.py:295-340 | there are at most half as many records as lines |
| Engine45.SubjectRowValues | Result_Soft_ver_5.py:316-319 | each label holds the mark of its last assignment; the row has at most min(#codes, #marks) subjects and no repeated label |
| Engine45.TotalsIgnoreUnknownCodes | Result_Soft_ver_5.py:325-326 | the Grade-12 values are the marks under table labels; `SUB-` entries are not counted |
| Engine45.SubjectRowBounded | Result_Soft_ver_5.py:311-319 | every mark in a row is between 0 and 999 |
| Engine45.PercentBounds | Result_Soft_ver_5.py:329 | the percentage is 0 when there are no values, and otherwise between 0 and 999 |
| Engine45.Grade12TotalsBounds | Result_Soft_ver_5.py:325-329 | the total is non-negative and the percentage is between 0 and 999 |
| Engine45.Grade10TotalsBounds | Result_Soft_ver_5.py:331-337 | Main Total ≥ 0; Main % and Top 5 % lie between 0 and 999; Top 5 Total is at most the sum of the table marks |
| Engine45.Top5Bounds | Result_Soft_ver_5.py:333-337 | the top-five total is between 0 and the full total; Top 5 % is between 0 and 999 |
| Engine45.SelectColumns | Result_Soft_ver_5.py:372 | a wanted column is kept exactly when the frame has it, and nothing else is added |
| Engine45.SelectColumnsAppend | Result_Soft_ver_5.py:372 | filtering a concatenation is the concatenation of the filtered parts, so list order is kept |
| Engine45.SubjectColumns | Result_Soft_ver_5.py:378 | exactly the sheet's columns whose name contains `-`, in order |
| Engine45.ParseAndSave | Result_Soft_ver_5.py:289-398 | the method's workbook equals the output specification for the read lines |
| Engine45.WorkbookShape | Result_Soft_ver_5.py:342-372 | one row per record; every row fits the columns; every rank cell is the dense rank of that row's score |
| Engine45.ColumnsPresent | Result_Soft_ver_5.py:342-372 | an empty bulletin gives no columns; otherwise every wanted identity, result and rank column is on the sheet |
| Engine45.NoUnknownSubjectColumns | Result_Soft_ver_5.py:354-372 | when no `SUB-` name is wanted, none is on the sheet |
| Engine45.SummaryFacts | Result_Soft_ver_5.py:378-389 | every summary line is about a sheet column containing `-`; centuries ≤ distinctions ≤ rows; lowest ≤ highest; the distinction percentage is between 0 and 100 |
| Ver1.MarkGradeCells | Result_Soft.py:160-161 | mark and grade cells come in pairs, two per subject, in order |
| Ver1.BuildRow | Result_Soft.py:157-162 | the loop of `row +=` steps builds the specified row |
| Ver1.ReadWindow | Result_Soft.py:124-162 | the loop body's decision and row equal the window classification |
| Ver1.ParseRecords | Result_Soft.py:120-165 | the cursor loop's rows equal the scan specification from line 0 |
| Ver1.Numbered | Result_Soft.py:167-169 | `[f"Sub{i+1}" ...]`: the k-th label is the prefix followed by `str(k+1)` |
| Ver1.MarkGradeColumns | Result_Soft.py:170 | `Marks<k>` and `Grade<k>` in pairs for every subject |
| Ver1.ParseAndSave | Result_Soft.py:111-174 | the method's sheet equals the output specification for the app's tier |
| Ver1.ClassifyIff | Result_Soft.py:127-155 | skip (+1) exactly when the line lacks eight leading digits; a record exactly when the header matches, Grade 12 also finds three grades and a keyword, and there are enough codes and mark/grade pairs |
| Ver1.RecordLayout | Result_Soft.py:157-171 | the k-th code sits under `Sub<k+1>`, the k-th mark and grade under `Marks<k+1>` and `Grade<k+1>`, and the result keyword (or `""` for Grade 10) last |
| Ver1.RowLayout | Result_Soft.py:157-162 | the row is identity, codes, the three internal grades for Grade 12, mark/grade pairs and the result |
| Ver1.ColumnsLayout | Result_Soft.py:167-171 | the column list follows the same layout as the row |
| Ver1.RowsFitColumns | Result_Soft.py:157-173 | every row has as many cells as there are columns: 4 + 3n, plus 3 for Grade 12 |
| Ver1.ScanRowsFromWindows | Result_Soft.py:123-165 | every row comes from a window of two adjacent lines |
| Ver2.FillRow | Result_Soft_ver_2.py:153-160 | the loop yields the dict built from identity and subject assignments, and the list of scores |
| Ver2.BuildRow | Result_Soft_ver_2.py:153-176 | the loop and the `row.update` give the specified row |
| Ver2.CodesRead | Result_Soft_ver_2.py:141 | `[:subject_count]`: the first min(#found, n) codes, in order |
| Ver2.ReadWindow | Result_Soft_ver_2.py:129-176 | the loop body's decision equals the window classification |
| Ver2.ParseRecords | Result_Soft_ver_2.py:128-179 | the cursor loop's rows equal the scan specification |
| Ver2.ClassifyIff | Result_Soft_ver_2.py:131-146 | skip exactly without eight leading digits; a row exactly when the header matches and there are at least n codes and n pairs |
| Ver2.EmittedRow | Result_Soft_ver_2.py:135-176 | an emitted row is built from the matched header, the first n codes, the pairs of the second line and the result keyword |
| Ver2.ScanRowsFromWindows | Result_Soft_ver_2.py:128-179 | every row comes from a window of two adjacent lines |
| Ver2.ScanLength | Result_Soft_ver_2.py:128-179 | at most half as many rows as lines |
| Ver2.TableNameShapes | Result_Soft_ver_2.py:11-33 | every table subject name ends like a mark column and contains no `" G"` |
| Ver2.NameShapes | Result_Soft_ver_2.py:151 | the same holds for every subject name, including the `Sub<idx+1>` fallback |
| Ver2.GradeKeyShape | Result_Soft_ver_2.py:158 | a grade key ends in `Grade`, so it never looks like a mark name; different names give different grade keys |
| Ver2.GradeKeyRoundTrip | Result_Soft_ver_2.py:158-184 | `(s + " Grade").replace(" Grade", "") == s` for every subject name s |
| Ver2.AggregateKeysDistinct | Result_Soft_ver_2.py:165-176 | the aggregate keys of each tier are pairwise distinct |
| Ver2.AssignmentsAt | Result_Soft_ver_2.py:156-160 | position idx writes the grade key and then the mark under the idx-th subject name |
| Ver2.AssignmentKeys | Result_Soft_ver_2.py:156-160 | the keys written are exactly the subject names and grade keys of the codes read |
| Ver2.KeysOfRow | Result_Soft_ver_2.py:153-176 | a row's keys are exactly identity, aggregate, subject-name and grade-key columns |
| Ver2.SubjectCells | Result_Soft_ver_2.py:156-160 | the mark is under the subject name and the grade under its grade key, unless a later code has the same name |
| Ver2.NoAggregateIsSubject | Result_Soft_ver_2.py:162-176 | no aggregate entry overwrites a subject or grade cell |
| Ver2.ScoreMarks | Result_Soft_ver_2.py:160 | the scores list carries every mark read, in order |
| Ver2.TotalAndPercentage | Result_Soft_ver_2.py:162-165 | Grade 12: Total is the sum of the five marks read and Percentage their mean |
| Ver2.MainCells | Result_Soft_ver_2.py:166-173 | Grade 10: Main Total is `''` exactly when no subject is a main subject; otherwise Main Total and Main % are the sum and mean of the main marks |
| Ver2.TopFiveCells | Result_Soft_ver_2.py:169-175 | Grade 10: Top 5 Total and Top 5 % are the sum and the fifth of the best five marks |
| Ver2Sheet.KeyGradeNames | Result_Soft_ver_2.py:184 | the names recovered are exactly `k.replace(" Grade", "")` for the keys containing `" Grade"` |
| Ver2Sheet.GradeNames | Result_Soft_ver_2.py:184 | the same over every row of the data |
| Ver2Sheet.GradeColumns | Result_Soft_ver_2.py:185 | one grade column `s + " Grade"` per subject, in order |
| Ver2Sheet.SummarySubjects | Result_Soft_ver_2.py:200 | exactly the columns that are neither listed nor end in `Grade` |
| Ver2Sheet.ParseAndSave | Result_Soft_ver_2.py:120-209 | the method's workbook equals the output specification |
| Ver2Sheet.PlainKeysHaveNoSuffix | Result_Soft_ver_2.py:153-176 | no identity or aggregate key contains `" Grade"` |
| Ver2Sheet.RowGradeNames | Result_Soft_ver_2.py:153-184 | the names recovered from a row are exactly its codes' subject names, and a row holds a name's grade key exactly then |
| Ver2Sheet.SheetSubjects | Result_Soft_ver_2.py:184 | the subject list is strictly sorted; it holds exactly the subjects whose grade some row carries, all mark-like |
| Ver2Sheet.NothingDropped | Result_Soft_ver_2.py:184-194 | every key of every row is a final column, so the reindex loses no data |
| Ver2Sheet.MissingOnlyForOtherSubjects | Result_Soft_ver_2.py:194 | a cell is empty exactly when its row lacks that column, and then only for a subject or grade column |
| Ver2Sheet.SummaryIsSubjects | Result_Soft_ver_2.py:184-200 | the summary covers exactly the sorted subject list |
| Ver2Sheet.WorkbookSummary | Result_Soft_ver_2.py:181-209 | one summary line per subject, computed over that column; an empty bulletin gives only the fixed and aggregate columns and no rows |
| Ver3.CustomHeadersKeys | Result_Soft_ver_3.py:77-83 | the header dict has one entry per distinct code, in order of first appearance |
| Ver3.CustomHeadersByCode | Result_Soft_ver_3.py:77-83 | a table code gets its table headers; any other code gets the fallback headers of one of its positions |
| Ver3.FillRow | Result_Soft_ver_3.py:210-219 | the loop over min(#codes, #pairs) positions yields the specified dict and score list |
| Ver3.BuildRow | Result_Soft_ver_3.py:209-251 | the loop and the `row.update` give the specified row |
| Ver3.ReadWindow | Result_Soft_ver_3.py:187-251 | the loop body's decision equals the window classification |
| Ver3.ParseRecords | Result_Soft_ver_3.py:186-254 | the cursor loop's rows equal the scan specification |
| Ver3.MainPercentBlankIff | Result_Soft_ver_3.py:231-249 | Main % is `''` exactly when no score belongs to the main set; otherwise it is the mean of those marks |
| Ver3.LabelShapes | Result_Soft_ver_3.py:216 | fallback and table mark labels start with a letter; grade labels start with a digit |
| Ver3.AssignmentsAt | Result_Soft_ver_3.py:214-218 | position idx writes the grade label and then the mark label |
| Ver3.MarkAndGradeCells | Result_Soft_ver_3.py:214-219 | every subject's mark label holds an integer between 0 and 999, and its grade label holds a grade token |
| Ver3.ScoreMarks | Result_Soft_ver_3.py:219 | the scores carry every mark read, in order |
| Ver3.TotalCountsEveryMark | Result_Soft_ver_3.py:231-238 | the Grade-12 Total is the sum of every mark read, `SUB-` subjects included |
| Ver3.TopFivePercentCell | Result_Soft_ver_3.py:240-251 | Top 5 % is the fifth of the best-five sum of the marks read |
| Ver3.ClassifyIff | Result_Soft_ver_3.py:189-204 | skip exactly without eight leading digits; a row exactly when the header matches with at least five codes and five pairs, whatever the tier |
| Ver3.EmittedRow | Result_Soft_ver_3.py:193-251 | an emitted row is built from the matched header, all codes, the pairs and the result keyword |
| Ver3.ScanRowsFromWindows | Result_Soft_ver_3.py:186-254 | every row comes from a window of two adjacent lines |
| Ver3.ScanLength | Result_Soft_ver_3.py:186-254 | at most half as many rows as lines |
| Ver3.TopFiveRankIsDense | Result_Soft_ver_3.py:261-262 | in Grade 10 every row's Top 5 % Rank is the dense rank of its Top 5 % |
| Ver3.StreamIsPcmIff | Result_Soft_ver_3.py:222-229 | the PCM stream is chosen exactly when some PCM subject was taken |
| Ver3.StreamIsPcbIff | Result_Soft_ver_3.py:222-229 | PCB exactly when biology and no PCM subject; commerce exactly when neither |
| Ver3.NumericColumn | Result_Soft_ver_3.py:259-262 | a column is ranked only when every row has a number in it; otherwise some row lacks one |
| Ver3.NotARowKey | Result_Soft_ver_3.py:214-251 | no row ever has a key ending in `-G` or one of the misnamed mark columns |
| Ver3.PercentageNotARowKey | Result_Soft_ver_3.py:231-238 | no Grade-12 row has a `Percentage` key |
| Ver3.NeverPresent | Result_Soft_ver_3.py:257-294 | such columns are never among the frame's columns |
| Ver3.NoGradeColumns | Result_Soft_ver_3.py:268-292 | the filtered grade-column list is always empty |
| Ver3.SheetColumns | Result_Soft_ver_3.py:265-296 | the sheet's columns are the fixed ones, then the present mark columns and the present result columns, in list order |
| Ver3.MisnamedMarkColumns | Result_Soft_ver_3.py:272-285 | `ACC-054`, `BST-055` and `IP--065` (Grade 12) and `MAT-041`, `MAT-241` and `IT--402` (Grade 10) differ from every label the tables give |
| Ver3.MisnamedNotOnSheet | Result_Soft_ver_3.py:292-296 | a misnamed column never reaches the sheet |
| Ver3.MisnamedColumnsNotOnSheet | Result_Soft_ver_3.py:265-296 | the seven named columns, including Grade-12 `Percentage`, never appear |
| Ver3.ParseAndSave | Result_Soft_ver_3.py:177-312 | the method's result equals the output specification (none when no row was read) |
| Ver4.GradeColFor | Result_Soft_ver_4.py:48-49 | the grade column of a label is the label followed by `-G` |
| Ver4.GradeColForInjective | Result_Soft_ver_4.py:48-49 | different labels get different grade columns |
| Ver4.ValidatedIff | Result_Soft_ver_4.py:166-196 | validation passes exactly when a file is chosen, the stripped sample is non-empty, and the whole file and the sample each carry at least one code of the chosen tier's table and no code of the other tier's table; codes in neither table do not matter, and 041, which is in both tables, always fails |
| Ver4.SharedCodeAlwaysRejected | Result_Soft_ver_4.py:173-196 | if 041 occurs in the file or the sample, validation reports wrong codes and lists 041 |
| Ver4.HumanitiesCodesLeftOut | Result_Soft_ver_4.py:24-35 | codes 027, 028, 029 and 049 get `SUB-` labels that are neither table labels nor final columns |
| Ver4.ParseAndSave | Result_Soft_ver_4.py:250-357 | the method's workbook equals the engine's output with this version's constants and the distinction percentage |
| Ver5.FirstRecordLine | Result_Soft_ver_5.py:210-215 | the line found is a record line (`^\d{8}\s`) |
| Ver5.NoFirstRecordLine | Result_Soft_ver_5.py:210-219 | none exactly when no stripped line is a record line |
| Ver5.FirstRecordLineAt | Result_Soft_ver_5.py:210-215 | when line k is the first record line, the stripped line k is the one found |
| Ver5.ReadFirstRecordLine | Result_Soft_ver_5.py:210-215 | the loop returns that line, and `""` exactly when there is none |
| Ver5.ValidateSample | Result_Soft_ver_5.py:190-246 | the method's verdict equals the validation specification |
| Ver5.ValidatedIff | Result_Soft_ver_5.py:190-232 | validation passes exactly when a file is chosen, the sample is non-empty, a record line exists, and the first record line and the sample each carry at least one code of the chosen tier's table and no code of the other tier's table other than the codes both tables share |
| Ver5.SharedCodeNeverWrong | Result_Soft_ver_5.py:207-229 | 041 is never reported as a wrong code |
| Ver5.OnlyFirstRecordMatters | Result_Soft_ver_5.py:210-215 | lines after the first record line do not change the verdict |
| Ver5.UnknownCodesLeftOut | Result_Soft_ver_5.py:318-372 | a code outside the table gets a label that is neither a table label nor a final column |
| Ver5.ParseAndSave | Result_Soft_ver_5.py:289-398 | the method's workbook equals the engine's output with this version's constants and no distinction percentage |

## Left out

- The tkinter user interface: windows, frames, buttons, message boxes and the launcher. Only the state the parsers read is modelled.
- File and dialog I/O: the bulletin is given as its lines, and `errors="ignore"` decoding is not modelled. A chosen file is a Boolean.
- Writing the workbook: Excel output, fonts and layout. The model stops at the rows, columns and summary lines.
- `round(x, 2)`: percentages and means are exact rationals. `astype(int)` on ranks is the identity, because dense ranks are whole numbers.
- pandas' ranking of a column that mixes `''` and numbers (the Main % column of `Result_Soft_ver_3.py`; the second version computes no rank): the model marks such a rank as not computed rather than imitating pandas' object-column behaviour.
- Engine45.SubjectColumns: the `dtype != "object"` test is modelled by the column name containing `-`, with every subject cell numeric. That holds for the engine's rows, but pandas' dtype inference is not modelled.
- Ver3.ParseAndSave: with no rows, the source raises `KeyError` when selecting the fixed columns; the model returns none.
- Ver2Sheet.MissingOnlyForOtherSubjects: the `NaN` that `reindex` puts into a missing cell is modelled as an explicit missing cell.
- Summary.Average: pandas' `mean()` skips missing cells; the model averages the present marks in the same way but does not model `NaN` output for an all-missing column.
- Ver1: marks stay text, as in the source, so no totals are computed for that version.
- Ver4 and Ver5 validation: the error message wording and the `sorted()` order of the listed codes are not modelled; the verdict carries the sets of wrong codes.
- Character classes: digits and word characters are ASCII, which is narrower than Python's Unicode `\d` and `\w`.
- Chars.Upper: ASCII only. Python's `upper()` also maps `ſ` (U+017F) to `S` and `ı` (U+0131) to `I`, and other non-ASCII letters to their capitals.
- Patterns.ResultWordIgnoreCase: `re.I` is modelled as ASCII case folding. Python's Unicode matching also equates `ſ` with `s` and `ı` with `i`, so a result word such as `ABſT` is read as `ABST` by the source but not by the model.
- Concurrency: the tool has none.
