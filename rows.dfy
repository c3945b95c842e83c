/** The rows the later versions build: a dict from column name to a cell
    that holds a string, an integer or a float, written in order. */
module Rows {
  import opened Wrappers
  import opened Chars
  import opened Patterns
  import opened OrderedDict
  import opened Summary
  import Engine45

  /** A cell of a row dict: the source mixes strings, integers and floats
      under one dict. */
  datatype Value = Str(s: string) | Int(n: int) | Num(x: real)

  type Row = Dict<Value>

  lemma AssignTwo(before: seq<(string, Value)>, two: seq<(string, Value)>)
    requires |two| == 2
    ensures PutAll([], before + two) == Put(Put(PutAll([], before), two[0].0, two[0].1), two[1].0, two[1].1)
  {
    var once := before + [two[0]];
    assert before + two == once + [two[1]];
    PutAllSnoc([], once, two[1]);
    PutAllSnoc([], before, two[0]);
  }

  lemma AppendOne<T>(xs: seq<T>, x: T, ys: seq<T>)
    ensures (xs + [x]) + ys == xs + ([x] + ys)
  {
  }

  lemma Associate<T>(xs: seq<T>, ys: seq<T>, zs: seq<T>)
    ensures xs + (ys + zs) == (xs + ys) + zs
  {
  }

  /** The entries of a dict literal: each key with the value at its place. */
  function Entries(ks: seq<string>, vs: seq<Value>): (es: seq<(string, Value)>)
    requires |ks| == |vs|
    ensures |es| == |ks| && forall j :: 0 <= j < |ks| ==> es[j] == (ks[j], vs[j])
  {
    seq(|ks|, j requires 0 <= j < |ks| => (ks[j], vs[j]))
  }

  /** The first three entries of every row. */
  function Identity(h: Header): seq<(string, Value)> {
    [("Roll No", Str(h.roll)), ("Gender", Str(h.gender)), ("Name", Str(h.name))]
  }

  /** `[(int(m), g) for m, g in findall(...)]`: the pairs of line 2 with
      their marks converted. */
  function PairsOf(line2: string): (ps: seq<(int, string)>)
    ensures |ps| == |FindMarkGrades(line2)|
    ensures forall k :: 0 <= k < |ps| ==> 0 <= ps[k].0 <= 999 && IsGrade(ps[k].1)
  {
    var ms := FindMarkGrades(line2);
    seq(|ms|, k requires 0 <= k < |ms| => MarkValueBound(ms[k].mark); (DigitsValue(ms[k].mark), ms[k].grade))
  }

  /** A cell of the sheet. `Missing` is a key the row lacks; `Unranked` is
      a rank over a column that mixes numbers and `''`. */
  datatype Cell = Val(v: Value) | Missing | Unranked

  /** The marks of a subject column; a cell that is not an integer counts
      as missing. */
  function MarkCells(data: seq<Row>, col: string): (cells: Column)
    ensures |cells| == |data|
  {
    seq(|data|, k requires 0 <= k < |data| => IntOf(Get(data[k], col)))
  }

  function IntOf(v: Option<Value>): Option<int> {
    match v
    case Some(Int(n)) => Some(n)
    case _ => None
  }

  function SubjectLine(data: seq<Row>, col: string): Engine45.SubjectStats
    requires |data| > 0
  {
    var cells := MarkCells(data, col);
    Engine45.SubjectStats(col, Highest(cells), Lowest(cells), Average(cells), Distinctions(cells),
                          Some(DistinctionPercent(cells)), Centuries(cells))
  }

  /** The sheet as written: its columns, one line of cells per row, and
      the per-subject summary lines. */
  datatype Workbook = Workbook(columns: seq<string>, rows: seq<seq<Cell>>, summary: seq<Engine45.SubjectStats>)

  const FixedColumns: seq<string> := ["Roll No", "Gender", "Name"]

  /** The marks read for the first `n` positions, in order. */
  function MarksRead(pairs: seq<(int, string)>, n: nat): (ms: seq<int>)
    requires n <= |pairs|
    ensures |ms| == n && forall k :: 0 <= k < n ==> ms[k] == pairs[k].0
  {
    seq(n, k requires 0 <= k < n => pairs[k].0)
  }

  /** What the loop does with a window of two stripped lines. */
  datatype Window = Skip | Resync | Emit(row: Row)
}
