/** Data frames: rows of named values, and the joins of the pandas engine. */
module Frames {
  import opened Ordering
  import opened Sequences

  /** A cell. Every missing value (None, NaN, NA) is the one `Null`. */
  datatype Value = Null | Num(num: real) | Text(text: string)

  type Row = map<string, Value>

  datatype Frame = Frame(columns: seq<string>, rows: seq<Row>)

  /** The frame has the columns; where it has not, selecting them raises. */
  predicate HasColumns(frame: Frame, columns: seq<string>) {
    forall c :: c in columns ==> c in frame.columns
  }

  function Get(row: Row, column: string): Value {
    if column in row then row[column] else Null
  }

  /** The values of several columns of a row, in column order. */
  function Project(columns: seq<string>, row: Row): (key: seq<Value>)
    ensures |key| == |columns|
    ensures forall i :: 0 <= i < |columns| ==> key[i] == Get(row, columns[i])
  {
    seq(|columns|, i requires 0 <= i < |columns| => Get(row, columns[i]))
  }

  function ProjectOf(columns: seq<string>): Row -> seq<Value> {
    (row: Row) => Project(columns, row)
  }

  function CharLe(): (char, char) -> bool {
    (a, b) => a <= b
  }

  /** `_sort_key`: present values before missing ones. */
  predicate ValueLe(a: Value, b: Value) {
    match (a, b)
    case (_, Null) => true
    case (Null, _) => false
    case (Num(x), Num(y)) => x <= y
    case (Num(_), Text(_)) => true
    case (Text(_), Num(_)) => false
    case (Text(s), Text(t)) => LexLe(CharLe(), s, t)
  }

  /** Numbers by size, then text by its characters, then missing values. */
  lemma ValuesInOrder(x: real, y: real, s: string, t: string)
    ensures ValueLe(Num(x), Num(y)) <==> x <= y
    ensures ValueLe(Text(s), Text(t)) <==> s == t || LexLe(CharLe(), s, t)
    ensures ValueLe(Num(x), Text(s)) && ValueLe(Num(x), Null) && ValueLe(Text(s), Null)
    ensures !ValueLe(Text(s), Num(x)) && !ValueLe(Null, Num(x)) && !ValueLe(Null, Text(s))
  {
    if s == t {
      SameTextLe(s);
    }
  }

  lemma {:induction false} SameTextLe(s: string)
    ensures LexLe(CharLe(), s, s)
  {
    if s != "" {
      SameTextLe(s[1..]);
    }
  }

  predicate KeyLe(a: seq<Value>, b: seq<Value>) {
    LexLe(ValueLe, a, b)
  }

  lemma ValueLeIsTotalOrder()
    ensures TotalOrder(ValueLe)
  {
    LexIsTotalOrder(CharLe());
    var lex := (s: string, t: string) => LexLe(CharLe(), s, t);
    forall a, b, c | ValueLe(a, b) && ValueLe(b, c) ensures ValueLe(a, c) {
      if a.Text? && b.Text? && c.Text? {
        assert lex(a.text, b.text) && lex(b.text, c.text);
        assert lex(a.text, c.text);
      }
    }
    forall a, b ensures ValueLe(a, b) || ValueLe(b, a) {
      if a.Text? && b.Text? {
        assert lex(a.text, b.text) || lex(b.text, a.text);
      }
    }
    forall a, b | ValueLe(a, b) && ValueLe(b, a) ensures a == b {
      if a.Text? && b.Text? {
        assert lex(a.text, b.text) && lex(b.text, a.text);
      }
    }
  }

  /** Natural keys are sorted by a total order, so sorting by key is deterministic. */
  lemma KeyLeIsTotalOrder()
    ensures TotalOrder(KeyLe)
  {
    ValueLeIsTotalOrder();
    LexIsTotalOrder(ValueLe);
    var le := (a: seq<Value>, b: seq<Value>) => LexLe(ValueLe, a, b);
    forall a, b ensures KeyLe(a, b) == le(a, b) {}
    forall a, b, c | KeyLe(a, b) && KeyLe(b, c) ensures KeyLe(a, c) {
      assert le(a, b) && le(b, c);
    }
  }

  /** Ordering rows by their projection on some columns. */
  function RowLe(columns: seq<string>): (Row, Row) -> bool {
    (a, b) => KeyLe(Project(columns, a), Project(columns, b))
  }

  lemma RowLeIsTotalPreorder(columns: seq<string>)
    ensures TotalPreorder(RowLe(columns))
  {
    KeyLeIsTotalOrder();
    var le := RowLe(columns);
    forall a, b, c | le(a, b) && le(b, c) ensures le(a, c) {
      assert KeyLe(Project(columns, a), Project(columns, b)) && KeyLe(Project(columns, b), Project(columns, c));
    }
    forall a, b ensures le(a, b) || le(b, a) {
      assert KeyLe(Project(columns, a), Project(columns, b)) || KeyLe(Project(columns, b), Project(columns, a));
    }
  }

  /** The first row carrying the given key. */
  function FindRow(columns: seq<string>, rows: seq<Row>, key: seq<Value>): (i: int)
    ensures -1 <= i < |rows|
    ensures i >= 0 ==> Project(columns, rows[i]) == key
    ensures i < 0 ==> forall j :: 0 <= j < |rows| ==> Project(columns, rows[j]) != key
  {
    if rows == [] then -1
    else
      var earlier := FindRow(columns, rows[..|rows| - 1], key);
      if earlier >= 0 then earlier
      else if Project(columns, rows[|rows| - 1]) == key then |rows| - 1
      else -1
  }

  /** No two rows share the key. */
  predicate KeyUnique(columns: seq<string>, rows: seq<Row>) {
    Distinct(Map(rows, ProjectOf(columns)))
  }
}
