/**
 * One value of the job table, which is also one value of a JSON request
 * body: SQLite's storage classes NULL, REAL and TEXT (numbers are whole
 * here), and how JavaScript and SQL treat such a value.
 */
module Cells {
  import opened TextMatch

  datatype Cell = Null | Num(n: int) | Text(s: string)

  /** JavaScript truthiness: null, 0 and "" are false. */
  predicate Truthy(c: Cell) {
    match c
    case Null => false
    case Num(n) => n != 0
    case Text(s) => s != ""
  }

  /** The JavaScript expression `c || fallback`. */
  function Or(c: Cell, fallback: Cell): Cell {
    if Truthy(c) then c else fallback
  }

  /** SQLite's order of values: NULL first, then numbers, then text. */
  predicate Lt(a: Cell, b: Cell) {
    match (a, b)
    case (Null, Null) => false
    case (Null, _) => true
    case (Num(x), Num(y)) => x < y
    case (Num(_), Text(_)) => true
    case (Text(x), Text(y)) => StrLt(x, y)
    case (_, _) => false
  }

  lemma LtIrreflexive(a: Cell)
    ensures !Lt(a, a)
  {
    if a.Text? {
      StrLtIrreflexive(a.s);
    }
  }

  lemma LtTransitive(a: Cell, b: Cell, c: Cell)
    requires Lt(a, b) && Lt(b, c)
    ensures Lt(a, c)
  {
    if a.Text? && b.Text? && c.Text? {
      StrLtTransitive(a.s, b.s, c.s);
    }
  }

  lemma LtTotal(a: Cell, b: Cell)
    requires a != b
    ensures Lt(a, b) || Lt(b, a)
  {
    if a.Text? && b.Text? {
      StrLtTotal(a.s, b.s);
    }
  }

  /** `a = b` in a WHERE clause: a NULL operand never compares equal. */
  predicate SqlEq(a: Cell, b: Cell) {
    a != Null && b != Null && a == b
  }

  /** `a <= b` in a WHERE clause, in SQLite's order of values. */
  predicate SqlLe(a: Cell, b: Cell) {
    a != Null && b != Null && (a == b || Lt(a, b))
  }

  /** `a LIKE pattern` in a WHERE clause. */
  predicate SqlLike(a: Cell, pattern: Cell) {
    a.Text? && pattern.Text? && Like(a.s, pattern.s)
  }
}
