/**
 * Multi-column `order_by`: columns are compared left to right; character
 * columns by code point, integer and date columns numerically, a `-column`
 * in reverse.  NULL sorts as the smallest value (first in ascending order,
 * last in descending order), as SQLite orders it.
 */
module Ordering {
  import opened Wrappers
  import opened Seqs
  import opened PyStr

  /** One nullable character column: NULL first, then code-point order. */
  predicate ColumnLe(a: Option<string>, b: Option<string>)
  {
    a.None? || (b.Some? && StrLe(a.value, b.value))
  }

  lemma ColumnLeTotal(a: Option<string>, b: Option<string>)
    ensures ColumnLe(a, b) || ColumnLe(b, a)
  {
    if a.Some? && b.Some? {
      StrLeTotal(a.value, b.value);
    }
  }

  lemma ColumnLeTransitive(a: Option<string>, b: Option<string>, c: Option<string>)
    requires ColumnLe(a, b) && ColumnLe(b, c)
    ensures ColumnLe(a, c)
  {
    if a.Some? {
      StrLeTransitive(a.value, b.value, c.value);
    }
  }

  lemma ColumnLeAntisymmetric(a: Option<string>, b: Option<string>)
    requires ColumnLe(a, b) && ColumnLe(b, a)
    ensures a == b
  {
    if a.Some? && b.Some? {
      StrLeAntisymmetric(a.value, b.value);
    }
  }

  /** One nullable integer column in ascending order, NULL first. */
  predicate NumberLe(a: Option<int>, b: Option<int>)
  {
    a.None? || (b.Some? && a.value <= b.value)
  }

  /** The value of one sort column of a row; `Desc` is a `-column`. */
  datatype Cell = Text(s: Option<string>) | Asc(n: Option<int>) | Desc(n: Option<int>)

  /** Cells of one column compare by their value; cells of different kinds (never compared in a query) by kind. */
  predicate CellLe(a: Cell, b: Cell)
  {
    match (a, b)
    case (Text(x), Text(y)) => ColumnLe(x, y)
    case (Asc(x), Asc(y)) => NumberLe(x, y)
    case (Desc(x), Desc(y)) => NumberLe(y, x)
    case (Text(_), _) => true
    case (Asc(_), Desc(_)) => true
    case _ => false
  }

  lemma CellLeTotal(a: Cell, b: Cell)
    ensures CellLe(a, b) || CellLe(b, a)
  {
    if a.Text? && b.Text? {
      ColumnLeTotal(a.s, b.s);
    }
  }

  lemma CellLeTransitive(a: Cell, b: Cell, c: Cell)
    requires CellLe(a, b) && CellLe(b, c)
    ensures CellLe(a, c)
  {
    if a.Text? && b.Text? && c.Text? {
      ColumnLeTransitive(a.s, b.s, c.s);
    }
  }

  lemma CellLeAntisymmetric(a: Cell, b: Cell)
    requires CellLe(a, b) && CellLe(b, a)
    ensures a == b
  {
    if a.Text? && b.Text? {
      ColumnLeAntisymmetric(a.s, b.s);
    }
  }

  /** Lexicographic order of two rows' sort keys. */
  predicate KeysLe(a: seq<Cell>, b: seq<Cell>)
  {
    if a == [] then true
    else if b == [] then false
    else if a[0] != b[0] then CellLe(a[0], b[0])
    else KeysLe(a[1..], b[1..])
  }

  lemma {:induction false} KeysLeTotal(a: seq<Cell>, b: seq<Cell>)
    ensures KeysLe(a, b) || KeysLe(b, a)
  {
    if a != [] && b != [] {
      if a[0] != b[0] {
        CellLeTotal(a[0], b[0]);
      } else {
        KeysLeTotal(a[1..], b[1..]);
      }
    }
  }

  lemma {:induction false} KeysLeTransitive(a: seq<Cell>, b: seq<Cell>, c: seq<Cell>)
    requires KeysLe(a, b) && KeysLe(b, c)
    ensures KeysLe(a, c)
  {
    if a != [] && b != [] && c != [] {
      if a[0] == b[0] && b[0] == c[0] {
        KeysLeTransitive(a[1..], b[1..], c[1..]);
      } else if a[0] != b[0] && b[0] != c[0] {
        CellLeTransitive(a[0], b[0], c[0]);
        if a[0] == c[0] {
          CellLeAntisymmetric(a[0], b[0]);
        }
      }
    }
  }

  /** An order given by sort keys is a total preorder, so querysets can be sorted by it. */
  lemma KeyOrderIsPreorder<T(!new)>(le: (T, T) -> bool, key: T -> seq<Cell>)
    requires forall a, b :: le(a, b) == KeysLe(key(a), key(b))
    ensures TotalPreorder(le)
  {
    forall a, b ensures le(a, b) || le(b, a) {
      KeysLeTotal(key(a), key(b));
    }
    forall a, b, c | le(a, b) && le(b, c) ensures le(a, c) {
      KeysLeTransitive(key(a), key(b), key(c));
    }
  }
}
