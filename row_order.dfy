/**
 * Rows of a table and pandas' multi-column ordering of them: rows compare by
 * their first sort column and then by their second, and a missing value (NaN)
 * sorts after every number (na_position='last').
 */
module RowOrder {
  import opened Results
  import opened Seqs

  /** One row of a table: column name to value; a column missing from the map holds NaN. */
  type Row = map<Name, int>

  /** The value in column `c`, None for NaN. */
  function Cell(r: Row, c: Name): Option<int>
  {
    if c in r then Some(r[c]) else None
  }

  /** Ascending order on one column's values, NaN last. */
  predicate CellLe(x: Option<int>, y: Option<int>)
  {
    match (x, y)
    case (_, None) => true
    case (None, Some(_)) => false
    case (Some(m), Some(n)) => m <= n
  }

  /** The values a row is sorted by. */
  datatype SortKey = SortKey(first: Option<int>, second: Option<int>)

  /** Lexicographic order on sort keys. */
  predicate KeyLe(k: SortKey, l: SortKey)
  {
    (CellLe(k.first, l.first) && k.first != l.first) || (k.first == l.first && CellLe(k.second, l.second))
  }

  function Key(r: Row, by1: Name, by2: Name): SortKey
  {
    SortKey(Cell(r, by1), Cell(r, by2))
  }

  /** The rows are in non-decreasing order of (column by1, column by2). */
  ghost predicate SortedBy(rows: seq<Row>, by1: Name, by2: Name)
  {
    forall i, j :: 0 <= i < j < |rows| ==> KeyLe(Key(rows[i], by1, by2), Key(rows[j], by1, by2))
  }

  /** The order on sort keys is total. */
  lemma KeyLeTotal(k: SortKey, l: SortKey)
    ensures KeyLe(k, l) || KeyLe(l, k)
  {
  }

  /** The order on sort keys is transitive. */
  lemma KeyLeTransitive(k: SortKey, l: SortKey, m: SortKey)
    requires KeyLe(k, l) && KeyLe(l, m)
    ensures KeyLe(k, m)
  {
  }

  /** A row whose key is at most every key of sorted rows can go in front of them. */
  lemma SortedCons(x: Row, rows: seq<Row>, by1: Name, by2: Name)
    requires SortedBy(rows, by1, by2)
    requires forall k :: 0 <= k < |rows| ==> KeyLe(Key(x, by1, by2), Key(rows[k], by1, by2))
    ensures SortedBy([x] + rows, by1, by2)
  {
    var r := [x] + rows;
    forall i, j | 0 <= i < j < |r|
      ensures KeyLe(Key(r[i], by1, by2), Key(r[j], by1, by2))
    {
      if i == 0 {
        assert r[j] == rows[j - 1];
      } else {
        assert r[i] == rows[i - 1] && r[j] == rows[j - 1];
      }
    }
  }

  /** Puts `x` into sorted rows, before the first row whose key is not below it. */
  function Insert(x: Row, rows: seq<Row>, by1: Name, by2: Name): (r: seq<Row>)
    requires SortedBy(rows, by1, by2)
    ensures SortedBy(r, by1, by2)
    ensures multiset(r) == multiset(rows) + multiset{x}
  {
    if rows == [] then [x]
    else if KeyLe(Key(x, by1, by2), Key(rows[0], by1, by2)) then
      InsertAtFront(x, rows, by1, by2);
      [x] + rows
    else
      var rest := Insert(x, rows[1..], by1, by2);
      assert rows == [rows[0]] + rows[1..];
      KeyLeTotal(Key(x, by1, by2), Key(rows[0], by1, by2));
      HeadBelowInserted(x, rows, rest, by1, by2);
      SortedCons(rows[0], rest, by1, by2);
      [rows[0]] + rest
  }

  /** A row not above the first of sorted rows is not above any of them. */
  lemma InsertAtFront(x: Row, rows: seq<Row>, by1: Name, by2: Name)
    requires SortedBy(rows, by1, by2) && rows != []
    requires KeyLe(Key(x, by1, by2), Key(rows[0], by1, by2))
    ensures SortedBy([x] + rows, by1, by2)
  {
    forall k | 0 <= k < |rows|
      ensures KeyLe(Key(x, by1, by2), Key(rows[k], by1, by2))
    {
      if k > 0 {
        KeyLeTransitive(Key(x, by1, by2), Key(rows[0], by1, by2), Key(rows[k], by1, by2));
      }
    }
    SortedCons(x, rows, by1, by2);
  }

  /** The first of sorted rows is not above `x` nor above any later row, so not above what Insert built of them. */
  lemma HeadBelowInserted(x: Row, rows: seq<Row>, rest: seq<Row>, by1: Name, by2: Name)
    requires SortedBy(rows, by1, by2) && rows != []
    requires KeyLe(Key(rows[0], by1, by2), Key(x, by1, by2))
    requires multiset(rest) == multiset(rows[1..]) + multiset{x}
    ensures forall k :: 0 <= k < |rest| ==> KeyLe(Key(rows[0], by1, by2), Key(rest[k], by1, by2))
  {
    forall k | 0 <= k < |rest|
      ensures KeyLe(Key(rows[0], by1, by2), Key(rest[k], by1, by2))
    {
      assert rest[k] in multiset(rest);
      if rest[k] != x {
        assert rest[k] in multiset(rows[1..]);
        var m :| 0 <= m < |rows[1..]| && rows[1..][m] == rest[k];
        assert rows[m + 1] == rest[k];
      }
    }
  }

  /**
   * `sort_values(by=[by1, by2])` on the rows: the same rows in non-decreasing
   * order of their keys.
   */
  function SortRows(rows: seq<Row>, by1: Name, by2: Name): (r: seq<Row>)
    ensures SortedBy(r, by1, by2)
    ensures multiset(r) == multiset(rows)
  {
    if rows == [] then []
    else
      assert rows == [rows[0]] + rows[1..];
      Insert(rows[0], SortRows(rows[1..], by1, by2), by1, by2)
  }
}
