/**
 * The part of a pandas DataFrame that concat_csv.py uses: its column labels,
 * its rows and its index, with `pd.concat`, `sort_values` and `to_csv`.
 */
module Frames {
  import opened Results
  import opened Seqs
  import opened RowOrder

  datatype Frame = Frame(columns: seq<Name>, rows: seq<Row>, index: seq<int>)
  {
    /**
     * The column labels are unique (read_csv makes them so), every cell a row
     * holds is under one of them, and every row has an index label.
     */
    predicate Valid()
    {
      Distinct(columns) && (forall r :: r in rows ==> r.Keys <= Elems(columns)) && |index| == |rows|
    }
  }

  /** The index labels 0, 1, ..., n - 1 that pandas assigns with ignore_index=True. */
  function Range(n: nat): seq<int>
  {
    seq(n, i => i)
  }

  /** What a failed step raised. */
  datatype Error =
    | NoObjectsToConcatenate  // ValueError from pd.concat([])
    | NoColumns               // IndexError from df.columns[0]
    | MissingColumn(name: Name) // KeyError from sort_values(by=[...])

  /** The number of rows of all frames together. */
  function TotalRows(fs: seq<Frame>): nat
  {
    if fs == [] then 0 else |fs[0].rows| + TotalRows(fs[1..])
  }

  /** The rows of all frames, frame after frame, each frame's rows in order. */
  function AllRows(fs: seq<Frame>): (r: seq<Row>)
    ensures |r| == TotalRows(fs)
  {
    if fs == [] then [] else fs[0].rows + AllRows(fs[1..])
  }

  /** Where row i of frame k lands among all rows together: after the rows of the frames before it. */
  function Position(fs: seq<Frame>, k: nat, i: nat): nat
    requires k < |fs|
  {
    TotalRows(fs[..k]) + i
  }

  /** Row i of frame k is row `Position(fs, k, i)` of all rows together. */
  lemma {:induction false} AllRowsAt(fs: seq<Frame>, k: nat, i: nat)
    requires k < |fs| && i < |fs[k].rows|
    ensures Position(fs, k, i) < TotalRows(fs)
    ensures AllRows(fs)[Position(fs, k, i)] == fs[k].rows[i]
  {
    if k == 0 {
      assert fs[..0] == [];
    } else {
      assert fs[1..][..k - 1] == fs[1..k];
      assert fs[..k][1..] == fs[1..k];
      assert fs[1..][k - 1] == fs[k];
      AllRowsAt(fs[1..], k - 1, i);
    }
  }

  /**
   * Every row of every frame sits at its position among all rows together, and
   * when the frames are valid a column its own frame lacks is NaN there.
   */
  lemma AllRowsPlacement(fs: seq<Frame>)
    requires forall k :: 0 <= k < |fs| ==> fs[k].Valid()
    ensures forall k, i :: 0 <= k < |fs| && 0 <= i < |fs[k].rows| ==>
      Position(fs, k, i) < |AllRows(fs)| && AllRows(fs)[Position(fs, k, i)] == fs[k].rows[i]
    ensures forall k, i, c :: 0 <= k < |fs| && 0 <= i < |fs[k].rows| && c !in fs[k].columns ==>
      Position(fs, k, i) < |AllRows(fs)| && Cell(AllRows(fs)[Position(fs, k, i)], c) == None
  {
    forall k, i | 0 <= k < |fs| && 0 <= i < |fs[k].rows|
      ensures Position(fs, k, i) < |AllRows(fs)| && AllRows(fs)[Position(fs, k, i)] == fs[k].rows[i]
    {
      AllRowsAt(fs, k, i);
    }
    forall k, i, c | 0 <= k < |fs| && 0 <= i < |fs[k].rows| && c !in fs[k].columns
      ensures Position(fs, k, i) < |AllRows(fs)| && Cell(AllRows(fs)[Position(fs, k, i)], c) == None
    {
      AllRowsAt(fs, k, i);
      assert fs[k].Valid() && fs[k].rows[i] in fs[k].rows;
    }
  }

  /** Some frame of `fs` has a column `c`. */
  ghost predicate HasColumn(fs: seq<Frame>, c: Name)
  {
    exists k :: 0 <= k < |fs| && c in fs[k].columns
  }

  /** A column of some frame is a column of the first frame or of some later one. */
  lemma HasColumnSplit(fs: seq<Frame>)
    requires fs != []
    ensures forall c :: HasColumn(fs, c) <==> c in fs[0].columns || HasColumn(fs[1..], c)
  {
    forall c ensures HasColumn(fs, c) <==> c in fs[0].columns || HasColumn(fs[1..], c) {
      if HasColumn(fs, c) {
        var k :| 0 <= k < |fs| && c in fs[k].columns;
        if k > 0 { assert fs[1..][k - 1] == fs[k]; }
      }
      if HasColumn(fs[1..], c) {
        var k :| 0 <= k < |fs[1..]| && c in fs[1..][k].columns;
        assert fs[k + 1] == fs[1..][k];
      }
    }
  }

  /** The columns of `acc` followed by those of the frames that are new, in order of appearance. */
  function MergeColumns(acc: seq<Name>, fs: seq<Frame>): (r: seq<Name>)
    ensures acc <= r
    ensures forall c :: c in r <==> c in acc || HasColumn(fs, c)
    ensures Distinct(acc) && (forall k :: 0 <= k < |fs| ==> Distinct(fs[k].columns)) ==> Distinct(r)
    decreases fs
  {
    if fs == [] then acc
    else
      var added := Excluding(fs[0].columns, Elems(acc));
      var r := MergeColumns(acc + added, fs[1..]);
      HasColumnSplit(fs);
      if Distinct(acc) && (forall k :: 0 <= k < |fs| ==> Distinct(fs[k].columns)) then
        assert Distinct(fs[0].columns);
        DistinctAppend(acc, added);
        assert forall k :: 0 <= k < |fs[1..]| ==> fs[1..][k] == fs[k + 1];
        r
      else r
  }

  /** Every cell of every row of valid frames is under a column of one of them. */
  lemma {:induction false} AllRowsKeys(fs: seq<Frame>)
    requires forall k :: 0 <= k < |fs| ==> fs[k].Valid()
    ensures forall r, c :: r in AllRows(fs) && c in r ==> HasColumn(fs, c)
  {
    if fs != [] {
      AllRowsKeys(fs[1..]);
      HasColumnSplit(fs);
      assert fs[0].Valid();
    }
  }

  /** The column labels of the concatenation: the outer join of all frames' columns. */
  function UnionColumns(fs: seq<Frame>): (r: seq<Name>)
    ensures fs != [] ==> fs[0].columns <= r
    ensures forall c :: c in r <==> HasColumn(fs, c)
    ensures (forall k :: 0 <= k < |fs| ==> Distinct(fs[k].columns)) ==> Distinct(r)
  {
    if fs == [] then [] else
      var r := MergeColumns(fs[0].columns, fs[1..]);
      HasColumnSplit(fs);
      r
  }

  /**
   * `pd.concat(fs, ignore_index=True)`: all rows in argument order under the
   * union of the columns (a cell a frame lacks is NaN), renumbered 0..n-1;
   * ValueError when there is nothing to concatenate.
   */
  function Concat(fs: seq<Frame>): (r: Result<Frame, Error>)
    requires forall k :: 0 <= k < |fs| ==> fs[k].Valid()
    ensures r.Err? <==> fs == []
    ensures r.Err? ==> r.error == NoObjectsToConcatenate
    ensures r.Ok? ==> r.value.rows == AllRows(fs) && |r.value.rows| == TotalRows(fs)
    ensures r.Ok? ==> r.value.index == Range(TotalRows(fs))
    ensures r.Ok? ==> r.value.columns == UnionColumns(fs) && Distinct(r.value.columns)
    ensures r.Ok? ==> r.value.Valid()
    ensures r.Ok? ==> forall k, i :: 0 <= k < |fs| && 0 <= i < |fs[k].rows| ==>
      Position(fs, k, i) < |r.value.rows| && r.value.rows[Position(fs, k, i)] == fs[k].rows[i]
    ensures r.Ok? ==> forall k, i, c :: 0 <= k < |fs| && 0 <= i < |fs[k].rows| && c !in fs[k].columns ==>
      Position(fs, k, i) < |r.value.rows| && Cell(r.value.rows[Position(fs, k, i)], c) == None
  {
    if fs == [] then Err(NoObjectsToConcatenate)
    else
      var f := Frame(UnionColumns(fs), AllRows(fs), Range(TotalRows(fs)));
      AllRowsKeys(fs);
      AllRowsPlacement(fs);
      Ok(f)
  }

  /**
   * `f.sort_values(by=[by1, by2], ignore_index=True)`: the same rows ordered by
   * (by1, by2), renumbered 0..n-1; KeyError when a sort column is missing.
   */
  function SortValues(f: Frame, by1: Name, by2: Name): (r: Result<Frame, Error>)
    ensures r.Err? <==> by1 !in f.columns || by2 !in f.columns
    ensures r.Err? ==> r.error == MissingColumn(if by1 !in f.columns then by1 else by2)
    ensures r.Ok? ==> r.value.columns == f.columns
    ensures r.Ok? ==> multiset(r.value.rows) == multiset(f.rows) && |r.value.rows| == |f.rows|
    ensures r.Ok? ==> SortedBy(r.value.rows, by1, by2)
    ensures r.Ok? ==> r.value.index == Range(|f.rows|)
    ensures r.Ok? && f.Valid() ==> r.value.Valid()
  {
    if by1 !in f.columns then Err(MissingColumn(by1))
    else if by2 !in f.columns then Err(MissingColumn(by2))
    else
      var sorted := SortRows(f.rows, by1, by2);
      assert |sorted| == |multiset(sorted)| == |multiset(f.rows)| == |f.rows|;
      assert forall x :: x in sorted ==> x in multiset(f.rows);
      Ok(Frame(f.columns, sorted, Range(|f.rows|)))
  }

  /** One written CSV record: the row's value in each column, an empty field for NaN. */
  function Line(r: Row, columns: seq<Name>): (l: seq<Option<int>>)
    ensures |l| == |columns|
    ensures forall j :: 0 <= j < |columns| ==> l[j] == Cell(r, columns[j])
  {
    seq(|columns|, j requires 0 <= j < |columns| => Cell(r, columns[j]))
  }

  /** The records of the rows, in order. */
  function Lines(rows: seq<Row>, columns: seq<Name>): (ls: seq<seq<Option<int>>>)
    ensures |ls| == |rows|
    ensures forall i :: 0 <= i < |rows| ==> ls[i] == Line(rows[i], columns)
  {
    if rows == [] then [] else [Line(rows[0], columns)] + Lines(rows[1..], columns)
  }

  /** A CSV file: the header line and one record per row. */
  datatype Csv = Csv(header: seq<Name>, lines: seq<seq<Option<int>>>)

  /** `f.to_csv(path, index=False)`: the header and the records; the index is not written. */
  function ToCsv(f: Frame): (c: Csv)
    ensures c.header == f.columns
    ensures |c.lines| == |f.rows|
    ensures forall i :: 0 <= i < |f.rows| ==> |c.lines[i]| == |f.columns| && c.lines[i] == Line(f.rows[i], f.columns)
  {
    Csv(f.columns, Lines(f.rows, f.columns))
  }

  /** Records of the rows of a concatenation are the records of each part. */
  lemma {:induction false} LinesAppend(a: seq<Row>, b: seq<Row>, columns: seq<Name>)
    ensures Lines(a + b, columns) == Lines(a, columns) + Lines(b, columns)
  {
    if a != [] {
      assert (a + b)[1..] == a[1..] + b;
      LinesAppend(a[1..], b, columns);
    }
  }

  /** The records of the rows are those of the rows before and after position i, and the record of row i. */
  lemma LinesSplit(b: seq<Row>, i: nat, columns: seq<Name>)
    requires i < |b|
    ensures multiset(Lines(b, columns)) ==
      multiset(Lines(b[..i] + b[i + 1..], columns)) + multiset{Line(b[i], columns)}
  {
    assert b == b[..i] + [b[i]] + b[i + 1..];
    LinesAppend(b[..i] + [b[i]], b[i + 1..], columns);
    LinesAppend(b[..i], [b[i]], columns);
    LinesAppend(b[..i], b[i + 1..], columns);
  }

  /** Writing a permutation of the rows writes a permutation of the records. */
  lemma {:induction false} LinesPermutation(a: seq<Row>, b: seq<Row>, columns: seq<Name>)
    requires multiset(a) == multiset(b)
    ensures multiset(Lines(a, columns)) == multiset(Lines(b, columns))
  {
    if a != [] {
      var i := PermutationTail(a, b);
      LinesPermutation(a[1..], b[..i] + b[i + 1..], columns);
      LinesSplit(a, 0, columns);
      assert a[..0] + a[1..] == a[1..];
      LinesSplit(b, i, columns);
    }
  }
}
