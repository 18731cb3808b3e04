/**
 * concat_csv.py: read CSV tables, concatenate them with a fresh index, sort the
 * rows by the first column and then by `run`, and write the result without its
 * index. Reading a file is modelled by the table it yields.
 */
module ConcatCsv {
  import opened Results
  import opened Seqs
  import opened RowOrder
  import opened Frames

  /** Records ordered by (value in field p, value in field q), NaN last. */
  ghost predicate RecordsSorted(lines: seq<seq<Option<int>>>, p: nat, q: nat)
    requires forall i :: 0 <= i < |lines| ==> p < |lines[i]| && q < |lines[i]|
  {
    forall i, j :: 0 <= i < j < |lines| ==>
      KeyLe(SortKey(lines[i][p], lines[i][q]), SortKey(lines[j][p], lines[j][q]))
  }

  /** Writing rows sorted by two columns gives records sorted by those two fields. */
  lemma WrittenSorted(f: Frame, p: nat, q: nat)
    requires p < |f.columns| && q < |f.columns|
    requires SortedBy(f.rows, f.columns[p], f.columns[q])
    ensures forall i :: 0 <= i < |ToCsv(f).lines| ==> p < |ToCsv(f).lines[i]| && q < |ToCsv(f).lines[i]|
    ensures RecordsSorted(ToCsv(f).lines, p, q)
  {
  }

  /**
   * main: the tables in argument order are collected into a list, concatenated
   * with ignore_index=True, sorted by (first column, 'run') with
   * ignore_index=True, and written with index=False.
   */
  method Run(tables: seq<Frame>) returns (r: Result<Csv, Error>)
    requires forall k :: 0 <= k < |tables| ==> tables[k].Valid()
    ensures tables == [] ==> r == Err(NoObjectsToConcatenate)
    ensures tables != [] && UnionColumns(tables) == [] ==> r == Err(NoColumns)
    ensures tables != [] && UnionColumns(tables) != [] && "run" !in UnionColumns(tables) ==>
      r == Err(MissingColumn("run"))
    ensures r.Ok? <==> tables != [] && "run" in UnionColumns(tables)
    ensures r.Ok? ==> r.value.header == UnionColumns(tables) && Distinct(r.value.header)
    ensures r.Ok? && tables[0].columns != [] ==> r.value.header[0] == tables[0].columns[0]
    ensures r.Ok? ==> |r.value.lines| == TotalRows(tables)
    ensures r.Ok? ==> multiset(r.value.lines) == multiset(Lines(AllRows(tables), r.value.header))
    ensures r.Ok? ==> forall i :: 0 <= i < |r.value.lines| ==> |r.value.lines[i]| == |r.value.header|
    ensures r.Ok? ==> "run" in r.value.header && RecordsSorted(r.value.lines, 0, IndexOf(r.value.header, "run"))
  {
    var dfList: seq<Frame> := [];
    for i := 0 to |tables|
      invariant dfList == tables[..i]
    {
      dfList := dfList + [tables[i]];
    }
    assert dfList == tables;
    var concatenated := Concat(dfList);
    if concatenated.Err? {
      return Err(concatenated.error);
    }
    var df := concatenated.value;
    if |df.columns| == 0 {
      return Err(NoColumns);
    }
    var sorted := SortValues(df, df.columns[0], "run");
    if sorted.Err? {
      return Err(sorted.error);
    }
    var out := sorted.value;
    LinesPermutation(out.rows, df.rows, out.columns);
    WrittenSorted(out, 0, IndexOf(out.columns, "run"));
    r := Ok(ToCsv(out));
  }
}
