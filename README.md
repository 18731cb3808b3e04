# Chunk-layout bookkeeping and CSV merging, modelled in Dafny

This project models the two pieces of original logic in the treasury scripts.

**nc_to_rechunked_zarr.py** converts a netCDF dataset into a Zarr collection with
one chunk per grid point that spans the whole time axis. The chunk-moving itself
is done by the `rechunker` library. The script's own work happens before that call:

- it refuses to run when the output collection already exists;
- it drops the variables `height`, `lat_bnds` and `lon_bnds` from each input, skipping any that are absent;
- it pairs the coordinate names with the stored chunk sizes of the variable;
- it clears every variable's encoding;
- it builds the target-chunks dictionary: `{time: len(time), lat: 1, lon: 1}` for the chosen
  variable and `None` for every other coordinate and data variable.

A dataset is modelled as a value (module `Datasets`). It holds the ordered names of its data
variables, the ordered names of its coordinates, the length of its time axis (absent when there
is none) and an encoding dictionary per variable. `Dataset.Valid` states what xarray guarantees:
names are unique, a name is a coordinate or a data variable but not both, and every variable has
an encoding. The script's steps live in module `RechunkedZarr`, and each loop in the script is a
method with a loop. `RechunkedZarr.Run` is `main` up to the call into `rechunker`. It returns the
prepared dataset, the input-chunks dictionary and the target-chunks dictionary, or the error
that `main` would raise first: the output-exists assertion, then the KeyError of `ds[args.var]`
when the variable is missing or was dropped, then the KeyError of `ds.attrs['history']`, then the
errors of define_target_chunks. `RechunkedZarr.Prepare` holds the steps between opening the input
and defining the target chunks. The new history text that `cmdprov.new_log` builds from the old
one is the function parameter `newLog`.

The coordinate-to-chunk-size pairing is positional, as in the code. It gives each dimension its
stored chunk size only when the order of the coordinates matches the order of the variable's
dimensions. The model states the positional pairing that the code performs.

**concat_csv.py** reads CSV tables, concatenates them with a fresh index, sorts the rows by the
first column and then by `run`, and writes the result without the index. A table (module
`Frames`) has its column labels, its rows and its index. A row is a map from column name to
value, and a cell the row does not hold is NaN. `Frame.Valid` states that the column labels are unique, as
`read_csv` makes them, that a row holds cells only under the frame's columns, and that the index
has one label per row. `pd.concat`, `sort_values` and `to_csv` are
functions. Module `RowOrder` holds pandas' two-key order, with NaN last, and an insertion sort
proved to produce a sorted permutation. `ConcatCsv.Run` is `main`: collect, concatenate, sort, write.

## Model

| member | source | states |
|---|---|---|
| `Seqs.RemoveFirst` | nc_to_rechunked_zarr.py:24 | `list.remove`: fails exactly when the item is absent; otherwise the result is the list before the first occurrence followed by the list after it, so only the first occurrence goes and the others keep their order; one fewer element, and the multiset loses exactly one copy of the item |
| `Seqs.IndexOf` | nc_to_rechunked_zarr.py:24 | the position `list.remove` removes at: it holds the item and no earlier position does |
| `Datasets.WithoutVars` | nc_to_rechunked_zarr.py:37 | removing variables keeps exactly the other names, each list being the old list with the removed names taken out; the time axis, the attributes and the other encodings are unchanged; a valid dataset stays valid |
| `Seqs.ExcludingOrder` | nc_to_rechunked_zarr.py:37 | taking names out of a list keeps the remaining names in their original order |
| `Datasets.DropVar` | nc_to_rechunked_zarr.py:37 | `drop_vars(name)` raises ValueError exactly when the dataset has no such variable; otherwise the result no longer holds the name and is the dataset without it |
| `Datasets.WithoutVarsTwice` | nc_to_rechunked_zarr.py:35-39 | dropping one group of names and then another is the same as dropping their union |
| `Datasets.WithoutAbsentVars` | nc_to_rechunked_zarr.py:36-39 | dropping names a valid dataset does not hold leaves it unchanged; this is the ValueError path that the loop passes over |
| `RechunkedZarr.DefineTargetChunks` | nc_to_rechunked_zarr.py:18-29 | KeyError without a time axis; ValueError exactly when `var` is not a data variable; otherwise the keys are exactly {var}, the coordinates and the data variables, every other key maps to None, and `var` maps to {time: len(time), lat: 1, lon: 1} unless it is also a coordinate or a repeated data variable |
| `RechunkedZarr.DataVarOnce` | nc_to_rechunked_zarr.py:22-27 | in a valid dataset a data variable is not a coordinate and occurs once, so the loop never overwrites the entry for `var` |
| `RechunkedZarr.RemovedElems` | nc_to_rechunked_zarr.py:23-24 | after `variables.remove(var)` the names are those of the list without `var`, and `var` is still there exactly when it occurred more than once |
| `RechunkedZarr.SetToNone` | nc_to_rechunked_zarr.py:26-27 | the loop adds every name of the list as a key mapped to None and leaves every other entry as it was |
| `RechunkedZarr.TargetKeys` | nc_to_rechunked_zarr.py:22-27 | the keys define_target_chunks builds, {var} with the coordinates and the remaining data variables, are exactly the dataset's variable names |
| `RechunkedZarr.DropVars` | nc_to_rechunked_zarr.py:32-41 | the result holds exactly the input's variables other than height, lat_bnds and lon_bnds; absent names are skipped without error; the rest of the dataset is unchanged and stays valid |
| `RechunkedZarr.DroppedIdempotent` | nc_to_rechunked_zarr.py:32-41 | applying drop_vars twice gives the same dataset as applying it once |
| `RechunkedZarr.InputChunks` | nc_to_rechunked_zarr.py:49-53 | the keys are exactly the first min(#coords, #chunks) coordinate names; each maps to the chunk size at its last position among them, so with distinct coordinates the i-th coordinate maps to the i-th chunk size |
| `RechunkedZarr.ClearEncodings` | nc_to_rechunked_zarr.py:58-59 | every variable's encoding is empty afterwards; names, time axis and any other entries are unchanged; validity is kept |
| `RechunkedZarr.Prepare` | nc_to_rechunked_zarr.py:48-59 | KeyError(var) when `var` is missing or was dropped, else KeyError('history') when the attribute is absent; otherwise a valid dataset holding exactly the kept names, in order, with the same time axis, all encodings empty, the history attribute replaced by the new log, and the input chunks paired positionally with the coordinates |
| `RechunkedZarr.Run` | nc_to_rechunked_zarr.py:44-60 | an existing output aborts first; then KeyError(var) when `var` is missing or was dropped; then KeyError('history'); then the errors of define_target_chunks (KeyError('time'), ValueError for a coordinate); success exactly when `var` is a kept data variable, the history attribute exists and there is a time axis; on success: a valid dataset holding exactly the kept names, data variables and coordinates in their original order, the same time axis, all encodings empty, the history attribute replaced by the new log; target keys equal to its variables, `var` mapped to the point chunking and all others None; input-chunk keys exactly the first min(#coords, #chunks) coordinates, the i-th coordinate mapped to the i-th chunk size |
| `RowOrder.Insert` | concat_csv.py:16 | inserting a row into rows sorted by (first key, second key) keeps them sorted and adds exactly that row |
| `RowOrder.SortRows` | concat_csv.py:16 | the result is sorted non-decreasingly by (first key, second key), NaN last, and is a permutation of the input |
| `Frames.AllRows` | concat_csv.py:15 | the concatenated rows number the sum of the input row counts |
| `Frames.MergeColumns` | concat_csv.py:15 | the merged labels extend the ones so far, are exactly those so far or of some remaining input, and repeat no label when neither the labels so far nor any input's labels do |
| `Frames.UnionColumns` | concat_csv.py:15 | the concatenation's columns are exactly the columns of some input, they start with the first input's columns, and each label appears once when every input's labels are unique |
| `Frames.AllRowsAt` | concat_csv.py:15 | row i of input k is row `TotalRows(fs[..k]) + i` of the concatenated rows |
| `Frames.AllRowsPlacement` | concat_csv.py:15 | every row of every valid input sits at its position in the concatenated rows and is NaN there in each column its own input lacks |
| `Frames.Concat` | concat_csv.py:15 | ValueError exactly for an empty list; otherwise row i of input k is row `Position(fs, k, i)`, that row is NaN in every column input k lacks, the rows come from the inputs in argument order, their count is the total, the columns are the union of columns with each label once, the index is renumbered 0..n-1, and the result is a valid frame |
| `Frames.SortValues` | concat_csv.py:16 | KeyError exactly when a sort column is missing; otherwise same columns, a permutation of the rows sorted by the two columns, the index renumbered 0..n-1, and a valid frame stays valid |
| `Frames.Lines` | concat_csv.py:17 | one record per row, in row order, each the row's values in column order |
| `Frames.ToCsv` | concat_csv.py:17 | the header is the column labels; one record per row with exactly one field per column, so no index field is written |
| `Frames.LinesPermutation` | concat_csv.py:16-17 | writing a permutation of the rows writes a permutation of the records |
| `ConcatCsv.WrittenSorted` | concat_csv.py:16-17 | rows sorted by two columns are written as records sorted by those two fields |
| `ConcatCsv.Run` | concat_csv.py:8-17 | no inputs: ValueError from concat; no columns: IndexError; no `run` column: KeyError; otherwise the header is the union of the columns, each label once, starting with the first file's first column; the record count is the sum of the input row counts; the records are a permutation of the inputs' rows in argument order, one field per column, sorted by (first column, run) |

## Left out

- The rechunk itself (`rechunk(...)` and `execute()`), `zarr.consolidate_metadata` and the `rm -r` of the temporary store: these are library calls and file-system effects. The staged algorithm lives inside `rechunker`.
- `xr.open_mfdataset`: the combination of several files is not modelled. `RechunkedZarr.Run` takes one dataset and applies `drop_vars` to it, as the `preprocess` step does to each file.
- `ds[var].encoding['chunksizes']`: the stored chunk sizes are the parameter `chunksizes` of `RechunkedZarr.Prepare` and `RechunkedZarr.Run`. The KeyError when the variable has no `'chunksizes'` entry is not modelled, and neither is a stored value of None, on which `zip` raises TypeError. The KeyError of `ds[var]` itself is modelled.
- `ds.chunk(input_chunks)`, including its check that the keys are dimensions: this is a library call. The input-chunks dictionary is returned in the request instead.
- `cmdprov.new_log`: the new history text is the parameter `newLog`, applied to the old history. The `args.infiles[0]` lookup inside that call, which raises IndexError without input files, is not modelled, because opening no files fails earlier in `xr.open_mfdataset`.
- The progress-bar registration, logging and argument parsing: these are I/O or global side effects.
- `os.path.isdir`: this is a boolean parameter. That Python drops `assert` statements under `-O` is not modelled.
- RechunkedZarr.ClearEncodings: the in-place assignment to each variable's `encoding` is modelled as an update of the dataset value, so aliasing between datasets is not captured.
- RechunkedZarr.DefineTargetChunks: the insertion order of the resulting dictionary is not modelled, because Dafny maps are unordered.
- Reading and writing CSV text: a read table is given as a `Frame`. Writing is modelled as the header plus one record of optional values per row, and the text encoding is not modelled.
- Cell values are integers. Strings such as `2001-03`, floats, dtype inference and comparisons between mixed types are not modelled.
- Frames.UnionColumns: when inputs have different columns, new columns are appended in order of first appearance. pandas' internal union order in such cases is not modelled beyond that.
- Frames.SortValues: it does not state the relative order of rows with equal keys (stability). pandas does not promise it for multi-column sorts.
- The other scripts (ffdi.py, kbdi.py, spei.py, evspsblpot.py, pr_climatology.py, calc_wsdi.py, nc_to_csv.py): each calls a library index or aggregation over floating-point grids, and none has logic of its own to model.
