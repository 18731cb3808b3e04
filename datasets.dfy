/**
 * The part of an xarray Dataset that the rechunking script reads and changes:
 * the names of its data variables and coordinates, the length of its time
 * axis, each variable's encoding dictionary and the dataset's attributes.
 */
module Datasets {
  import opened Results
  import opened Seqs

  /** A variable's encoding dictionary (netCDF storage settings such as `chunksizes`), kept as opaque text. */
  type Encoding = map<string, string>

  /**
   * What a failed step of nc_to_rechunked_zarr.py raised. The script's own
   * errors (the output check, `list.remove`) are listed with those of the
   * dataset operations, so that every step returns one error type.
   */
  datatype Error =
    | OutputExists                // AssertionError: the output Zarr collection is already there
    | MissingKey(key: Name)       // KeyError from `ds[key]` or `ds.attrs[key]`
    | NotInList(item: Name)       // ValueError from `list.remove(item)`
    | NotFound(variable: Name)    // ValueError from `Dataset.drop_vars(variable)`

  datatype Dataset = Dataset(
    dataVars: seq<Name>,           // ds.keys(), in order
    coords: seq<Name>,             // ds.coords.keys(), in order
    timeLen: Option<nat>,          // len(ds['time']), None when the dataset has no time axis
    encoding: map<Name, Encoding>, // ds[name].encoding for every variable
    attrs: map<string, string>     // ds.attrs, the dataset's global attributes
  )
  {
    /** ds.variables: the coordinates and the data variables. */
    function Variables(): seq<Name>
    {
      coords + dataVars
    }

    /**
     * What xarray guarantees of every Dataset: names are dictionary keys, a name
     * is either a coordinate or a data variable, and every variable has an encoding.
     */
    predicate Valid()
    {
      && Distinct(dataVars)
      && Distinct(coords)
      && (forall n :: n in dataVars ==> n !in coords)
      && encoding.Keys == Elems(Variables())
    }
  }

  /** The dataset without the variables named in `xs`; everything else is as it was. */
  function WithoutVars(ds: Dataset, xs: set<Name>): (r: Dataset)
    ensures forall n :: n in r.Variables() <==> n in ds.Variables() && n !in xs
    ensures r.timeLen == ds.timeLen && r.attrs == ds.attrs
    ensures r.dataVars == Excluding(ds.dataVars, xs) && r.coords == Excluding(ds.coords, xs)
    ensures forall n :: n in r.encoding ==> n in ds.encoding && r.encoding[n] == ds.encoding[n]
    ensures ds.Valid() ==> r.Valid()
  {
    ds.(dataVars := Excluding(ds.dataVars, xs), coords := Excluding(ds.coords, xs), encoding := ds.encoding - xs)
  }

  /** Removing two groups of variables one after the other removes both groups. */
  lemma WithoutVarsTwice(ds: Dataset, a: set<Name>, b: set<Name>)
    ensures WithoutVars(WithoutVars(ds, a), b) == WithoutVars(ds, a + b)
  {
    ExcludingTwice(ds.dataVars, a, b);
    ExcludingTwice(ds.coords, a, b);
  }

  /** Removing names that a valid dataset does not hold leaves it as it is. */
  lemma WithoutAbsentVars(ds: Dataset, xs: set<Name>)
    requires ds.Valid()
    requires forall x :: x in xs ==> x !in ds.Variables()
    ensures WithoutVars(ds, xs) == ds
  {
    ExcludingAbsent(ds.dataVars, xs);
    ExcludingAbsent(ds.coords, xs);
    assert ds.encoding - xs == ds.encoding;
  }

  /**
   * xarray's `ds.drop_vars(name)` with the default errors='raise': the dataset
   * without that variable, or ValueError when the dataset has no variable of that name.
   */
  function DropVar(ds: Dataset, name: Name): (r: Result<Dataset, Error>)
    ensures r.Err? <==> name !in ds.Variables()
    ensures r.Err? ==> r.error == NotFound(name)
    ensures r.Ok? ==> r.value == WithoutVars(ds, {name})
    ensures r.Ok? ==> name !in r.value.Variables()
  {
    if name in ds.Variables() then
      Ok(WithoutVars(ds, {name}))
    else Err(NotFound(name))
  }
}
