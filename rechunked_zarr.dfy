/**
 * The bookkeeping that nc_to_rechunked_zarr.py does before it hands a dataset
 * to the rechunker library: dropping unwanted variables, pairing coordinates
 * with stored chunk sizes, clearing encodings and building the target-chunks
 * dictionary that asks for one chunk per grid point spanning the whole time axis.
 */
module RechunkedZarr {
  import opened Results
  import opened Seqs
  import opened Datasets

  /** A chunk-size dictionary, dimension name to chunk length. */
  type ChunkSizes = map<Name, nat>

  /** The target-chunks dictionary: chunk sizes per variable, or None (leave as is). */
  type TargetChunks = map<Name, Option<ChunkSizes>>

  /** The variables that are dropped from every input file. */
  const Unwanted: seq<Name> := ["height", "lat_bnds", "lon_bnds"]

  /** The target chunking of the rechunked variable: the whole time axis, one grid point. */
  function PointChunks(timeLen: nat): ChunkSizes
  {
    map["time" := timeLen, "lat" := 1, "lon" := 1]
  }

  /**
   * define_target_chunks: the target variable gets PointChunks, every other
   * coordinate and data variable gets None. Fails with KeyError when there is
   * no time axis and with ValueError (from list.remove) when `v` is not a data variable.
   */
  method DefineTargetChunks(ds: Dataset, v: Name) returns (r: Result<TargetChunks, Error>)
    ensures ds.timeLen.None? ==> r == Err(MissingKey("time"))
    ensures ds.timeLen.Some? && v !in ds.dataVars ==> r == Err(NotInList(v))
    ensures r.Ok? <==> ds.timeLen.Some? && v in ds.dataVars
    ensures r.Ok? ==> r.value.Keys == {v} + Elems(ds.coords) + Elems(ds.dataVars)
    ensures r.Ok? ==> forall n :: n in r.value && n != v ==> r.value[n] == None
    ensures r.Ok? ==>
      r.value[v] == (if v !in ds.coords && multiset(ds.dataVars)[v] == 1
                     then Some(PointChunks(ds.timeLen.value)) else None)
  {
    if ds.timeLen.None? {
      return Err(MissingKey("time"));
    }
    var chunks := PointChunks(ds.timeLen.value);
    var target: TargetChunks := map[v := Some(chunks)];
    var variables := RemoveFirst(ds.dataVars, v);
    if variables.None? {
      return Err(NotInList(v));
    }
    RemovedElems(ds.dataVars, v, variables.value);
    var names := ds.coords + variables.value;
    target := SetToNone(target, names);
    ElemsAppend(ds.coords, variables.value);
    r := Ok(target);
  }

  /** The loop `for name in names: target_chunks_dict[name] = None`. */
  method SetToNone(m: TargetChunks, names: seq<Name>) returns (r: TargetChunks)
    ensures r.Keys == m.Keys + Elems(names)
    ensures forall n :: n in r ==> r[n] == if n in names then None else m[n]
  {
    r := m;
    for i := 0 to |names|
      invariant r.Keys == m.Keys + Elems(names[..i])
      invariant forall n :: n in r ==> r[n] == if n in names[..i] then None else m[n]
    {
      assert names[..i + 1] == names[..i] + [names[i]];
      r := r[names[i] := None];
    }
    assert names[..|names|] == names;
  }

  /** What list.remove leaves behind: the other names, and `v` again only if it occurred twice. */
  lemma RemovedElems(s: seq<Name>, v: Name, rest: seq<Name>)
    requires RemoveFirst(s, v) == Some(rest)
    ensures Elems(s) == {v} + Elems(rest)
    ensures multiset(s)[v] == 1 <==> v !in rest
  {
    var i := IndexOf(s, v);
    assert s == s[..i] + [v] + s[i + 1..];
    ElemsAppend(s[..i] + [v], s[i + 1..]);
    ElemsAppend(s[..i], [v]);
    ElemsAppend(s[..i], s[i + 1..]);
    assert multiset(rest)[v] == multiset(s)[v] - 1;
    assert v in rest <==> v in multiset(rest);
  }

  /** In a valid dataset a data variable occurs once and is not a coordinate. */
  lemma DataVarOnce(ds: Dataset, v: Name)
    requires ds.Valid() && v in ds.dataVars
    ensures v !in ds.coords && multiset(ds.dataVars)[v] == 1
  {
    DistinctOccursOnce(ds.dataVars, v);
  }

  /** The key set define_target_chunks builds is the set of all variable names. */
  lemma TargetKeys(ds: Dataset, v: Name, keys: set<Name>)
    requires v in ds.dataVars
    requires keys == {v} + Elems(ds.coords) + Elems(ds.dataVars)
    ensures keys == Elems(ds.Variables())
  {
  }

  /** The dataset after drop_vars: the unwanted variables gone, the rest untouched. */
  function Dropped(ds: Dataset): Dataset
  {
    WithoutVars(ds, Elems(Unwanted))
  }

  /**
   * drop_vars: drops `height`, `lat_bnds` and `lon_bnds` one after the other,
   * skipping any that the dataset does not hold (the ValueError is swallowed).
   */
  method DropVars(ds: Dataset) returns (r: Dataset)
    requires ds.Valid()
    ensures r == Dropped(ds)
    ensures r.Valid()
    ensures forall n :: n in r.Variables() <==> n in ds.Variables() && n !in Unwanted
    ensures r.timeLen == ds.timeLen
  {
    r := ds;
    WithoutAbsentVars(ds, {});
    assert Elems(Unwanted[..0]) == {};
    for i := 0 to |Unwanted|
      invariant r == WithoutVars(ds, Elems(Unwanted[..i]))
    {
      var name := Unwanted[i];
      ElemsPrefix(Unwanted, i);
      WithoutVarsTwice(ds, Elems(Unwanted[..i]), {name});
      var attempt := DropVar(r, name);
      match attempt {
        case Ok(d) =>
          r := d;
        case Err(_) =>
          WithoutAbsentVars(r, {name});
      }
    }
    assert Unwanted[..|Unwanted|] == Unwanted;
  }

  /** drop_vars is idempotent: dropping a second time changes nothing. */
  lemma DroppedIdempotent(ds: Dataset)
    ensures Dropped(Dropped(ds)) == Dropped(ds)
  {
    WithoutVarsTwice(ds, Elems(Unwanted), Elems(Unwanted));
    assert Elems(Unwanted) + Elems(Unwanted) == Elems(Unwanted);
  }

  /** `coords[j]` does not occur again among the first `k` coordinates after position j. */
  ghost predicate LastAmong(coords: seq<Name>, j: nat, k: nat)
    requires j < k <= |coords|
  {
    forall l :: j < l < k ==> coords[l] != coords[j]
  }

  /**
   * The input-chunks dictionary of main: `zip(coords, chunks)` pairs the i-th
   * coordinate with the i-th stored chunk size and stops at the shorter list;
   * a repeated name keeps the last size written.
   */
  method InputChunks(coords: seq<Name>, chunks: seq<nat>) returns (m: ChunkSizes)
    ensures m.Keys == Elems(coords[..if |coords| < |chunks| then |coords| else |chunks|])
    ensures forall j :: 0 <= j < |coords| && j < |chunks| ==>
      (LastAmong(coords, j, if |coords| < |chunks| then |coords| else |chunks|) ==> m[coords[j]] == chunks[j])
    ensures forall j :: 0 <= j < |coords| && j < |chunks| ==> coords[j] in m
    ensures Distinct(coords) ==> forall j :: 0 <= j < |coords| && j < |chunks| ==> m[coords[j]] == chunks[j]
  {
    m := map[];
    var i := 0;
    while i < |coords| && i < |chunks|
      invariant i <= |coords| && i <= |chunks|
      invariant m.Keys == Elems(coords[..i])
      invariant forall j :: 0 <= j < i && LastAmong(coords, j, i) ==> m[coords[j]] == chunks[j]
    {
      assert coords[..i + 1] == coords[..i] + [coords[i]];
      m := m[coords[i] := chunks[i]];
      i := i + 1;
    }
  }

  /**
   * The loop `for var in ds.variables: ds[var].encoding = {}`: every variable's
   * encoding becomes empty and nothing else about the dataset changes.
   */
  method ClearEncodings(ds: Dataset) returns (r: Dataset)
    ensures r.dataVars == ds.dataVars && r.coords == ds.coords && r.timeLen == ds.timeLen && r.attrs == ds.attrs
    ensures r.encoding.Keys == ds.encoding.Keys + Elems(ds.Variables())
    ensures forall n :: n in ds.Variables() ==> r.encoding[n] == map[]
    ensures forall n :: n in ds.encoding && n !in ds.Variables() ==> r.encoding[n] == ds.encoding[n]
    ensures ds.Valid() ==> r.Valid()
  {
    var names := ds.Variables();
    r := ds;
    for i := 0 to |names|
      invariant r.dataVars == ds.dataVars && r.coords == ds.coords && r.timeLen == ds.timeLen && r.attrs == ds.attrs
      invariant r.encoding.Keys == ds.encoding.Keys + Elems(names[..i])
      invariant forall n :: n in names[..i] ==> r.encoding[n] == map[]
      invariant forall n :: n in ds.encoding && n !in names[..i] ==> r.encoding[n] == ds.encoding[n]
    {
      assert names[..i + 1] == names[..i] + [names[i]];
      r := r.(encoding := r.encoding[names[i] := map[]]);
    }
    assert names[..|names|] == names;
  }

  /** What main passes to `rechunk`: the prepared dataset and the two chunk dictionaries. */
  datatype RechunkRequest = RechunkRequest(source: Dataset, inputChunks: ChunkSizes, targetChunks: TargetChunks)

  /** The opened dataset after the chunk, history and encoding steps of main, with its input chunks. */
  datatype Prepared = Prepared(source: Dataset, inputChunks: ChunkSizes)

  /**
   * The steps of main between opening the input and defining the target
   * chunks: `ds[args.var]` (a KeyError when the variable is missing or was
   * dropped), the input-chunks zip, the new history attribute (a KeyError
   * when the input has none) and the cleared encodings.
   */
  method Prepare(infile: Dataset, v: Name, chunksizes: seq<nat>, newLog: string -> string)
    returns (r: Result<Prepared, Error>)
    requires infile.Valid()
    ensures v !in infile.Variables() || v in Unwanted ==> r == Err(MissingKey(v))
    ensures v in infile.Variables() && v !in Unwanted && "history" !in infile.attrs ==> r == Err(MissingKey("history"))
    ensures r.Ok? <==> v in infile.Variables() && v !in Unwanted && "history" in infile.attrs
    ensures r.Ok? ==> r.value.source.Valid()
    ensures r.Ok? ==> forall n :: n in r.value.source.Variables() <==> n in infile.Variables() && n !in Unwanted
    ensures r.Ok? ==> forall n :: n in r.value.source.Variables() ==>
      n in r.value.source.encoding && r.value.source.encoding[n] == map[]
    ensures r.Ok? ==> r.value.source.coords == Dropped(infile).coords && Subsequence(r.value.source.coords, infile.coords)
    ensures r.Ok? ==> r.value.source.dataVars == Dropped(infile).dataVars
    ensures r.Ok? ==> r.value.source.timeLen == infile.timeLen
    ensures r.Ok? ==>
      "history" in infile.attrs &&
      r.value.source.attrs == infile.attrs["history" := newLog(infile.attrs["history"])]
    ensures r.Ok? ==>
      var k := if |r.value.source.coords| < |chunksizes| then |r.value.source.coords| else |chunksizes|;
      r.value.inputChunks.Keys == Elems(r.value.source.coords[..k])
    ensures r.Ok? ==> forall j :: 0 <= j < |r.value.source.coords| && j < |chunksizes| ==>
      r.value.source.coords[j] in r.value.inputChunks &&
      r.value.inputChunks[r.value.source.coords[j]] == chunksizes[j]
  {
    var loaded := DropVars(infile);
    if v !in loaded.Variables() {
      return Err(MissingKey(v));
    }
    assert Distinct(loaded.coords);
    var inputChunks := InputChunks(loaded.coords, chunksizes);
    if "history" !in loaded.attrs {
      return Err(MissingKey("history"));
    }
    var withLog := loaded.(attrs := loaded.attrs["history" := newLog(loaded.attrs["history"])]);
    assert withLog.Valid();
    var ds := ClearEncodings(withLog);
    ExcludingOrder(infile.coords, Elems(Unwanted));
    return Ok(Prepared(ds, inputChunks));
  }

  /**
   * main, up to the call into the rechunker library. `outputExists` is the
   * os.path.isdir check on the output path, `infile` the dataset that is opened
   * (drop_vars is its preprocess step), `v` the variable to rechunk,
   * `chunksizes` the value of `ds[v].encoding['chunksizes']` and `newLog` the
   * history text that cmdprov.new_log builds from the input's history.
   */
  method Run(outputExists: bool, infile: Dataset, v: Name, chunksizes: seq<nat>, newLog: string -> string)
    returns (r: Result<RechunkRequest, Error>)
    requires infile.Valid()
    ensures outputExists ==> r == Err(OutputExists)
    ensures !outputExists && (v !in infile.Variables() || v in Unwanted) ==> r == Err(MissingKey(v))
    ensures !outputExists && v in infile.Variables() && v !in Unwanted && "history" !in infile.attrs ==>
      r == Err(MissingKey("history"))
    ensures (!outputExists && v in infile.Variables() && v !in Unwanted && "history" in infile.attrs &&
             infile.timeLen.None?) ==> r == Err(MissingKey("time"))
    ensures (!outputExists && v in infile.coords && v !in Unwanted && "history" in infile.attrs &&
             infile.timeLen.Some?) ==> r == Err(NotInList(v))
    ensures r.Ok? <==>
      !outputExists && v in infile.dataVars && v !in Unwanted && "history" in infile.attrs && infile.timeLen.Some?
    ensures r.Ok? ==> r.value.source.Valid()
    ensures r.Ok? ==> forall n :: n in r.value.source.Variables() <==> n in infile.Variables() && n !in Unwanted
    ensures r.Ok? ==> forall n :: n in r.value.source.Variables() ==>
      n in r.value.source.encoding && r.value.source.encoding[n] == map[]
    ensures r.Ok? ==> r.value.source.coords == Dropped(infile).coords && Subsequence(r.value.source.coords, infile.coords)
    ensures r.Ok? ==> r.value.source.dataVars == Dropped(infile).dataVars
    ensures r.Ok? ==> r.value.source.timeLen == infile.timeLen
    ensures r.Ok? ==>
      "history" in infile.attrs &&
      r.value.source.attrs == infile.attrs["history" := newLog(infile.attrs["history"])]
    ensures r.Ok? ==> r.value.targetChunks.Keys == Elems(r.value.source.Variables())
    ensures r.Ok? ==>
      infile.timeLen.Some? && v in r.value.targetChunks &&
      r.value.targetChunks[v] == Some(PointChunks(infile.timeLen.value))
    ensures r.Ok? ==> forall n :: n in r.value.targetChunks && n != v ==> r.value.targetChunks[n] == None
    ensures r.Ok? ==>
      var k := if |r.value.source.coords| < |chunksizes| then |r.value.source.coords| else |chunksizes|;
      r.value.inputChunks.Keys == Elems(r.value.source.coords[..k])
    ensures r.Ok? ==> forall j :: 0 <= j < |r.value.source.coords| && j < |chunksizes| ==>
      r.value.source.coords[j] in r.value.inputChunks &&
      r.value.inputChunks[r.value.source.coords[j]] == chunksizes[j]
  {
    if outputExists {
      return Err(OutputExists);
    }
    var prepared := Prepare(infile, v, chunksizes, newLog);
    if prepared.Err? {
      return Err(prepared.error);
    }
    var ds := prepared.value.source;
    assert v in ds.dataVars <==> v in infile.dataVars && v !in Unwanted;
    var target := DefineTargetChunks(ds, v);
    match target {
      case Err(e) =>
        r := Err(e);
      case Ok(t) =>
        DataVarOnce(ds, v);
        TargetKeys(ds, v, t.Keys);
        r := Ok(RechunkRequest(ds, prepared.value.inputChunks, t));
    }
  }
}
