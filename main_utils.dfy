/** The utilities the stages share: dropping columns, building the model registry, and
    the run's artifact files seen as a store from path to content. */
module MainUtils {
  import opened Errors
  import opened Tables
  import opened Dicts
  import opened Learners
  import opened Estimator

  /** `drop_columns(df, cols)`: the frame without the listed columns; pandas raises a
      key error naming the listed columns that are absent, and the utility re-raises it. */
  function DropColumns(df: Table, cols: seq<string>): (r: Result<Table>)
    requires df.Valid()
    ensures r.Err? <==> exists c :: c in cols && c !in df.columns
    ensures r.Err? ==> r.error.MissingColumns?
                       && forall c :: c in r.error.names <==> c in cols && c !in df.columns
    ensures r.Ok? ==> && r.value.Valid()
                      && |r.value.rows| == |df.rows|
                      && r.value.columns == Without(df.columns, set c | c in cols)
                      && (forall c :: c in r.value.columns <==> c in df.columns && c !in cols)
                      && forall c :: c in r.value.columns ==> ColumnValues(r.value, c) == ColumnValues(df, c)
  {
    var present := set c | c in df.columns;
    var absent := Without(cols, present);
    WithoutMembers(cols, present);
    if absent != [] then
      assert absent[0] in absent;
      Err(MissingColumns(absent))
    else
      var dropped := set c | c in cols;
      WithoutMembers(df.columns, dropped);
      RemoveColumnsKeepsAllCells(df, dropped);
      Ok(RemoveColumns(df, dropped))
  }

  /** One entry of the model registry file. */
  datatype ModelSpec = ModelSpec(moduleName: string, className: string, params: Option<Params>)

  /** A registry entry, `{"model": instance, "params": params}`. */
  datatype RegistryEntry = RegistryEntry(model: Model, params: Params)

  /** The constructor's keyword arguments: the parameters whose value is not a list. */
  function Kwargs(params: Params): (kw: Params)
    ensures forall k :: k in kw <==> k in params && !params[k].ListValue?
    ensures forall k :: k in kw ==> kw[k] == params[k]
  {
    map k | k in params && !params[k].ListValue? :: params[k]
  }

  /** `info.get("params", {})` */
  function ParamsOf(spec: ModelSpec): Params {
    if spec.params.Some? then spec.params.value else map[]
  }

  /** The entry built for one model of the registry file; the class found by name is
      represented by the module and class the file names. */
  function EntryOf(spec: ModelSpec): (e: RegistryEntry)
    ensures e.params == ParamsOf(spec)
    ensures e.model == Model(spec.moduleName, spec.className, Kwargs(ParamsOf(spec)))
  {
    var params := ParamsOf(spec);
    RegistryEntry(Model(spec.moduleName, spec.className, Kwargs(params)), params)
  }

  /** The registry after the loop has assigned `models[name]` for every entry of `config`. */
  function Registry(config: Dict<ModelSpec>): Dict<RegistryEntry>
  {
    if config == [] then []
    else
      var n := |config| - 1;
      Put(Registry(config[..n]), config[n].0, EntryOf(config[n].1))
  }

  /** For a dict (unique names), the registry has one entry per configured name, in
      the file's order, each built from that name's own specification. */
  lemma {:induction false} RegistryFollowsConfig(config: Dict<ModelSpec>)
    requires UniqueKeys(config)
    ensures |Registry(config)| == |config|
    ensures forall i :: 0 <= i < |config| ==> Registry(config)[i] == (config[i].0, EntryOf(config[i].1))
    ensures forall i :: 0 <= i < |config| ==>
              && Registry(config)[i].1.params == ParamsOf(config[i].1)
              && Registry(config)[i].1.model.kwargs == Kwargs(ParamsOf(config[i].1))
    ensures Keys(Registry(config)) == Keys(config)
    ensures UniqueKeys(Registry(config))
  {
    if config != [] {
      var n := |config| - 1;
      var prefix := config[..n];
      assert Keys(prefix) == Keys(config)[..n];
      assert UniqueKeys(prefix);
      RegistryFollowsConfig(prefix);
      assert config[n].0 !in Keys(prefix) by {
        assert Keys(config)[n] == config[n].0;
      }
      PutNew(Registry(prefix), config[n].0, EntryOf(config[n].1));
      assert Keys(config) == Keys(prefix) + [config[n].0];
    }
  }

  /** `load_models_from_yaml` once the file is parsed into `config`. */
  method LoadModelsFromYaml(config: Dict<ModelSpec>) returns (models: Dict<RegistryEntry>)
    ensures models == Registry(config)
  {
    models := [];
    var i := 0;
    while i < |config|
      invariant 0 <= i <= |config|
      invariant models == Registry(config[..i])
    {
      var (name, info) := config[i];
      var params := if info.params.Some? then info.params.value else map[];
      var instance := Model(info.moduleName, info.className,
                            map k | k in params && !params[k].ListValue? :: params[k]);
      assert config[..i + 1][..i] == config[..i];
      models := Put(models, name, RegistryEntry(instance, params));
      i := i + 1;
    }
    assert config[..i] == config;
  }

  /** A file of the run's artifact tree. */
  datatype ArtifactFile = ArrayFile(contents: NdArray) | PreprocessorFile(preprocessor: Preprocessor) | ModelFile(bundle: TelcoChurnModel)

  /** The artifact tree: what each path holds. Writing replaces what a path held. */
  type ArtifactStore = map<string, ArtifactFile>

  /** `load_numpy_array_data(path)` */
  function LoadArray(store: ArtifactStore, path: string): (r: Result<NdArray>)
    ensures r.Ok? <==> path in store && store[path].ArrayFile?
    ensures r.Ok? ==> r.value == store[path].contents
  {
    if path in store && store[path].ArrayFile? then Ok(store[path].contents) else Err(MissingFile(path))
  }

  /** `load_object(path)` for the saved preprocessor. */
  function LoadPreprocessor(store: ArtifactStore, path: string): (r: Result<Preprocessor>)
    ensures r.Ok? <==> path in store && store[path].PreprocessorFile?
    ensures r.Ok? ==> r.value == store[path].preprocessor
  {
    if path in store && store[path].PreprocessorFile? then Ok(store[path].preprocessor) else Err(MissingFile(path))
  }
}
