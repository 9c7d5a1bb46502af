/** The training stage: every registry model is scored by cross validation, the four best
    are tuned and stacked, and the ensemble is kept only when its test accuracy reaches
    the expected score. Fitting, searching and scoring are library calls. */
module ModelTrainer {
  import opened Errors
  import opened Tables
  import opened Dicts
  import opened Learners
  import opened Estimator
  import opened MainUtils
  import opened ConfigEntity
  import opened ArtifactEntity

  /** How many of the best-scoring models go on to tuning. */
  const TopCount: nat := 4

  function Min(a: nat, b: nat): nat {
    if a <= b then a else b
  }

  // ---------------------------------------------------------------------------------
  // Scoring the registry

  /** `model_accuracies` once every entry of `registry` has been scored. */
  function ModelAccuracies(lib: Library, registry: Dict<RegistryEntry>, x: Matrix, y: seq<real>): Dict<real>
  {
    if registry == [] then []
    else
      var n := |registry| - 1;
      Put(ModelAccuracies(lib, registry[..n], x, y), registry[n].0, lib.crossValScore(registry[n].1.model, x, y))
  }

  /** For a registry (unique names) the accuracies have one entry per model, in registry
      order, each holding that model's own cross-validated accuracy. */
  lemma {:induction false} AccuraciesFollowRegistry(lib: Library, registry: Dict<RegistryEntry>, x: Matrix, y: seq<real>)
    requires UniqueKeys(registry)
    ensures |ModelAccuracies(lib, registry, x, y)| == |registry|
    ensures forall i :: 0 <= i < |registry| ==>
              ModelAccuracies(lib, registry, x, y)[i] == (registry[i].0, lib.crossValScore(registry[i].1.model, x, y))
    ensures Keys(ModelAccuracies(lib, registry, x, y)) == Keys(registry)
    ensures UniqueKeys(ModelAccuracies(lib, registry, x, y))
  {
    if registry != [] {
      var n := |registry| - 1;
      var prefix := registry[..n];
      assert Keys(prefix) == Keys(registry)[..n];
      AccuraciesFollowRegistry(lib, prefix, x, y);
      assert registry[n].0 !in Keys(prefix) by {
        assert Keys(registry)[n] == registry[n].0;
      }
      PutNew(ModelAccuracies(lib, prefix, x, y), registry[n].0, lib.crossValScore(registry[n].1.model, x, y));
      assert Keys(registry) == Keys(prefix) + [registry[n].0];
    }
  }

  // ---------------------------------------------------------------------------------
  // `sorted(items, key=score, reverse=True)`: a stable sort by decreasing score

  ghost predicate SortedByScore(s: Dict<real>) {
    forall i, j :: 0 <= i < j < |s| ==> s[i].1 >= s[j].1
  }

  /** Places `e` behind every entry that scores at least as much as it. */
  function Insert(e: (string, real), s: Dict<real>): (r: Dict<real>)
    ensures |r| == |s| + 1
    ensures multiset(r) == multiset(s) + multiset{e}
  {
    if s == [] then [e]
    else if s[0].1 >= e.1 then
      assert s == [s[0]] + s[1..];
      [s[0]] + Insert(e, s[1..])
    else [e] + s
  }

  /** Each entry in turn is placed behind the earlier entries that score at least as much. */
  function SortByScore(s: Dict<real>): (r: Dict<real>)
    ensures |r| == |s|
    ensures multiset(r) == multiset(s)
  {
    if s == [] then []
    else
      var n := |s| - 1;
      assert s == s[..n] + [s[n]];
      Insert(s[n], SortByScore(s[..n]))
  }

  lemma {:induction false} InsertSorted(e: (string, real), s: Dict<real>)
    requires SortedByScore(s)
    ensures SortedByScore(Insert(e, s))
  {
    if s != [] && s[0].1 >= e.1 {
      var t := Insert(e, s[1..]);
      InsertSorted(e, s[1..]);
      forall j | 0 <= j < |t| ensures t[j].1 <= s[0].1 {
        assert t[j] in multiset(t);
        if t[j] != e {
          assert t[j] in multiset(s[1..]);
          var k :| 0 <= k < |s[1..]| && s[1..][k] == t[j];
          assert s[k + 1] == t[j];
        }
      }
    }
  }

  lemma {:induction false} SortSorted(s: Dict<real>)
    ensures SortedByScore(SortByScore(s))
  {
    if s != [] {
      var n := |s| - 1;
      SortSorted(s[..n]);
      InsertSorted(s[n], SortByScore(s[..n]));
    }
  }

  /** The entries that score exactly `v`, in order. */
  function WithScore(s: Dict<real>, v: real): Dict<real> {
    if s == [] then [] else (if s[0].1 == v then [s[0]] else []) + WithScore(s[1..], v)
  }

  lemma {:induction false} WithScoreAppend(a: Dict<real>, b: Dict<real>, v: real)
    ensures WithScore(a + b, v) == WithScore(a, v) + WithScore(b, v)
  {
    if a == [] {
      assert a + b == b;
    } else {
      var head := if a[0].1 == v then [a[0]] else [];
      assert (a + b)[0] == a[0] && (a + b)[1..] == a[1..] + b;
      assert WithScore(a + b, v) == head + WithScore(a[1..] + b, v);
      WithScoreAppend(a[1..], b, v);
      assert WithScore(a, v) == head + WithScore(a[1..], v);
    }
  }

  lemma {:induction false} WithScoreNone(s: Dict<real>, v: real)
    requires forall i :: 0 <= i < |s| ==> s[i].1 < v
    ensures WithScore(s, v) == []
  {
    if s != [] {
      WithScoreNone(s[1..], v);
    }
  }

  /** Dropping the first entry of a sorted dict leaves it sorted. */
  lemma SortedTail(s: Dict<real>)
    requires SortedByScore(s) && s != []
    ensures SortedByScore(s[1..])
  {
    forall i, j | 0 <= i < j < |s| - 1 ensures s[1..][i].1 >= s[1..][j].1 {
      assert s[1..][i] == s[i + 1] && s[1..][j] == s[j + 1];
    }
  }

  /** Inserting keeps the entries of each score in their order and puts the new entry
      behind them. */
  lemma {:induction false} InsertStable(e: (string, real), s: Dict<real>, v: real)
    requires SortedByScore(s)
    ensures WithScore(Insert(e, s), v) == WithScore(s, v) + (if e.1 == v then [e] else [])
  {
    var last := if e.1 == v then [e] else [];
    if s == [] {
      assert [e][1..] == [];
    } else if s[0].1 >= e.1 {
      var t := Insert(e, s[1..]);
      var head := if s[0].1 == v then [s[0]] else [];
      SortedTail(s);
      InsertStable(e, s[1..], v);
      calc {
        WithScore(Insert(e, s), v);
        WithScore([s[0]] + t, v);
        { assert ([s[0]] + t)[0] == s[0] && ([s[0]] + t)[1..] == t; }
        head + WithScore(t, v);
        head + (WithScore(s[1..], v) + last);
        (head + WithScore(s[1..], v)) + last;
        WithScore(s, v) + last;
      }
    } else {
      InsertInFront(e, s, v);
    }
  }

  /** An entry that outscores the first of a sorted dict goes in front of all of it,
      where none of the others shares its score. */
  lemma InsertInFront(e: (string, real), s: Dict<real>, v: real)
    requires SortedByScore(s) && s != [] && s[0].1 < e.1
    ensures WithScore([e] + s, v) == WithScore(s, v) + (if e.1 == v then [e] else [])
  {
    assert ([e] + s)[0] == e && ([e] + s)[1..] == s;
    if e.1 == v {
      assert forall i :: 0 <= i < |s| ==> s[i].1 <= s[0].1;
      WithScoreNone(s, v);
    }
  }

  /** Stability: among entries of equal score, the sort keeps their original order. */
  lemma {:induction false} SortStable(s: Dict<real>, v: real)
    ensures WithScore(SortByScore(s), v) == WithScore(s, v)
  {
    if s != [] {
      var n := |s| - 1;
      var prefix, e := s[..n], s[n];
      var last := if e.1 == v then [e] else [];
      var sorted := SortByScore(prefix);
      calc {
        WithScore(SortByScore(s), v);
        WithScore(Insert(e, sorted), v);
        { SortSorted(prefix); InsertStable(e, sorted, v); }
        WithScore(sorted, v) + last;
        { SortStable(prefix, v); }
        WithScore(prefix, v) + last;
        { assert [e][1..] == []; }
        WithScore(prefix, v) + WithScore([e], v);
        { WithScoreAppend(prefix, [e], v); assert prefix + [e] == s; }
        WithScore(s, v);
      }
    }
  }

  lemma KeysCons<V>(p: (string, V), t: Dict<V>)
    ensures Keys([p] + t) == [p.0] + Keys(t)
  {
  }

  lemma {:induction false} InsertKeys(e: (string, real), s: Dict<real>)
    requires UniqueKeys(s) && e.0 !in Keys(s)
    ensures UniqueKeys(Insert(e, s))
    ensures forall k :: k in Keys(Insert(e, s)) <==> k in Keys(s) || k == e.0
  {
    if s == [] {
    } else if s[0].1 >= e.1 {
      var t := Insert(e, s[1..]);
      KeysCons(s[0], s[1..]);
      assert s == [s[0]] + s[1..];
      assert Keys(s[1..]) == Keys(s)[1..];
      InsertKeys(e, s[1..]);
      assert s[0].0 !in Keys(s[1..]) by {
        forall j | 0 <= j < |s[1..]| ensures Keys(s[1..])[j] != s[0].0 {
          assert Keys(s)[j + 1] == Keys(s[1..])[j];
        }
      }
      assert s[0].0 != e.0 by {
        assert Keys(s)[0] == s[0].0;
      }
      KeysCons(s[0], t);
      DistinctCons(s[0].0, Keys(t));
    } else {
      KeysCons(e, s);
      DistinctCons(e.0, Keys(s));
    }
  }

  lemma {:induction false} SortKeys(s: Dict<real>)
    requires UniqueKeys(s)
    ensures UniqueKeys(SortByScore(s))
    ensures forall k :: k in Keys(SortByScore(s)) <==> k in Keys(s)
  {
    if s != [] {
      var n := |s| - 1;
      var prefix := s[..n];
      assert Keys(prefix) == Keys(s)[..n];
      SortKeys(prefix);
      assert s[n].0 !in Keys(prefix) by {
        assert Keys(s)[n] == s[n].0;
      }
      InsertKeys(s[n], SortByScore(prefix));
      assert Keys(s) == Keys(prefix) + [s[n].0];
    }
  }

  // ---------------------------------------------------------------------------------
  // The top models

  /** `dict(sorted(model_accuracies.items(), key=score, reverse=True)[:4])` */
  function TopModels(accuracies: Dict<real>): Dict<real> {
    var sorted := SortByScore(accuracies);
    FromPairs(sorted[..Min(TopCount, |sorted|)])
  }

  /** The selection is the first four entries of the sorted accuracies (all of them when
      there are no more than four): turning them into a dict changes nothing, because
      their names are distinct. */
  lemma TopModelsArePrefix(accuracies: Dict<real>)
    requires UniqueKeys(accuracies)
    ensures TopModels(accuracies) == SortByScore(accuracies)[..Min(TopCount, |accuracies|)]
    ensures UniqueKeys(TopModels(accuracies))
  {
    var sorted := SortByScore(accuracies);
    var m := Min(TopCount, |sorted|);
    SortKeys(accuracies);
    PrefixKeepsUnique(sorted, m);
    FromPairsIdentity(sorted[..m]);
  }

  /** At most four entries are kept, all of them when there are no more than four; they
      come in non-increasing score order and each is an entry of the accuracies. */
  lemma TopModelsSelection(accuracies: Dict<real>)
    requires UniqueKeys(accuracies)
    ensures |TopModels(accuracies)| == Min(TopCount, |accuracies|)
    ensures |accuracies| <= TopCount ==> multiset(TopModels(accuracies)) == multiset(accuracies)
    ensures SortedByScore(TopModels(accuracies))
    ensures forall p :: p in TopModels(accuracies) ==> p in accuracies
  {
    var sorted := SortByScore(accuracies);
    var m := Min(TopCount, |sorted|);
    TopModelsArePrefix(accuracies);
    SortSorted(accuracies);
    if |accuracies| <= TopCount {
      assert sorted[..m] == sorted;
    }
    forall p | p in sorted[..m] ensures p in accuracies {
      assert p in multiset(sorted);
    }
  }

  /** No entry left out scores more than an entry kept. */
  lemma TopModelsAreBest(accuracies: Dict<real>)
    requires UniqueKeys(accuracies)
    ensures forall p, q :: p in TopModels(accuracies) && q in accuracies && q !in TopModels(accuracies) ==> q.1 <= p.1
  {
    var sorted := SortByScore(accuracies);
    var m := Min(TopCount, |sorted|);
    var top := sorted[..m];
    TopModelsArePrefix(accuracies);
    SortSorted(accuracies);
    forall p, q | p in top && q in accuracies && q !in top ensures q.1 <= p.1 {
      assert q in multiset(sorted);
      var i :| 0 <= i < m && top[i] == p;
      var j :| 0 <= j < |sorted| && sorted[j] == q;
    }
  }

  /** Among entries of equal score the kept ones are the earliest, in registry order:
      for every score, the kept entries with that score are a prefix of all entries with
      that score. */
  lemma TopModelsKeepTieOrder(accuracies: Dict<real>, v: real)
    requires UniqueKeys(accuracies)
    ensures WithScore(TopModels(accuracies), v) <= WithScore(accuracies, v)
  {
    var sorted := SortByScore(accuracies);
    var m := Min(TopCount, |sorted|);
    TopModelsArePrefix(accuracies);
    SortStable(accuracies, v);
    WithScoreAppend(sorted[..m], sorted[m..], v);
    assert sorted[..m] + sorted[m..] == sorted;
  }

  /** Every selected name is a registry name paired with its own model's score. */
  lemma TopModelsFromRegistry(lib: Library, registry: Dict<RegistryEntry>, x: Matrix, y: seq<real>)
    requires UniqueKeys(registry)
    ensures forall p :: p in TopModels(ModelAccuracies(lib, registry, x, y)) ==>
              p.0 in Keys(registry) && p.1 == lib.crossValScore(Get(registry, p.0).model, x, y)
  {
    var acc := ModelAccuracies(lib, registry, x, y);
    AccuraciesFollowRegistry(lib, registry, x, y);
    TopModelsSelection(acc);
    forall p | p in TopModels(acc)
      ensures p.0 in Keys(registry) && p.1 == lib.crossValScore(Get(registry, p.0).model, x, y)
    {
      var i :| 0 <= i < |acc| && acc[i] == p;
      GetAt(registry, i);
    }
  }

  /** A registry of at most four models has all of its names selected. */
  lemma SmallRegistryAllSelected(lib: Library, registry: Dict<RegistryEntry>, x: Matrix, y: seq<real>)
    requires UniqueKeys(registry) && |registry| <= TopCount
    ensures forall k :: k in Keys(registry) ==> k in Keys(TopModels(ModelAccuracies(lib, registry, x, y)))
  {
    var acc := ModelAccuracies(lib, registry, x, y);
    var top := TopModels(acc);
    AccuraciesFollowRegistry(lib, registry, x, y);
    TopModelsSelection(acc);
    forall k | k in Keys(registry) ensures k in Keys(top) {
      var i :| 0 <= i < |registry| && Keys(registry)[i] == k;
      assert acc[i] in multiset(top);
      var j :| 0 <= j < |top| && top[j] == acc[i];
      assert Keys(top)[j] == k;
    }
  }

  /** `get_top_models`: the accuracies dict filled in a loop, then the selection. */
  method GetTopModels(lib: Library, xTrain: Matrix, yTrain: seq<real>, modelsParams: Dict<RegistryEntry>)
    returns (topModels: Dict<real>)
    ensures topModels == TopModels(ModelAccuracies(lib, modelsParams, xTrain, yTrain))
  {
    var modelAccuracies: Dict<real> := [];
    var i := 0;
    while i < |modelsParams|
      invariant 0 <= i <= |modelsParams|
      invariant modelAccuracies == ModelAccuracies(lib, modelsParams[..i], xTrain, yTrain)
    {
      var (modelName, mp) := modelsParams[i];
      var model := mp.model;
      var scores := lib.crossValScore(model, xTrain, yTrain);
      assert modelsParams[..i + 1][..i] == modelsParams[..i];
      modelAccuracies := Put(modelAccuracies, modelName, scores);
      i := i + 1;
    }
    assert modelsParams[..i] == modelsParams;
    topModels := TopModels(modelAccuracies);
  }

  // ---------------------------------------------------------------------------------
  // Tuning and stacking

  /** A registry entry with a parameter grid goes through the grid search; one without
      is fitted with its own parameters. The estimator itself is never changed. */
  function Tune(entry: RegistryEntry): (f: FittedModel)
    ensures f.model == entry.model
    ensures f.SearchedBest? <==> |entry.params| > 0
    ensures f.SearchedBest? ==> f.grid == entry.params
  {
    if |entry.params| > 0 then SearchedBest(entry.model, entry.params) else FittedAsIs(entry.model)
  }

  /** `best_tuned_models` once the loop has passed every entry of `registry`. */
  function TunedModels(registry: Dict<RegistryEntry>, evolutionModels: Dict<real>): seq<(string, FittedModel)>
  {
    if registry == [] then []
    else
      var n := |registry| - 1;
      TunedModels(registry[..n], evolutionModels)
      + (if registry[n].0 in Keys(evolutionModels) then [(registry[n].0, Tune(registry[n].1))] else [])
  }

  /** A name among the first `n` entries sits at the same place in the whole registry,
      and names the same entry there. */
  lemma PrefixName(registry: Dict<RegistryEntry>, n: nat, k: string)
    requires n <= |registry| && k in Keys(registry[..n])
    ensures k in Keys(registry) && IndexOf(Keys(registry), k) == IndexOf(Keys(registry[..n]), k) < n
    ensures Get(registry, k) == Get(registry[..n], k)
  {
    assert Keys(registry[..n]) == Keys(registry)[..n];
    IndexOfPrefix(Keys(registry), n, k);
  }

  /** Every tuned model is a selected registry entry, tuned from its own entry. */
  lemma {:induction false} TunedModelsAreSelected(registry: Dict<RegistryEntry>, evolutionModels: Dict<real>)
    requires UniqueKeys(registry)
    ensures forall i :: 0 <= i < |TunedModels(registry, evolutionModels)| ==>
              var entry := TunedModels(registry, evolutionModels)[i];
              entry.0 in Keys(registry) && entry.0 in Keys(evolutionModels) && entry.1 == Tune(Get(registry, entry.0))
  {
    if registry != [] {
      var n := |registry| - 1;
      var prefix := registry[..n];
      var before := TunedModels(prefix, evolutionModels);
      var tuned := TunedModels(registry, evolutionModels);
      assert Keys(prefix) == Keys(registry)[..n];
      TunedModelsAreSelected(prefix, evolutionModels);
      forall i | 0 <= i < |tuned|
        ensures && tuned[i].0 in Keys(registry) && tuned[i].0 in Keys(evolutionModels)
                && tuned[i].1 == Tune(Get(registry, tuned[i].0))
      {
        if i < |before| {
          assert tuned[i] == before[i];
          PrefixName(registry, n, before[i].0);
        } else {
          GetAt(registry, n);
        }
      }
    }
  }

  /** The registry positions whose entries the loop tunes. */
  function TunedPositions(registry: Dict<RegistryEntry>, evolutionModels: Dict<real>): seq<nat>
  {
    if registry == [] then []
    else
      var n := |registry| - 1;
      TunedPositions(registry[..n], evolutionModels) + (if registry[n].0 in Keys(evolutionModels) then [n] else [])
  }

  /** The tuned models are the selected registry entries at strictly increasing
      positions, each tuned from its own entry, and no selected entry is skipped: they come
      in registry order, not in score order. */
  lemma {:induction false} TunedModelsInRegistryOrder(registry: Dict<RegistryEntry>, evolutionModels: Dict<real>)
    ensures |TunedPositions(registry, evolutionModels)| == |TunedModels(registry, evolutionModels)|
    ensures forall i :: 0 <= i < |TunedModels(registry, evolutionModels)| ==>
              var k := TunedPositions(registry, evolutionModels)[i];
              && k < |registry| && registry[k].0 in Keys(evolutionModels)
              && TunedModels(registry, evolutionModels)[i] == (registry[k].0, Tune(registry[k].1))
    ensures forall i, j :: 0 <= i < j < |TunedPositions(registry, evolutionModels)| ==>
              TunedPositions(registry, evolutionModels)[i] < TunedPositions(registry, evolutionModels)[j]
    ensures forall k :: 0 <= k < |registry| && registry[k].0 in Keys(evolutionModels) ==>
              k in TunedPositions(registry, evolutionModels)
  {
    if registry != [] {
      var n := |registry| - 1;
      var prefix := registry[..n];
      TunedModelsInRegistryOrder(prefix, evolutionModels);
      var positions := TunedPositions(registry, evolutionModels);
      var before := TunedPositions(prefix, evolutionModels);
      assert forall i :: 0 <= i < |before| ==> positions[i] == before[i] && before[i] < n;
      assert forall k :: 0 <= k < n ==> registry[k] == prefix[k];
    }
  }

  /** The ensemble the stage trains: the tuned models of the four best, stacked. */
  function Ensemble(lib: Library, registry: Dict<RegistryEntry>, xTrain: Matrix, yTrain: seq<real>): Classifier {
    Stacking(TunedModels(registry, TopModels(ModelAccuracies(lib, registry, xTrain, yTrain))), xTrain, yTrain)
  }

  /** `get_evoluted_model_object_and_report`: the selected entries are tuned in registry
      order and stacked; the stack is scored and measured on the test array. */
  method GetEvolutedModelObjectAndReport(
    lib: Library, xTrain: Matrix, xTest: Matrix, yTrain: seq<real>, yTest: seq<real>,
    modelsParams: Dict<RegistryEntry>, evolutionModels: Dict<real>)
    returns (classifierScore: real, stackingClf: Classifier, metricArtifact: Metrics)
    ensures stackingClf == Stacking(TunedModels(modelsParams, evolutionModels), xTrain, yTrain)
    ensures classifierScore == lib.score(stackingClf, xTest, yTest)
    ensures metricArtifact == lib.metrics(yTest, lib.predict(stackingClf, xTest))
  {
    var bestTunedModels := [];
    var i := 0;
    while i < |modelsParams|
      invariant 0 <= i <= |modelsParams|
      invariant bestTunedModels == TunedModels(modelsParams[..i], evolutionModels)
    {
      var (modelName, mp) := modelsParams[i];
      assert modelsParams[..i + 1][..i] == modelsParams[..i];
      if modelName in Keys(evolutionModels) {
        var model := mp.model;
        var params := mp.params;
        var bestModel;
        if |params| > 0 {
          bestModel := SearchedBest(model, params);
        } else {
          bestModel := FittedAsIs(model);
        }
        bestTunedModels := bestTunedModels + [(modelName, bestModel)];
      }
      i := i + 1;
    }
    assert modelsParams[..i] == modelsParams;
    stackingClf := Stacking(bestTunedModels, xTrain, yTrain);
    classifierScore := lib.score(stackingClf, xTest, yTest);
    var yPred := lib.predict(stackingClf, xTest);
    metricArtifact := lib.metrics(yTest, yPred);
  }

  // ---------------------------------------------------------------------------------
  // The stage

  /** What the stage reads from the artifact tree. */
  datatype TrainerInputs = TrainerInputs(
    xTrain: NdArray, yTrain: seq<real>, xTest: NdArray, yTest: seq<real>, preprocessor: Preprocessor)

  /** Both arrays are loaded, then both are split, then the preprocessor is loaded; the
      first of these to fail is the stage's failure. */
  function LoadTrainerInputs(artifact: DataTransformationArtifact, store: ArtifactStore): (r: Result<TrainerInputs>)
    ensures r.Ok? <==>
              && LoadArray(store, artifact.transformedTrainFilePath).Ok?
              && LoadArray(store, artifact.transformedTestFilePath).Ok?
              && store[artifact.transformedTrainFilePath].contents.width > 0
              && store[artifact.transformedTestFilePath].contents.width > 0
              && LoadPreprocessor(store, artifact.transformedObjectFilePath).Ok?
    ensures r.Ok? ==>
              && SplitLastColumn(store[artifact.transformedTrainFilePath].contents) == Ok((r.value.xTrain, r.value.yTrain))
              && SplitLastColumn(store[artifact.transformedTestFilePath].contents) == Ok((r.value.xTest, r.value.yTest))
              && r.value.preprocessor == store[artifact.transformedObjectFilePath].preprocessor
  {
    var trainArr :- LoadArray(store, artifact.transformedTrainFilePath);
    var testArr :- LoadArray(store, artifact.transformedTestFilePath);
    var train :- SplitLastColumn(trainArr);
    var test :- SplitLastColumn(testArr);
    var preprocessingObj :- LoadPreprocessor(store, artifact.transformedObjectFilePath);
    Ok(TrainerInputs(train.0, train.1, test.0, test.1, preprocessingObj))
  }

  /** `initiate_model_trainer`. The stage fails, saving nothing, when an input is missing
      or when the ensemble's test accuracy is below the expected score; otherwise it saves
      the bundle of preprocessor and ensemble at the configured path and nothing else. */
  method InitiateModelTrainer(
    artifact: DataTransformationArtifact, config: ModelTrainerConfig, modelConfig: Dict<ModelSpec>,
    lib: Library, store: ArtifactStore)
    returns (r: Result<ModelTrainerArtifact>, saved: ArtifactStore)
    ensures LoadTrainerInputs(artifact, store).Err? ==>
              r == Err(LoadTrainerInputs(artifact, store).error) && saved == store
    ensures LoadTrainerInputs(artifact, store).Ok? ==>
              var inputs := LoadTrainerInputs(artifact, store).value;
              var ensemble := Ensemble(lib, Registry(modelConfig), inputs.xTrain, inputs.yTrain);
              var score := lib.score(ensemble, inputs.xTest, inputs.yTest);
              && (score < config.expectedAccuracy ==> r == Err(BelowExpectedAccuracy) && saved == store)
              && (score >= config.expectedAccuracy ==>
                    && r == Ok(ModelTrainerArtifact(config.trainedModelFilePath,
                                                    lib.metrics(inputs.yTest, lib.predict(ensemble, inputs.xTest))))
                    && saved == store[config.trainedModelFilePath := ModelFile(TelcoChurnModel(inputs.preprocessor, ensemble))])
  {
    saved := store;
    var trainArr :- LoadArray(store, artifact.transformedTrainFilePath);
    var testArr :- LoadArray(store, artifact.transformedTestFilePath);
    var train :- SplitLastColumn(trainArr);
    var test :- SplitLastColumn(testArr);
    var (xTrain, yTrain, xTest, yTest) := (train.0, train.1, test.0, test.1);
    var modelsAndParams := LoadModelsFromYaml(modelConfig);
    var topModels := GetTopModels(lib, xTrain, yTrain, modelsAndParams);
    var modelScore, bestModel, metricArtifact :=
      GetEvolutedModelObjectAndReport(lib, xTrain, xTest, yTrain, yTest, modelsAndParams, topModels);
    var preprocessingObj :- LoadPreprocessor(store, artifact.transformedObjectFilePath);
    if modelScore < config.expectedAccuracy {
      r := Err(BelowExpectedAccuracy);
      return;
    }
    var churnModel := TelcoChurnModel(preprocessingObj, bestModel);
    saved := store[config.trainedModelFilePath := ModelFile(churnModel)];
    r := Ok(ModelTrainerArtifact(config.trainedModelFilePath, metricArtifact));
  }
}
