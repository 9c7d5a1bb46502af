/** The evaluation stage: the trained ensemble's F1 score is compared with the deployed
    model's F1 on the ingested test frame, and the bundle is accepted only when it beats
    the deployed model, or beats zero when nothing is deployed. */
module ModelEvaluation {
  import opened Errors
  import opened Tables
  import opened Learners
  import opened MainUtils
  import opened Constants
  import opened ConfigEntity
  import opened ArtifactEntity
  import opened S3Estimator

  datatype EvaluateModelResponse = EvaluateModelResponse(
    trainedModelF1Score: real, bestModelF1Score: Option<real>, isModelAccepted: bool, difference: real)

  /** `tmp_best_model_score`: the deployed model's score, or zero without one. */
  function Baseline(best: Option<real>): real {
    if best.None? then 0.0 else best.value
  }

  /** The response `evaluate_model` builds from the two scores. */
  function Decide(trained: real, best: Option<real>): (r: EvaluateModelResponse)
    ensures r.trainedModelF1Score == trained && r.bestModelF1Score == best
  {
    var baseline := Baseline(best);
    EvaluateModelResponse(trained, best, trained > baseline, trained - baseline)
  }

  /** The bundle is accepted exactly when the recorded difference is positive, that is
      when it scores strictly above the deployed model, or strictly above zero when
      nothing is deployed; a tie is rejected. */
  lemma AcceptedIffImproves(trained: real, best: Option<real>)
    ensures Decide(trained, best).isModelAccepted <==> Decide(trained, best).difference > 0.0
    ensures best.None? ==> (Decide(trained, best).isModelAccepted <==> trained > 0.0)
                           && Decide(trained, best).difference == trained
    ensures best.Some? ==> (Decide(trained, best).isModelAccepted <==> trained > best.value)
                           && Decide(trained, best).difference == trained - best.value
    ensures !Decide(trained, Some(trained)).isModelAccepted
  {
  }

  /** `get_best_model`: a fresh estimator for the configured bucket and key when the key
      is present, nothing when it is not. */
  method GetBestModel(config: ModelEvaluationConfig, storage: ObjectStorage) returns (r: Result<Option<TelcoChurnEstimator>>)
    ensures storage.fault == Healthy ==>
              r.Ok? && (r.value.Some? <==> Location(config.bucketName, config.s3ModelKeyPath) in storage.objects)
    ensures storage.fault == RaisesCustomException ==> r == Ok(None)
    ensures storage.fault == RaisesOther ==> r == Err(StorageFailure)
    ensures r.Ok? && r.value.Some? ==>
              var e := r.value.value;
              && fresh(e) && e.s3 == storage && e.loadedModel.None?
              && e.Home() == Location(config.bucketName, config.s3ModelKeyPath)
  {
    var telcochurnEstimator := new TelcoChurnEstimator(config.bucketName, config.s3ModelKeyPath, storage);
    var present :- telcochurnEstimator.IsModelPresent(config.s3ModelKeyPath);
    if present {
      return Ok(Some(telcochurnEstimator));
    }
    return Ok(None);
  }

  /** What `evaluate_model` yields for a test frame and a store: a key error when the
      frame has no target column, a storage failure when the existence check fails
      otherwise than with the project's exception, and else the decision between the
      trained score and the deployed bundle's F1 on the test features, if one is deployed. */
  function Evaluation(config: ModelEvaluationConfig, testDf: Table, trainer: ModelTrainerArtifact, lib: Library,
                      objects: map<Location, Estimator.TelcoChurnModel>, fault: Fault): Result<EvaluateModelResponse>
    requires testDf.Valid()
  {
    var x :- DropColumns(testDf, [TargetColumn]);
    var y := ColumnValues(testDf, TargetColumn);
    var trained := trainer.metricArtifact.f1Score;
    var home := Location(config.bucketName, config.s3ModelKeyPath);
    match fault
    case RaisesOther => Err(StorageFailure)
    case RaisesCustomException => Ok(Decide(trained, None))
    case Healthy =>
      Ok(Decide(trained, if home in objects then Some(lib.f1Score(y, objects[home].Predict(lib, x))) else None))
  }

  /** `evaluate_model`. */
  method EvaluateModel(config: ModelEvaluationConfig, testDf: Frame, trainer: ModelTrainerArtifact, lib: Library, storage: ObjectStorage)
    returns (r: Result<EvaluateModelResponse>)
    ensures r == Evaluation(config, testDf, trainer, lib, storage.objects, storage.fault)
  {
    var x :- DropColumns(testDf, [TargetColumn]);
    var y := ColumnValues(testDf, TargetColumn);
    var trainedModelF1Score := trainer.metricArtifact.f1Score;
    var bestModelF1Score: Option<real> := None;
    var bestModel :- GetBestModel(config, storage);
    if bestModel.Some? {
      // The key was just found, so the estimator's first load cannot fail here.
      var yHatBestModel := bestModel.value.Predict(lib, x);
      bestModelF1Score := Some(lib.f1Score(y, yHatBestModel.value));
    }
    r := Ok(Decide(trainedModelF1Score, bestModelF1Score));
  }

  /** Without a deployed bundle the response records no best score and compares with
      zero; with one it records that bundle's F1 on the test features. */
  lemma EvaluationBaseline(config: ModelEvaluationConfig, testDf: Table, trainer: ModelTrainerArtifact, lib: Library,
                           objects: map<Location, Estimator.TelcoChurnModel>, fault: Fault)
    requires testDf.Valid() && TargetColumn in testDf.columns && fault != RaisesOther
    ensures var r := Evaluation(config, testDf, trainer, lib, objects, fault);
            var home := Location(config.bucketName, config.s3ModelKeyPath);
            var trained := trainer.metricArtifact.f1Score;
            && r.Ok?
            && r.value.trainedModelF1Score == trained
            && (fault == RaisesCustomException || home !in objects ==>
                  r.value.bestModelF1Score == None && (r.value.isModelAccepted <==> trained > 0.0))
            && (fault == Healthy && home in objects ==>
                  var x := DropColumns(testDf, [TargetColumn]).value;
                  var best := lib.f1Score(ColumnValues(testDf, TargetColumn), objects[home].Predict(lib, x));
                  r.value.bestModelF1Score == Some(best) && (r.value.isModelAccepted <==> trained > best))
  {
    var trained := trainer.metricArtifact.f1Score;
    AcceptedIffImproves(trained, None);
    var home := Location(config.bucketName, config.s3ModelKeyPath);
    if fault == Healthy && home in objects {
      var x := DropColumns(testDf, [TargetColumn]).value;
      AcceptedIffImproves(trained, Some(lib.f1Score(ColumnValues(testDf, TargetColumn), objects[home].Predict(lib, x))));
    }
  }

  /** The configured threshold for a meaningful change is never consulted. */
  lemma ThresholdNotConsulted(config: ModelEvaluationConfig, threshold: real, testDf: Table, trainer: ModelTrainerArtifact,
                              lib: Library, objects: map<Location, Estimator.TelcoChurnModel>, fault: Fault)
    requires testDf.Valid()
    ensures Evaluation(config.(changedThresholdScore := threshold), testDf, trainer, lib, objects, fault)
            == Evaluation(config, testDf, trainer, lib, objects, fault)
  {
  }

  /** `initiate_model_evaluation`. */
  method InitiateModelEvaluation(config: ModelEvaluationConfig, testDf: Frame, trainer: ModelTrainerArtifact, lib: Library, storage: ObjectStorage)
    returns (r: Result<ModelEvaluationArtifact>)
    ensures var e := Evaluation(config, testDf, trainer, lib, storage.objects, storage.fault);
            && (e.Err? ==> r == Err(e.error))
            && (e.Ok? ==> && r.Ok?
                          && r.value.isModelAccepted == e.value.isModelAccepted
                          && r.value.changedAccuracy == e.value.difference
                          && r.value.s3ModelPath == config.s3ModelKeyPath
                          && r.value.trainedModelPath == trainer.trainedModelFilePath)
  {
    var evaluateModelResponse :- EvaluateModel(config, testDf, trainer, lib, storage);
    var s3ModelPath := config.s3ModelKeyPath;
    r := Ok(ModelEvaluationArtifact(evaluateModelResponse.isModelAccepted, s3ModelPath,
                                    trainer.trainedModelFilePath, evaluateModelResponse.difference));
  }
}
