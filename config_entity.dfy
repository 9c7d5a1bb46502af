/** The artifact layout of one pipeline run. Every path is a join of fixed names under
    `artifact/<timestamp>`; the timestamp, taken from the clock once per process, is a
    parameter here. */
module ConfigEntity {
  import opened Constants

  predicate EndsWithSeparator(s: string) {
    |s| > 0 && s[|s| - 1] == '/'
  }

  /** `os.path.join(a, b)` on POSIX: an absolute `b` replaces `a`; otherwise a separator is
      put between them unless `a` is empty or already ends with one. */
  function Join(a: string, b: string): string {
    if |b| > 0 && b[0] == '/' then b
    else if a == "" || EndsWithSeparator(a) then a + b
    else a + "/" + b
  }

  /** `s.replace(pattern, replacement)`: every non-overlapping occurrence, left to right;
      an empty pattern matches before every character and at the end. */
  function Replace(s: string, pattern: string, replacement: string): string
    decreases |s|
  {
    if |pattern| == 0 then
      if s == [] then replacement else replacement + [s[0]] + Replace(s[1..], pattern, replacement)
    else if |s| < |pattern| then s
    else if s[..|pattern|] == pattern then replacement + Replace(s[|pattern|..], pattern, replacement)
    else [s[0]] + Replace(s[1..], pattern, replacement)
  }

  /** A path component with no separator in it. */
  predicate Segment(s: string) {
    |s| > 0 && '/' !in s
  }

  /** What `strftime("%Y-%m-%d_%H-%M-%S")` produces: nineteen digits, dashes and an underscore. */
  predicate IsTimestamp(ts: string) {
    |ts| == 19 && forall i :: 0 <= i < |ts| ==> ts[i] in "0123456789-_"
  }

  datatype TrainingPipelineConfig = TrainingPipelineConfig(pipelineName: string, artifactDir: string)

  datatype DataIngestionConfig = DataIngestionConfig(
    dataIngestionDir: string, featureStoreFilePath: string, trainingDataFilePath: string,
    testingDataFilePath: string, trainTestSplitRatio: real, collectionName: string)

  datatype DataValidationConfig = DataValidationConfig(dataValidationDir: string, driftReportFilePath: string)

  datatype DataTransformationConfig = DataTransformationConfig(
    dataTransformationDir: string, transformedTrainFilePath: string,
    transformedTestFilePath: string, transformedObjectFilePath: string)

  datatype ModelTrainerConfig = ModelTrainerConfig(
    modelTrainerDir: string, trainedModelFilePath: string, expectedAccuracy: real, modelConfigFilePath: string)

  datatype ModelEvaluationConfig = ModelEvaluationConfig(changedThresholdScore: real, bucketName: string, s3ModelKeyPath: string)

  datatype ModelPusherConfig = ModelPusherConfig(bucketName: string, s3ModelKeyPath: string)

  datatype TelcoChurnPredictorConfig = TelcoChurnPredictorConfig(modelFilePath: string, modelBucketName: string)

  function TrainingPipeline(ts: string): TrainingPipelineConfig {
    TrainingPipelineConfig(PipelineName, Join(ArtifactDirName, ts))
  }

  function DataIngestion(ts: string): DataIngestionConfig {
    var dir := Join(TrainingPipeline(ts).artifactDir, DataIngestionDirName);
    DataIngestionConfig(
      dir,
      Join(Join(dir, DataIngestionFeatureStoreDir), DataFile),
      Join(Join(dir, DataIngestionIngestedDir), TrainDataFile),
      Join(Join(dir, DataIngestionIngestedDir), TestDataFile),
      DataIngestionTrainTestSplitRatio,
      DataIngestionCollectionName)
  }

  function DataValidation(ts: string): DataValidationConfig {
    var dir := Join(TrainingPipeline(ts).artifactDir, DataValidationDirName);
    DataValidationConfig(dir, Join(Join(dir, DataValidationDriftReportDir), DataValidationDriftReportFileName))
  }

  /** The transformation layout under a stage directory, given the two array file names. */
  function TransformationLayout(dir: string, trainArray: string, testArray: string): DataTransformationConfig {
    DataTransformationConfig(
      dir,
      Join(Join(dir, DataTransformationTransformedDataDir), trainArray),
      Join(Join(dir, DataTransformationTransformedDataDir), testArray),
      Join(Join(dir, DataTransformationTransformedObjectDir), PreprocessingObjectFileName))
  }

  /** The transformation layout as written: both array paths are built from the train
      file's name. */
  function DataTransformationAsWritten(ts: string): DataTransformationConfig {
    var dir := Join(TrainingPipeline(ts).artifactDir, DataTransformationDirName);
    TransformationLayout(dir, Replace(TrainDataFile, "csv", "npy"), Replace(TrainDataFile, "csv", "npy"))
  }

  /** The corrected transformation layout: the test array is named after the test file. */
  function DataTransformationCorrected(ts: string): DataTransformationConfig {
    var dir := Join(TrainingPipeline(ts).artifactDir, DataTransformationDirName);
    TransformationLayout(dir, Replace(TrainDataFile, "csv", "npy"), Replace(TestDataFile, "csv", "npy"))
  }

  function ModelTrainer(ts: string): ModelTrainerConfig {
    var dir := Join(TrainingPipeline(ts).artifactDir, ModelTrainerDirName);
    ModelTrainerConfig(
      dir,
      Join(Join(dir, ModelTrainerTrainedModelDir), ModelFileName),
      ModelTrainerExpectedScore,
      Join(ConfigDirName, ModelConfigFileName))
  }

  const ModelEvaluation := ModelEvaluationConfig(ModelEvaluationChangedThresholdScore, ModelBucketName, ModelFileName)

  const ModelPusher := ModelPusherConfig(ModelBucketName, ModelFileName)

  const TelcoChurnPredictor := TelcoChurnPredictorConfig(ModelFileName, ModelBucketName)

  /** A join always ends with its second part, and starts with its first unless the second
      is absolute. */
  lemma JoinEnds(a: string, b: string)
    ensures |b| <= |Join(a, b)| && Join(a, b)[|Join(a, b)| - |b|..] == b
    ensures !(|b| > 0 && b[0] == '/') ==> a <= Join(a, b)
  {
  }

  /** Joining a segment onto a path that does not end in a separator puts exactly one
      separator between them, and the result does not end in one either. */
  lemma JoinSegment(a: string, b: string)
    requires a != "" && !EndsWithSeparator(a) && Segment(b)
    ensures Join(a, b) == a + "/" + b
    ensures !EndsWithSeparator(Join(a, b)) && Join(a, b) != ""
  {
    assert b[0] in b;
    var j := a + "/" + b;
    assert j[|j| - 1] == b[|b| - 1];
    assert b[|b| - 1] in b;
  }

  lemma TimestampIsSegment(ts: string)
    requires IsTimestamp(ts)
    ensures Segment(ts)
  {
  }

  /** The run's root is `artifact/<timestamp>`, and a stage directory one segment below it. */
  lemma {:induction false} StageDirectory(ts: string, stage: string)
    requires IsTimestamp(ts) && Segment(stage)
    ensures Join(ArtifactDirName, ts) == ArtifactDirName + "/" + ts
    ensures Join(Join(ArtifactDirName, ts), stage) == ArtifactDirName + "/" + ts + "/" + stage
    ensures !EndsWithSeparator(Join(Join(ArtifactDirName, ts), stage))
  {
    TimestampIsSegment(ts);
    assert ArtifactDirName[|ArtifactDirName| - 1] == 't';
    JoinSegment(ArtifactDirName, ts);
    JoinSegment(ArtifactDirName + "/" + ts, stage);
  }

  /** Two segments below a directory that does not end in a separator. */
  lemma {:induction false} TwoBelow(dir: string, sub: string, file: string)
    requires dir != "" && !EndsWithSeparator(dir) && Segment(sub) && Segment(file)
    ensures Join(Join(dir, sub), file) == dir + "/" + sub + "/" + file
  {
    JoinSegment(dir, sub);
    JoinSegment(dir + "/" + sub, file);
  }

  /** `artifact/<timestamp>/data_ingestion`, and so on for every stage. */
  lemma IngestionDirectory(ts: string)
    requires IsTimestamp(ts)
    ensures DataIngestion(ts).dataIngestionDir == ArtifactDirName + "/" + ts + "/" + DataIngestionDirName
  {
    assert Segment(DataIngestionDirName);
    StageDirectory(ts, DataIngestionDirName);
  }

  lemma ValidationDirectory(ts: string)
    requires IsTimestamp(ts)
    ensures DataValidation(ts).dataValidationDir == ArtifactDirName + "/" + ts + "/" + DataValidationDirName
  {
    assert Segment(DataValidationDirName);
    StageDirectory(ts, DataValidationDirName);
  }

  lemma TransformationDirectory(ts: string)
    requires IsTimestamp(ts)
    ensures DataTransformationCorrected(ts).dataTransformationDir == ArtifactDirName + "/" + ts + "/" + DataTransformationDirName
    ensures DataTransformationAsWritten(ts).dataTransformationDir == DataTransformationCorrected(ts).dataTransformationDir
  {
    assert Segment(DataTransformationDirName);
    StageDirectory(ts, DataTransformationDirName);
  }

  lemma TrainerDirectory(ts: string)
    requires IsTimestamp(ts)
    ensures ModelTrainer(ts).modelTrainerDir == ArtifactDirName + "/" + ts + "/" + ModelTrainerDirName
  {
    assert Segment(ModelTrainerDirName);
    StageDirectory(ts, ModelTrainerDirName);
  }

  /** The train and test CSV files sit side by side in the `ingested` directory. */
  lemma {:induction false} IngestedFiles(ts: string)
    requires IsTimestamp(ts)
    ensures var ingested := DataIngestion(ts).dataIngestionDir + "/" + DataIngestionIngestedDir;
            && DataIngestion(ts).trainingDataFilePath == ingested + "/" + TrainDataFile
            && DataIngestion(ts).testingDataFilePath == ingested + "/" + TestDataFile
  {
    assert Segment(DataIngestionDirName) && Segment(DataIngestionIngestedDir);
    assert Segment(TrainDataFile) && Segment(TestDataFile);
    StageDirectory(ts, DataIngestionDirName);
    var dir := DataIngestion(ts).dataIngestionDir;
    TwoBelow(dir, DataIngestionIngestedDir, TrainDataFile);
    TwoBelow(dir, DataIngestionIngestedDir, TestDataFile);
  }

  /** A replacement as long as its pattern keeps the length of the string. */
  lemma {:induction false} ReplaceKeepsLength(s: string, pattern: string, replacement: string)
    requires |pattern| == |replacement| > 0
    ensures |Replace(s, pattern, replacement)| == |s|
    decreases |s|
  {
    if |s| >= |pattern| {
      if s[..|pattern|] == pattern {
        ReplaceKeepsLength(s[|pattern|..], pattern, replacement);
      } else {
        ReplaceKeepsLength(s[1..], pattern, replacement);
      }
    }
  }

  /** Replacing with a separator-free string introduces no separator. */
  lemma {:induction false} ReplaceKeepsSegment(s: string, pattern: string, replacement: string)
    requires |pattern| > 0 && '/' !in s && '/' !in replacement
    ensures '/' !in Replace(s, pattern, replacement)
    decreases |s|
  {
    if |s| >= |pattern| {
      if s[..|pattern|] == pattern {
        assert forall i :: |pattern| <= i < |s| ==> s[|pattern|..][i - |pattern|] == s[i];
        ReplaceKeepsSegment(s[|pattern|..], pattern, replacement);
      } else {
        assert forall i :: 1 <= i < |s| ==> s[1..][i - 1] == s[i];
        ReplaceKeepsSegment(s[1..], pattern, replacement);
      }
    }
  }

  /** As written, the transformed train and test arrays share one path,
      `artifact/<timestamp>/data_transformation/transformed/train.npy`, so the second
      array saved overwrites the first. */
  lemma TransformedPathsCollideAsWritten(ts: string)
    ensures DataTransformationAsWritten(ts).transformedTrainFilePath
            == DataTransformationAsWritten(ts).transformedTestFilePath
    ensures IsTimestamp(ts) ==>
              DataTransformationAsWritten(ts).transformedTestFilePath
              == ArtifactDirName + "/" + ts + "/" + DataTransformationDirName + "/"
                 + DataTransformationTransformedDataDir + "/" + "train.npy"
  {
    if IsTimestamp(ts) {
      var dir := Join(TrainingPipeline(ts).artifactDir, DataTransformationDirName);
      assert Segment(DataTransformationDirName) && Segment(DataTransformationTransformedDataDir);
      StageDirectory(ts, DataTransformationDirName);
      TrainArrayName();
      TwoBelow(dir, DataTransformationTransformedDataDir, Replace(TrainDataFile, "csv", "npy"));
    }
  }

  /** Under a stage directory, both arrays sit in the `transformed` directory, so arrays
      with names of different lengths get different paths; and the preprocessor, two
      components of other lengths below the same directory, never shares a path with an
      array. */
  lemma {:induction false} LayoutPaths(dir: string, trainArray: string, testArray: string)
    requires dir != "" && !EndsWithSeparator(dir) && Segment(trainArray) && Segment(testArray)
    requires |DataTransformationTransformedDataDir| + |trainArray| != |DataTransformationTransformedObjectDir| + |PreprocessingObjectFileName|
    requires |DataTransformationTransformedDataDir| + |testArray| != |DataTransformationTransformedObjectDir| + |PreprocessingObjectFileName|
    ensures var c := TransformationLayout(dir, trainArray, testArray);
            && c.transformedTrainFilePath == dir + "/" + DataTransformationTransformedDataDir + "/" + trainArray
            && c.transformedTestFilePath == dir + "/" + DataTransformationTransformedDataDir + "/" + testArray
            && c.transformedObjectFilePath != c.transformedTrainFilePath
            && c.transformedObjectFilePath != c.transformedTestFilePath
            && (|trainArray| != |testArray| ==> c.transformedTrainFilePath != c.transformedTestFilePath)
  {
    assert Segment(DataTransformationTransformedDataDir) && Segment(DataTransformationTransformedObjectDir);
    assert Segment(PreprocessingObjectFileName);
    TwoBelow(dir, DataTransformationTransformedDataDir, trainArray);
    TwoBelow(dir, DataTransformationTransformedDataDir, testArray);
    TwoBelow(dir, DataTransformationTransformedObjectDir, PreprocessingObjectFileName);
  }

  /** A prefix without the pattern's first character is copied before the replacement of
      the rest. */
  lemma {:induction false} ReplaceAfterPlainPrefix(prefix: string, rest: string, pattern: string, replacement: string)
    requires |pattern| > 0 && pattern[0] !in prefix
    ensures Replace(prefix + rest, pattern, replacement) == prefix + Replace(rest, pattern, replacement)
    decreases |prefix|
  {
    if prefix != [] {
      var s := prefix + rest;
      assert s[0] == prefix[0] && s[1..] == prefix[1..] + rest;
      assert pattern[0] !in prefix[1..];
      ReplaceAfterPlainPrefix(prefix[1..], rest, pattern, replacement);
      if |s| >= |pattern| {
        assert s[..|pattern|][0] == prefix[0] != pattern[0];
        assert Replace(s, pattern, replacement) == [s[0]] + Replace(s[1..], pattern, replacement);
      } else {
        assert Replace(rest, pattern, replacement) == rest;
      }
      assert [prefix[0]] + prefix[1..] == prefix;
    } else {
      assert prefix + rest == rest;
    }
  }

  /** A string that is exactly the pattern becomes the replacement. */
  lemma ReplaceWhole(pattern: string, replacement: string)
    requires |pattern| > 0
    ensures Replace(pattern, pattern, replacement) == replacement
  {
    assert pattern[..|pattern|] == pattern && pattern[|pattern|..] == [];
  }

  /** The train array's file name: `train.csv` with `csv` turned into `npy`, one path
      component. */
  lemma TrainArrayName()
    ensures Replace(TrainDataFile, "csv", "npy") == "train.npy"
    ensures Segment(Replace(TrainDataFile, "csv", "npy"))
  {
    ReplaceWhole("csv", "npy");
    assert TrainDataFile == "train." + "csv";
    ReplaceAfterPlainPrefix("train.", "csv", "csv", "npy");
  }

  /** Likewise the test array's: `test.npy`. */
  lemma TestArrayName()
    ensures Replace(TestDataFile, "csv", "npy") == "test.npy"
    ensures Segment(Replace(TestDataFile, "csv", "npy"))
  {
    ReplaceWhole("csv", "npy");
    assert TestDataFile == "test." + "csv";
    ReplaceAfterPlainPrefix("test.", "csv", "csv", "npy");
  }

  /** With the test array named after the test file, the arrays are
      `artifact/<timestamp>/data_transformation/transformed/train.npy` and `.../test.npy`,
      so their paths differ. */
  lemma TransformedPathsDiffer(ts: string)
    requires IsTimestamp(ts)
    ensures var c := DataTransformationCorrected(ts);
            var dir := ArtifactDirName + "/" + ts + "/" + DataTransformationDirName + "/" + DataTransformationTransformedDataDir;
            && c.transformedTrainFilePath == dir + "/" + "train.npy"
            && c.transformedTestFilePath == dir + "/" + "test.npy"
            && c.transformedTrainFilePath != c.transformedTestFilePath
  {
    EitherLayoutPaths(ts);
    TrainArrayName();
    TestArrayName();
    StageDirectory(ts, DataTransformationDirName);
  }

  /** Both layouts satisfy `LayoutPaths`' conclusions. */
  lemma EitherLayoutPaths(ts: string)
    requires IsTimestamp(ts)
    ensures var dir := Join(TrainingPipeline(ts).artifactDir, DataTransformationDirName);
            var train, test := Replace(TrainDataFile, "csv", "npy"), Replace(TestDataFile, "csv", "npy");
            && DataTransformationCorrected(ts) == TransformationLayout(dir, train, test)
            && DataTransformationAsWritten(ts) == TransformationLayout(dir, train, train)
            && DataTransformationCorrected(ts).dataTransformationDir == dir
            && (var c := TransformationLayout(dir, train, test);
                && c.transformedTrainFilePath == dir + "/" + DataTransformationTransformedDataDir + "/" + train
                && c.transformedTestFilePath == dir + "/" + DataTransformationTransformedDataDir + "/" + test
                && c.transformedObjectFilePath != c.transformedTrainFilePath
                && c.transformedObjectFilePath != c.transformedTestFilePath
                && c.transformedTrainFilePath != c.transformedTestFilePath)
            && (var c := TransformationLayout(dir, train, train);
                && c.transformedObjectFilePath != c.transformedTrainFilePath
                && c.transformedObjectFilePath != c.transformedTestFilePath)
  {
    var dir := Join(TrainingPipeline(ts).artifactDir, DataTransformationDirName);
    assert Segment(DataTransformationDirName);
    StageDirectory(ts, DataTransformationDirName);
    TrainArrayName();
    TestArrayName();
    var train, test := Replace(TrainDataFile, "csv", "npy"), Replace(TestDataFile, "csv", "npy");
    LayoutPaths(dir, train, test);
    LayoutPaths(dir, train, train);
  }

  /** In either form of the layout, the preprocessor's path differs from both array
      paths, so saving an array never overwrites the preprocessor. */
  lemma ObjectPathDiffers(ts: string)
    requires IsTimestamp(ts)
    ensures var c := DataTransformationCorrected(ts);
            c.transformedObjectFilePath != c.transformedTrainFilePath
            && c.transformedObjectFilePath != c.transformedTestFilePath
    ensures var c := DataTransformationAsWritten(ts);
            c.transformedObjectFilePath != c.transformedTrainFilePath
            && c.transformedObjectFilePath != c.transformedTestFilePath
  {
    EitherLayoutPaths(ts);
  }

  /** Evaluation, pushing and prediction all address the same bucket and key. */
  lemma StorageLocationsAgree()
    ensures ModelEvaluation.bucketName == ModelPusher.bucketName == TelcoChurnPredictor.modelBucketName == "telcochurn-model2025"
    ensures ModelEvaluation.s3ModelKeyPath == ModelPusher.s3ModelKeyPath == TelcoChurnPredictor.modelFilePath == "model.pkl"
  {
  }
}
