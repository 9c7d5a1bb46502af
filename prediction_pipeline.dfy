/** The prediction side: one customer's nineteen answers become a one-row frame, and the
    classifier asks a freshly built estimator for the deployed bundle's verdict. */
module PredictionPipeline {
  import opened Errors
  import opened Tables
  import opened Dicts
  import opened Learners
  import opened Estimator
  import opened ConfigEntity
  import opened S3Estimator

  /** The features the trained bundle expects, one per constructor argument. */
  datatype TelcoChurnData = TelcoChurnData(
    gender: Cell, seniorCitizen: Cell, partner: Cell, dependents: Cell, tenure: Cell,
    phoneService: Cell, multipleLines: Cell, internetService: Cell, onlineSecurity: Cell,
    onlineBackup: Cell, deviceProtection: Cell, techSupport: Cell, streamingTV: Cell,
    streamingMovies: Cell, contract: Cell, paperlessBilling: Cell, paymentMethod: Cell,
    monthlyCharges: Cell, totalCharges: Cell)

  /** The dict's keys, in the order the literal writes them. */
  const FeatureNames: seq<string> := [
    "gender", "SeniorCitizen", "Partner", "Dependents", "tenure", "PhoneService",
    "MultipleLines", "InternetService", "OnlineSecurity", "OnlineBackup", "DeviceProtection",
    "TechSupport", "StreamingTV", "StreamingMovies", "Contract", "PaperlessBilling",
    "PaymentMethod", "MonthlyCharges", "TotalCharges"]

  /** The constructor arguments, in the same order as `FeatureNames`. */
  function Fields(d: TelcoChurnData): (fs: seq<Cell>)
    ensures |fs| == |FeatureNames|
  {
    [d.gender, d.seniorCitizen, d.partner, d.dependents, d.tenure, d.phoneService,
     d.multipleLines, d.internetService, d.onlineSecurity, d.onlineBackup, d.deviceProtection,
     d.techSupport, d.streamingTV, d.streamingMovies, d.contract, d.paperlessBilling,
     d.paymentMethod, d.monthlyCharges, d.totalCharges]
  }

  /** `get_telcoChurn_data_as_dict`: every feature name mapped to a one-element list. */
  function AsDict(d: TelcoChurnData): Dict<seq<Cell>> {
    [("gender", [d.gender]), ("SeniorCitizen", [d.seniorCitizen]), ("Partner", [d.partner]),
     ("Dependents", [d.dependents]), ("tenure", [d.tenure]), ("PhoneService", [d.phoneService]),
     ("MultipleLines", [d.multipleLines]), ("InternetService", [d.internetService]),
     ("OnlineSecurity", [d.onlineSecurity]), ("OnlineBackup", [d.onlineBackup]),
     ("DeviceProtection", [d.deviceProtection]), ("TechSupport", [d.techSupport]),
     ("StreamingTV", [d.streamingTV]), ("StreamingMovies", [d.streamingMovies]),
     ("Contract", [d.contract]), ("PaperlessBilling", [d.paperlessBilling]),
     ("PaymentMethod", [d.paymentMethod]), ("MonthlyCharges", [d.monthlyCharges]),
     ("TotalCharges", [d.totalCharges])]
  }

  /** Names that differ pairwise in length or in their first character are distinct. */
  lemma DistinctByLengthAndInitial(s: seq<string>)
    requires forall i :: 0 <= i < |s| ==> |s[i]| > 0
    requires forall i, j :: 0 <= i < j < |s| ==> |s[i]| != |s[j]| || s[i][0] != s[j][0]
    ensures Distinct(s)
  {
  }

  /** The nineteen names are distinct, and the target is not one of them. */
  lemma FeatureNamesDistinct()
    ensures Distinct(FeatureNames)
    ensures "Churn" !in FeatureNames
  {
    DistinctByLengthAndInitial(FeatureNames);
  }

  /** The dict has exactly the feature keys, in order, once each, and no target; under
      each key is the one-element list of the matching argument. */
  lemma AsDictShape(d: TelcoChurnData)
    ensures Keys(AsDict(d)) == FeatureNames
    ensures UniqueKeys(AsDict(d))
    ensures "Churn" !in Keys(AsDict(d))
    ensures forall i :: 0 <= i < |FeatureNames| ==> AsDict(d)[i].1 == [Fields(d)[i]]
  {
    FeatureNamesDistinct();
  }

  /** The value a key holds, read through the dict, is the argument of the same name. */
  lemma AsDictLookup(d: TelcoChurnData, i: nat)
    requires i < |FeatureNames|
    ensures FeatureNames[i] in Keys(AsDict(d))
    ensures Get(AsDict(d), FeatureNames[i]) == [Fields(d)[i]]
  {
    AsDictShape(d);
    GetAt(AsDict(d), i);
  }

  /** Whether every value list of the dict has length `n`. */
  ghost predicate AllOfLength(dict: Dict<seq<Cell>>, n: nat) {
    forall j :: 0 <= j < |dict| ==> |dict[j].1| == n
  }

  /** `pd.DataFrame(dict)` for a dict of lists: one column per key in key order, with
      row `k` holding the `k`-th element of every list; lists of different lengths are
      refused. */
  function DataFrameOfDict(dict: Dict<seq<Cell>>): (r: Result<Table>)
    requires UniqueKeys(dict)
    ensures r.Ok? <==> dict == [] || AllOfLength(dict, |dict[0].1|)
    ensures r.Err? ==> r.error == LengthMismatch
    ensures r.Ok? ==> r.value.Valid() && r.value.columns == Keys(dict)
  {
    if dict == [] then Ok(Table([], []))
    else
      var n := |dict[0].1|;
      if exists j :: 0 <= j < |dict| && |dict[j].1| != n then Err(LengthMismatch)
      else
        Ok(Table(Keys(dict), seq(n, k requires 0 <= k < n =>
          seq(|dict|, j requires 0 <= j < |dict| => dict[j].1[k]))))
  }

  /** Each column of the frame is the list the dict holds under its key, so the frame
      keeps all of the dict and nothing else. */
  lemma DataFrameColumnsAreLists(dict: Dict<seq<Cell>>, j: nat)
    requires UniqueKeys(dict) && DataFrameOfDict(dict).Ok? && j < |dict|
    ensures ColumnValues(DataFrameOfDict(dict).value, dict[j].0) == dict[j].1
  {
    var t := DataFrameOfDict(dict).value;
    GetAt(dict, j);
    assert IndexOf(t.columns, dict[j].0) == j;
  }

  /** `get_telco_churn_input_data_frame`: a frame of the feature columns with exactly one
      row, which holds the arguments in order. */
  function GetTelcoChurnInputDataFrame(d: TelcoChurnData): (t: Table)
    ensures t.Valid() && t.columns == FeatureNames && "Churn" !in t.columns
    ensures |t.rows| == 1 && t.rows[0] == Fields(d)
  {
    AsDictShape(d);
    var t := DataFrameOfDict(AsDict(d)).value;
    assert t.rows[0] == Fields(d) by {
      forall j | 0 <= j < |FeatureNames| ensures t.rows[0][j] == Fields(d)[j] {
        assert AsDict(d)[j].1 == [Fields(d)[j]];
      }
    }
    t
  }

  /** `TelcoChurnClassifier`: it holds only its configuration. */
  datatype TelcoChurnClassifier = TelcoChurnClassifier(predictionPipelineConfig: TelcoChurnPredictorConfig)

  /** Where the classifier's estimators look for the bundle. */
  function BundleLocation(c: TelcoChurnClassifier): Location {
    Location(c.predictionPipelineConfig.modelBucketName, c.predictionPipelineConfig.modelFilePath)
  }

  /** `predict`: a new estimator per call, so its answer is the deployed bundle's answer
      as the store holds it at that call, or the missing-object error; nothing the call
      loads is kept, and the store is left as it was. */
  method Predict(c: TelcoChurnClassifier, storage: ObjectStorage, lib: Library, dataframe: Table)
    returns (r: Result<seq<real>>)
    ensures BundleLocation(c) in storage.objects ==>
              r == Ok(storage.objects[BundleLocation(c)].Predict(lib, dataframe))
    ensures BundleLocation(c) !in storage.objects ==>
              r == Err(MissingObject(c.predictionPipelineConfig.modelBucketName, c.predictionPipelineConfig.modelFilePath))
  {
    var model := new TelcoChurnEstimator(c.predictionPipelineConfig.modelBucketName,
                                         c.predictionPipelineConfig.modelFilePath, storage);
    r := model.Predict(lib, dataframe);
  }

  /** Because no estimator outlives a call, a bundle replaced between two predictions is
      the one the second prediction uses. */
  method PredictAcrossReplacement(c: TelcoChurnClassifier, storage: ObjectStorage, lib: Library,
                                  first: Table, second: Table, replacement: TelcoChurnModel)
    returns (r1: Result<seq<real>>, r2: Result<seq<real>>)
    requires BundleLocation(c) in storage.objects
    modifies storage
    ensures r1 == Ok(old(storage.objects[BundleLocation(c)]).Predict(lib, first))
    ensures r2 == Ok(replacement.Predict(lib, second))
  {
    r1 := Predict(c, storage, lib, first);
    storage.objects := storage.objects[BundleLocation(c) := replacement];
    r2 := Predict(c, storage, lib, second);
  }

  /** The classifier built with the default configuration reads the key the pusher
      writes. */
  lemma DefaultClassifierReadsPushedKey()
    ensures BundleLocation(TelcoChurnClassifier(TelcoChurnPredictor))
            == Location(ModelPusher.bucketName, ModelPusher.s3ModelKeyPath)
  {
  }
}
