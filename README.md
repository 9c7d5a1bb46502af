# Telecom churn prediction: a Dafny model of the pipeline's rules

The Telecom churn prediction project trains a stacking classifier that predicts whether a
telephone customer will leave. It then deploys the classifier to an object store and serves
predictions from it. Around its library calls (pandas, scikit-learn, imbalanced-learn,
evidently, boto3, pymongo) the pipeline applies small deterministic rules. This project
models those rules and proves what they guarantee. The rules are:

- how the validation stage builds its status and message;
- how the trainer selects the four best models and which of them it tunes;
- the accuracy gate that decides whether a trained bundle is saved;
- the acceptance rule for a newly trained bundle against the deployed one;
- the table-shaping steps of the MongoDB export and of the transformation stage;
- how the model registry is built, and how columns are dropped;
- the artifact path layout;
- the bundle's preprocess-then-classify prediction and the estimator's lazy model cache;
- the one-row input frame of the prediction pipeline;
- the cleaning of the requirements list.

A frame is a `Table`: a sequence of column names and a sequence of rows of
`Cell`s (`Str`, `Num` or `Missing`). `Frame` is the subtype of well-formed tables: names
distinct, every row as wide as the header. A numpy array is a `Matrix` of reals, and
`NdArray` is its well-formed subtype. Library routines are the uninterpreted function
fields of one `Learners.Library` record: cross validation, SMOTENC resampling, the fitted
transformer, the label encoder, prediction, scoring, metrics, float parsing and the drift
share. Fitted objects are symbolic values that record how they were made. For example,
`ColumnTransformer(numFeatures, oheColumns, fittedOn)` records its column split and the
frame it was fitted on.

A Python dict is an insertion-ordered sequence of pairs (module `Dicts`), and `d[k] = v`
is `Put`. The artifact directory is a map from path to file content (`ArtifactStore`). The
S3 bucket is an `ObjectStorage` object shared by every estimator built on it. What a stage
reads from a file or from the network is an input of the model. A stage that fails
returns `Err` with the case the Python code raises. Two members, listed under "## Findings",
model an intended behaviour instead of the code: `ConfigEntity.DataTransformationCorrected`
and `MongoDataAccess.ExportCollectionAsDataframe`. Each has an `AsWritten` twin that
models the code as it runs, named-database error included.

One Dafny module models each source file:

| module | file |
|---|---|
| `DataValidation` | `components/data_validation.py` |
| `DataTransformation` | `components/data_transformation.py` |
| `ModelTrainer` | `components/model_trainer.py` |
| `ModelEvaluation` | `components/model_evaluation.py` |
| `MongoDataAccess` | `churn_data_access/mongoDB_data_access.py` |
| `MainUtils` | `utils/main_utils.py` |
| `ConfigEntity` | `entity/config_entity.py` |
| `S3Estimator` | `entity/s3_estimator.py` |
| `Estimator` | `entity/estimator.py` |
| `PredictionPipeline` | `pipeline/prediction_pipeline.py` |
| `Setup` | `setup.py` |

`Constants` holds the values the modelled code reads from
`constants/__init__.py`. `ArtifactEntity`, `Errors`, `Tables`, `Dicts` and `Learners`
are shared definitions.

## Model

Source paths are relative to the repository root.

| member | source | states |
|---|---|---|
| DataValidation.ValidateNumberOfColumns | Telecom_churn_prediction/components/data_validation.py:32-40 | Defined as the comparison of the frame's column count with the schema's column list length. Its properties are `RenamedColumnsCountAlike` and `DroppedColumnFailsCount`. |
| DataValidation.RenamedColumnsCountAlike | Telecom_churn_prediction/components/data_validation.py:38 | The column-count check compares only the number of columns with the schema's column list. Renaming every column never changes its outcome. |
| DataValidation.DroppedColumnFailsCount | Telecom_churn_prediction/components/data_validation.py:38 | A frame that passed the count check fails it once any of its columns is removed. |
| DataValidation.IsColumnExist | Telecom_churn_prediction/components/data_validation.py:54-69 | The two loops collect exactly the numerical and the categorical schema columns the frame lacks, in schema order (`MissingFrom`). The status is true iff both lists are empty. |
| DataValidation.ColumnsExistMeans | Telecom_churn_prediction/components/data_validation.py:54-69 | The presence check passes iff every numerical and every categorical schema column is a column of the frame. |
| DataValidation.DroppedRequiredColumnFails | Telecom_churn_prediction/components/data_validation.py:54-69 | Removing a required schema column from any frame makes the presence check fail. |
| DataValidation.DetectDatasetDrift | Telecom_churn_prediction/components/data_validation.py:85-106 | Defined as "the drift share evidently reports is positive", with the share an uninterpreted library function. `InitiateDataValidation` and `FailureMessageEmptyIffPass` state how its answer decides the status and the message. |
| DataValidation.FailureMessageEmptyIffPass | Telecom_churn_prediction/components/data_validation.py:124-142 | The accumulated message is empty iff all four checks pass. Each failed check contributes its non-empty sentence to the message's length. |
| DataValidation.InitiateDataValidation | Telecom_churn_prediction/components/data_validation.py:119-158 | The status is true iff all four checks pass (train count, test count, train presence, test presence). On failure the message is the failed checks' sentences concatenated in that order, and it is not empty. On success the message is exactly "Drift detected" when the drift share is strictly positive, else "Drift not detected". The status stays true whether or not drift is found. The artifact carries the configured report path. |
| DataTransformation.DropBlankRowsKeepsExactly | Telecom_churn_prediction/components/data_transformation.py:93-94 | The blank filter keeps exactly the rows with no cell equal to `" "`, in their original order. |
| DataTransformation.DropBlankRowsIdempotent | Telecom_churn_prediction/components/data_transformation.py:93-94 | Filtering an already filtered frame changes nothing. |
| DataTransformation.ToFloat | Telecom_churn_prediction/components/data_transformation.py:97-98 | `float` on one cell: a string that parses becomes its number, any other string is an error, and a number or missing value is kept. |
| DataTransformation.ConvertAt | Telecom_churn_prediction/components/data_transformation.py:97-98 | Converting one column of every row succeeds iff every cell of that column converts. Then every row has that cell converted and the others unchanged. |
| DataTransformation.AsFloat | Telecom_churn_prediction/components/data_transformation.py:97-98 | An absent column is a key error naming it. A conversion keeps the columns and the row count. |
| DataTransformation.AsFloatConvertsColumn | Telecom_churn_prediction/components/data_transformation.py:97-98 | The conversion of a present column fails iff one of its cells is an unparsable string. When it succeeds, that column holds the converted cells and every other column is unchanged. |
| DataTransformation.SplitFeaturesMeans | Telecom_churn_prediction/components/data_transformation.py:103-106 | The split succeeds iff the target and every drop column are present. The features are then all other columns, in order, with their cells, and the target is the target column. A missing column is a key error. |
| DataTransformation.PositionsWhere | Telecom_churn_prediction/components/data_transformation.py:109-110 | The result lists, in ascending order, exactly the positions whose column has the requested dtype (object = some cell is a string). |
| DataTransformation.CategoricalFeatures | Telecom_churn_prediction/components/data_transformation.py:109-110 | Looking up the object columns' names again gives back their own positions. The list is therefore the ascending positions of the object columns. |
| DataTransformation.ColumnsOfKind | Telecom_churn_prediction/components/data_transformation.py:131-132 | A column is listed by `select_dtypes` for a kind iff it is a column of the frame whose position has that kind. |
| DataTransformation.ColumnsOfKindInOrder | Telecom_churn_prediction/components/data_transformation.py:131-132 | The listed columns keep the frame's column order. |
| DataTransformation.ColumnKindsPartition | Telecom_churn_prediction/components/data_transformation.py:131-132 | The numeric and one-hot columns are disjoint and together cover every column. The one-hot columns are those with a string cell. Both keep the frame's order. |
| DataTransformation.ConvertedColumnIsNumeric | Telecom_churn_prediction/components/data_transformation.py:97-110 | After conversion the charges column holds no string, so its position is never categorical. |
| DataTransformation.Transform | Telecom_churn_prediction/components/data_transformation.py:93-160 | Defined as the blank-row filter, the charges conversion and the feature/target split of each frame, then `Encode`; every failure propagates. Its properties are `TransformStages`, `TestDoesNotReachPreprocessor` and `SplitFeaturesMeans`. |
| DataTransformation.Encode | Telecom_churn_prediction/components/data_transformation.py:111-160 | Defined as resampling both sets at the train features' categorical positions, fitting the column transformer and label encoder on the resampled train set, and appending the encoded target to each transformed set. Its properties are `EncodeAppendsTarget` and `EncodeIgnoresTest`. |
| DataTransformation.TransformStages | Telecom_churn_prediction/components/data_transformation.py:93-160 | The stage succeeds iff both frames can be prepared and encoded. It then equals the encoding of the two prepared frames. |
| DataTransformation.EncodeAppendsTarget | Telecom_churn_prediction/components/data_transformation.py:111-160 | Both sets are resampled with the train features' categorical positions. The preprocessor is built and fitted on the resampled train features alone, and its numeric and one-hot columns split their columns. Encoding succeeds iff each encoded feature array has as many rows as its encoded target. Splitting the last column off each output array gives back the encoded features and the encoded target. |
| DataTransformation.TestDoesNotReachPreprocessor | Telecom_churn_prediction/components/data_transformation.py:142-150 | When two runs share the train frame, they produce the same preprocessor and the same train array whatever their test frames are. |
| DataTransformation.EncodeIgnoresTest | Telecom_churn_prediction/components/data_transformation.py:142-150 | The same, one level down: the encoding's preprocessor and train array do not depend on the test set. |
| DataTransformation.InitiateDataTransformation | Telecom_churn_prediction/components/data_transformation.py:86-181 | A failed validation gives an error carrying the validation message and saves nothing. A failing step gives that step's error and saves nothing. Otherwise the preprocessor, the train array and the test array are saved at the configured paths, in that order, and the artifact names those paths. |
| DataTransformation.TrainerReadsTestArrayAsWritten | Telecom_churn_prediction/entity/config_entity.py:35-38 | With the layout as written, the trainer loads the test array as both its train and its test data. |
| DataTransformation.TrainerReadsBothArrays | Telecom_churn_prediction/entity/config_entity.py:35-38 | With the corrected layout, the trainer splits the train array into its train data and the test array into its test data, and finds the preprocessor. |
| ModelTrainer.AccuraciesFollowRegistry | Telecom_churn_prediction/components/model_trainer.py:38-47 | The accuracies have one entry per registry model, in registry order, each holding that model's own cross-validated accuracy. |
| ModelTrainer.GetTopModels | Telecom_churn_prediction/components/model_trainer.py:38-52 | The loop fills the accuracies dict, and the result is the selection `TopModels` of those accuracies. |
| ModelTrainer.TopModelsArePrefix | Telecom_churn_prediction/components/model_trainer.py:50-51 | The selection is the first `min(4, n)` entries of the stable descending sort. `dict(...)` changes nothing because the names are distinct. |
| ModelTrainer.Insert | Telecom_churn_prediction/components/model_trainer.py:50 | Insertion adds exactly the new entry: one more element, the same multiset plus the entry. |
| ModelTrainer.SortByScore | Telecom_churn_prediction/components/model_trainer.py:50 | The sort is a permutation of its input. |
| ModelTrainer.InsertSorted | Telecom_churn_prediction/components/model_trainer.py:50 | Inserting into a list sorted by decreasing score keeps it sorted. |
| ModelTrainer.SortSorted | Telecom_churn_prediction/components/model_trainer.py:50 | The sort is ordered by non-increasing score. |
| ModelTrainer.SortStable | Telecom_churn_prediction/components/model_trainer.py:50 | For every score, the sorted entries with that score are the input's entries with that score, in input order. |
| ModelTrainer.SortKeys | Telecom_churn_prediction/components/model_trainer.py:50 | Sorting keeps the names distinct. |
| ModelTrainer.TopModelsSelection | Telecom_churn_prediction/components/model_trainer.py:50-51 | At most four entries are kept, and all of them when there are four or fewer. They are in non-increasing score order, and each is an entry of the accuracies. |
| ModelTrainer.TopModelsAreBest | Telecom_churn_prediction/components/model_trainer.py:50 | No entry left out scores more than an entry kept. |
| ModelTrainer.TopModelsKeepTieOrder | Telecom_churn_prediction/components/model_trainer.py:50 | For every score, the kept entries with that score are a prefix of all entries with that score. Ties are therefore broken by registry order. |
| ModelTrainer.TopModelsFromRegistry | Telecom_churn_prediction/components/model_trainer.py:40-51 | Every selected name is a registry name, paired with its own model's cross-validated score. |
| ModelTrainer.SmallRegistryAllSelected | Telecom_churn_prediction/components/model_trainer.py:50-51 | A registry of four or fewer models has every name selected. |
| ModelTrainer.Tune | Telecom_churn_prediction/components/model_trainer.py:72-88 | An entry goes through the grid search, over its own parameters, iff its parameters are non-empty. Otherwise it is fitted as it is. The estimator is never replaced. |
| ModelTrainer.TunedModelsAreSelected | Telecom_churn_prediction/components/model_trainer.py:62-90 | Every tuned model is a selected registry entry, tuned from its own entry. |
| ModelTrainer.TunedModelsInRegistryOrder | Telecom_churn_prediction/components/model_trainer.py:62-90 | The tuned models are the selected entries at strictly increasing registry positions, with none skipped. They are in registry order, not score order. |
| ModelTrainer.GetEvolutedModelObjectAndReport | Telecom_churn_prediction/components/model_trainer.py:62-119 | The loop yields the tuned selected entries, and the stack is built over them. The returned score and metrics are the stack's on the test array. |
| ModelTrainer.LoadTrainerInputs | Telecom_churn_prediction/components/model_trainer.py:132-143 | Loading succeeds iff both arrays and the preprocessor are stored and both arrays have a column. Each array's features are then all but its last column, and its target is that last column. |
| ModelTrainer.InitiateModelTrainer | Telecom_churn_prediction/components/model_trainer.py:132-159 | A missing input fails and saves nothing. An ensemble test accuracy strictly below the expected score fails and saves nothing. Otherwise the bundle of preprocessor and ensemble is saved at the configured path and nothing else changes. |
| ModelEvaluation.AcceptedIffImproves | Telecom_churn_prediction/components/model_evaluation.py:84-88 | With no deployed model the baseline is 0 and the difference is the trained F1. With one, the difference is trained minus deployed. Acceptance holds iff the difference is strictly positive, so a tie is rejected. |
| ModelEvaluation.GetBestModel | Telecom_churn_prediction/components/model_evaluation.py:35-53 | A store that answers gives an estimator iff the key is present. A store that raises the project's exception gives None, and any other failure propagates. The estimator is new, addresses the configured bucket and key, and has loaded nothing. |
| ModelEvaluation.Evaluation | Telecom_churn_prediction/components/model_evaluation.py:55-94 | Defined as "a key error without the target column, a storage failure when the existence check raises something other than the project's exception, and otherwise `Decide` between the trained F1 and the deployed bundle's F1 on the test features". Its properties are `EvaluationBaseline`, `AcceptedIffImproves` and `ThresholdNotConsulted`. |
| ModelEvaluation.EvaluateModel | Telecom_churn_prediction/components/model_evaluation.py:55-94 | The method computes `Evaluation`. A frame without the target is a key error. Otherwise the result is the decision between the trained F1 and the deployed bundle's F1 on the test features, if one is deployed. |
| ModelEvaluation.EvaluationBaseline | Telecom_churn_prediction/components/model_evaluation.py:77-88 | With nothing deployed, the best score stays None, and acceptance means the trained F1 is above 0. With a deployed bundle, the best score is that bundle's F1 on the test features, and acceptance means beating it. |
| ModelEvaluation.ThresholdNotConsulted | Telecom_churn_prediction/components/model_evaluation.py:84-89 | The configured changed-threshold score has no effect on the evaluation. |
| ModelEvaluation.InitiateModelEvaluation | Telecom_churn_prediction/components/model_evaluation.py:96-117 | An evaluation error propagates. Otherwise the artifact copies the acceptance flag and the difference, the configured key and the trainer's model path unchanged. |
| MongoDataAccess.SelectCollection | Telecom_churn_prediction/churn_data_access/mongoDB_data_access.py:27-30 | The intended lookup: with a name, the named database of the same server; with none, the client's own database. A database or collection that does not exist reads as empty. |
| MongoDataAccess.SelectCollectionAsWritten | Telecom_churn_prediction/churn_data_access/mongoDB_data_access.py:27-30 | Defined as the lookup as written: with no name, the client's own database; with a name, a not-subscriptable error. Its properties are `NamedDatabaseFailsAsWritten` and `SelectionAgrees`. |
| MongoDataAccess.NamedDatabaseFailsAsWritten | Telecom_churn_prediction/churn_data_access/mongoDB_data_access.py:27-30 | As written, naming a database always fails, even naming the one the client already uses, while giving no name succeeds. |
| MongoDataAccess.SelectionAgrees | Telecom_churn_prediction/churn_data_access/mongoDB_data_access.py:27-30 | Naming the client's own database reads what giving no name reads. The intended lookup agrees with the written one wherever the written one succeeds. |
| MongoDataAccess.FieldNames | Telecom_churn_prediction/churn_data_access/mongoDB_data_access.py:32 | The frame's columns are every field of every document, once each. |
| MongoDataAccess.FieldNamesGrow | Telecom_churn_prediction/churn_data_access/mongoDB_data_access.py:32 | The columns found in the first `n` documents are the first columns of the whole frame, in the same order. A later document only adds its new fields at the end. |
| MongoDataAccess.FromRecords | Telecom_churn_prediction/churn_data_access/mongoDB_data_access.py:32 | The frame has one row per document and the columns `FieldNames` gives. `FromRecordsCell` states what each cell holds. |
| MongoDataAccess.FromRecordsCell | Telecom_churn_prediction/churn_data_access/mongoDB_data_access.py:32 | Each document's row holds, under every column, that document's field or a missing value. |
| MongoDataAccess.PostProcess | Telecom_churn_prediction/churn_data_access/mongoDB_data_access.py:33-35 | The post-processed frame is well formed. It is defined as dropping `_id` when present, then turning `"na"` into missing. Its properties are `PostProcessDropsId`, `PostProcessCells` and `PostProcessIdempotent`. |
| MongoDataAccess.PostProcessDropsId | Telecom_churn_prediction/churn_data_access/mongoDB_data_access.py:33-35 | The result has no `_id` column. The other columns stay in their order, and every row is kept. |
| MongoDataAccess.PostProcessCells | Telecom_churn_prediction/churn_data_access/mongoDB_data_access.py:33-35 | In every kept column each `"na"` cell becomes missing and every other cell is unchanged. No `"na"` cell is left. |
| MongoDataAccess.PostProcessIdempotent | Telecom_churn_prediction/churn_data_access/mongoDB_data_access.py:33-35 | Cleaning a cleaned frame again changes nothing. |
| MongoDataAccess.ExportCollectionAsDataframe | Telecom_churn_prediction/churn_data_access/mongoDB_data_access.py:20-36 | With the intended database lookup (the named database of the same server, or the client's own), the export is the post-processed frame of that collection's documents, and it is well formed. |
| MongoDataAccess.ExportCollectionAsDataframeAsWritten | Telecom_churn_prediction/churn_data_access/mongoDB_data_access.py:20-36 | As written, a named database fails with the not-subscriptable error, and no document is read. With no name the export is the post-processed frame of the client's own database's collection. |
| MainUtils.DropColumns | Telecom_churn_prediction/utils/main_utils.py:101-117 | Dropping fails iff a listed column is absent, and the error names exactly the absent ones. Otherwise the frame keeps its rows and the other columns in order, each with its cells. |
| MainUtils.RegistryFollowsConfig | Telecom_churn_prediction/utils/main_utils.py:125-134 | The registry has exactly one entry per configured name, in file order. Each entry stores that name's full parameters (empty when the file gives none) and a model whose keyword arguments are exactly the parameters whose value is not a list. |
| MainUtils.LoadModelsFromYaml | Telecom_churn_prediction/utils/main_utils.py:121-134 | The loop's dict is `Registry(config)`, the dict whose entries `RegistryFollowsConfig` describes. |
| ConfigEntity.Join | Telecom_churn_prediction/entity/config_entity.py:11-41 | Defined as POSIX `os.path.join` of two parts: an absolute second part replaces the first, and otherwise one separator goes between them unless the first is empty or ends with one. Its properties are `JoinEnds` and `JoinSegment`. |
| ConfigEntity.JoinEnds | Telecom_churn_prediction/entity/config_entity.py:11-41 | A join ends with its second part, and starts with its first unless the second is absolute. |
| ConfigEntity.Replace | Telecom_churn_prediction/entity/config_entity.py:36-38 | Defined as `str.replace`: every non-overlapping occurrence, left to right, with an empty pattern matching before every character and at the end. Its properties are `ReplaceKeepsLength`, `ReplaceKeepsSegment`, `ReplaceAfterPlainPrefix` and `ReplaceWhole`. |
| ConfigEntity.ReplaceKeepsLength | Telecom_churn_prediction/entity/config_entity.py:36-38 | A replacement as long as its non-empty pattern keeps the string's length. |
| ConfigEntity.ReplaceKeepsSegment | Telecom_churn_prediction/entity/config_entity.py:36-38 | Replacing with a separator-free string adds no separator. |
| ConfigEntity.ReplaceAfterPlainPrefix | Telecom_churn_prediction/entity/config_entity.py:36-38 | A prefix without the pattern's first character is copied unchanged in front of the replaced rest. |
| ConfigEntity.ReplaceWhole | Telecom_churn_prediction/entity/config_entity.py:36-38 | A string that is exactly the non-empty pattern becomes the replacement. |
| ConfigEntity.DataTransformationAsWritten | Telecom_churn_prediction/entity/config_entity.py:33-41 | Defined as the transformation layout as written: both array paths are built from `train_data_file`. Its properties are `TransformedPathsCollideAsWritten`, `ObjectPathDiffers` and `TransformationDirectory`. |
| ConfigEntity.DataTransformationCorrected | Telecom_churn_prediction/entity/config_entity.py:33-41 | Defined as the layout with the test array named after `test_data_file`. Its properties are `TransformedPathsDiffer`, `ObjectPathDiffers` and `TransformationDirectory`. |
| ConfigEntity.IngestionDirectory | Telecom_churn_prediction/entity/config_entity.py:18 | The ingestion directory is `artifact/<timestamp>/data_ingestion`. |
| ConfigEntity.ValidationDirectory | Telecom_churn_prediction/entity/config_entity.py:27 | The validation directory is `artifact/<timestamp>/data_validation`. |
| ConfigEntity.TransformationDirectory | Telecom_churn_prediction/entity/config_entity.py:34 | The transformation directory is `artifact/<timestamp>/data_transformation` in both layouts. |
| ConfigEntity.TrainerDirectory | Telecom_churn_prediction/entity/config_entity.py:46 | The trainer directory is `artifact/<timestamp>/model_trainer`. |
| ConfigEntity.IngestedFiles | Telecom_churn_prediction/entity/config_entity.py:20-21 | The train and test CSV files sit together in the `ingested` directory and differ only in file name. |
| ConfigEntity.JoinSegment | Telecom_churn_prediction/entity/config_entity.py:11-46 | `os.path.join` of a path and a separator-free name puts exactly one separator between them. |
| ConfigEntity.TransformedPathsCollideAsWritten | Telecom_churn_prediction/entity/config_entity.py:35-38 | As written, the transformed train and test arrays share one path, `artifact/<timestamp>/data_transformation/transformed/train.npy`. |
| ConfigEntity.TrainArrayName | Telecom_churn_prediction/entity/config_entity.py:36 | The train array's file name is `train.csv` with `csv` replaced by `npy`, that is `train.npy`, one path component. |
| ConfigEntity.TestArrayName | Telecom_churn_prediction/entity/config_entity.py:37-38 | `test.csv` with `csv` replaced by `npy` is `test.npy`, one path component: the name the test array was evidently meant to get. |
| ConfigEntity.LayoutPaths | Telecom_churn_prediction/entity/config_entity.py:35-41 | Both arrays sit in `<stage>/transformed`, and the preprocessor's path differs from both. Array names of different lengths give different paths. |
| ConfigEntity.TransformedPathsDiffer | Telecom_churn_prediction/entity/config_entity.py:35-38 | With the test array named after the test file, the arrays are `artifact/<timestamp>/data_transformation/transformed/train.npy` and `.../test.npy`, so their paths differ. |
| ConfigEntity.ObjectPathDiffers | Telecom_churn_prediction/entity/config_entity.py:35-41 | In either layout, the preprocessor's path differs from both array paths. |
| ConfigEntity.StorageLocationsAgree | Telecom_churn_prediction/entity/config_entity.py:52-69 | Evaluation, pusher and predictor all address the bucket `telcochurn-model2025` and the key `model.pkl`. |
| S3Estimator.TelcoChurnEstimator.constructor | Telecom_churn_prediction/entity/s3_estimator.py:13-21 | The estimator stores its bucket and key, shares the given store, and starts with no loaded model. |
| S3Estimator.TelcoChurnEstimator.IsModelPresent | Telecom_churn_prediction/entity/s3_estimator.py:24-29 | The result is whether the key exists in the estimator's bucket. A check that raises the project's exception gives false, and any other failure propagates. |
| S3Estimator.TelcoChurnEstimator.LoadModel | Telecom_churn_prediction/entity/s3_estimator.py:31-37 | The result is the bundle at the estimator's own location, or a missing-object error. |
| S3Estimator.TelcoChurnEstimator.SaveModel | Telecom_churn_prediction/entity/s3_estimator.py:39-53 | A local bundle goes to the estimator's own bucket and key, whatever the local file is called. No other location changes. A missing local file, or one that is not a bundle, is the missing-file error and changes nothing (see "## Left out"). |
| S3Estimator.TelcoChurnEstimator.Predict | Telecom_churn_prediction/entity/s3_estimator.py:56-66 | The first call loads the bundle and keeps it. Later calls use the kept bundle without reading the store. The answer is the bundle's prediction for the frame. |
| S3Estimator.PredictTwice | Telecom_churn_prediction/entity/s3_estimator.py:62-64 | Two predictions on one estimator read the store once. The second uses the first call's bundle even after the store has changed. |
| Estimator.TelcoChurnModel.Predict | Telecom_churn_prediction/entity/estimator.py:10-12 | Defined as the classifier's prediction on the preprocessor's transform of the frame, both uninterpreted library functions. The source promises nothing beyond this composition; `PredictFactorsThroughTransform` restates the definition (the classifier sees only the transformed array) rather than adding a property. |
| Estimator.PredictFactorsThroughTransform | Telecom_churn_prediction/entity/estimator.py:10-12 | The prediction is the classifier's answer on the preprocessor's output, so frames the preprocessor maps alike get the same prediction. |
| PredictionPipeline.AsDictShape | Telecom_churn_prediction/pipeline/prediction_pipeline.py:84-104 | The dict has exactly the nineteen feature keys, in the literal's order, once each, and no `Churn`. Each key holds the one-element list of its argument. |
| PredictionPipeline.AsDictLookup | Telecom_churn_prediction/pipeline/prediction_pipeline.py:85-103 | Reading a key through the dict gives the one-element list of the constructor argument of the same name. |
| PredictionPipeline.FeatureNamesDistinct | Telecom_churn_prediction/pipeline/prediction_pipeline.py:84-104 | The nineteen names are distinct, and the target is not one of them. |
| PredictionPipeline.DataFrameOfDict | Telecom_churn_prediction/pipeline/prediction_pipeline.py:71 | `DataFrame(dict)` succeeds iff all the lists have one length. Its columns are the keys in order. |
| PredictionPipeline.DataFrameColumnsAreLists | Telecom_churn_prediction/pipeline/prediction_pipeline.py:71 | Each column of the frame is the list the dict holds under its key. |
| PredictionPipeline.GetTelcoChurnInputDataFrame | Telecom_churn_prediction/pipeline/prediction_pipeline.py:64-71 | The input frame has the feature columns, no target, and exactly one row, which holds the arguments in order. |
| PredictionPipeline.Predict | Telecom_churn_prediction/pipeline/prediction_pipeline.py:127-140 | A new estimator is built per call, so the answer is the deployed bundle's prediction as the store holds it then, or the missing-object error. |
| PredictionPipeline.PredictAcrossReplacement | Telecom_churn_prediction/pipeline/prediction_pipeline.py:134-138 | No model cache survives across calls: a bundle replaced between two predictions is the one the second prediction uses. |
| PredictionPipeline.DefaultClassifierReadsPushedKey | Telecom_churn_prediction/pipeline/prediction_pipeline.py:116 | The classifier's default configuration reads the bucket and key the pusher writes. |
| Setup.StripNewlinesMeans | setup.py:8 | A stripped line holds no newline. It is the line read at its non-newline positions in ascending order, every non-newline position included, and is unchanged when it had no newline. |
| Setup.RemoveFirstMeans | setup.py:10-11 | `remove` takes out only the first copy. Everything before it stays, and everything after it, later copies included, moves up by one. |
| Setup.RemoveFirstCount | setup.py:11 | Exactly one copy of the marker goes. |
| Setup.Requirements | setup.py:5-13 | Defined as the stripped lines, less the first `-e .` line when there is one. Its properties are `RequirementsMeans` and `CleanFileUnchanged`. |
| Setup.GetRequirements | setup.py:5-13 | The method computes `Requirements`: the stripped lines, less the first `-e .` line when there is one. |
| Setup.RequirementsMeans | setup.py:7-11 | The list is one shorter iff some line is `-e .` once stripped. No newline remains, and one marker goes. Every stripped line before the first marker keeps its place, and every one after it moves up by one. Without a marker, the list is the stripped lines. |
| Setup.CleanFileUnchanged | setup.py:7-11 | A file whose lines already lack newlines and the marker comes back unchanged. |
| Tables.SplitUndoesAppend | Telecom_churn_prediction/components/data_transformation.py:154-160 | Appending the target as a last column, then splitting the last column off (`arr[:, :-1]`, `arr[:, -1]`), gives back the features and the target. |
| Tables.AppendUndoesSplit | Telecom_churn_prediction/components/model_trainer.py:135 | Splitting an array with a column, then appending the target again, gives back the array. |
| Dicts.FromPairsIdentity | Telecom_churn_prediction/components/model_trainer.py:51 | `dict(pairs)` of pairs with distinct names is those pairs, in order. |

## Left out

- Reading and writing CSV, YAML, dill and `.npy` files are not modelled: the frames, the parsed YAML and the artifact map are inputs. The drift report the validation stage writes is left out too.
- MongoDB and S3 connections are not modelled. The server's databases and the bucket's objects are given values, so connection strings, credentials and client singletons are out.
- Logging and `print` are left out because they change no result.
- `CustomException` message formatting is left out: a failure is the `Err` case of the underlying error.
- `importlib.import_module` and `getattr` class loading are not modelled: a model is its module name, class name and keyword arguments.
- All numeric library behaviour is uninterpreted functions of `Learners.Library`. This covers fitting, cross validation, grid search (including its parallelism), stacking, SMOTENC, scaling, one-hot encoding, label encoding, metrics and the evidently drift share. Their failures (for example SMOTENC on a single class, or an unseen category) are not modelled.
- The float floor division whose result the drift check only logs is left out.
- pandas gives a column the object dtype when it holds a string. The model uses that rule; other dtypes (for example a mixed numeric column) are not distinguished.
- DataTransformation.AsFloat: the `astype("float64")` conversion is modelled through an uninterpreted `parseFloat`, so which strings parse is not fixed.
- Assigning the converted column into the frame, and the in-place `replace` of the export, are modelled as reassignment of a value; aliasing of pandas frames is not modelled.
- DataTransformation.Transform: the test frame is split before the train features are resampled, while the stage resamples first. Resampling is a total library function here, so the order changes no outcome; SMOTENC's own failures are left out as above.
- ModelTrainer.GetTopModels: `model.fit` before cross validation (line 43) is not modelled, because its only effect is on the estimator object, which `cross_val_score` clones.
- ModelTrainer.InitiateModelTrainer: the preprocessor is loaded after training, but training has no side effect here, so the order only decides which error is reported when several inputs are missing.
- The data ingestion stage (the MongoDB export to CSV and the random train/test split) is not part of this model.
- The model pusher is not part of this model, except for the key it writes (`DefaultClassifierReadsPushedKey`). It uploads the trained bundle without checking the evaluation's acceptance flag.
- The web application and its label-to-text mapping are not part of this model.
- `entity/artifact_entity.py` is not part of this model; `ArtifactEntity` declares the fields the modelled stages read and write.
- The clock that produces the run's timestamp is replaced by a timestamp parameter.
- `SimpleStorageService` is not part of this model; `ObjectStorage` stands in for it with a map of objects and a fault mode for the existence check.
- S3Estimator.TelcoChurnEstimator.SaveModel: the `remove` flag (deleting the local file after upload) is not modelled. The object store holds only model bundles, so uploading an existing local file that is not a bundle (an array or a preprocessor), which `upload_file` would do, is modelled as the missing-file error with the store unchanged. The only caller uploads the trainer's bundle path, which never holds anything else.

## Findings

| source | as written | input that shows it | evidently intended | confidence | as-written member | corrected member |
|---|---|---|---|---|---|---|
| Telecom_churn_prediction/entity/config_entity.py:37-38 | The transformed test path is built from `train_data_file`, so it equals the transformed train path. The test array is saved over the train array, and the trainer trains and scores on the test array. | Any timestamp, e.g. `2024-01-01_00-00-00`: both paths are `artifact/2024-01-01_00-00-00/data_transformation/transformed/train.npy`. | The test path named after `test_data_file` (`test.npy`). | not executed | ConfigEntity.DataTransformationAsWritten, ConfigEntity.TransformedPathsCollideAsWritten, DataTransformation.TrainerReadsTestArrayAsWritten | ConfigEntity.DataTransformationCorrected, ConfigEntity.TransformedPathsDiffer, DataTransformation.TrainerReadsBothArrays |
| Telecom_churn_prediction/churn_data_access/mongoDB_data_access.py:30 | `self.client[database_name]` indexes the `MongoDBClient` wrapper, which defines no item access, so any explicit database name raises `TypeError`. | `export_collection_as_dataframe("churn_data", "telecom_churn")` | The named database of the same server (`self.client.client[database_name]`). | not executed | MongoDataAccess.SelectCollectionAsWritten, MongoDataAccess.NamedDatabaseFailsAsWritten, MongoDataAccess.ExportCollectionAsDataframeAsWritten | MongoDataAccess.SelectCollection, MongoDataAccess.SelectionAgrees, MongoDataAccess.ExportCollectionAsDataframe |
