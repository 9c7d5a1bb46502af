/** The pipeline's fixed names and defaults. */
module Constants {
  const DatabaseName := "telecom_churn"
  const PipelineName := "predict_telecom_churn"
  const ArtifactDirName := "artifact"

  const DataFile := "Telco_Customer_Churn.csv"
  const TrainDataFile := "train.csv"
  const TestDataFile := "test.csv"
  const ModelFileName := "model.pkl"

  const TargetColumn := "Churn"
  const ColumnRequiredTypeChange := "TotalCharges"
  const PreprocessingObjectFileName := "preprocessing.pkl"
  const ConfigDirName := "config"
  const ModelConfigFileName := "model.yaml"

  const DataIngestionCollectionName := "churn_data"
  const DataIngestionDirName := "data_ingestion"
  const DataIngestionFeatureStoreDir := "feature_store"
  const DataIngestionIngestedDir := "ingested"
  const DataIngestionTrainTestSplitRatio: real := 0.2

  const DataValidationDirName := "data_validation"
  const DataValidationDriftReportDir := "drift_report"
  const DataValidationDriftReportFileName := "report.yaml"

  const DataTransformationDirName := "data_transformation"
  const DataTransformationTransformedDataDir := "transformed"
  const DataTransformationTransformedObjectDir := "transformed_object"

  const ModelTrainerDirName := "model_trainer"
  const ModelTrainerTrainedModelDir := "trained_model"
  const ModelTrainerExpectedScore: real := 0.6

  const ModelEvaluationChangedThresholdScore: real := 0.02
  const ModelBucketName := "telcochurn-model2025"
}
