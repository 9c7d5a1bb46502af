/** The records one stage hands to the next. Their definitions live in a file that is not
    part of this model; the fields here are the ones the modelled stages read and write. */
module ArtifactEntity {
  import opened Learners

  datatype DataValidationArtifact = DataValidationArtifact(
    validationStatus: bool, message: string, driftReportFilePath: string)

  datatype DataTransformationArtifact = DataTransformationArtifact(
    transformedObjectFilePath: string, transformedTrainFilePath: string, transformedTestFilePath: string)

  datatype ModelTrainerArtifact = ModelTrainerArtifact(trainedModelFilePath: string, metricArtifact: Metrics)

  datatype ModelEvaluationArtifact = ModelEvaluationArtifact(
    isModelAccepted: bool, s3ModelPath: string, trainedModelPath: string, changedAccuracy: real)
}
