/** The model bundle that training produces and prediction loads. */
module Estimator {
  import opened Tables
  import opened Learners

  /** A fitted preprocessor paired with the classifier trained on its output; the
      constructor stores both unchanged and nothing ever updates them. */
  datatype TelcoChurnModel = TelcoChurnModel(preprocessingObject: Preprocessor, trainedModelObject: Classifier) {

    /** `predict`: the frame goes through the preprocessor, and only its output reaches
        the classifier. */
    function Predict(lib: Library, dataframe: Table): seq<real> {
      lib.predict(trainedModelObject, lib.transform(preprocessingObject, dataframe))
    }
  }

  /** The classifier never sees the raw frame: two frames that the preprocessor maps to
      the same array get the same predictions, and the prediction is the classifier's
      answer for that array. */
  lemma PredictFactorsThroughTransform(m: TelcoChurnModel, lib: Library, a: Table, b: Table, x: Matrix)
    requires lib.transform(m.preprocessingObject, a) == x
    requires lib.transform(m.preprocessingObject, b) == x
    ensures m.Predict(lib, a) == m.Predict(lib, b) == lib.predict(m.trainedModelObject, x)
  {
  }
}
