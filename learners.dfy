/** The scikit-learn and imbalanced-learn objects the pipeline builds, as symbolic values
    that record how they were made, and the library routines it calls, as uninterpreted
    functions gathered in one record. Nothing about their numeric behaviour is modelled. */
module Learners {
  import opened Errors
  import opened Tables

  /** A value under `params` in the model registry file: a YAML scalar or a YAML list
      (a list is a search grid). */
  datatype ParamValue = Scalar(text: string) | ListValue(items: seq<string>)

  type Params = map<string, ParamValue>

  /** An estimator object: the module and class it was created from and the keyword
      arguments of its constructor. */
  datatype Model = Model(moduleName: string, className: string, kwargs: Params)

  /** A registry model after the tuning step: the best estimator of an exhaustive grid
      search (5 folds, accuracy), or the model fitted with its own parameters. */
  datatype FittedModel = SearchedBest(model: Model, grid: Params) | FittedAsIs(model: Model)

  /** A stacking ensemble over named base estimators with a logistic-regression
      meta-learner (5 folds, no passthrough), fitted on the features `x` and target `y`. */
  datatype Classifier = Stacking(estimators: seq<(string, FittedModel)>, x: Matrix, y: seq<real>)

  /** A column transformer that standardises `numFeatures` and one-hot encodes
      `oheColumns`, fitted on `fittedOn`. */
  datatype Preprocessor = ColumnTransformer(numFeatures: seq<string>, oheColumns: seq<string>, fittedOn: Table)

  /** A label encoder fitted on the target values `fittedOn`. */
  datatype LabelEncoder = LabelEncoder(fittedOn: seq<Cell>)

  datatype Metrics = ClassificationMetric(f1Score: real, precisionScore: real, recallScore: real)

  /** The library routines the pipeline calls. */
  datatype Library = Library(
    // mean accuracy of a 5-fold cross validation of the model on (x, y)
    crossValScore: (Model, Matrix, seq<real>) -> real,
    // SMOTENC(categorical_features = positions, random_state = 42).fit_resample(x, y)
    resample: (Table, seq<Cell>, seq<nat>) -> (Frame, seq<Cell>),
    // a fitted column transformer applied to a frame
    transform: (Preprocessor, Table) -> NdArray,
    // a fitted label encoder applied to target values
    encode: (LabelEncoder, seq<Cell>) -> seq<real>,
    // a fitted classifier's predictions for the rows of an array
    predict: (Classifier, Matrix) -> seq<real>,
    // a fitted classifier's accuracy on (x, y)
    score: (Classifier, Matrix, seq<real>) -> real,
    // F1, precision and recall of predictions against the true labels
    metrics: (seq<real>, seq<real>) -> Metrics,
    // F1 of predictions against the target column as read from CSV
    f1Score: (seq<Cell>, seq<real>) -> real,
    // `float(text)`, or nothing when the text is not a number
    parseFloat: string -> Option<real>,
    // the share of drifted columns in the data drift report of `current` against `reference`
    driftShare: (Table, Table) -> real
  )
}
