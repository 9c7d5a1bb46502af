/** The validation stage: the ingested train and test frames are checked against the
    schema, and the outcome is a status flag and a message. Reading the CSV files and
    writing the drift report are left to the caller; the frames and the report's drift
    share are inputs. */
module DataValidation {
  import opened Tables
  import opened Learners
  import opened ConfigEntity
  import opened ArtifactEntity

  /** The parts of the schema file the checks read. */
  datatype Schema = Schema(
    columns: seq<string>, numericalColumns: seq<string>,
    categoricalColumns: seq<string>, dropColumns: seq<string>)

  /** `validate_number_of_columns`: only the number of columns is compared with the
      schema's column list, never their names. */
  function ValidateNumberOfColumns(df: Table, schema: Schema): bool {
    |df.columns| == |schema.columns|
  }

  /** The names of `required` that `df` lacks, in `required`'s order. */
  function MissingFrom(required: seq<string>, df: Table): seq<string> {
    Without(required, set c | c in df.columns)
  }

  /** What `is_column_exist` decides: no numerical and no categorical schema column is
      missing. */
  predicate ColumnsExist(df: Table, schema: Schema) {
    MissingFrom(schema.numericalColumns, df) == [] && MissingFrom(schema.categoricalColumns, df) == []
  }

  /** The columns are there exactly when every schema column of either kind is one of
      the frame's columns. */
  lemma ColumnsExistMeans(df: Table, schema: Schema)
    ensures ColumnsExist(df, schema) <==>
              && (forall c :: c in schema.numericalColumns ==> c in df.columns)
              && (forall c :: c in schema.categoricalColumns ==> c in df.columns)
  {
    var present := set c | c in df.columns;
    WithoutMembers(schema.numericalColumns, present);
    WithoutMembers(schema.categoricalColumns, present);
    var n, k := MissingFrom(schema.numericalColumns, df), MissingFrom(schema.categoricalColumns, df);
    if n != [] {
      assert n[0] in n;
    }
    if k != [] {
      assert k[0] in k;
    }
  }

  /** `is_column_exist`: two passes over the schema lists collect the missing columns. */
  method IsColumnExist(df: Table, schema: Schema)
    returns (status: bool, missingNumericalColumns: seq<string>, missingCategoricalColumns: seq<string>)
    ensures missingNumericalColumns == MissingFrom(schema.numericalColumns, df)
    ensures missingCategoricalColumns == MissingFrom(schema.categoricalColumns, df)
    ensures forall c :: c in missingNumericalColumns <==> c in schema.numericalColumns && c !in df.columns
    ensures forall c :: c in missingCategoricalColumns <==> c in schema.categoricalColumns && c !in df.columns
    ensures status <==> ColumnsExist(df, schema)
  {
    var present := set c | c in df.columns;
    missingNumericalColumns := [];
    var i := 0;
    while i < |schema.numericalColumns|
      invariant 0 <= i <= |schema.numericalColumns|
      invariant missingNumericalColumns == Without(schema.numericalColumns[..i], present)
    {
      var column := schema.numericalColumns[i];
      WithoutSnoc(schema.numericalColumns[..i], column, present);
      assert schema.numericalColumns[..i + 1] == schema.numericalColumns[..i] + [column];
      if column !in df.columns {
        missingNumericalColumns := missingNumericalColumns + [column];
      }
      i := i + 1;
    }
    assert schema.numericalColumns[..i] == schema.numericalColumns;
    missingCategoricalColumns := [];
    i := 0;
    while i < |schema.categoricalColumns|
      invariant 0 <= i <= |schema.categoricalColumns|
      invariant missingCategoricalColumns == Without(schema.categoricalColumns[..i], present)
    {
      var column := schema.categoricalColumns[i];
      WithoutSnoc(schema.categoricalColumns[..i], column, present);
      assert schema.categoricalColumns[..i + 1] == schema.categoricalColumns[..i] + [column];
      if column !in df.columns {
        missingCategoricalColumns := missingCategoricalColumns + [column];
      }
      i := i + 1;
    }
    assert schema.categoricalColumns[..i] == schema.categoricalColumns;
    WithoutMembers(schema.numericalColumns, present);
    WithoutMembers(schema.categoricalColumns, present);
    status := !(|missingCategoricalColumns| > 0 || |missingNumericalColumns| > 0);
  }

  /** A frame that has lost a column no longer has the schema's number of columns, if it
      had it before. */
  lemma {:induction false} DroppedColumnFailsCount(df: Table, schema: Schema, c: string)
    requires df.Valid() && c in df.columns && ValidateNumberOfColumns(df, schema)
    ensures !ValidateNumberOfColumns(RemoveColumns(df, {c}), schema)
  {
    WithoutShorter(df.columns, c, {c});
  }

  /** Names do not matter to the count: a frame whose columns are all renamed passes or
      fails the count exactly as before. */
  lemma RenamedColumnsCountAlike(df: Table, names: seq<string>, schema: Schema)
    requires |names| == |df.columns|
    ensures ValidateNumberOfColumns(Table(names, df.rows), schema) == ValidateNumberOfColumns(df, schema)
  {
  }

  /** A frame without a required column fails the presence check. */
  lemma {:induction false} DroppedRequiredColumnFails(df: Table, schema: Schema, c: string)
    requires df.Valid() && (c in schema.numericalColumns || c in schema.categoricalColumns)
    ensures !ColumnsExist(RemoveColumns(df, {c}), schema)
  {
    WithoutMembers(df.columns, {c});
    ColumnsExistMeans(RemoveColumns(df, {c}), schema);
  }

  /** `detect_dataset_drift`: drift is reported when the drifted share is positive. */
  function DetectDatasetDrift(lib: Library, reference: Table, current: Table): bool {
    lib.driftShare(reference, current) > 0.0
  }

  const TrainCountMessage := "Columns are missing in training dataframe."
  const TestCountMessage := "Columns are missing in test dataframe."
  const TrainExistMessage := "Columns are missing in training dataframe."
  const TestExistMessage := "columns are missing in test dataframe."

  /** The four checks, in the order the stage runs them. */
  predicate AllChecksPass(train: Table, test: Table, schema: Schema) {
    && ValidateNumberOfColumns(train, schema) && ValidateNumberOfColumns(test, schema)
    && ColumnsExist(train, schema) && ColumnsExist(test, schema)
  }

  /** The message accumulated by the checks: one sentence per failed check, in the order
      train count, test count, train presence, test presence. */
  function FailureMessage(train: Table, test: Table, schema: Schema): string {
    var m1 := AddIfFailed("", ValidateNumberOfColumns(train, schema), TrainCountMessage);
    var m2 := AddIfFailed(m1, ValidateNumberOfColumns(test, schema), TestCountMessage);
    var m3 := AddIfFailed(m2, ColumnsExist(train, schema), TrainExistMessage);
    AddIfFailed(m3, ColumnsExist(test, schema), TestExistMessage)
  }

  /** `if not status: validation_error_msg += sentence` */
  function AddIfFailed(msg: string, status: bool, sentence: string): string {
    if status then msg else msg + sentence
  }

  /** Every failed check adds a non-empty sentence, so the message stays empty exactly when
      all four checks pass, and each failure lengthens it. */
  lemma FailureMessageEmptyIffPass(train: Table, test: Table, schema: Schema)
    ensures FailureMessage(train, test, schema) == "" <==> AllChecksPass(train, test, schema)
    ensures |FailureMessage(train, test, schema)| >=
              (if ValidateNumberOfColumns(train, schema) then 0 else |TrainCountMessage|)
              + (if ValidateNumberOfColumns(test, schema) then 0 else |TestCountMessage|)
              + (if ColumnsExist(train, schema) then 0 else |TrainExistMessage|)
              + (if ColumnsExist(test, schema) then 0 else |TestExistMessage|)
  {
  }

  /** `initiate_data_validation` on the two ingested frames. */
  method InitiateDataValidation(train: Table, test: Table, schema: Schema, config: DataValidationConfig, lib: Library)
    returns (artifact: DataValidationArtifact)
    ensures artifact.validationStatus <==> AllChecksPass(train, test, schema)
    ensures !artifact.validationStatus ==>
              artifact.message == FailureMessage(train, test, schema) && artifact.message != ""
    ensures artifact.validationStatus ==>
              artifact.message == (if lib.driftShare(train, test) > 0.0 then "Drift detected" else "Drift not detected")
    ensures artifact.driftReportFilePath == config.driftReportFilePath
  {
    var validationErrorMsg := "";
    var status := ValidateNumberOfColumns(train, schema);
    if !status {
      validationErrorMsg := validationErrorMsg + TrainCountMessage;
    }
    assert validationErrorMsg == AddIfFailed("", status, TrainCountMessage);
    var m := validationErrorMsg;
    status := ValidateNumberOfColumns(test, schema);
    if !status {
      validationErrorMsg := validationErrorMsg + TestCountMessage;
    }
    assert validationErrorMsg == AddIfFailed(m, status, TestCountMessage);
    m := validationErrorMsg;
    var missingNumerical, missingCategorical;
    status, missingNumerical, missingCategorical := IsColumnExist(train, schema);
    if !status {
      validationErrorMsg := validationErrorMsg + TrainExistMessage;
    }
    assert validationErrorMsg == AddIfFailed(m, status, TrainExistMessage);
    m := validationErrorMsg;
    status, missingNumerical, missingCategorical := IsColumnExist(test, schema);
    if !status {
      validationErrorMsg := validationErrorMsg + TestExistMessage;
    }
    assert validationErrorMsg == AddIfFailed(m, status, TestExistMessage);
    assert validationErrorMsg == FailureMessage(train, test, schema);
    FailureMessageEmptyIffPass(train, test, schema);
    var validationStatus := |validationErrorMsg| == 0;
    if validationStatus {
      var driftStatus := DetectDatasetDrift(lib, train, test);
      if driftStatus {
        validationErrorMsg := "Drift detected";
      } else {
        validationErrorMsg := "Drift not detected";
      }
    }
    artifact := DataValidationArtifact(validationStatus, validationErrorMsg, config.driftReportFilePath);
  }
}
