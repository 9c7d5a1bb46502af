/** The transformation stage: the ingested frames lose their blank rows, the charges
    column becomes numeric, each frame is split into features and target, both are
    resampled, a preprocessor fitted on the train features encodes both, and the encoded
    target is appended as the last column of each array. Reading the CSV files is left to
    the caller (the frames are inputs); the saved files are the artifact store's entries. */
module DataTransformation {
  import opened Errors
  import opened Tables
  import opened Learners
  import opened MainUtils
  import opened Constants
  import opened ConfigEntity
  import opened ArtifactEntity
  import opened DataValidation
  import Trainer = ModelTrainer

  /** No cell of the row is a single blank: the rows `(row == " ").any()` rejects. */
  predicate NoBlank(row: Row) {
    Str(" ") !in row
  }

  /** `df[~df.apply(lambda row: (row == " ").any(), axis=1)]` */
  function DropBlankRows(df: Table): (r: Table)
    requires df.Valid()
    ensures r.Valid() && r.columns == df.columns
  {
    Table(df.columns, Filter(df.rows, NoBlank))
  }

  /** The filter keeps exactly the rows without a blank cell, in their original order. */
  lemma DropBlankRowsKeepsExactly(df: Table)
    requires df.Valid()
    ensures var p := KeptPositions(df.rows, NoBlank);
            && |DropBlankRows(df).rows| == |p|
            && (forall i :: 0 <= i < |p| ==> DropBlankRows(df).rows[i] == df.rows[p[i]])
            && (forall i, j :: 0 <= i < j < |p| ==> p[i] < p[j])
            && (forall j :: 0 <= j < |df.rows| ==> (j in p <==> Str(" ") !in df.rows[j]))
  {
    FilterAtKeptPositions(df.rows, NoBlank);
  }

  /** A second pass finds nothing more to remove. */
  lemma DropBlankRowsIdempotent(df: Table)
    requires df.Valid()
    ensures DropBlankRows(DropBlankRows(df)) == DropBlankRows(df)
  {
    FilterKeepsAccepted(DropBlankRows(df).rows, NoBlank);
  }

  /** `float(cell)` as `astype("float64")` applies it: a numeric string becomes its number,
      numbers and missing values stay as they are, and any other string is an error. */
  function ToFloat(lib: Library, c: Cell): (r: Result<Cell>)
    ensures r.Err? <==> c.Str? && lib.parseFloat(c.text).None?
    ensures r.Ok? ==> !r.value.Str?
    ensures r.Ok? && c.Str? ==> r.value == Num(lib.parseFloat(c.text).value)
    ensures !c.Str? ==> r == Ok(c)
  {
    match c
    case Str(text) =>
      (match lib.parseFloat(text)
       case None => Err(NotANumber(text))
       case Some(x) => Ok(Num(x)))
    case _ => Ok(c)
  }

  /** Every row with its cell at position `k` converted, or the first failure. */
  function ConvertAt(lib: Library, rows: seq<Row>, k: nat): (r: Result<seq<Row>>)
    requires forall i :: 0 <= i < |rows| ==> k < |rows[i]|
    ensures r.Ok? <==> forall i :: 0 <= i < |rows| ==> ToFloat(lib, rows[i][k]).Ok?
    ensures r.Err? ==> r.error.NotANumber?
    ensures r.Ok? ==> && |r.value| == |rows|
                      && forall i :: 0 <= i < |rows| ==> r.value[i] == rows[i][k := ToFloat(lib, rows[i][k]).value]
  {
    if rows == [] then Ok([])
    else
      var cell :- ToFloat(lib, rows[0][k]);
      var rest :- ConvertAt(lib, rows[1..], k);
      Ok([rows[0][k := cell]] + rest)
  }

  /** `df[col] = df[col].astype("float64")`: pandas raises a key error for an absent
      column and a value error for a cell that is not a number. */
  function AsFloat(lib: Library, df: Table, col: string): (r: Result<Table>)
    requires df.Valid()
    ensures col !in df.columns ==> r == Err(MissingColumns([col]))
    ensures r.Ok? ==> r.value.Valid() && r.value.columns == df.columns && |r.value.rows| == |df.rows|
  {
    if col !in df.columns then Err(MissingColumns([col]))
    else
      var rows :- ConvertAt(lib, df.rows, IndexOf(df.columns, col));
      Ok(Table(df.columns, rows))
  }

  /** The conversion of a present column fails exactly when one of its cells is a string
      that is not a number; when it succeeds, that column holds the converted cells and
      every other column is unchanged. */
  lemma AsFloatConvertsColumn(lib: Library, df: Table, col: string)
    requires df.Valid() && col in df.columns
    ensures AsFloat(lib, df, col).Ok? <==> forall i :: 0 <= i < |df.rows| ==> ToFloat(lib, ColumnValues(df, col)[i]).Ok?
    ensures AsFloat(lib, df, col).Err? ==> AsFloat(lib, df, col).error.NotANumber?
    ensures AsFloat(lib, df, col).Ok? ==>
              && (forall i :: 0 <= i < |df.rows| ==>
                    ColumnValues(AsFloat(lib, df, col).value, col)[i] == ToFloat(lib, ColumnValues(df, col)[i]).value)
              && forall c :: c in df.columns && c != col ==> ColumnValues(AsFloat(lib, df, col).value, c) == ColumnValues(df, c)
  {
    var k := IndexOf(df.columns, col);
    assert forall i :: 0 <= i < |df.rows| ==> ColumnValues(df, col)[i] == df.rows[i][k];
    if AsFloat(lib, df, col).Ok? {
      var r := AsFloat(lib, df, col).value;
      forall c | c in df.columns && c != col ensures ColumnValues(r, c) == ColumnValues(df, c) {
        var j := IndexOf(df.columns, c);
        assert j != k;
        forall i | 0 <= i < |df.rows| ensures ColumnValues(r, c)[i] == ColumnValues(df, c)[i] {
          assert r.rows[i] == df.rows[i][k := ToFloat(lib, df.rows[i][k]).value];
        }
      }
    }
  }

  /** The input features and target of one frame: `df.drop(columns=[target])` and
      `df[target]`, then `drop_columns(features, drop_cols)`. */
  function SplitFeatures(df: Table, dropCols: seq<string>): (r: Result<(Table, seq<Cell>)>)
    requires df.Valid()
    ensures r.Ok? ==> r.value.0.Valid() && |r.value.0.rows| == |r.value.1| == |df.rows|
  {
    var input :- DropColumns(df, [TargetColumn]);
    var target := ColumnValues(df, TargetColumn);
    var features :- DropColumns(input, dropCols);
    Ok((features, target))
  }

  /** The split succeeds exactly when the target and every drop column are there (a drop
      column naming the target is gone by then); the features are the other columns in
      order with their cells, and the target is the target column. */
  lemma SplitFeaturesMeans(df: Table, dropCols: seq<string>)
    requires df.Valid()
    ensures SplitFeatures(df, dropCols).Ok? <==>
              TargetColumn in df.columns && forall c :: c in dropCols ==> c in df.columns && c != TargetColumn
    ensures SplitFeatures(df, dropCols).Err? ==> SplitFeatures(df, dropCols).error.MissingColumns?
    ensures SplitFeatures(df, dropCols).Ok? ==>
              var (features, target) := SplitFeatures(df, dropCols).value;
              && features.columns == Without(Without(df.columns, {TargetColumn}), set c | c in dropCols)
              && (forall c :: c in features.columns <==> c in df.columns && c != TargetColumn && c !in dropCols)
              && (forall c :: c in features.columns ==> ColumnValues(features, c) == ColumnValues(df, c))
              && target == ColumnValues(df, TargetColumn)
  {
    assert (set c | c in [TargetColumn]) == {TargetColumn};
  }

  /** pandas gives a column the object dtype when one of its cells holds a string. */
  predicate ObjectAt(df: Table, j: nat) {
    exists i :: 0 <= i < |df.rows| && j < |df.rows[i]| && df.rows[i][j].Str?
  }

  /** The positions below `n` whose column is of object dtype (when `isObject` holds) or of
      another dtype (when it does not), ascending. */
  function PositionsWhere(df: Table, isObject: bool, n: nat): (p: seq<nat>)
    ensures forall i :: 0 <= i < |p| ==> p[i] < n && ObjectAt(df, p[i]) == isObject
    ensures forall i, j :: 0 <= i < j < |p| ==> p[i] < p[j]
    ensures forall j :: 0 <= j < n && ObjectAt(df, j) == isObject ==> j in p
  {
    if n == 0 then []
    else PositionsWhere(df, isObject, n - 1) + (if ObjectAt(df, n - 1) == isObject then [n - 1] else [])
  }

  /** The names at the given positions. */
  function ColumnsAt(df: Table, p: seq<nat>): seq<string>
    requires forall i :: 0 <= i < |p| ==> p[i] < |df.columns|
  {
    seq(|p|, i requires 0 <= i < |p| => df.columns[p[i]])
  }

  /** `df.select_dtypes(include=["object"]).columns` */
  function ObjectColumns(df: Table): seq<string> {
    ColumnsAt(df, PositionsWhere(df, true, |df.columns|))
  }

  /** `df.select_dtypes(exclude=["object"]).columns` */
  function OtherColumns(df: Table): seq<string> {
    ColumnsAt(df, PositionsWhere(df, false, |df.columns|))
  }

  /** `[df.columns.get_loc(col) for col in object columns]`: looking each object column's
      name up again gives back its own position, so the list is the ascending positions of
      the object columns. */
  function CategoricalFeatures(df: Table): (p: seq<nat>)
    requires df.Valid()
    ensures p == PositionsWhere(df, true, |df.columns|)
  {
    var names := ObjectColumns(df);
    var positions := PositionsWhere(df, true, |df.columns|);
    forall i | 0 <= i < |names|
      ensures names[i] in df.columns && IndexOf(df.columns, names[i]) == positions[i]
    {
      IndexOfDistinct(df.columns, positions[i]);
    }
    seq(|names|, i requires 0 <= i < |names| => IndexOf(df.columns, names[i]))
  }

  /** A column is listed by kind exactly when its position has that kind. */
  lemma ColumnsOfKind(df: Table, isObject: bool, c: string)
    requires df.Valid()
    ensures c in ColumnsAt(df, PositionsWhere(df, isObject, |df.columns|)) <==>
              c in df.columns && ObjectAt(df, IndexOf(df.columns, c)) == isObject
  {
    var p := PositionsWhere(df, isObject, |df.columns|);
    var names := ColumnsAt(df, p);
    if c in names {
      var i :| 0 <= i < |p| && names[i] == c;
      IndexOfDistinct(df.columns, p[i]);
    }
    if c in df.columns && ObjectAt(df, IndexOf(df.columns, c)) == isObject {
      var i :| 0 <= i < |p| && p[i] == IndexOf(df.columns, c);
      assert names[i] == c;
    }
  }

  /** Listed columns keep the frame's column order. */
  lemma ColumnsOfKindInOrder(df: Table, isObject: bool)
    requires df.Valid()
    ensures var names := ColumnsAt(df, PositionsWhere(df, isObject, |df.columns|));
            forall i, j :: 0 <= i < j < |names| ==> IndexOf(df.columns, names[i]) < IndexOf(df.columns, names[j])
  {
    var p := PositionsWhere(df, isObject, |df.columns|);
    forall i | 0 <= i < |p| ensures IndexOf(df.columns, df.columns[p[i]]) == p[i] {
      IndexOfDistinct(df.columns, p[i]);
    }
  }

  /** The numeric and the one-hot columns split the frame's columns: each column is in
      exactly one of them, the one-hot columns being those with a string cell, and both
      keep the frame's column order. */
  lemma ColumnKindsPartition(df: Table)
    requires df.Valid()
    ensures forall c :: c in OtherColumns(df) || c in ObjectColumns(df) <==> c in df.columns
    ensures forall c :: !(c in OtherColumns(df) && c in ObjectColumns(df))
    ensures forall c :: c in ObjectColumns(df) <==> c in df.columns && ObjectAt(df, IndexOf(df.columns, c))
    ensures forall i, j :: 0 <= i < j < |ObjectColumns(df)| ==>
              IndexOf(df.columns, ObjectColumns(df)[i]) < IndexOf(df.columns, ObjectColumns(df)[j])
    ensures forall i, j :: 0 <= i < j < |OtherColumns(df)| ==>
              IndexOf(df.columns, OtherColumns(df)[i]) < IndexOf(df.columns, OtherColumns(df)[j])
  {
    forall c ensures (c in ObjectColumns(df) <==> c in df.columns && ObjectAt(df, IndexOf(df.columns, c)))
                  && (c in OtherColumns(df) <==> c in df.columns && !ObjectAt(df, IndexOf(df.columns, c))) {
      ColumnsOfKind(df, true, c);
      ColumnsOfKind(df, false, c);
    }
    ColumnsOfKindInOrder(df, true);
    ColumnsOfKindInOrder(df, false);
  }

  /** Blank rows removed, the charges column made numeric, and the frame split into
      features and target: what each of the two frames goes through. */
  function Prepared(lib: Library, df: Table, dropCols: seq<string>): (r: Result<(Table, seq<Cell>)>)
    requires df.Valid()
    ensures r.Ok? ==> r.value.0.Valid()
  {
    var typed :- AsFloat(lib, DropBlankRows(df), ColumnRequiredTypeChange);
    SplitFeatures(typed, dropCols)
  }

  /** The charges column, once converted, holds no string, so it is never among the
      categorical positions of the prepared features when they kept it. */
  lemma ConvertedColumnIsNumeric(lib: Library, df: Table, dropCols: seq<string>)
    requires df.Valid() && Prepared(lib, df, dropCols).Ok?
    ensures var features := Prepared(lib, df, dropCols).value.0;
            ColumnRequiredTypeChange in features.columns ==>
              IndexOf(features.columns, ColumnRequiredTypeChange) !in CategoricalFeatures(features)
  {
    var filtered := DropBlankRows(df);
    var typed := AsFloat(lib, filtered, ColumnRequiredTypeChange).value;
    var features := Prepared(lib, df, dropCols).value.0;
    SplitFeaturesMeans(typed, dropCols);
    if ColumnRequiredTypeChange in features.columns {
      AsFloatConvertsColumn(lib, filtered, ColumnRequiredTypeChange);
      var k := IndexOf(features.columns, ColumnRequiredTypeChange);
      var values := ColumnValues(features, ColumnRequiredTypeChange);
      assert values == ColumnValues(typed, ColumnRequiredTypeChange);
      forall i | 0 <= i < |features.rows| ensures !features.rows[i][k].Str? {
        assert values[i] == features.rows[i][k];
      }
      assert !ObjectAt(features, k);
    }
  }

  /** What the stage computes from the two frames. */
  datatype TransformationOutput = TransformationOutput(preprocessor: Preprocessor, trainArr: NdArray, testArr: NdArray)

  /** From the prepared features and targets on: both sets are resampled with the train
      features' categorical positions, a preprocessor is made for the resampled train
      features and fitted on them, a label encoder is fitted on the resampled train target,
      and each array is its encoded features with its encoded target appended. */
  function Encode(lib: Library, xTrain: Table, yTrain: seq<Cell>, xTest: Table, yTest: seq<Cell>): Result<TransformationOutput>
    requires xTrain.Valid()
  {
    var positions := CategoricalFeatures(xTrain);
    var trainSampled := lib.resample(xTrain, yTrain, positions);
    var testSampled := lib.resample(xTest, yTest, positions);
    var preprocessor := ColumnTransformer(OtherColumns(trainSampled.0), ObjectColumns(trainSampled.0), trainSampled.0);
    var labelEncoder := LabelEncoder(trainSampled.1);
    var trainArr :- AppendColumn(lib.transform(preprocessor, trainSampled.0), lib.encode(labelEncoder, trainSampled.1));
    var testArr :- AppendColumn(lib.transform(preprocessor, testSampled.0), lib.encode(labelEncoder, testSampled.1));
    Ok(TransformationOutput(preprocessor, trainArr, testArr))
  }

  /** The transformation of a train and a test frame, failing where the stage raises, in
      its order: a missing or unparsable charges column (train, then test), a missing
      target or drop column (train, then test), features and targets of unequal lengths
      (train, then test). Resampling in between cannot fail here, so the test frame is
      split before the train features are resampled. */
  function Transform(lib: Library, train: Table, test: Table, dropCols: seq<string>): Result<TransformationOutput>
    requires train.Valid() && test.Valid()
  {
    var trainDf :- AsFloat(lib, DropBlankRows(train), ColumnRequiredTypeChange);
    var testDf :- AsFloat(lib, DropBlankRows(test), ColumnRequiredTypeChange);
    var trainSplit :- SplitFeatures(trainDf, dropCols);
    var testSplit :- SplitFeatures(testDf, dropCols);
    Encode(lib, trainSplit.0, trainSplit.1, testSplit.0, testSplit.1)
  }

  /** The stage succeeds exactly when both frames can be prepared and encoded, and then it
      is the encoding of the two prepared frames. */
  lemma TransformStages(lib: Library, train: Table, test: Table, dropCols: seq<string>)
    requires train.Valid() && test.Valid()
    ensures Transform(lib, train, test, dropCols).Ok? <==>
              && Prepared(lib, train, dropCols).Ok? && Prepared(lib, test, dropCols).Ok?
              && Encode(lib, Prepared(lib, train, dropCols).value.0, Prepared(lib, train, dropCols).value.1,
                        Prepared(lib, test, dropCols).value.0, Prepared(lib, test, dropCols).value.1).Ok?
    ensures Transform(lib, train, test, dropCols).Ok? ==>
              Transform(lib, train, test, dropCols)
              == Encode(lib, Prepared(lib, train, dropCols).value.0, Prepared(lib, train, dropCols).value.1,
                        Prepared(lib, test, dropCols).value.0, Prepared(lib, test, dropCols).value.1)
  {
  }

  /** The encoding succeeds exactly when each encoded feature array has as many rows as
      its encoded target. The preprocessor is fitted on the resampled train features
      alone, its numeric and one-hot columns split those features' columns, and splitting
      the last column off each array gives back its encoded features and encoded target,
      the test set resampled with the train set's categorical positions. */
  lemma EncodeAppendsTarget(lib: Library, xTrain: Table, yTrain: seq<Cell>, xTest: Table, yTest: seq<Cell>)
    requires xTrain.Valid()
    ensures var positions := CategoricalFeatures(xTrain);
            var (xs, ys) := lib.resample(xTrain, yTrain, positions);
            var (xts, yts) := lib.resample(xTest, yTest, positions);
            var pre := ColumnTransformer(OtherColumns(xs), ObjectColumns(xs), xs);
            var encoder := LabelEncoder(ys);
            && (Encode(lib, xTrain, yTrain, xTest, yTest).Ok? <==>
                  |lib.transform(pre, xs).rows| == |lib.encode(encoder, ys)|
                  && |lib.transform(pre, xts).rows| == |lib.encode(encoder, yts)|)
            && (forall c :: c in pre.numFeatures || c in pre.oheColumns <==> c in xs.columns)
            && (forall c :: !(c in pre.numFeatures && c in pre.oheColumns))
            && (Encode(lib, xTrain, yTrain, xTest, yTest).Ok? ==>
                  var out := Encode(lib, xTrain, yTrain, xTest, yTest).value;
                  && out.preprocessor == pre
                  && SplitLastColumn(out.trainArr) == Ok((lib.transform(pre, xs), lib.encode(encoder, ys)))
                  && SplitLastColumn(out.testArr) == Ok((lib.transform(pre, xts), lib.encode(encoder, yts))))
  {
    var positions := CategoricalFeatures(xTrain);
    var (xs, ys) := lib.resample(xTrain, yTrain, positions);
    var (xts, yts) := lib.resample(xTest, yTest, positions);
    var pre := ColumnTransformer(OtherColumns(xs), ObjectColumns(xs), xs);
    var encoder := LabelEncoder(ys);
    ColumnKindsPartition(xs);
    if Encode(lib, xTrain, yTrain, xTest, yTest).Ok? {
      SplitUndoesAppend(lib.transform(pre, xs), lib.encode(encoder, ys));
      SplitUndoesAppend(lib.transform(pre, xts), lib.encode(encoder, yts));
    }
  }

  /** The test frame only feeds the test array: two runs on the same train frame that
      both succeed produce the same preprocessor and the same train array. */
  lemma TestDoesNotReachPreprocessor(lib: Library, train: Table, test: Table, test': Table, dropCols: seq<string>)
    requires train.Valid() && test.Valid() && test'.Valid()
    requires Transform(lib, train, test, dropCols).Ok? && Transform(lib, train, test', dropCols).Ok?
    ensures Transform(lib, train, test, dropCols).value.preprocessor
            == Transform(lib, train, test', dropCols).value.preprocessor
    ensures Transform(lib, train, test, dropCols).value.trainArr
            == Transform(lib, train, test', dropCols).value.trainArr
  {
    TransformStages(lib, train, test, dropCols);
    TransformStages(lib, train, test', dropCols);
    var (xTrain, yTrain) := Prepared(lib, train, dropCols).value;
    var (xTest, yTest) := Prepared(lib, test, dropCols).value;
    var (xTest', yTest') := Prepared(lib, test', dropCols).value;
    EncodeIgnoresTest(lib, xTrain, yTrain, xTest, yTest, xTest', yTest');
  }

  /** The encoding's preprocessor and train array do not depend on the test set. */
  lemma EncodeIgnoresTest(lib: Library, xTrain: Table, yTrain: seq<Cell>,
                          xTest: Table, yTest: seq<Cell>, xTest': Table, yTest': seq<Cell>)
    requires xTrain.Valid()
    requires Encode(lib, xTrain, yTrain, xTest, yTest).Ok? && Encode(lib, xTrain, yTrain, xTest', yTest').Ok?
    ensures Encode(lib, xTrain, yTrain, xTest, yTest).value.preprocessor
            == Encode(lib, xTrain, yTrain, xTest', yTest').value.preprocessor
    ensures Encode(lib, xTrain, yTrain, xTest, yTest).value.trainArr
            == Encode(lib, xTrain, yTrain, xTest', yTest').value.trainArr
  {
  }

  /** The three saves, in the order the stage makes them: preprocessor, train array,
      test array. A later save to the same path replaces an earlier one. */
  function SaveOutputs(store: ArtifactStore, config: DataTransformationConfig, out: TransformationOutput): ArtifactStore {
    store[config.transformedObjectFilePath := PreprocessorFile(out.preprocessor)]
         [config.transformedTrainFilePath := ArrayFile(out.trainArr)]
         [config.transformedTestFilePath := ArrayFile(out.testArr)]
  }

  /** The artifact naming the configured paths. */
  function ArtifactFor(config: DataTransformationConfig): DataTransformationArtifact {
    DataTransformationArtifact(config.transformedObjectFilePath, config.transformedTrainFilePath, config.transformedTestFilePath)
  }

  /** `initiate_data_transformation`. A failed validation stops the stage with the
      validation's message; any failure leaves the artifact tree as it was. */
  method InitiateDataTransformation(
    validation: DataValidationArtifact, train: Frame, test: Frame, schema: Schema,
    config: DataTransformationConfig, lib: Library, store: ArtifactStore)
    returns (r: Result<DataTransformationArtifact>, saved: ArtifactStore)
    ensures !validation.validationStatus ==> r == Err(ValidationFailed(validation.message)) && saved == store
    ensures validation.validationStatus && Transform(lib, train, test, schema.dropColumns).Err? ==>
              r == Err(Transform(lib, train, test, schema.dropColumns).error) && saved == store
    ensures validation.validationStatus && Transform(lib, train, test, schema.dropColumns).Ok? ==>
              && r == Ok(ArtifactFor(config))
              && saved == SaveOutputs(store, config, Transform(lib, train, test, schema.dropColumns).value)
  {
    saved := store;
    if !validation.validationStatus {
      r := Err(ValidationFailed(validation.message));
      return;
    }
    var trainDf := DropBlankRows(train);
    var testDf := DropBlankRows(test);
    trainDf :- AsFloat(lib, trainDf, ColumnRequiredTypeChange);
    testDf :- AsFloat(lib, testDf, ColumnRequiredTypeChange);
    var dropCols := schema.dropColumns;

    var trainSplit :- SplitFeatures(trainDf, dropCols);
    var categoricalFeatures := CategoricalFeatures(trainSplit.0);
    var trainSampled := lib.resample(trainSplit.0, trainSplit.1, categoricalFeatures);

    var testSplit :- SplitFeatures(testDf, dropCols);
    var testSampled := lib.resample(testSplit.0, testSplit.1, categoricalFeatures);

    var numFeatures := OtherColumns(trainSampled.0);
    var oheColumns := ObjectColumns(trainSampled.0);
    var labelEncoder := LabelEncoder(trainSampled.1);
    var preprocessor := ColumnTransformer(numFeatures, oheColumns, trainSampled.0);
    var inputFeatureTrainArr := lib.transform(preprocessor, trainSampled.0);
    var targetFeatureTrainArr := lib.encode(labelEncoder, trainSampled.1);
    var inputFeatureTestArr := lib.transform(preprocessor, testSampled.0);
    var targetFeatureTestArr := lib.encode(labelEncoder, testSampled.1);

    var trainArr :- AppendColumn(inputFeatureTrainArr, targetFeatureTrainArr);
    var testArr :- AppendColumn(inputFeatureTestArr, targetFeatureTestArr);

    saved := saved[config.transformedObjectFilePath := PreprocessorFile(preprocessor)];
    saved := saved[config.transformedTrainFilePath := ArrayFile(trainArr)];
    saved := saved[config.transformedTestFilePath := ArrayFile(testArr)];
    r := Ok(ArtifactFor(config));
  }

  /** With the layout as written, the test array is saved over the train array, so the
      trainer loads the test array twice: it trains and scores on the same data. */
  lemma TrainerReadsTestArrayAsWritten(ts: string, store: ArtifactStore, out: TransformationOutput)
    requires IsTimestamp(ts)
    ensures var config := DataTransformationAsWritten(ts);
            var inputs := Trainer.LoadTrainerInputs(ArtifactFor(config), SaveOutputs(store, config, out));
            && (inputs.Ok? <==> out.testArr.width > 0)
            && (inputs.Ok? ==>
                  && SplitLastColumn(out.testArr) == Ok((inputs.value.xTrain, inputs.value.yTrain))
                  && inputs.value.xTrain == inputs.value.xTest && inputs.value.yTrain == inputs.value.yTest
                  && inputs.value.preprocessor == out.preprocessor)
  {
    TransformedPathsCollideAsWritten(ts);
    ObjectPathDiffers(ts);
  }

  /** With the corrected layout, the trainer finds each array where it was saved and the
      preprocessor beside them. */
  lemma TrainerReadsBothArrays(ts: string, store: ArtifactStore, out: TransformationOutput)
    requires IsTimestamp(ts)
    ensures var config := ConfigEntity.DataTransformationCorrected(ts);
            var inputs := Trainer.LoadTrainerInputs(ArtifactFor(config), SaveOutputs(store, config, out));
            && (inputs.Ok? <==> out.trainArr.width > 0 && out.testArr.width > 0)
            && (inputs.Ok? ==>
                  && SplitLastColumn(out.trainArr) == Ok((inputs.value.xTrain, inputs.value.yTrain))
                  && SplitLastColumn(out.testArr) == Ok((inputs.value.xTest, inputs.value.yTest))
                  && inputs.value.preprocessor == out.preprocessor)
  {
    TransformedPathsDiffer(ts);
    ObjectPathDiffers(ts);
  }
}
