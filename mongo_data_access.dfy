/** Reading the churn collection from MongoDB into a frame. The server is a value: its
    databases, each a map from collection name to documents. Connecting, the connection
    string and the shared client object are left out. */
module MongoDataAccess {
  import opened Errors
  import opened Tables
  import opened Dicts
  import opened Constants

  /** A stored document: its fields in insertion order. */
  type Document = Dict<Cell>

  /** What the server holds: database name to collection name to documents. */
  datatype MongoServer = MongoServer(databases: map<string, map<string, seq<Document>>>)

  /** `collection.find()`: a database or collection that does not exist reads as empty. */
  function Find(server: MongoServer, database: string, collection: string): seq<Document> {
    if database in server.databases && collection in server.databases[database]
    then server.databases[database][collection] else []
  }

  /** The `MongoDBClient` wrapper: the server client and the name of the database its
      `database` attribute selects. It defines no item access of its own. */
  datatype MongoDBClient = MongoDBClient(server: MongoServer, databaseName: string)

  /** `DataAccessor`, whose client always selects the project's database. */
  datatype DataAccessor = DataAccessor(client: MongoDBClient)

  function NewDataAccessor(server: MongoServer): (a: DataAccessor)
    ensures a.client.server == server && a.client.databaseName == DatabaseName
  {
    DataAccessor(MongoDBClient(server, DatabaseName))
  }

  /** The collection lookup of `export_collection_as_dataframe` as written: without a
      database name the client's own database is read; with one, the wrapper object
      itself is indexed, which raises because it has no item access. */
  function SelectCollectionAsWritten(accessor: DataAccessor, collection: string, databaseName: Option<string>): Result<seq<Document>> {
    match databaseName
    case None => Ok(Find(accessor.client.server, accessor.client.databaseName, collection))
    case Some(_) => Err(NotSubscriptable)
  }

  /** As written, naming a database always fails, even naming the very database the
      client already uses, which succeeds when no name is given. */
  lemma NamedDatabaseFailsAsWritten(accessor: DataAccessor, collection: string, name: string)
    ensures SelectCollectionAsWritten(accessor, collection, Some(name)) == Err(NotSubscriptable)
    ensures SelectCollectionAsWritten(accessor, collection, None).Ok?
  {
  }

  /** The lookup as intended: without a name the client's database, with one the named
      database of the same server. */
  function SelectCollection(accessor: DataAccessor, collection: string, databaseName: Option<string>): (docs: seq<Document>)
    ensures databaseName.None? ==> docs == Find(accessor.client.server, accessor.client.databaseName, collection)
    ensures databaseName.Some? ==> docs == Find(accessor.client.server, databaseName.value, collection)
  {
    var database := if databaseName.Some? then databaseName.value else accessor.client.databaseName;
    Find(accessor.client.server, database, collection)
  }

  /** Naming the client's own database reads what no name reads; so the intended lookup
      agrees with the written one wherever the written one succeeds. */
  lemma SelectionAgrees(accessor: DataAccessor, collection: string, databaseName: Option<string>)
    ensures SelectCollection(accessor, collection, Some(accessor.client.databaseName))
            == SelectCollection(accessor, collection, None)
    ensures SelectCollectionAsWritten(accessor, collection, databaseName).Ok? ==>
              SelectCollectionAsWritten(accessor, collection, databaseName).value
              == SelectCollection(accessor, collection, databaseName)
  {
  }

  /** A new name keeps a list of distinct names distinct. */
  lemma DistinctSnoc<T>(s: seq<T>, x: T)
    requires x !in s
    ensures Distinct(s) ==> Distinct(s + [x])
  {
    var t := s + [x];
    if Distinct(s) {
      forall i, j | 0 <= i < j < |t| ensures t[i] != t[j] {
        if j == |s| {
          assert t[i] == s[i];
        }
      }
    }
  }

  /** `names` followed by the names of `keys` it does not hold yet, in order. */
  function AddNew(names: seq<string>, keys: seq<string>): (r: seq<string>)
    ensures forall c :: c in r <==> c in names || c in keys
    ensures Distinct(names) ==> Distinct(r)
    ensures names <= r
    decreases |keys|
  {
    if keys == [] then names
    else
      var k := keys[0];
      if k in names then AddNew(names, keys[1..])
      else
        DistinctSnoc(names, k);
        assert names <= names + [k];
        AddNew(names + [k], keys[1..])
  }

  /** The columns `pd.DataFrame(documents)` gives: every field of every document, once;
      `FieldNamesGrow` shows the fields of earlier documents come first. */
  function FieldNames(docs: seq<Document>): (r: seq<string>)
    ensures Distinct(r)
    ensures forall c :: c in r <==> exists i :: 0 <= i < |docs| && c in Keys(docs[i])
  {
    if docs == [] then []
    else
      var n := |docs| - 1;
      var earlier := FieldNames(docs[..n]);
      assert forall i :: 0 <= i < n ==> Keys(docs[..n][i]) == Keys(docs[i]);
      AddNew(earlier, Keys(docs[n]))
  }

  /** The columns found in the first `n` documents are, in the same order, the first
      columns of the whole frame: a later document only adds columns at the end. */
  lemma {:induction false} FieldNamesGrow(docs: seq<Document>, n: nat)
    requires n <= |docs|
    ensures FieldNames(docs[..n]) <= FieldNames(docs)
    decreases |docs|
  {
    if n < |docs| {
      var m := |docs| - 1;
      FieldNamesGrow(docs[..m], n);
      assert docs[..m][..n] == docs[..n];
      assert FieldNames(docs[..m]) <= FieldNames(docs);
    } else {
      assert docs[..n] == docs;
    }
  }

  /** `pd.DataFrame(documents)`: one row per document, holding its value for each field
      it has and a missing value for each field it lacks. */
  function FromRecords(docs: seq<Document>): (t: Table)
    ensures t.Valid() && t.columns == FieldNames(docs) && |t.rows| == |docs|
  {
    var names := FieldNames(docs);
    Table(names, seq(|docs|, i requires 0 <= i < |docs| =>
      seq(|names|, j requires 0 <= j < |names| =>
        if names[j] in Keys(docs[i]) then Get(docs[i], names[j]) else Missing)))
  }

  /** Under every column, a document's row holds that document's field or a missing value. */
  lemma FromRecordsCell(docs: seq<Document>, i: nat, c: string)
    requires i < |docs| && c in FieldNames(docs)
    ensures ColumnValues(FromRecords(docs), c)[i] == (if c in Keys(docs[i]) then Get(docs[i], c) else Missing)
  {
  }

  /** `{"na": np.nan}` applied to one cell. */
  function NaToMissing(c: Cell): Cell {
    if c == Str("na") then Missing else c
  }

  /** `df.replace({"na": np.nan})` */
  function ReplaceNa(df: Table): (r: Table)
    requires df.Valid()
    ensures r.Valid() && r.columns == df.columns && |r.rows| == |df.rows|
  {
    Table(df.columns, seq(|df.rows|, i requires 0 <= i < |df.rows| =>
      seq(|df.rows[i]|, j requires 0 <= j < |df.rows[i]| => NaToMissing(df.rows[i][j]))))
  }

  /** The frame's post-processing: drop `_id` when present, then turn `"na"` into missing. */
  function PostProcess(df: Table): (r: Table)
    requires df.Valid()
    ensures r.Valid()
  {
    var dropped := if "_id" in df.columns then RemoveColumns(df, {"_id"}) else df;
    ReplaceNa(dropped)
  }

  /** The result has no `_id` column, the other columns in their order, and every row. */
  lemma PostProcessDropsId(df: Table)
    requires df.Valid()
    ensures "_id" !in PostProcess(df).columns
    ensures PostProcess(df).columns == Without(df.columns, {"_id"})
    ensures |PostProcess(df).rows| == |df.rows|
  {
    WithoutMembers(df.columns, {"_id"});
    WithoutLength(df.columns, {"_id"});
  }

  /** Every kept column holds its old cells with each `"na"` turned into a missing value and
      every other cell unchanged; no `"na"` cell is left. */
  lemma PostProcessCells(df: Table, c: string)
    requires df.Valid() && c in df.columns && c != "_id"
    ensures c in PostProcess(df).columns
    ensures forall i :: 0 <= i < |df.rows| ==>
              ColumnValues(PostProcess(df), c)[i] == NaToMissing(ColumnValues(df, c)[i])
              && ColumnValues(PostProcess(df), c)[i] != Str("na")
  {
    var dropped := if "_id" in df.columns then RemoveColumns(df, {"_id"}) else df;
    if "_id" in df.columns {
      RemoveColumnsKeepsCells(df, {"_id"}, c);
    }
    assert ColumnValues(dropped, c) == ColumnValues(df, c);
    WithoutMembers(df.columns, {"_id"});
  }

  /** A cleaned frame has no `"na"` and no `_id` left, so cleaning it again changes nothing. */
  lemma PostProcessIdempotent(df: Table)
    requires df.Valid()
    ensures PostProcess(PostProcess(df)) == PostProcess(df)
  {
    PostProcessDropsId(df);
    var once := PostProcess(df);
    assert ReplaceNa(once).rows == once.rows by {
      forall i | 0 <= i < |once.rows| ensures ReplaceNa(once).rows[i] == once.rows[i] {
        forall j | 0 <= j < |once.rows[i]| ensures NaToMissing(once.rows[i][j]) == once.rows[i][j] {
        }
      }
    }
  }

  /** `export_collection_as_dataframe` as written: a named database raises before any
      document is read; without a name, the client's own database is exported. */
  method ExportCollectionAsDataframeAsWritten(accessor: DataAccessor, collectionName: string, databaseName: Option<string>)
    returns (r: Result<Table>)
    ensures databaseName.Some? ==> r == Err(NotSubscriptable)
    ensures databaseName.None? ==>
              r == Ok(PostProcess(FromRecords(Find(accessor.client.server, accessor.client.databaseName, collectionName))))
    ensures r.Ok? ==> r.value.Valid()
  {
    var collection :- SelectCollectionAsWritten(accessor, collectionName, databaseName);
    var df := FromRecords(collection);
    if "_id" in df.columns {
      df := RemoveColumns(df, {"_id"});
    }
    df := ReplaceNa(df);
    r := Ok(df);
  }

  /** `export_collection_as_dataframe` with the intended database lookup. */
  method ExportCollectionAsDataframe(accessor: DataAccessor, collectionName: string, databaseName: Option<string>)
    returns (df: Table)
    ensures df.Valid()
    ensures df == PostProcess(FromRecords(SelectCollection(accessor, collectionName, databaseName)))
  {
    var collection := SelectCollection(accessor, collectionName, databaseName);
    df := FromRecords(collection);
    if "_id" in df.columns {
      df := RemoveColumns(df, {"_id"});
    }
    df := ReplaceNa(df);
  }
}
