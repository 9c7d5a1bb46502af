/** The deployed model in the object store, and the estimator that loads it on first use.
    The storage service the estimator talks to is not part of this model; it is stood in
    for by `ObjectStorage`, which holds the bundles saved under each bucket key and says
    how its existence check behaves. */
module S3Estimator {
  import opened Errors
  import opened Tables
  import opened Learners
  import opened Estimator
  import opened MainUtils

  datatype Location = Location(bucket: string, key: string)

  /** How the storage's existence check behaves: it answers, raises the project's
      exception type, or raises something else. */
  datatype Fault = Healthy | RaisesCustomException | RaisesOther

  /** The object store: what each location holds. Every estimator built on it sees the
      same objects. */
  class ObjectStorage {
    var objects: map<Location, TelcoChurnModel>
    var fault: Fault

    constructor (objects: map<Location, TelcoChurnModel>, fault: Fault)
      ensures this.objects == objects && this.fault == fault
    {
      this.objects := objects;
      this.fault := fault;
    }
  }

  class TelcoChurnEstimator {
    const bucketName: string
    const modelPath: string
    const s3: ObjectStorage
    /** The bundle once loaded; no bundle until the first prediction. */
    var loadedModel: Option<TelcoChurnModel>
    /** How many times this estimator has read the bundle from the store. */
    ghost var loads: nat

    /** The location every load and save of this estimator addresses. */
    function Home(): Location {
      Location(bucketName, modelPath)
    }

    constructor (bucketName: string, modelPath: string, s3: ObjectStorage)
      ensures this.bucketName == bucketName && this.modelPath == modelPath && this.s3 == s3
      ensures loadedModel == None && loads == 0
    {
      this.bucketName := bucketName;
      this.modelPath := modelPath;
      this.s3 := s3;
      loadedModel := None;
      loads := 0;
    }

    /** `is_model_present`: whether the key exists in the estimator's bucket; a check that
        raises the project's exception counts as absent, any other failure propagates. */
    method IsModelPresent(modelPath: string) returns (r: Result<bool>)
      ensures s3.fault == Healthy ==> r == Ok(Location(bucketName, modelPath) in s3.objects)
      ensures s3.fault == RaisesCustomException ==> r == Ok(false)
      ensures s3.fault == RaisesOther ==> r == Err(StorageFailure)
    {
      match s3.fault
      case Healthy =>
        r := Ok(Location(bucketName, modelPath) in s3.objects);
      case RaisesCustomException =>
        r := Ok(false);
      case RaisesOther =>
        r := Err(StorageFailure);
    }

    /** `load_model`: the bundle at the estimator's own location. */
    method LoadModel() returns (r: Result<TelcoChurnModel>)
      ensures Home() in s3.objects ==> r == Ok(s3.objects[Home()])
      ensures Home() !in s3.objects ==> r == Err(MissingObject(bucketName, modelPath))
    {
      if Home() in s3.objects {
        r := Ok(s3.objects[Home()]);
      } else {
        r := Err(MissingObject(bucketName, modelPath));
      }
    }

    /** `save_model`: the bundle in the local file goes to the estimator's own location,
        whatever the file is called; no other location changes. */
    method SaveModel(fromFile: string, files: ArtifactStore) returns (r: Result<()>)
      modifies s3
      ensures fromFile in files && files[fromFile].ModelFile? ==>
                && r == Ok(())
                && s3.objects == old(s3.objects)[Home() := files[fromFile].bundle]
      ensures !(fromFile in files && files[fromFile].ModelFile?) ==>
                r == Err(MissingFile(fromFile)) && s3.objects == old(s3.objects)
      ensures s3.fault == old(s3.fault)
    {
      if fromFile in files && files[fromFile].ModelFile? {
        s3.objects := s3.objects[Home() := files[fromFile].bundle];
        r := Ok(());
      } else {
        r := Err(MissingFile(fromFile));
      }
    }

    /** `predict`: the first call loads the bundle and keeps it; every later call uses
        the kept bundle without reading the store again. A failed load keeps nothing. */
    method Predict(lib: Library, dataframe: Table) returns (r: Result<seq<real>>)
      modifies this
      ensures old(loadedModel).Some? ==>
                && loadedModel == old(loadedModel) && loads == old(loads)
                && r == Ok(old(loadedModel).value.Predict(lib, dataframe))
      ensures old(loadedModel).None? && Home() in s3.objects ==>
                && loadedModel == Some(s3.objects[Home()]) && loads == old(loads) + 1
                && r == Ok(s3.objects[Home()].Predict(lib, dataframe))
      ensures old(loadedModel).None? && Home() !in s3.objects ==>
                && loadedModel == None && loads == old(loads) + 1
                && r == Err(MissingObject(bucketName, modelPath))
    {
      if loadedModel.None? {
        var loaded := LoadModel();
        loads := loads + 1;
        if loaded.Err? {
          r := Err(loaded.error);
          return;
        }
        loadedModel := Some(loaded.value);
      }
      r := Ok(loadedModel.value.Predict(lib, dataframe));
    }
  }

  /** Two predictions on one estimator read the store once: the second uses the bundle
      the first loaded, even when the store has changed in between. */
  method PredictTwice(e: TelcoChurnEstimator, lib: Library, first: Table, second: Table, replacement: TelcoChurnModel)
    returns (r1: Result<seq<real>>, r2: Result<seq<real>>)
    requires e.loadedModel.None? && e.Home() in e.s3.objects
    modifies e, e.s3
    ensures e.loads == old(e.loads) + 1
    ensures r1 == Ok(old(e.s3.objects[e.Home()]).Predict(lib, first))
    ensures r2 == Ok(old(e.s3.objects[e.Home()]).Predict(lib, second))
  {
    r1 := e.Predict(lib, first);
    e.s3.objects := e.s3.objects[e.Home() := replacement];
    r2 := e.Predict(lib, second);
  }
}
