/** `train_models`, `forecast_next_6_hours` and `save_models`: one regressor
    per forecast horizon, kept in horizon order from training to the file
    store. The regressor itself is abstract: `fit` and `predict` are
    parameters, so every property here holds whatever XGBoost computes. */
module ModelTraining {
  import opened Decimal
  import opened Paths

  /** A training target table: `width` columns (`y_train.shape[1]`), one
      sequence of `width` values per sample. */
  datatype Table = Table(width: nat, rows: seq<seq<real>>)

  predicate Rectangular(t: Table) {
    forall r :: 0 <= r < |t.rows| ==> |t.rows[r]| == t.width
  }

  /** A data frame is rectangular by construction. */
  type TargetTable = t: Table | Rectangular(t) witness Table(0, [])

  /** `y_train.iloc[:, i]` */
  function Column(t: TargetTable, i: nat): (c: seq<real>)
    requires i < t.width
    ensures |c| == |t.rows|
  {
    seq(|t.rows|, r requires 0 <= r < |t.rows| => t.rows[r][i])
  }

  // ---------------------------------------------------------------- train_models

  /** `train_models(X_train, y_train, X_test, y_test)`: one fresh regressor
      per target column, fitted on all of `X_train` and on that column
      alone, appended in column order. `X_test` and `y_test` only feed the
      MAE report. */
  method TrainModels<X, M>(fit: (X, seq<real>) -> M, xTrain: X, yTrain: TargetTable, xTest: X, yTest: TargetTable)
    returns (models: seq<M>)
    ensures |models| == yTrain.width
    ensures forall i :: 0 <= i < |models| ==> models[i] == fit(xTrain, Column(yTrain, i))
  {
    models := [];
    var nSteps := yTrain.width;
    for i := 0 to nSteps
      invariant |models| == i
      invariant forall k :: 0 <= k < i ==> models[k] == fit(xTrain, Column(yTrain, k))
    {
      var model := fit(xTrain, Column(yTrain, i));
      models := models + [model];
    }
  }

  // ---------------------------------------------------------------- forecast_next_6_hours

  /** The forecast list the loop of `forecast_next_6_hours` builds: one
      prediction per model, appended in model order. */
  function Forecast<R, M>(predict: (M, R) -> real, models: seq<M>, row: R): (p: seq<real>)
    ensures |p| == |models|
    ensures forall i :: 0 <= i < |models| ==> p[i] == predict(models[i], row)
  {
    if models == [] then []
    else Forecast(predict, models[..|models| - 1], row) + [predict(models[|models| - 1], row)]
  }

  /** `forecast_next_6_hours(latest_row, models)`: every model sees the same
      row; no prediction is fed back as input. */
  method ForecastNext6Hours<R, M>(predict: (M, R) -> real, latestRow: R, models: seq<M>)
    returns (predictions: seq<real>)
    ensures predictions == Forecast(predict, models, latestRow)
  {
    predictions := [];
    for i := 0 to |models|
      invariant predictions == Forecast(predict, models[..i], latestRow)
    {
      assert models[..i + 1][..i] == models[..i];
      var pred := predict(models[i], latestRow);
      predictions := predictions + [pred];
    }
    assert models[..|models|] == models;
  }

  /** Horizons are independent: replacing model `k` changes prediction `k`
      and no other. */
  lemma ForecastReplace<R, M>(predict: (M, R) -> real, models: seq<M>, row: R, k: nat, m: M)
    requires k < |models|
    ensures Forecast(predict, models[k := m], row) == Forecast(predict, models, row)[k := predict(m, row)]
  {
  }

  /** The first `n` forecasts only depend on the first `n` models. */
  lemma ForecastPrefix<R, M>(predict: (M, R) -> real, models: seq<M>, row: R, n: nat)
    requires n <= |models|
    ensures Forecast(predict, models[..n], row) == Forecast(predict, models, row)[..n]
  {
  }

  // ---------------------------------------------------------------- save_models

  /** A stored file: a model joblib can read back, or one it cannot. */
  datatype Artifact<M> = Pickled(model: M) | Unreadable

  const DefaultPrefix: string := "models/xgb_model_t+"

  /** The file for the model at 0-based position `i`: `{path_prefix}{i+1}.pkl`. */
  function ModelKey(prefix: string, i: nat): string {
    prefix + NatToString(i + 1) + ".pkl"
  }

  /** Distinct positions get distinct files, so no model of one call
      overwrites another. */
  lemma ModelKeyInjective(prefix: string, a: nat, b: nat)
    ensures ModelKey(prefix, a) == ModelKey(prefix, b) ==> a == b
  {
    NumberedNameInjective(prefix, a + 1, b + 1, ".pkl");
  }

  function WrittenKeys(prefix: string, n: nat): set<string> {
    set i | 0 <= i < n :: ModelKey(prefix, i)
  }

  /** The store after `joblib.dump` of each model in turn: no file is
      removed, and the last model written is readable under its key. */
  function SavedFiles<M>(files: map<string, Artifact<M>>, models: seq<M>, prefix: string): (r: map<string, Artifact<M>>)
    ensures files.Keys <= r.Keys
    ensures models != [] ==>
      ModelKey(prefix, |models| - 1) in r && r[ModelKey(prefix, |models| - 1)] == Pickled(models[|models| - 1])
  {
    if models == [] then files
    else SavedFiles(files, models[..|models| - 1], prefix)[ModelKey(prefix, |models| - 1) := Pickled(models[|models| - 1])]
  }

  /** After the save every model is readable under its own key: a later
      write never lands on an earlier model's file. */
  lemma {:induction false} SavedFilesHoldModels<M>(files: map<string, Artifact<M>>, models: seq<M>, prefix: string)
    ensures forall i :: 0 <= i < |models| ==>
      ModelKey(prefix, i) in SavedFiles(files, models, prefix)
      && SavedFiles(files, models, prefix)[ModelKey(prefix, i)] == Pickled(models[i])
  {
    if models != [] {
      var n := |models| - 1;
      SavedFilesHoldModels(files, models[..n], prefix);
      forall i | 0 <= i < n
        ensures ModelKey(prefix, i) != ModelKey(prefix, n)
      {
        ModelKeyInjective(prefix, i, n);
      }
    }
  }

  /** The save adds exactly the written keys to the store. */
  lemma {:induction false} SavedFilesKeys<M>(files: map<string, Artifact<M>>, models: seq<M>, prefix: string)
    ensures SavedFiles(files, models, prefix).Keys == files.Keys + WrittenKeys(prefix, |models|)
  {
    if models != [] {
      var n := |models| - 1;
      SavedFilesKeys(files, models[..n], prefix);
      assert WrittenKeys(prefix, |models|) == WrittenKeys(prefix, n) + {ModelKey(prefix, n)};
    }
  }

  /** Every entry under a key the save does not write is untouched. */
  lemma {:induction false} SavedFilesKeepOthers<M>(files: map<string, Artifact<M>>, models: seq<M>, prefix: string, key: string)
    requires key in files && key !in WrittenKeys(prefix, |models|)
    ensures key in SavedFiles(files, models, prefix)
    ensures SavedFiles(files, models, prefix)[key] == files[key]
  {
    if models != [] {
      var n := |models| - 1;
      assert ModelKey(prefix, n) in WrittenKeys(prefix, |models|);
      assert WrittenKeys(prefix, n) <= WrittenKeys(prefix, |models|);
      SavedFilesKeepOthers(files, models[..n], prefix, key);
    }
  }

  /** The file system as `save_models` sees it: files by path, and the
      directories that exist. */
  class FileStore<M> {
    var files: map<string, Artifact<M>>
    var dirs: set<string>

    constructor(files0: map<string, Artifact<M>>, dirs0: set<string>)
      ensures files == files0 && dirs == dirs0
    {
      files := files0;
      dirs := dirs0;
    }

    /** `save_models(models, path_prefix)`: create `dirname(path_prefix)`
        when it is non-empty, then write model `i` to
        `{path_prefix}{i+1}.pkl`. */
    method SaveModels(models: seq<M>, pathPrefix: string)
      modifies this
      ensures dirs == if DirName(pathPrefix) != [] then old(dirs) + {DirName(pathPrefix)} else old(dirs)
      ensures files == SavedFiles(old(files), models, pathPrefix)
    {
      var saveDir := DirName(pathPrefix);
      if saveDir != [] {
        dirs := dirs + {saveDir};
      }
      for i := 0 to |models|
        invariant files == SavedFiles(old(files), models[..i], pathPrefix)
        invariant dirs == if saveDir != [] then old(dirs) + {saveDir} else old(dirs)
      {
        assert models[..i + 1][..i] == models[..i];
        files := files[ModelKey(pathPrefix, i) := Pickled(models[i])];
      }
      assert models[..|models|] == models;
    }
  }

  /** The default prefix saves into the directory `models`. */
  lemma DefaultPrefixDirectory()
    ensures DirName(DefaultPrefix) == "models"
  {
    DirNameOfFileInDir("models", "xgb_model_t+");
    assert "models" + "/" + "xgb_model_t+" == DefaultPrefix;
  }
}
