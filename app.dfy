/** The serving side: `load_models` with its process-wide model cache, and
    the row `load_latest_data` hands to the forecaster. */
module App {
  import opened Wrappers
  import opened Decimal
  import opened Frames
  import opened Preprocessing
  import opened ModelTraining

  // ---------------------------------------------------------------- load_models

  /** The file `load_models` reads for horizon `h` (1-based). */
  function ServedKey(h: nat): string {
    "models/xgb_model_t+" + NatToString(h) + ".pkl"
  }

  /** The six files, in the order `load_models` reads them. */
  function ServedKeys(): seq<string> {
    seq(6, k requires 0 <= k < 6 => ServedKey(k + 1))
  }

  /** The names the app reads are the names `save_models` writes with its
      default prefix, horizon for horizon. */
  lemma ServedKeysAreSavedKeys()
    ensures |ServedKeys()| == 6
    ensures forall k :: 0 <= k < 6 ==> ServedKeys()[k] == ModelKey(DefaultPrefix, k)
  {
  }

  /** `joblib.load(key)` succeeds. */
  predicate Readable<M>(files: map<string, Artifact<M>>, key: string) {
    key in files && files[key].Pickled?
  }

  /** All the models under `keys`, in key order, or `None` if any of them
      cannot be read. */
  function Ensemble<M>(files: map<string, Artifact<M>>, keys: seq<string>): (r: Option<seq<M>>)
    ensures r.Some? <==> forall k :: 0 <= k < |keys| ==> Readable(files, keys[k])
    ensures r.Some? ==> |r.value| == |keys|
    ensures r.Some? ==> forall k :: 0 <= k < |keys| ==> Readable(files, keys[k]) && r.value[k] == files[keys[k]].model
  {
    if forall k :: 0 <= k < |keys| ==> Readable(files, keys[k])
    then Some(seq(|keys|, k requires 0 <= k < |keys| => files[keys[k]].model))
    else None
  }

  /** The `try` block of `load_models`: load each key in turn and append; the
      first failure abandons the partial list. */
  method ReadModels<M>(files: map<string, Artifact<M>>, keys: seq<string>) returns (r: Option<seq<M>>)
    ensures r == Ensemble(files, keys)
  {
    var models: seq<M> := [];
    for i := 0 to |keys|
      invariant |models| == i
      invariant forall k :: 0 <= k < i ==> Readable(files, keys[k]) && models[k] == files[keys[k]].model
    {
      if !Readable(files, keys[i]) {
        return None;
      }
      models := models + [files[keys[i]].model];
    }
    assert models == seq(|keys|, k requires 0 <= k < |keys| => files[keys[k]].model);
    return Some(models);
  }

  /** The module-level `model_cache` and the function that fills it. */
  class ModelCache<M> {
    var cache: Option<seq<M>>

    /** A filled cache holds one model per horizon. */
    predicate Valid()
      reads this
    {
      cache.Some? ==> |cache.value| == 6
    }

    /** At import time the cache is empty. */
    constructor()
      ensures cache == None
      ensures Valid()
    {
      cache := None;
    }

    /** `load_models()`: a filled cache is returned as it is, whatever the
        store now holds; otherwise the six files are read, and the cache is
        filled only when all of them loaded. */
    method LoadModels(store: FileStore<M>) returns (r: Option<seq<M>>)
      requires Valid()
      modifies this
      ensures Valid()
      ensures r.Some? ==> |r.value| == 6
      ensures old(cache).Some? ==> r == old(cache) && cache == old(cache)
      ensures old(cache).None? ==> r == Ensemble(store.files, ServedKeys()) && cache == r
    {
      if cache.Some? {
        return cache;
      }
      var models := ReadModels(store.files, ServedKeys());
      EnsembleShape(store.files);
      if models.Some? {
        cache := models;
      }
      return models;
    }
  }

  /** What a cold load yields: six models, model `k` from the file of
      horizon `k + 1`, or nothing. */
  lemma EnsembleShape<M>(files: map<string, Artifact<M>>)
    ensures Ensemble(files, ServedKeys()).Some? <==> forall h :: 1 <= h <= 6 ==> Readable(files, ServedKey(h))
    ensures Ensemble(files, ServedKeys()).Some? ==> |Ensemble(files, ServedKeys()).value| == 6
    ensures Ensemble(files, ServedKeys()).Some? ==>
      forall h :: 1 <= h <= 6 ==> Ensemble(files, ServedKeys()).value[h - 1] == files[ServedKey(h)].model
  {
    assert forall h :: 1 <= h <= 6 ==> ServedKeys()[h - 1] == ServedKey(h);
  }

  // ---------------------------------------------------------------- save, then load

  /** `save_models` with at least six models, then a cold `load_models`:
      the first six models come back in horizon order, whatever the store
      held before. */
  lemma SaveThenLoad<M>(files: map<string, Artifact<M>>, models: seq<M>)
    requires |models| >= 6
    ensures Ensemble(SavedFiles(files, models, DefaultPrefix), ServedKeys()) == Some(models[..6])
  {
    var saved := SavedFiles(files, models, DefaultPrefix);
    SavedFilesHoldModels(files, models, DefaultPrefix);
    ServedKeysAreSavedKeys();
    assert forall k :: 0 <= k < 6 ==> Readable(saved, ServedKeys()[k]) && saved[ServedKeys()[k]].model == models[k];
    assert seq(6, k requires 0 <= k < 6 => saved[ServedKeys()[k]].model) == models[..6];
  }

  /** With fewer than six models the load succeeds only if files left by an
      earlier save fill the missing horizons, and then those stale models are
      served alongside the new ones. */
  lemma SaveFewerThenLoad<M>(files: map<string, Artifact<M>>, models: seq<M>)
    requires |models| < 6
    ensures Ensemble(SavedFiles(files, models, DefaultPrefix), ServedKeys()).Some?
        <==> forall k :: |models| <= k < 6 ==> Readable(files, ServedKeys()[k])
    ensures Ensemble(SavedFiles(files, models, DefaultPrefix), ServedKeys()).Some? ==>
      Ensemble(SavedFiles(files, models, DefaultPrefix), ServedKeys()).value
        == models + seq(6 - |models|, k requires 0 <= k < 6 - |models| => files[ServedKeys()[|models| + k]].model)
  {
    var n := |models|;
    var saved := SavedFiles(files, models, DefaultPrefix);
    SavedFilesHoldModels(files, models, DefaultPrefix);
    ServedKeysAreSavedKeys();
    SavedFilesKeys(files, models, DefaultPrefix);
    forall k | n <= k < 6
      ensures ServedKeys()[k] !in WrittenKeys(DefaultPrefix, n)
      ensures ServedKeys()[k] in saved ==> ServedKeys()[k] in files
      ensures ServedKeys()[k] in files ==> saved[ServedKeys()[k]] == files[ServedKeys()[k]]
    {
      forall i | 0 <= i < n
        ensures ModelKey(DefaultPrefix, i) != ModelKey(DefaultPrefix, k)
      {
        ModelKeyInjective(DefaultPrefix, i, k);
      }
      if ServedKeys()[k] in files {
        SavedFilesKeepOthers(files, models, DefaultPrefix, ServedKeys()[k]);
      }
    }
  }

  /** Saving fewer than six models into a store that holds none of the six
      served files makes the cold load right after the save fail. */
  lemma SaveFewerToEmptyStore<M>(files: map<string, Artifact<M>>, models: seq<M>)
    requires |models| < 6
    requires forall k :: 0 <= k < 6 ==> ServedKeys()[k] !in files
    ensures Ensemble(SavedFiles(files, models, DefaultPrefix), ServedKeys()) == None
  {
    SaveFewerThenLoad(files, models);
    assert !Readable(files, ServedKeys()[|models|]);
  }

  // ---------------------------------------------------------------- load_latest_data

  /** The row as the forecaster receives it: `date` and `power_x` dropped,
      the file's other columns first, then the six derived features in the
      order `create_features` adds them. */
  function FeatureVector(f: FeatureRow): (v: seq<Option<real>>)
    ensures |v| == |f.raw.extra| + 6
    ensures v[..|f.raw.extra|] == f.raw.extra
  {
    f.raw.extra + [Some(f.hour as real), Some(f.dayOfWeek as real), Some(f.month as real),
                   f.lag1, f.lag2, f.rollingMean3]
  }

  /** `load_latest_data()`: `csv` is the parsed file, `None` when reading or
      parsing fails. The last row of `create_features`, or `None` when no row
      survives (`iloc[-1]` on an empty frame raises). */
  function LoadLatestData(csv: Option<seq<RawRow>>): (r: Option<seq<Option<real>>>)
    ensures csv.None? ==> r.None?
    ensures csv.Some? ==> (r.None? <==> |FeatureOrigins(csv.value)| == 0)
    ensures r.Some? ==> |r.value| >= 6
  {
    match csv
    case None => None
    case Some(raw) =>
      var frame := FeaturesOf(raw);
      if |frame| == 0 then None else Some(FeatureVector(frame[|frame| - 1]))
  }

  /** No row is served exactly when no three-row window of `power_x` is
      complete. */
  lemma LatestNoneIff(raw: seq<RawRow>)
    ensures LoadLatestData(Some(raw)).None? <==> forall p :: 0 <= p < |raw| ==> !WindowComplete(raw, p)
  {
    if LoadLatestData(Some(raw)).None? {
      forall p | 0 <= p < |raw|
        ensures !WindowComplete(raw, p)
      {
        FeatureSurvival(raw, p);
      }
    } else {
      FeatureRowFromOrigin(raw, 0);
    }
  }

  /** The served row is the one at the LAST position whose window is
      complete, with its features as `create_features` derived them. */
  lemma LatestIsLastCompleteWindow(raw: seq<RawRow>, i: nat)
    requires i < |raw| && WindowComplete(raw, i)
    requires forall p :: i < p < |raw| ==> !WindowComplete(raw, p)
    ensures LoadLatestData(Some(raw)) == Some(FeatureVector(WithFeatures(raw)[i]))
  {
    var frame := FeaturesOf(raw);
    var origins := FeatureOrigins(raw);
    FeatureSurvival(raw, i);
    var b :| 0 <= b < |origins| && origins[b] == i;
    FeatureRowFromOrigin(raw, b);
    var last := |frame| - 1;
    assert origins[last] == i by {
      FeatureRowFromOrigin(raw, last);
      assert origins[b] <= origins[last];
    }
    FeatureMaskIsWindow(raw, i);
    assert frame[last] == WithFeatures(raw)[i];
  }

  // ---------------------------------------------------------------- horizon labels

  /** The labels the dashboard pairs with the predictions: `t+1` to `t+6`,
      each `t+` and one digit. */
  function HorizonLabels(): (r: seq<string>)
    ensures |r| == 6
    ensures forall k :: 0 <= k < 6 ==> |r[k]| == 3 && r[k][..2] == "t+" && r[k][2] == DigitChar(k + 1)
  {
    seq(6, k requires 0 <= k < 6 => "t+" + NatToString(k + 1))
  }

  /** One naming scheme throughout: label `k` names target column
      `target_<label>` of `create_targets(df, 6)` and the model file
      `models/xgb_model_<label>.pkl`, and labels are distinct. */
  lemma HorizonLabelsAgree()
    ensures |HorizonLabels()| == |TargetColumns(6)| == |ServedKeys()| == 6
    ensures forall k :: 0 <= k < 6 ==> TargetColumns(6)[k] == "target_" + HorizonLabels()[k]
    ensures forall k :: 0 <= k < 6 ==> ServedKeys()[k] == "models/xgb_model_" + HorizonLabels()[k] + ".pkl"
    ensures forall a, b :: 0 <= a < b < 6 ==> HorizonLabels()[a] != HorizonLabels()[b]
  {
    TargetColumnsDistinct(6);
    forall k | 0 <= k < 6
      ensures TargetColumns(6)[k] == "target_" + HorizonLabels()[k]
      ensures ServedKeys()[k] == "models/xgb_model_" + HorizonLabels()[k] + ".pkl"
    {
      var s := NatToString(k + 1);
      assert "target_" + ("t+" + s) == "target_t+" + s;
      assert "models/xgb_model_" + ("t+" + s) + ".pkl" == "models/xgb_model_t+" + s + ".pkl";
    }
    forall a, b | 0 <= a < b < 6
      ensures HorizonLabels()[a] != HorizonLabels()[b]
    {
      NumberedNameInjective("t+", a + 1, b + 1, "");
      assert "t+" + NatToString(a + 1) + "" == HorizonLabels()[a];
      assert "t+" + NatToString(b + 1) + "" == HorizonLabels()[b];
    }
  }

  /** With the models of a full save, a cold load serves exactly those
      models, so the forecast shown next to label `HorizonLabels()[k]` is the
      prediction of the `k`-th saved model. */
  lemma ServedForecastIsSavedForecast<M>(predict: (M, seq<Option<real>>) -> real, files: map<string, Artifact<M>>,
                                         models: seq<M>, row: seq<Option<real>>)
    requires |models| == 6
    ensures Ensemble(SavedFiles(files, models, DefaultPrefix), ServedKeys()) == Some(models)
    ensures |Forecast(predict, models, row)| == |HorizonLabels()|
    ensures forall k :: 0 <= k < 6 ==>
      Forecast(predict, Ensemble(SavedFiles(files, models, DefaultPrefix), ServedKeys()).value, row)[k] == predict(models[k], row)
  {
    SaveThenLoad(files, models);
    assert models[..6] == models;
  }
}
