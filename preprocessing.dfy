/** `create_features` and `create_targets`: the alignment rules that turn the
    `power_x` series into training rows. A frame is a sequence of rows; every
    shift, rolling window and drop is by row POSITION in the frame handed in,
    exactly as pandas does it, never by timestamp. */
module Preprocessing {
  import opened Wrappers
  import opened Calendar
  import opened Frames
  import opened Decimal

  /** One input row: the parsed `date`, `power_x` (`None` is NaN) and the
      file's other columns, in file order, which the pipeline carries along. */
  datatype RawRow = RawRow(date: Timestamp, power: Option<real>, extra: seq<Option<real>>)

  /** A row after `create_features` has added its six columns. */
  datatype FeatureRow = FeatureRow(
    raw: RawRow,
    hour: int,
    dayOfWeek: int,
    month: int,
    lag1: Option<real>,
    lag2: Option<real>,
    rollingMean3: Option<real>)

  /** A row after `create_targets(df, n)`: `targets[k - 1]` is the column
      `target_t+k`. */
  datatype TargetRow = TargetRow(features: FeatureRow, targets: seq<Option<real>>)

  function PowerColumn(rows: seq<RawRow>): seq<Option<real>> {
    seq(|rows|, i requires 0 <= i < |rows| => rows[i].power)
  }

  // ---------------------------------------------------------------- create_features

  /** `power_x` `k` positions before `i`, NaN before the start of the frame:
      element `i` of `shift(k)`. */
  function Lag(raw: seq<RawRow>, i: nat, k: nat): Option<real>
    requires i < |raw|
  {
    if i >= k then raw[i - k].power else None
  }

  /** Element `i` of `rolling(3).mean()` on `power_x`. */
  function TrailingMean3(raw: seq<RawRow>, i: nat): Option<real>
    requires i < |raw|
  {
    if i >= 2 && raw[i - 2].power.Some? && raw[i - 1].power.Some? && raw[i].power.Some?
    then Some((raw[i - 2].power.value + raw[i - 1].power.value + raw[i].power.value) / 3.0)
    else None
  }

  /** The frame after the column assignments of `create_features` and before
      its `dropna`: calendar fields from `date`, `lag_1` and `lag_2`, the
      trailing 3-window mean. */
  function WithFeatures(raw: seq<RawRow>): seq<FeatureRow> {
    seq(|raw|, i requires 0 <= i < |raw| =>
      FeatureRow(raw[i], HourOf(raw[i].date), DayOfWeek(raw[i].date), MonthOf(raw[i].date),
                 Lag(raw, i, 1), Lag(raw, i, 2), TrailingMean3(raw, i)))
  }

  /** The `dropna` subset of `create_features`: `power_x`, `lag_1`, `lag_2`,
      `rolling_mean_3` all present. */
  predicate FeaturesPresent(f: FeatureRow) {
    f.raw.power.Some? && f.lag1.Some? && f.lag2.Some? && f.rollingMean3.Some?
  }

  function FeatureMask(raw: seq<RawRow>): seq<bool> {
    var rows := WithFeatures(raw);
    seq(|rows|, i requires 0 <= i < |rows| => FeaturesPresent(rows[i]))
  }

  /** For each output row of `create_features`, its position in the input. */
  function FeatureOrigins(raw: seq<RawRow>): seq<nat> {
    KeptPositions(FeatureMask(raw))
  }

  /** What `create_features(df)` returns, defined row by row: one row per
      kept position, never more rows than the input. */
  function FeaturesOf(raw: seq<RawRow>): (r: seq<FeatureRow>)
    ensures |r| == |FeatureOrigins(raw)| <= |raw|
  {
    DropWhere(WithFeatures(raw), FeatureMask(raw))
  }

  /** `create_features(df)`: the six column assignments in source order,
      each a whole-column pandas operation on `power_x` or `date`, then the
      `dropna` over `power_x` and the three derived value columns. */
  method CreateFeatures(raw: seq<RawRow>) returns (out: seq<FeatureRow>)
    ensures out == FeaturesOf(raw)
  {
    var power := PowerColumn(raw);
    var hour := seq(|raw|, i requires 0 <= i < |raw| => HourOf(raw[i].date));
    var dayofweek := seq(|raw|, i requires 0 <= i < |raw| => DayOfWeek(raw[i].date));
    var month := seq(|raw|, i requires 0 <= i < |raw| => MonthOf(raw[i].date));
    var lag1 := Shift(power, 1);
    var lag2 := Shift(power, 2);
    var rollingMean3 := RollingMean3(power);
    var frame := seq(|raw|, i requires 0 <= i < |raw| =>
      FeatureRow(raw[i], hour[i], dayofweek[i], month[i], lag1[i], lag2[i], rollingMean3[i]));
    forall i | 0 <= i < |raw|
      ensures frame[i] == WithFeatures(raw)[i]
    {
      assert lag1[i] == Lag(raw, i, 1);
      assert lag2[i] == Lag(raw, i, 2);
      assert rollingMean3[i] == TrailingMean3(raw, i);
    }
    assert frame == WithFeatures(raw);
    var mask := seq(|frame|, i requires 0 <= i < |frame| => FeaturesPresent(frame[i]));
    out := DropWhere(frame, mask);
  }

  /** The three-row window ending at position `i` is complete. */
  predicate WindowComplete(raw: seq<RawRow>, i: nat)
    requires i < |raw|
  {
    2 <= i && raw[i - 2].power.Some? && raw[i - 1].power.Some? && raw[i].power.Some?
  }

  lemma FeatureMaskIsWindow(raw: seq<RawRow>, i: nat)
    requires i < |raw|
    ensures |FeatureMask(raw)| == |raw|
    ensures FeatureMask(raw)[i] <==> WindowComplete(raw, i)
  {
  }

  /** The input row at position `i` survives `create_features` iff `i >= 2`
      and `power_x` is present at `i - 2`, `i - 1` and `i`. */
  lemma FeatureSurvival(raw: seq<RawRow>, i: nat)
    requires i < |raw|
    ensures i in FeatureOrigins(raw) <==> WindowComplete(raw, i)
  {
  }

  /** Output row `j` of `create_features` is the input row at position
      `FeatureOrigins(raw)[j]`, unchanged, with every feature present: the
      lags are the values one and two POSITIONS earlier in the unfiltered
      input, the rolling mean is the mean of the window ending at it, and the
      calendar fields come from its own `date`. */
  lemma FeatureRowFromOrigin(raw: seq<RawRow>, j: nat)
    requires j < |FeaturesOf(raw)|
    ensures |FeatureOrigins(raw)| == |FeaturesOf(raw)|
    ensures FeatureOrigins(raw)[j] < |raw| && WindowComplete(raw, FeatureOrigins(raw)[j])
    ensures var i, f := FeatureOrigins(raw)[j], FeaturesOf(raw)[j];
      f.raw == raw[i]
    ensures FeaturesPresent(FeaturesOf(raw)[j])
    ensures var i, f := FeatureOrigins(raw)[j], FeaturesOf(raw)[j];
      f.lag1 == raw[i - 1].power && f.lag2 == raw[i - 2].power
    ensures var i, f := FeatureOrigins(raw)[j], FeaturesOf(raw)[j];
      f.rollingMean3 == Some((raw[i - 2].power.value + raw[i - 1].power.value + raw[i].power.value) / 3.0)
    ensures var i, f := FeatureOrigins(raw)[j], FeaturesOf(raw)[j];
      f.hour == raw[i].date.hour && f.dayOfWeek == raw[i].date.weekday && f.month == raw[i].date.month
  {
  }

  /** Every field of a surviving row is a function of the input rows at or
      before its position: rows after `i` cannot change row `i`'s features,
      nor whether it is kept. */
  lemma FeaturesUseNoLaterRow(raw: seq<RawRow>, other: seq<RawRow>, i: nat)
    requires i < |raw| && i < |other|
    requires raw[..i + 1] == other[..i + 1]
    ensures WithFeatures(raw)[i] == WithFeatures(other)[i]
    ensures FeatureMask(raw)[i] == FeatureMask(other)[i]
  {
  }

  /** Calendar fields of every surviving row are in range. */
  lemma CalendarFieldsInRange(raw: seq<RawRow>, j: nat)
    requires j < |FeaturesOf(raw)|
    ensures 0 <= FeaturesOf(raw)[j].hour <= 23
    ensures 0 <= FeaturesOf(raw)[j].dayOfWeek <= 6
    ensures 1 <= FeaturesOf(raw)[j].month <= 12
  {
  }

  /** With no NaN in `power_x`, exactly the first two rows are dropped. */
  lemma FullyPopulatedFeatures(raw: seq<RawRow>)
    requires forall i :: 0 <= i < |raw| ==> raw[i].power.Some?
    ensures |FeaturesOf(raw)| == if |raw| >= 2 then |raw| - 2 else 0
    ensures var n := if |raw| >= 2 then |raw| - 2 else 0;
      FeatureOrigins(raw) == seq(n, j requires 0 <= j < n => j + 2)
  {
    var mask := FeatureMask(raw);
    var lo := if |raw| >= 2 then 2 else |raw|;
    forall i | 0 <= i < |mask|
      ensures mask[i] <==> lo <= i < |raw|
    {
      FeatureMaskIsWindow(raw, i);
    }
    KeptRange(mask, lo, |raw|);
  }

  // ---------------------------------------------------------------- create_targets

  /** `target_t+1` .. `target_t+n`, in ascending order. */
  function TargetColumns(n: nat): seq<string> {
    seq(n, k requires 0 <= k < n => "target_t+" + NatToString(k + 1))
  }

  lemma TargetColumnsDistinct(n: nat)
    ensures |TargetColumns(n)| == n
    ensures forall k :: 0 <= k < n ==> TargetColumns(n)[k] == "target_t+" + NatToString(k + 1)
    ensures forall a, b :: 0 <= a < b < n ==> TargetColumns(n)[a] != TargetColumns(n)[b]
  {
    forall a, b | 0 <= a < b < n
      ensures TargetColumns(n)[a] != TargetColumns(n)[b]
    {
      NumberedNameInjective("target_t+", a + 1, b + 1, "");
      assert "target_t+" + NatToString(a + 1) + "" == TargetColumns(n)[a];
      assert "target_t+" + NatToString(b + 1) + "" == TargetColumns(n)[b];
    }
  }

  /** The value `k` rows after position `j` in the frame, NaN past its end. */
  function Lead(frame: seq<FeatureRow>, j: nat, k: nat): Option<real> {
    if j + k < |frame| then frame[j + k].raw.power else None
  }

  /** The frame after the target columns are assigned, row by row. */
  function WithTargets(frame: seq<FeatureRow>, n: nat): seq<TargetRow> {
    seq(|frame|, j requires 0 <= j < |frame| =>
      TargetRow(frame[j], seq(n, k requires 0 <= k < n => Lead(frame, j, k + 1))))
  }

  predicate TargetsPresent(t: TargetRow) {
    forall k :: 0 <= k < |t.targets| ==> t.targets[k].Some?
  }

  function TargetMask(frame: seq<FeatureRow>, n: nat): seq<bool> {
    var rows := WithTargets(frame, n);
    seq(|rows|, j requires 0 <= j < |rows| => TargetsPresent(rows[j]))
  }

  /** For each output row of `create_targets`, its position in the frame given. */
  function TargetOrigins(frame: seq<FeatureRow>, n: nat): seq<nat> {
    KeptPositions(TargetMask(frame, n))
  }

  /** What `create_targets(df, n)` returns, defined row by row: one row per
      kept position, never more rows than the frame given. */
  function TargetsOf(frame: seq<FeatureRow>, n: nat): (r: seq<TargetRow>)
    ensures |r| == |TargetOrigins(frame, n)| <= |frame|
  {
    DropWhere(WithTargets(frame, n), TargetMask(frame, n))
  }

  /** `create_targets(df, n_steps)`: one loop iteration per horizon assigns
      the column `shift(-i)` of `power_x`, then the rows with any NaN target
      are dropped. */
  method CreateTargets(frame: seq<FeatureRow>, nSteps: nat) returns (out: seq<TargetRow>)
    ensures out == TargetsOf(frame, nSteps)
  {
    var power := seq(|frame|, j requires 0 <= j < |frame| => frame[j].raw.power);
    var columns: seq<seq<Option<real>>> := [];
    for i := 1 to nSteps + 1
      invariant |columns| == i - 1
      invariant forall k :: 0 <= k < |columns| ==> columns[k] == Shift(power, -(k + 1))
    {
      columns := columns + [Shift(power, -i)];
    }
    var annotated := seq(|frame|, j requires 0 <= j < |frame| =>
      TargetRow(frame[j], seq(nSteps, k requires 0 <= k < nSteps => columns[k][j])));
    forall j | 0 <= j < |frame|
      ensures annotated[j] == WithTargets(frame, nSteps)[j]
    {
      assert annotated[j].targets == WithTargets(frame, nSteps)[j].targets;
    }
    assert annotated == WithTargets(frame, nSteps);
    var mask := seq(|frame|, j requires 0 <= j < |frame| => TargetsPresent(annotated[j]));
    assert mask == TargetMask(frame, nSteps);
    out := DropWhere(annotated, mask);
  }

  /** The targets are present at position `j` iff the `n` rows after it exist
      and have `power_x`; the row's own `power_x` plays no part. */
  lemma TargetMaskIsLookahead(frame: seq<FeatureRow>, n: nat, j: nat)
    requires j < |frame|
    ensures |TargetMask(frame, n)| == |frame|
    ensures TargetMask(frame, n)[j] <==>
      j + n < |frame| && forall p :: j < p <= j + n ==> frame[p].raw.power.Some?
  {
    var t := WithTargets(frame, n)[j];
    assert forall k :: 0 <= k < n ==> t.targets[k] == Lead(frame, j, k + 1);
    if TargetMask(frame, n)[j] {
      if n > 0 {
        assert t.targets[n - 1] == Lead(frame, j, n);
      }
      forall p | j < p <= j + n
        ensures frame[p].raw.power.Some?
      {
        assert t.targets[p - j - 1] == Lead(frame, j, p - j);
      }
    } else if j + n < |frame| {
      var k :| 0 <= k < n && t.targets[k].None?;
      assert Lead(frame, j, k + 1) == frame[j + k + 1].raw.power;
    }
  }

  /** Row `j` survives `create_targets(df, n)` iff `j + n` is inside the frame
      and `power_x` is present at `j + 1 .. j + n`. */
  lemma TargetSurvival(frame: seq<FeatureRow>, n: nat, j: nat)
    requires j < |frame|
    ensures j in TargetOrigins(frame, n) <==>
      j + n < |frame| && forall p :: j < p <= j + n ==> frame[p].raw.power.Some?
  {
    TargetMaskIsLookahead(frame, n, j);
  }

  /** Output row `j` of `create_targets(df, n)` is the row at position
      `i = TargetOrigins(frame, n)[j]`, unchanged, and its `target_t+k` is the
      `power_x` of the row `k` positions later in the frame given, present
      (`t.targets[k]` is `target_t+(k+1)`). */
  lemma TargetRowFromOrigin(frame: seq<FeatureRow>, n: nat, j: nat)
    requires j < |TargetsOf(frame, n)|
    ensures |TargetOrigins(frame, n)| == |TargetsOf(frame, n)|
    ensures TargetOrigins(frame, n)[j] + n < |frame|
    ensures TargetsOf(frame, n)[j].features == frame[TargetOrigins(frame, n)[j]]
    ensures |TargetsOf(frame, n)[j].targets| == n
    ensures TargetsPresent(TargetsOf(frame, n)[j])
    ensures var i, t := TargetOrigins(frame, n)[j], TargetsOf(frame, n)[j];
      forall k :: 0 <= k < n ==> t.targets[k] == frame[i + k + 1].raw.power
  {
    var i := TargetOrigins(frame, n)[j];
    TargetMaskIsLookahead(frame, n, i);
    var t := TargetsOf(frame, n)[j];
    assert t == WithTargets(frame, n)[i];
    forall k | 0 <= k < n
      ensures t.targets[k] == frame[i + k + 1].raw.power
    {
      assert t.targets[k] == Lead(frame, i, k + 1);
    }
  }

  /** With `power_x` present everywhere, the last `n` rows are dropped: the
      result has `max(0, L - n)` rows, and none when `L <= n`. */
  lemma FullyPopulatedTargets(frame: seq<FeatureRow>, n: nat)
    requires forall j :: 0 <= j < |frame| ==> frame[j].raw.power.Some?
    ensures |TargetsOf(frame, n)| == if |frame| > n then |frame| - n else 0
    ensures var m := if |frame| > n then |frame| - n else 0;
      TargetOrigins(frame, n) == seq(m, j requires 0 <= j < m => j)
  {
    var mask := TargetMask(frame, n);
    var m := if |frame| > n then |frame| - n else 0;
    forall j | 0 <= j < |mask|
      ensures mask[j] <==> 0 <= j < m
    {
      TargetMaskIsLookahead(frame, n, j);
    }
    KeptRange(mask, 0, m);
  }

  // ---------------------------------------------------------------- the two steps together

  predicate Increasing(s: seq<nat>) {
    forall x, y :: 0 <= x < y < |s| ==> s[x] < s[y]
  }

  lemma {:induction false} IncreasingGap(s: seq<nat>, a: nat, k: nat)
    requires Increasing(s)
    requires a + k < |s|
    ensures s[a] + k <= s[a + k]
  {
    if k > 0 {
      IncreasingGap(s, a, k - 1);
    }
  }

  lemma FeatureRowRaw(raw: seq<RawRow>, x: nat)
    requires x < |FeaturesOf(raw)|
    ensures |FeatureOrigins(raw)| == |FeaturesOf(raw)|
    ensures FeatureOrigins(raw)[x] < |raw|
    ensures FeaturesOf(raw)[x].raw == raw[FeatureOrigins(raw)[x]]
  {
  }

  lemma TargetAt(frame: seq<FeatureRow>, n: nat, j: nat, k: nat)
    requires j < |TargetsOf(frame, n)| && k < n
    ensures |TargetOrigins(frame, n)| == |TargetsOf(frame, n)|
    ensures TargetOrigins(frame, n)[j] + k + 1 < |frame|
    ensures TargetsOf(frame, n)[j].features == frame[TargetOrigins(frame, n)[j]]
    ensures TargetsOf(frame, n)[j].targets[k] == frame[TargetOrigins(frame, n)[j] + k + 1].raw.power
  {
    TargetRowFromOrigin(frame, n, j);
  }

  /** `create_features` then `create_targets(n)`, as `main.py` runs them:
      training row `j` comes from input position `o1[o2[j]]`, and its target
      `target_t+(k+1)` is the `power_x` of the input row `k + 1` RETAINED rows
      later, at input position `o1[o2[j] + k + 1]`. */
  lemma PipelineTargetsAreRetainedRowsAhead(raw: seq<RawRow>, n: nat, j: nat, k: nat)
    requires j < |TargetsOf(FeaturesOf(raw), n)|
    requires k < n
    ensures j < |TargetOrigins(FeaturesOf(raw), n)|
    ensures TargetOrigins(FeaturesOf(raw), n)[j] + k + 1 < |FeatureOrigins(raw)|
    ensures var o1, o2 := FeatureOrigins(raw), TargetOrigins(FeaturesOf(raw), n);
      TargetsOf(FeaturesOf(raw), n)[j].features.raw == raw[o1[o2[j]]]
    ensures var o1, o2 := FeatureOrigins(raw), TargetOrigins(FeaturesOf(raw), n);
      TargetsOf(FeaturesOf(raw), n)[j].targets[k] == raw[o1[o2[j] + k + 1]].power
  {
    var frame := FeaturesOf(raw);
    TargetAt(frame, n, j, k);
    var i := TargetOrigins(frame, n)[j];
    FeatureRowRaw(raw, i);
    FeatureRowRaw(raw, i + k + 1);
  }

  /** The row `k` retained rows after another lies at least `k` input
      positions (hours) after it. */
  lemma RetainedRowsAreAtLeastHoursAhead(raw: seq<RawRow>, a: nat, k: nat)
    requires a + k < |FeatureOrigins(raw)|
    ensures FeatureOrigins(raw)[a] + k <= FeatureOrigins(raw)[a + k]
  {
    IncreasingGap(FeatureOrigins(raw), a, k);
  }

  /** ... and strictly further when an input row between the two was
      dropped: then the row `k` retained rows later is more than `k` hours
      later. */
  lemma DroppedRowWidensGap(raw: seq<RawRow>, a: nat, k: nat, r: nat)
    requires a + k < |FeatureOrigins(raw)|
    requires FeatureOrigins(raw)[a] < r < FeatureOrigins(raw)[a + k]
    requires !WindowComplete(raw, r)
    ensures FeatureOrigins(raw)[a] + k < FeatureOrigins(raw)[a + k]
  {
    FeatureMaskIsWindow(raw, r);
    SkippedPositionWidensGap(FeatureMask(raw), a, k, r);
  }

  /** The same on any mask: the positions kept `k` apart are exactly `k`
      apart only if every position between them is kept. */
  lemma SkippedPositionWidensGap(mask: seq<bool>, a: nat, k: nat, r: nat)
    requires a + k < |KeptPositions(mask)|
    requires KeptPositions(mask)[a] < r < KeptPositions(mask)[a + k]
    requires r < |mask| && !mask[r]
    ensures KeptPositions(mask)[a] + k < KeptPositions(mask)[a + k]
  {
    var o := KeptPositions(mask);
    IncreasingGap(o, a, k);
    if o[a] + k == o[a + k] {
      IncreasingTight(o, a, k, r - o[a]);
    }
  }

  /** Strictly increasing values that grow by exactly `k` over `k` steps take
      every value in between. */
  lemma IncreasingTight(s: seq<nat>, a: nat, k: nat, m: nat)
    requires Increasing(s)
    requires a + k < |s| && m <= k
    requires s[a] + k == s[a + k]
    ensures s[a + m] == s[a] + m
  {
    IncreasingGap(s, a, m);
    IncreasingGap(s, a + m, k - m);
  }

  /** The gap made visible: if the next input row after a training row's own
      position `p` that survives `create_features` is at `q`, then its
      `target_t+1` is `power_x` at `q`, which is `q - p` hours ahead rather
      than one. */
  /** The retained row after the one from position `o[a]` comes from the
      next position whose window is complete. */
  lemma NextCompleteWindowIsNextOrigin(raw: seq<RawRow>, a: nat, q: nat)
    requires a < |FeatureOrigins(raw)|
    requires FeatureOrigins(raw)[a] < q < |raw|
    requires WindowComplete(raw, q)
    requires forall r :: FeatureOrigins(raw)[a] < r < q ==> !WindowComplete(raw, r)
    ensures a + 1 < |FeatureOrigins(raw)| && FeatureOrigins(raw)[a + 1] == q
  {
    var mask := FeatureMask(raw);
    FeatureMaskIsWindow(raw, q);
    forall r | FeatureOrigins(raw)[a] < r < q
      ensures !mask[r]
    {
      FeatureMaskIsWindow(raw, r);
    }
    KeptNext(mask, a, q);
  }

  lemma FirstTargetSkipsDroppedRows(raw: seq<RawRow>, n: nat, j: nat, q: nat)
    requires 1 <= n
    requires j < |TargetsOf(FeaturesOf(raw), n)|
    requires FeatureOrigins(raw)[TargetOrigins(FeaturesOf(raw), n)[j]] < q < |raw|
    requires WindowComplete(raw, q)
    requires forall r :: FeatureOrigins(raw)[TargetOrigins(FeaturesOf(raw), n)[j]] < r < q ==> !WindowComplete(raw, r)
    ensures TargetsOf(FeaturesOf(raw), n)[j].targets[0] == raw[q].power
  {
    var o1, o2 := FeatureOrigins(raw), TargetOrigins(FeaturesOf(raw), n);
    PipelineTargetsAreRetainedRowsAhead(raw, n, j, 0);
    var a := o2[j];
    NextCompleteWindowIsNextOrigin(raw, a, q);
  }

  /** Every row `create_features` returns has `power_x`, so on its output
      `create_targets(n)` drops exactly the last `n` rows, whatever NaNs the
      input held. */
  lemma PipelineDropsOnlyTheLastRows(raw: seq<RawRow>, n: nat)
    ensures var m := |FeaturesOf(raw)|;
      |TargetsOf(FeaturesOf(raw), n)| == if m > n then m - n else 0
    ensures var m := |FeaturesOf(raw)|;
      var m' := if m > n then m - n else 0;
      TargetOrigins(FeaturesOf(raw), n) == seq(m', j requires 0 <= j < m' => j)
  {
    var frame := FeaturesOf(raw);
    forall x | 0 <= x < |frame|
      ensures frame[x].raw.power.Some?
    {
      FeatureRowFromOrigin(raw, x);
    }
    FullyPopulatedTargets(frame, n);
  }

  lemma FullyPopulatedOrigin(raw: seq<RawRow>, x: nat)
    requires forall i :: 0 <= i < |raw| ==> raw[i].power.Some?
    requires x + 2 < |raw|
    ensures |FeatureOrigins(raw)| == |FeaturesOf(raw)| == |raw| - 2
    ensures FeatureOrigins(raw)[x] == x + 2
  {
    FullyPopulatedFeatures(raw);
  }

  lemma PipelineOriginIsPosition(raw: seq<RawRow>, n: nat, j: nat)
    requires j < |TargetsOf(FeaturesOf(raw), n)|
    ensures |FeaturesOf(raw)| == |TargetsOf(FeaturesOf(raw), n)| + n
    ensures TargetOrigins(FeaturesOf(raw), n)[j] == j
  {
    PipelineDropsOnlyTheLastRows(raw, n);
  }

  /** With no NaN in `power_x`, training row `j` of the pipeline is input row
      `j + 2`, and its target `target_t+(k+1)` is the value of input row
      `j + 3 + k`: here retained rows and hours coincide. */
  lemma FullyPopulatedPipelineTarget(raw: seq<RawRow>, n: nat, j: nat, k: nat)
    requires forall i :: 0 <= i < |raw| ==> raw[i].power.Some?
    requires j < |TargetsOf(FeaturesOf(raw), n)| && k < n
    ensures j + n + 2 < |raw|
    ensures TargetsOf(FeaturesOf(raw), n)[j].features.raw == raw[j + 2]
    ensures TargetsOf(FeaturesOf(raw), n)[j].targets[k] == raw[j + 3 + k].power
  {
    PipelineOriginIsPosition(raw, n, j);
    assert |FeaturesOf(raw)| == |raw| - 2 by { FullyPopulatedFeatures(raw); }
    FullyPopulatedOrigin(raw, j);
    FullyPopulatedOrigin(raw, j + k + 1);
    PipelineTargetsAreRetainedRowsAhead(raw, n, j, k);
  }

  /** With no NaN in `power_x`, the targets of training row `j` are the `n`
      input values that follow input row `j + 2`. */
  lemma FullyPopulatedTargetsWindow(raw: seq<RawRow>, n: nat, j: nat)
    requires forall i :: 0 <= i < |raw| ==> raw[i].power.Some?
    requires j < |TargetsOf(FeaturesOf(raw), n)|
    ensures j + n + 2 < |raw|
    ensures TargetsOf(FeaturesOf(raw), n)[j].targets == seq(n, k requires 0 <= k < n => raw[j + 3 + k].power)
  {
    PipelineOriginIsPosition(raw, n, j);
    assert |FeaturesOf(raw)| == |raw| - 2 by { FullyPopulatedFeatures(raw); }
    assert |TargetsOf(FeaturesOf(raw), n)[j].targets| == n by {
      TargetRowFromOrigin(FeaturesOf(raw), n, j);
    }
    forall k | 0 <= k < n
      ensures TargetsOf(FeaturesOf(raw), n)[j].targets[k] == raw[j + 3 + k].power
    {
      FullyPopulatedPipelineTarget(raw, n, j, k);
    }
  }

  /** An hourly series on 1 January 2024 (a Monday) from midnight, no other
      columns. */
  function HourlySeries(values: seq<real>): seq<RawRow>
    requires |values| <= 24
  {
    seq(|values|, i requires 0 <= i < |values| =>
      RawRow(DateTime(2024, 1, 1, i, 0, 0, 0), Some(values[i]), []))
  }

  const TenHours: seq<real> := [10.0, 12.0, 11.0, 13.0, 14.0, 16.0, 15.0, 17.0, 18.0, 20.0]

  lemma TenHourValues()
    ensures |HourlySeries(TenHours)| == 10
    ensures forall i :: 0 <= i < 10 ==> HourlySeries(TenHours)[i].power.Some?
    ensures seq(6, k requires 0 <= k < 6 => HourlySeries(TenHours)[3 + k].power)
         == [Some(13.0), Some(14.0), Some(16.0), Some(15.0), Some(17.0), Some(18.0)]
  {
  }

  /** The ten-value series through `create_features`: eight rows survive, the
      first from position 2 with lags 12 and 10 and mean 11. */
  lemma TenHourFeatures()
    ensures |FeaturesOf(HourlySeries(TenHours))| == 8
    ensures FeaturesOf(HourlySeries(TenHours))[0].raw == HourlySeries(TenHours)[2]
    ensures FeaturesOf(HourlySeries(TenHours))[0].lag1 == Some(12.0)
    ensures FeaturesOf(HourlySeries(TenHours))[0].lag2 == Some(10.0)
    ensures FeaturesOf(HourlySeries(TenHours))[0].rollingMean3 == Some(11.0)
  {
    var raw := HourlySeries(TenHours);
    FullyPopulatedFeatures(raw);
    FeatureRowFromOrigin(raw, 0);
  }

  /** ... and through `create_targets(6)`: two rows keep all six targets, the
      first with targets 13 .. 18. */
  lemma TenHourTargets()
    ensures |TargetsOf(FeaturesOf(HourlySeries(TenHours)), 6)| == 2
    ensures TargetsOf(FeaturesOf(HourlySeries(TenHours)), 6)[0].features.raw == HourlySeries(TenHours)[2]
    ensures TargetsOf(FeaturesOf(HourlySeries(TenHours)), 6)[0].targets
         == [Some(13.0), Some(14.0), Some(16.0), Some(15.0), Some(17.0), Some(18.0)]
  {
    var raw := HourlySeries(TenHours);
    TenHourValues();
    assert |FeaturesOf(raw)| == 8 by { TenHourFeatures(); }
    assert |TargetsOf(FeaturesOf(raw), 6)| == 2 by { PipelineDropsOnlyTheLastRows(raw, 6); }
    FullyPopulatedTargetsWindow(raw, 6, 0);
    FullyPopulatedPipelineTarget(raw, 6, 0, 0);
  }
}
