/** The pandas column operations the preprocessing relies on, on columns
    represented as sequences (position = row position in the frame, `None` =
    NaN): `Series.shift(k)`, `Series.rolling(3).mean()` and the row filter of
    `DataFrame.dropna(subset=...)`. All of them are positional: they look at
    the row order of the frame they are given and never at its timestamps. */
module Frames {
  import opened Wrappers

  /** `shift(k)`: position `i` receives the value at position `i - k`, or NaN
      when that position is outside the frame. Positive `k` looks back (a lag),
      negative `k` looks ahead. */
  function Shift<T>(col: seq<Option<T>>, k: int): (r: seq<Option<T>>)
    ensures |r| == |col|
    ensures forall i :: 0 <= i < |col| && 0 <= i - k < |col| ==> r[i] == col[i - k]
    ensures forall i :: 0 <= i < |col| && !(0 <= i - k < |col|) ==> r[i].None?
  {
    seq(|col|, i requires 0 <= i < |col| => if 0 <= i - k < |col| then col[i - k] else None)
  }

  /** `rolling(3).mean()` with the default `min_periods` of 3: the mean of the
      trailing window `i-2, i-1, i`, NaN while the window is short or holds a
      NaN. Exact arithmetic stands in for floating point. */
  function RollingMean3(col: seq<Option<real>>): (r: seq<Option<real>>)
    ensures |r| == |col|
    ensures forall i :: 0 <= i < |col| ==>
      (r[i].Some? <==> 2 <= i && col[i - 2].Some? && col[i - 1].Some? && col[i].Some?)
    ensures forall i :: 2 <= i < |col| && r[i].Some? && col[i - 2].Some? && col[i - 1].Some? && col[i].Some? ==>
      3.0 * r[i].value == col[i - 2].value + col[i - 1].value + col[i].value
  {
    seq(|col|, i requires 0 <= i < |col| =>
      if i >= 2 && col[i - 2].Some? && col[i - 1].Some? && col[i].Some?
      then Some((col[i - 2].value + col[i - 1].value + col[i].value) / 3.0)
      else None)
  }

  /** The positions whose mask entry is true, in ascending order: the rows a
      `dropna` keeps, listed by their position in the frame it was given. */
  function KeptPositions(mask: seq<bool>): (r: seq<nat>)
    ensures |r| <= |mask|
    ensures forall j :: 0 <= j < |r| ==> r[j] < |mask| && mask[r[j]]
    ensures forall j, k :: 0 <= j < k < |r| ==> r[j] < r[k]
    ensures forall i :: 0 <= i < |mask| && mask[i] ==> i in r
  {
    if mask == [] then []
    else
      var before := KeptPositions(mask[..|mask| - 1]);
      if mask[|mask| - 1] then before + [|mask| - 1] else before
  }

  /** `dropna(subset=...)`: keep the rows whose mask entry is true, in their
      original order, unchanged. */
  function DropWhere<T>(rows: seq<T>, mask: seq<bool>): (r: seq<T>)
    requires |mask| == |rows|
    ensures |r| == |KeptPositions(mask)| <= |rows|
  {
    var kept := KeptPositions(mask);
    seq(|kept|, j requires 0 <= j < |kept| => rows[kept[j]])
  }

  /** `dropna` returns the passing rows themselves, in their original order,
      and every passing row is among them. */
  lemma DropWhereKeepsPassingRows<T>(rows: seq<T>, mask: seq<bool>)
    requires |mask| == |rows|
    ensures forall j :: 0 <= j < |DropWhere(rows, mask)| ==>
      mask[KeptPositions(mask)[j]] && DropWhere(rows, mask)[j] == rows[KeptPositions(mask)[j]]
    ensures forall i :: 0 <= i < |rows| && mask[i] ==> rows[i] in DropWhere(rows, mask)
  {
    var kept := KeptPositions(mask);
    forall i | 0 <= i < |rows| && mask[i]
      ensures rows[i] in DropWhere(rows, mask)
    {
      var j :| 0 <= j < |kept| && kept[j] == i;
      assert DropWhere(rows, mask)[j] == rows[i];
    }
  }

  /** When the mask is true exactly on the positions `lo..hi-1`, the kept rows
      are those positions in order. */
  lemma {:induction false} KeptRange(mask: seq<bool>, lo: nat, hi: nat)
    requires lo <= hi <= |mask|
    requires forall i :: 0 <= i < |mask| ==> (mask[i] <==> lo <= i < hi)
    ensures KeptPositions(mask) == seq(hi - lo, j requires 0 <= j < hi - lo => lo + j)
    decreases |mask|
  {
    if mask == [] {
    } else if hi < |mask| {
      KeptRange(mask[..|mask| - 1], lo, hi);
    } else if lo < hi {
      KeptRange(mask[..|mask| - 1], lo, hi - 1);
    } else {
      KeptRange(mask[..|mask| - 1], 0, 0);
    }
  }

  /** If position `q` is kept and no kept position lies strictly between the
      `a`-th kept position and `q`, then `q` is the next kept position. */
  lemma KeptNext(mask: seq<bool>, a: nat, q: nat)
    requires a < |KeptPositions(mask)|
    requires KeptPositions(mask)[a] < q < |mask| && mask[q]
    requires forall r :: KeptPositions(mask)[a] < r < q ==> !mask[r]
    ensures a + 1 < |KeptPositions(mask)| && KeptPositions(mask)[a + 1] == q
  {
    var kept := KeptPositions(mask);
    var b :| 0 <= b < |kept| && kept[b] == q;
    assert a < b;
    assert kept[a] < kept[a + 1] <= q;
  }
}
