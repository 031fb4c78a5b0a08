/** Null filling on a column: by value (`fill_null`), and by strategy, from
    the nearest earlier (forward) or later (backward) non-null row. */
module SeriesNull {
  import opened Wrappers
  import opened SeriesKernels

  datatype FillNullStrategy = Forward | Backward

  // ---------------------------------------------------------------------------
  // Filling by value

  /** `fill_null`: where the column is not null keep its row, elsewhere take
      the fill value's row; either operand may be a single row broadcast to
      the other's length. */
  function FillNull<T>(s: Series<T>, fillValue: Series<T>): (r: Result<Series<T>, KernelError>)
    ensures r.Ok? <==> |s| == |fillValue| || |s| == 1 || |fillValue| == 1
    ensures r.Ok? ==> |r.value| == if |s| == 1 then |fillValue| else |s|
    ensures r.Ok? ==> forall k :: 0 <= k < |r.value| ==>
      r.value[k] == (if At(s, k).Some? then At(s, k) else At(fillValue, k))
  {
    var pred := NotNull(s);
    IfElse(s, fillValue, pred)
  }

  /** Filling with a null-free value leaves no null behind, and filling again
      with the same value changes nothing. */
  lemma FillNullTotal<T>(s: Series<T>, fillValue: Series<T>)
    requires |s| == |fillValue|
    ensures FillNull(s, fillValue).Ok?
    ensures (forall k :: 0 <= k < |fillValue| ==> fillValue[k].Some?) ==>
      forall k :: 0 <= k < |s| ==> FillNull(s, fillValue).value[k].Some?
    ensures FillNull(FillNull(s, fillValue).value, fillValue) == FillNull(s, fillValue)
  {
    var once := FillNull(s, fillValue).value;
    if |s| == 1 {
      assert |once| == 1;
    }
    var twice := FillNull(once, fillValue).value;
    assert twice == once;
  }

  /** A column without nulls is returned unchanged by a same-length fill. */
  lemma FillNullWithoutNulls<T>(s: Series<T>, fillValue: Series<T>)
    requires |s| == |fillValue|
    requires forall k :: 0 <= k < |s| ==> s[k].Some?
    ensures FillNull(s, fillValue) == Ok(s)
  {
    var r := FillNull(s, fillValue).value;
    if |s| == 1 {
      assert |r| == 1;
    }
    assert r == s;
  }

  /** The examples of the value-fill test table. */
  lemma FillNullExamples()
    ensures FillNull([Some(1), Some(2), None], [Some(3), Some(3), Some(3)]) == Ok([Some(1), Some(2), Some(3)])
    ensures FillNull([None], [Some(3), Some(3), Some(3)]) == Ok([Some(3), Some(3), Some(3)])
    ensures FillNull([Some(1), Some(2), None], [Some(3)]) == Ok([Some(1), Some(2), Some(3)])
    ensures FillNull<int>([], []) == Ok([])
  {
    var r1 := FillNull([Some(1), Some(2), None], [Some(3), Some(3), Some(3)]).value;
    assert r1 == [Some(1), Some(2), Some(3)];
    var r2 := FillNull([None], [Some(3), Some(3), Some(3)]).value;
    assert r2 == [Some(3), Some(3), Some(3)];
    var r3 := FillNull([Some(1), Some(2), None], [Some(3)]).value;
    assert r3 == [Some(1), Some(2), Some(3)];
  }

  // ---------------------------------------------------------------------------
  // What the strategy fills are meant to compute

  /** The last non-null value among the first `k` rows, if any. */
  function LastValid<T>(s: Series<T>, k: nat): Option<T>
    requires k <= |s|
  {
    if k == 0 then None
    else if s[k - 1].Some? then s[k - 1]
    else LastValid(s, k - 1)
  }

  /** The first non-null value among the rows from `k` on, if any. */
  function NextValid<T>(s: Series<T>, k: nat): Option<T>
    requires k <= |s|
    decreases |s| - k
  {
    if k == |s| then None
    else if s[k].Some? then s[k]
    else NextValid(s, k + 1)
  }

  /** Each row replaced by the last non-null value up to and including it. */
  function ForwardFilled<T>(s: Series<T>): (r: Series<T>)
    ensures |r| == |s|
  {
    seq(|s|, i requires 0 <= i < |s| => LastValid(s, i + 1))
  }

  /** Each row replaced by the first non-null value from it on. */
  function BackwardFilled<T>(s: Series<T>): (r: Series<T>)
    ensures |r| == |s|
  {
    seq(|s|, i requires 0 <= i < |s| => NextValid(s, i))
  }

  /** `LastValid` is the value of the greatest non-null row before `k`, and
      is absent exactly when every row before `k` is null. */
  lemma {:induction false} LastValidIsGreatest<T>(s: Series<T>, k: nat)
    requires k <= |s|
    ensures LastValid(s, k).None? <==> forall j :: 0 <= j < k ==> s[j].None?
    ensures LastValid(s, k).Some? ==>
      exists j :: 0 <= j < k && s[j] == LastValid(s, k) && forall m :: j < m < k ==> s[m].None?
  {
    if k > 0 && s[k - 1].None? {
      LastValidIsGreatest(s, k - 1);
      if LastValid(s, k).Some? {
        var j :| 0 <= j < k - 1 && s[j] == LastValid(s, k - 1) && forall m :: j < m < k - 1 ==> s[m].None?;
        assert forall m :: j < m < k ==> s[m].None?;
      }
    }
  }

  /** `NextValid` is the value of the least non-null row from `k` on, and is
      absent exactly when every row from `k` on is null. */
  lemma {:induction false} NextValidIsLeast<T>(s: Series<T>, k: nat)
    requires k <= |s|
    decreases |s| - k
    ensures NextValid(s, k).None? <==> forall j :: k <= j < |s| ==> s[j].None?
    ensures NextValid(s, k).Some? ==>
      exists j :: k <= j < |s| && s[j] == NextValid(s, k) && forall m :: k <= m < j ==> s[m].None?
  {
    if k < |s| && s[k].None? {
      NextValidIsLeast(s, k + 1);
      if NextValid(s, k).Some? {
        var j :| k + 1 <= j < |s| && s[j] == NextValid(s, k + 1) && forall m :: k + 1 <= m < j ==> s[m].None?;
        assert forall m :: k <= m < j ==> s[m].None?;
      }
    }
  }

  /** Forward fill row by row: a non-null row is kept; a null row takes the
      value of the greatest earlier non-null row, and stays null when there
      is none. */
  lemma ForwardFillRow<T>(s: Series<T>, i: nat)
    requires i < |s|
    ensures s[i].Some? ==> ForwardFilled(s)[i] == s[i]
    ensures s[i].None? ==>
      (ForwardFilled(s)[i].None? <==> forall j :: 0 <= j < i ==> s[j].None?)
    ensures s[i].None? && ForwardFilled(s)[i].Some? ==>
      exists j :: 0 <= j < i && s[j] == ForwardFilled(s)[i] && forall m :: j < m < i ==> s[m].None?
  {
    LastValidIsGreatest(s, i);
  }

  /** Backward fill row by row: a non-null row is kept; a null row takes the
      value of the least later non-null row, and stays null when there is
      none. */
  lemma BackwardFillRow<T>(s: Series<T>, i: nat)
    requires i < |s|
    ensures s[i].Some? ==> BackwardFilled(s)[i] == s[i]
    ensures s[i].None? ==>
      (BackwardFilled(s)[i].None? <==> forall j :: i < j < |s| ==> s[j].None?)
    ensures s[i].None? && BackwardFilled(s)[i].Some? ==>
      exists j :: i < j < |s| && s[j] == BackwardFilled(s)[i] && forall m :: i < m < j ==> s[m].None?
  {
    NextValidIsLeast(s, i + 1);
  }

  /** Forward fill changes nothing exactly when no null row comes after a
      non-null one: an all-null column and a column without nulls are both
      returned unchanged. */
  lemma {:induction false} ForwardFillUnchanged<T>(s: Series<T>)
    ensures ForwardFilled(s) == s <==>
      forall i, j :: 0 <= j < i < |s| && s[i].None? ==> s[j].None?
  {
    if ForwardFilled(s) == s {
      forall i, j | 0 <= j < i < |s| && s[i].None?
        ensures s[j].None?
      {
        ForwardFillRow(s, i);
      }
    } else {
      var i :| 0 <= i < |s| && ForwardFilled(s)[i] != s[i];
      ForwardFillRow(s, i);
    }
  }

  /** Backward fill changes nothing exactly when no null row comes before a
      non-null one. */
  lemma {:induction false} BackwardFillUnchanged<T>(s: Series<T>)
    ensures BackwardFilled(s) == s <==>
      forall i, j :: 0 <= i < j < |s| && s[i].None? ==> s[j].None?
  {
    if BackwardFilled(s) == s {
      forall i, j | 0 <= i < j < |s| && s[i].None?
        ensures s[j].None?
      {
        BackwardFillRow(s, i);
      }
    } else {
      var i :| 0 <= i < |s| && BackwardFilled(s)[i] != s[i];
      BackwardFillRow(s, i);
    }
  }

  /** An all-null column and a column without nulls are returned unchanged by
      both strategies. */
  lemma StrategyFillsKeepUnfillable<T>(s: Series<T>)
    requires (forall i :: 0 <= i < |s| ==> s[i].None?) || (forall i :: 0 <= i < |s| ==> s[i].Some?)
    ensures ForwardFilled(s) == s && BackwardFilled(s) == s
  {
    ForwardFillUnchanged(s);
    BackwardFillUnchanged(s);
  }

  /** Forward filling an already filled column changes nothing. */
  lemma ForwardFillIdempotent<T>(s: Series<T>)
    ensures ForwardFilled(ForwardFilled(s)) == ForwardFilled(s)
  {
    var f := ForwardFilled(s);
    forall k | 0 <= k <= |s|
      ensures LastValid(f, k) == LastValid(s, k)
    {
      LastValidOfForwardFilled(s, k);
    }
  }

  lemma {:induction false} LastValidOfForwardFilled<T>(s: Series<T>, k: nat)
    requires k <= |s|
    ensures LastValid(ForwardFilled(s), k) == LastValid(s, k)
  {
    if k > 0 {
      LastValidOfForwardFilled(s, k - 1);
      if LastValid(s, k).None? {
        LastValidIsGreatest(s, k);
        LastValidIsGreatest(s, k - 1);
      }
    }
  }

  /** Backward filling an already filled column changes nothing. */
  lemma BackwardFillIdempotent<T>(s: Series<T>)
    ensures BackwardFilled(BackwardFilled(s)) == BackwardFilled(s)
  {
    var b := BackwardFilled(s);
    forall k | 0 <= k <= |s|
      ensures NextValid(b, k) == NextValid(s, k)
    {
      NextValidOfBackwardFilled(s, k);
    }
  }

  lemma {:induction false} NextValidOfBackwardFilled<T>(s: Series<T>, k: nat)
    requires k <= |s|
    decreases |s| - k
    ensures NextValid(BackwardFilled(s), k) == NextValid(s, k)
  {
    if k < |s| {
      NextValidOfBackwardFilled(s, k + 1);
      if NextValid(s, k).None? {
        NextValidIsLeast(s, k);
        NextValidIsLeast(s, k + 1);
      }
    }
  }

  /** The examples of the record-batch strategy-fill tests: the
      [null, 1, null] column and the column with leading nulls. */
  lemma StrategyFillExamples()
    ensures ForwardFilled([None, None, Some(1), None, Some(2), None]) ==
            [None, None, Some(1), Some(1), Some(2), Some(2)]
    ensures BackwardFilled([None, None, Some(1), None, Some(2), None]) ==
            [Some(1), Some(1), Some(1), Some(2), Some(2), None]
    ensures ForwardFilled([None, Some(1), None]) == [None, Some(1), Some(1)]
    ensures BackwardFilled([None, Some(1), None]) == [Some(1), Some(1), None]
  {
    var s1: Series<int> := [None, None, Some(1), None, Some(2), None];
    assert LastValid(s1, 2) == None;
    assert LastValid(s1, 4) == Some(1);
    assert LastValid(s1, 6) == Some(2);
    assert ForwardFilled(s1) == [None, None, Some(1), Some(1), Some(2), Some(2)];
    assert NextValid(s1, 5) == None;
    assert NextValid(s1, 3) == Some(2);
    assert NextValid(s1, 0) == Some(1);
    assert BackwardFilled(s1) == [Some(1), Some(1), Some(1), Some(2), Some(2), None];
    var s3: Series<int> := [None, Some(1), None];
    assert ForwardFilled(s3) == [None, Some(1), Some(1)];
    assert BackwardFilled(s3) == [Some(1), Some(1), None];
  }

  /** Every row of the series strategy-fill test table, forward and backward. */
  lemma SeriesStrategyFillExamples()
    ensures ForwardFilled([None, Some(1), None]) == [None, Some(1), Some(1)]
    ensures ForwardFilled([Some(1), None, None]) == [Some(1), Some(1), Some(1)]
    ensures ForwardFilled<int>([None, None, None]) == [None, None, None]
    ensures ForwardFilled([Some(1), Some(2), Some(3)]) == [Some(1), Some(2), Some(3)]
    ensures ForwardFilled([None, Some(1), None, Some(2), None]) == [None, Some(1), Some(1), Some(2), Some(2)]
    ensures ForwardFilled<int>([]) == []
    ensures ForwardFilled<int>([None]) == [None]
    ensures ForwardFilled([Some(42)]) == [Some(42)]
    ensures BackwardFilled([None, Some(1), None]) == [Some(1), Some(1), None]
    ensures BackwardFilled([Some(1), None, None]) == [Some(1), None, None]
    ensures BackwardFilled<int>([None, None, None]) == [None, None, None]
    ensures BackwardFilled([Some(1), Some(2), Some(3)]) == [Some(1), Some(2), Some(3)]
    ensures BackwardFilled([None, Some(1), None, Some(2), None]) == [Some(1), Some(1), Some(2), Some(2), None]
    ensures BackwardFilled<int>([]) == []
    ensures BackwardFilled<int>([None]) == [None]
    ensures BackwardFilled([Some(42)]) == [Some(42)]
  {
    StrategyFillExamples();
    var s2: Series<int> := [None, Some(1), None, Some(2), None];
    assert ForwardFilled(s2) == [None, Some(1), Some(1), Some(2), Some(2)];
    assert NextValid(s2, 4) == None;
    assert NextValid(s2, 2) == Some(2);
    assert NextValid(s2, 0) == Some(1);
    assert BackwardFilled(s2) == [Some(1), Some(1), Some(2), Some(2), None];
    var s4: Series<int> := [Some(1), None, None];
    assert ForwardFilled(s4) == [Some(1), Some(1), Some(1)];
    assert BackwardFilled(s4) == [Some(1), None, None];
    var s5: Series<int> := [None, None, None];
    assert ForwardFilled(s5) == [None, None, None];
    assert BackwardFilled(s5) == [None, None, None];
    var s6: Series<int> := [Some(1), Some(2), Some(3)];
    assert ForwardFilled(s6) == [Some(1), Some(2), Some(3)];
    assert BackwardFilled(s6) == [Some(1), Some(2), Some(3)];
  }

  // ---------------------------------------------------------------------------
  // The operations

  /** `create_mask_for_index`: a mask as long as the column, true exactly at
      `index`. */
  method CreateMaskForIndex<T>(s: Series<T>, index: nat) returns (mask: seq<bool>)
    requires index < |s|
    ensures |mask| == |s|
    ensures forall k :: 0 <= k < |mask| ==> (mask[k] <==> k == index)
  {
    var maskData := new bool[|s|](_ => false);
    maskData[index] := true;
    mask := maskData[..];
  }

  /** Forward fill: scan left to right carrying the last non-null row seen
      (as a one-row column) and write it into each null row. */
  method FillNullForward<T>(s: Series<T>) returns (r: Series<T>)
    ensures r == ForwardFilled(s)
  {
    var len := |s|;
    if len == 0 {
      return s;
    }
    var result := s;
    var lastValidValue: Option<Series<T>> := None;
    for i := 0 to len
      invariant |result| == len
      invariant forall k :: 0 <= k < i ==> result[k] == ForwardFilled(s)[k]
      invariant forall k :: i <= k < len ==> result[k] == s[k]
      invariant lastValidValue == if LastValid(s, i).Some? then Some([LastValid(s, i)]) else None
    {
      var currentValue := s[i..i + 1];
      assert currentValue == [s[i]];
      var isNull := IsNull(currentValue)[0];
      if isNull {
        if lastValidValue.Some? {
          var fillVal := lastValidValue.value;
          var mask := CreateMaskForIndex(s, i);
          result := IfElse(fillVal, result, mask).value;
        }
      } else {
        lastValidValue := Some(currentValue);
      }
    }
    r := result;
  }

  /** Backward fill: scan right to left carrying the next non-null row seen
      and write it into each null row. */
  method FillNullBackward<T>(s: Series<T>) returns (r: Series<T>)
    ensures r == BackwardFilled(s)
  {
    var len := |s|;
    if len == 0 {
      return s;
    }
    var result := s;
    var nextValidValue: Option<Series<T>> := None;
    for i := len downto 0
      invariant |result| == len
      invariant forall k :: i <= k < len ==> result[k] == BackwardFilled(s)[k]
      invariant forall k :: 0 <= k < i ==> result[k] == s[k]
      invariant nextValidValue == if NextValid(s, i).Some? then Some([NextValid(s, i)]) else None
    {
      var currentValue := s[i..i + 1];
      assert currentValue == [s[i]];
      var isNull := IsNull(currentValue)[0];
      if isNull {
        if nextValidValue.Some? {
          var fillVal := nextValidValue.value;
          var mask := CreateMaskForIndex(s, i);
          result := IfElse(fillVal, result, mask).value;
        }
      } else {
        nextValidValue := Some(currentValue);
      }
    }
    r := result;
  }

  // ---------------------------------------------------------------------------
  // The strategy fills as written. Their loops call `result.if_else(fill_val,
  // mask)`, which keeps `result` at the masked row and writes `fill_val` into
  // every other row: the inverse of `fill_null`'s `self.if_else(fill_value,
  // not_null)`, which keeps `self` where the predicate holds.

  /** A one-row mask of the column's length. */
  function MaskFor(len: nat, index: nat): (m: seq<bool>)
    ensures |m| == len
  {
    seq(len, k requires 0 <= k < len => k == index)
  }

  /** Row `i` has a non-null row before it to fill from, so the forward loop
      calls `if_else` there. */
  predicate ForwardFires<T>(s: Series<T>, i: nat)
    requires i < |s|
  {
    s[i].None? && LastValid(s, i).Some?
  }

  /** Row `i` has a non-null row after it, so the backward loop calls
      `if_else` there. */
  predicate BackwardFires<T>(s: Series<T>, i: nat)
    requires i < |s|
  {
    s[i].None? && NextValid(s, i + 1).Some?
  }

  /** The column after the forward loop as written has visited rows 0..n-1. */
  function ForwardAsWritten<T>(s: Series<T>, n: nat): (r: Series<T>)
    requires n <= |s|
    ensures |r| == |s|
  {
    if n == 0 then s
    else
      var prev := ForwardAsWritten(s, n - 1);
      if ForwardFires(s, n - 1) then IfElse(prev, [LastValid(s, n - 1)], MaskFor(|s|, n - 1)).value
      else prev
  }

  /** The column after the backward loop as written has visited rows
      |s|-1 down to n. */
  function BackwardAsWritten<T>(s: Series<T>, n: nat): (r: Series<T>)
    requires n <= |s|
    ensures |r| == |s|
    decreases |s| - n
  {
    if n == |s| then s
    else
      var prev := BackwardAsWritten(s, n + 1);
      if BackwardFires(s, n) then IfElse(prev, [NextValid(s, n + 1)], MaskFor(|s|, n)).value
      else prev
  }

  /** The last row below `n` at which the forward loop fires. */
  function LastForwardFire<T>(s: Series<T>, n: nat): Option<nat>
    requires n <= |s|
  {
    if n == 0 then None
    else if ForwardFires(s, n - 1) then Some(n - 1)
    else LastForwardFire(s, n - 1)
  }

  /** The last row from `n` on (in the backward loop's order, the least) at
      which the backward loop fires. */
  function LastBackwardFire<T>(s: Series<T>, n: nat): Option<nat>
    requires n <= |s|
    decreases |s| - n
  {
    if n == |s| then None
    else if BackwardFires(s, n) then Some(n)
    else LastBackwardFire(s, n + 1)
  }

  /** What the forward loop as written produces: the input when no null row
      has an earlier non-null row; otherwise, with f the last such null row,
      the value carried at f in every row but f, non-null input rows
      included. */
  lemma {:induction false} ForwardAsWrittenSpreads<T>(s: Series<T>, n: nat)
    requires n <= |s|
    ensures LastForwardFire(s, n).None? ==> ForwardAsWritten(s, n) == s
    ensures LastForwardFire(s, n).Some? ==>
      LastForwardFire(s, n).value < n &&
      forall k :: 0 <= k < |s| && k != LastForwardFire(s, n).value ==>
        ForwardAsWritten(s, n)[k] == LastValid(s, LastForwardFire(s, n).value)
  {
    if n > 0 && !ForwardFires(s, n - 1) {
      ForwardAsWrittenSpreads(s, n - 1);
    }
  }

  /** The backward counterpart: with f the last row the loop fires at, every
      row but f ends up holding the value carried at f. */
  lemma {:induction false} BackwardAsWrittenSpreads<T>(s: Series<T>, n: nat)
    requires n <= |s|
    decreases |s| - n
    ensures LastBackwardFire(s, n).None? ==> BackwardAsWritten(s, n) == s
    ensures LastBackwardFire(s, n).Some? ==>
      n <= LastBackwardFire(s, n).value < |s| &&
      forall k :: 0 <= k < |s| && k != LastBackwardFire(s, n).value ==>
        BackwardAsWritten(s, n)[k] == NextValid(s, LastBackwardFire(s, n).value + 1)
  {
    if n < |s| && !BackwardFires(s, n) {
      BackwardAsWrittenSpreads(s, n + 1);
    }
  }

  /** On [null, 1, null] the forward loop as written returns [1, 1, null]
      where forward fill gives [null, 1, 1]. */
  lemma ForwardAsWrittenCounterexample()
    ensures ForwardAsWritten([None, Some(1), None], 3) == [Some(1), Some(1), None]
    ensures ForwardFilled([None, Some(1), None]) == [None, Some(1), Some(1)]
  {
    var s: Series<int> := [None, Some(1), None];
    assert !ForwardFires(s, 0) && !ForwardFires(s, 1) && ForwardFires(s, 2);
    assert ForwardAsWritten(s, 2) == s;
    assert ForwardFilled(s) == [None, Some(1), Some(1)];
  }

  /** On [null, 1, null] the backward loop as written returns [null, 1, 1]
      where backward fill gives [1, 1, null]. */
  lemma BackwardAsWrittenCounterexample()
    ensures BackwardAsWritten([None, Some(1), None], 0) == [None, Some(1), Some(1)]
    ensures BackwardFilled([None, Some(1), None]) == [Some(1), Some(1), None]
  {
    var s: Series<int> := [None, Some(1), None];
    assert !BackwardFires(s, 2) && !BackwardFires(s, 1) && BackwardFires(s, 0);
    assert BackwardAsWritten(s, 1) == s;
    assert BackwardFilled(s) == [Some(1), Some(1), None];
  }

  /** `fill_null_forward` as written. */
  method FillNullForwardAsWritten<T>(s: Series<T>) returns (r: Series<T>)
    ensures r == ForwardAsWritten(s, |s|)
  {
    var len := |s|;
    if len == 0 {
      return s;
    }
    var result := s;
    var lastValidValue: Option<Series<T>> := None;
    for i := 0 to len
      invariant result == ForwardAsWritten(s, i)
      invariant lastValidValue == if LastValid(s, i).Some? then Some([LastValid(s, i)]) else None
    {
      var currentValue := s[i..i + 1];
      assert currentValue == [s[i]];
      var isNull := IsNull(currentValue)[0];
      if isNull {
        if lastValidValue.Some? {
          var fillVal := lastValidValue.value;
          var mask := CreateMaskForIndex(s, i);
          assert mask == MaskFor(len, i);
          result := IfElse(result, fillVal, mask).value;
        }
      } else {
        lastValidValue := Some(currentValue);
      }
    }
    r := result;
  }

  /** `fill_null_backward` as written. */
  method FillNullBackwardAsWritten<T>(s: Series<T>) returns (r: Series<T>)
    ensures r == BackwardAsWritten(s, 0)
  {
    var len := |s|;
    if len == 0 {
      return s;
    }
    var result := s;
    var nextValidValue: Option<Series<T>> := None;
    for i := len downto 0
      invariant result == BackwardAsWritten(s, i)
      invariant nextValidValue == if NextValid(s, i).Some? then Some([NextValid(s, i)]) else None
    {
      var currentValue := s[i..i + 1];
      assert currentValue == [s[i]];
      var isNull := IsNull(currentValue)[0];
      if isNull {
        if nextValidValue.Some? {
          var fillVal := nextValidValue.value;
          var mask := CreateMaskForIndex(s, i);
          assert mask == MaskFor(len, i);
          result := IfElse(result, fillVal, mask).value;
        }
      } else {
        nextValidValue := Some(currentValue);
      }
    }
    r := result;
  }

  /** `fill_null_with_strategy`: forward or backward fill. */
  method FillNullWithStrategy<T>(s: Series<T>, strategy: FillNullStrategy) returns (r: Series<T>)
    ensures strategy == Forward ==> r == ForwardFilled(s)
    ensures strategy == Backward ==> r == BackwardFilled(s)
  {
    match strategy
    case Forward => r := FillNullForward(s);
    case Backward => r := FillNullBackward(s);
  }
}
