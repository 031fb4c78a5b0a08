/** The column kernels the null-filling operations are built from, on the
    abstraction of a column as a sequence of optional values: `is_null`,
    `not_null` and the broadcasting `if_else`. */
module SeriesKernels {
  import opened Wrappers

  /** A column: one optional value per row, `None` being a null. */
  type Series<T> = seq<Option<T>>

  /** The operands of an element-wise kernel have incompatible lengths. */
  datatype KernelError = LengthMismatch

  /** The validity mask: true exactly at the null rows. */
  function IsNull<T>(s: Series<T>): (m: seq<bool>)
    ensures |m| == |s|
    ensures forall i :: 0 <= i < |s| ==> (m[i] <==> s[i].None?)
  {
    seq(|s|, i requires 0 <= i < |s| => s[i].None?)
  }

  /** The complement of `IsNull`. */
  function NotNull<T>(s: Series<T>): (m: seq<bool>)
    ensures |m| == |s|
    ensures forall i :: 0 <= i < |s| ==> (m[i] <==> s[i].Some?)
  {
    seq(|s|, i requires 0 <= i < |s| => s[i].Some?)
  }

  /** The length of an element-wise result over operands of lengths `a`, `b`
      and `c`: operands of length 1 are broadcast, every other operand must
      have the common length. */
  function BroadcastLen(a: nat, b: nat, c: nat): (r: Option<nat>)
    ensures r.Some? ==> (a == 1 || a == r.value) && (b == 1 || b == r.value) && (c == 1 || c == r.value)
    ensures r.Some? && (a != 1 || b != 1 || c != 1) ==> r.value != 1
    ensures (a == b == c) ==> r == Some(a)
    ensures a == 1 && b == 1 && c == 1 ==> r == Some(1)
  {
    var n := if a != 1 then a else if b != 1 then b else c;
    if (a == 1 || a == n) && (b == 1 || b == n) && (c == 1 || c == n) then Some(n) else None
  }

  /** Row `k` of an operand, a length-1 operand standing for every row. */
  function At<T>(s: seq<T>, k: nat): T
    requires k < |s| || |s| == 1
  {
    if |s| == 1 then s[0] else s[k]
  }

  /** `ifTrue.if_else(ifFalse, pred)`: row by row, the row of `ifTrue`
      where the predicate holds and the row of `ifFalse` where it does not. */
  function IfElse<T>(ifTrue: Series<T>, ifFalse: Series<T>, pred: seq<bool>): (r: Result<Series<T>, KernelError>)
    ensures r.Ok? <==> BroadcastLen(|ifTrue|, |ifFalse|, |pred|).Some?
    ensures r.Ok? ==> |r.value| == BroadcastLen(|ifTrue|, |ifFalse|, |pred|).value
    ensures r.Ok? ==> forall k :: 0 <= k < |r.value| ==>
      r.value[k] == (if At(pred, k) then At(ifTrue, k) else At(ifFalse, k))
  {
    var n := BroadcastLen(|ifTrue|, |ifFalse|, |pred|);
    if n.None? then Err(LengthMismatch)
    else Ok(seq(n.value, k requires 0 <= k < n.value => if At(pred, k) then At(ifTrue, k) else At(ifFalse, k)))
  }
}
