/**
 The sign-splitting preprocessor to_positive of
 bindsnet/encoding/preprocessing.py: the positive part of a signed tensor and
 the magnitude of its negative part, stacked along a new axis so that encoders
 defined only for non-negative magnitudes can consume signed data.
 */
module Preprocessing {
  import opened Wrappers
  import opened Tensors

  /** torch.clamp(x, min=lo) on one element: the larger of x and lo. */
  function ClampMin(x: real, lo: real): (r: real)
    ensures r >= lo && r >= x && (r == x || r == lo)
  {
    if x < lo then lo else x
  }

  /** torch.clamp(x, max=hi) on one element: the smaller of x and hi. */
  function ClampMax(x: real, hi: real): (r: real)
    ensures r <= hi && r <= x && (r == x || r == hi)
  {
    if x > hi then hi else x
  }

  /** torch.abs on one element. */
  function Abs(x: real): (r: real)
    ensures r >= 0.0 && (r == x || r == -x)
  {
    if x < 0.0 then -x else x
  }

  /** The element-wise positive part, inputs.clamp(min=0). */
  function PositivePart(x: real): (r: real)
    ensures r >= 0.0 && r >= x && (r == x || r == 0.0)
  {
    ClampMin(x, 0.0)
  }

  /** The element-wise negative part, inputs.clamp(max=0). */
  function NegativePart(x: real): (r: real)
    ensures r <= 0.0 && r <= x && (r == x || r == 0.0)
  {
    ClampMax(x, 0.0)
  }

  /** Reference maximum of two reals, used to state what the two halves hold. */
  function Max(x: real, y: real): real
  {
    if x >= y then x else y
  }

  /**
   to_positive(inpts, dim=2): clamp at 0 from below for the positive part,
   clamp at 0 from above and take the absolute value for the negative part,
   and stack the two along a new axis at `dim`. The only failure is the
   IndexError torch.stack raises for a `dim` outside [-(n + 1), n], where n
   is the rank of `inpts`; the new axis sits at `dim`, counted from the end
   when negative.
   */
  function ToPositive(inpts: Tensor, dim: int := 2): (r: Result<Tensor, StackError>)
    ensures r.Failure? <==> !(-(|inpts.shape| + 1) <= dim <= |inpts.shape|)
    ensures r.Failure? ==> r.error == DimensionOutOfRange(dim, -(|inpts.shape| + 1), |inpts.shape|)
    ensures r.Success? ==>
              var d := if dim < 0 then dim + |inpts.shape| + 1 else dim;
              d == StackAxis(dim, |inpts.shape|).value && r.value.shape == Insert(inpts.shape, d, 2)
  {
    var positivePart := MapElements(inpts, PositivePart);
    var negativePart := MapElements(inpts, NegativePart);
    Stack(positivePart, MapElements(negativePart, Abs), dim)
  }

  /** The position of the new axis in the output of ToPositive. */
  function NewAxis(inpts: Tensor, dim: int): (d: nat)
    requires ToPositive(inpts, dim).Success?
    ensures d <= |inpts.shape| && d < |ToPositive(inpts, dim).value.shape|
    ensures ToPositive(inpts, dim).value.shape[d] == 2
  {
    StackAxis(dim, |inpts.shape|).value
  }

  /** The k-th stacked half of the output of ToPositive (0: positive part, 1: negative part). */
  function Half(inpts: Tensor, dim: int, k: nat): (r: Tensor)
    requires ToPositive(inpts, dim).Success? && k < 2
    ensures r.shape == inpts.shape
  {
    var out := ToPositive(inpts, dim).value;
    var d := NewAxis(inpts, dim);
    assert out.shape[..d] + out.shape[d + 1..] == inpts.shape;
    Select(out, d, k)
  }

  /** The positive part of input element idx sits at idx with 0 inserted at the new axis. */
  lemma PositiveAt(inpts: Tensor, dim: int, idx: seq<nat>)
    requires ToPositive(inpts, dim).Success? && InBounds(inpts.shape, idx)
    ensures var out, d := ToPositive(inpts, dim).value, NewAxis(inpts, dim);
            var pos, i := Offset(out.shape, Insert(idx, d, 0)), Offset(inpts.shape, idx);
            i < |inpts.data| && pos < |out.data| && out.data[pos] == Max(inpts.data[i], 0.0)
  {
    var positivePart := MapElements(inpts, PositivePart);
    var negativePart := MapElements(MapElements(inpts, NegativePart), Abs);
    StackAtFirst(positivePart, negativePart, dim, idx);
  }

  /** The magnitude of the negative part of input element idx sits at idx with 1 inserted at the new axis. */
  lemma NegativeAt(inpts: Tensor, dim: int, idx: seq<nat>)
    requires ToPositive(inpts, dim).Success? && InBounds(inpts.shape, idx)
    ensures var out, d := ToPositive(inpts, dim).value, NewAxis(inpts, dim);
            var neg, i := Offset(out.shape, Insert(idx, d, 1)), Offset(inpts.shape, idx);
            i < |inpts.data| && neg < |out.data| && out.data[neg] == Max(-inpts.data[i], 0.0)
  {
    var positivePart := MapElements(inpts, PositivePart);
    var negativePart := MapElements(MapElements(inpts, NegativePart), Abs);
    StackAtSecond(positivePart, negativePart, dim, idx);
  }

  /**
   Element by element: the output at idx with 0 inserted at the new axis is
   max(x, 0), and at idx with 1 inserted is max(-x, 0), for the input
   element x at idx.
   */
  lemma ToPositiveAt(inpts: Tensor, dim: int, idx: seq<nat>)
    requires ToPositive(inpts, dim).Success? && InBounds(inpts.shape, idx)
    ensures var out, d := ToPositive(inpts, dim).value, NewAxis(inpts, dim);
            var pos, neg := Offset(out.shape, Insert(idx, d, 0)), Offset(out.shape, Insert(idx, d, 1));
            var i := Offset(inpts.shape, idx);
            && i < |inpts.data| && pos < |out.data| && neg < |out.data|
            && out.data[pos] == Max(inpts.data[i], 0.0)
            && out.data[neg] == Max(-inpts.data[i], 0.0)
  {
    PositiveAt(inpts, dim, idx);
    NegativeAt(inpts, dim, idx);
  }

  /**
   The two halves along the new axis have the input's shape; the first holds
   max(x, 0) and the second max(-x, 0) for every input element x.
   */
  lemma ToPositiveHalves(inpts: Tensor, dim: int)
    requires ToPositive(inpts, dim).Success?
    ensures forall i :: 0 <= i < |inpts.data| ==>
              Half(inpts, dim, 0).data[i] == Max(inpts.data[i], 0.0)
              && Half(inpts, dim, 1).data[i] == Max(-inpts.data[i], 0.0)
  {
    var positivePart := MapElements(inpts, PositivePart);
    var negativePart := MapElements(MapElements(inpts, NegativePart), Abs);
    StackSelect(positivePart, negativePart, dim, 0);
    StackSelect(positivePart, negativePart, dim, 1);
  }

  /** No magnitude is lost: the first half minus the second half is the input. */
  lemma ToPositiveRoundTrip(inpts: Tensor, dim: int)
    requires ToPositive(inpts, dim).Success?
    ensures Subtract(Half(inpts, dim, 0), Half(inpts, dim, 1)) == inpts
  {
    var h0, h1 := Half(inpts, dim, 0), Half(inpts, dim, 1);
    ToPositiveHalves(inpts, dim);
    var r := Subtract(h0, h1);
    forall i | 0 <= i < |inpts.data| ensures r.data[i] == inpts.data[i] {
      assert r.data[i] == Max(inpts.data[i], 0.0) - Max(-inpts.data[i], 0.0);
    }
    assert r.data == inpts.data;
  }

  /** Every element of the output is non-negative. */
  lemma ToPositiveNonNegative(inpts: Tensor, dim: int)
    requires ToPositive(inpts, dim).Success?
    ensures forall j :: 0 <= j < |ToPositive(inpts, dim).value.data| ==> ToPositive(inpts, dim).value.data[j] >= 0.0
  {
    var positivePart := MapElements(inpts, PositivePart);
    var negativePart := MapElements(MapElements(inpts, NegativePart), Abs);
    var out := ToPositive(inpts, dim).value;
    StackMultiset(positivePart, negativePart, dim);
    forall j | 0 <= j < |out.data| ensures out.data[j] >= 0.0 {
      assert out.data[j] in multiset(positivePart.data) + multiset(negativePart.data);
    }
  }

  /** At each position at most one of the two halves is non-zero. */
  lemma ToPositiveExclusive(inpts: Tensor, dim: int)
    requires ToPositive(inpts, dim).Success?
    ensures forall i :: 0 <= i < |inpts.data| ==> Half(inpts, dim, 0).data[i] == 0.0 || Half(inpts, dim, 1).data[i] == 0.0
  {
    ToPositiveHalves(inpts, dim);
  }

  /** A non-negative input comes back unchanged as the first half, over an all-zero second half. */
  lemma ToPositiveOfNonNegative(inpts: Tensor, dim: int)
    requires ToPositive(inpts, dim).Success?
    requires forall i :: 0 <= i < |inpts.data| ==> inpts.data[i] >= 0.0
    ensures Half(inpts, dim, 0) == inpts
    ensures forall i :: 0 <= i < |inpts.data| ==> Half(inpts, dim, 1).data[i] == 0.0
  {
    ToPositiveHalves(inpts, dim);
    assert Half(inpts, dim, 0).data == inpts.data;
  }

  /** With the default dim = 2, to_positive accepts exactly the inputs of rank at least 2. */
  lemma ToPositiveDefaultDim(inpts: Tensor)
    ensures ToPositive(inpts).Success? <==> |inpts.shape| >= 2
    ensures ToPositive(inpts).Success? ==> NewAxis(inpts, 2) == 2
  {
  }

  /** A 1 x 2 input [[-3, 4]] with the default dim gives [[[0, 3], [4, 0]]] of shape 1 x 2 x 2. */
  lemma ToPositiveExample()
    ensures ToPositive(Array([1, 2], [-3.0, 4.0])) == Success(Array([1, 2, 2], [0.0, 3.0, 4.0, 0.0]))
  {
    var inpts: Tensor := Array([1, 2], [-3.0, 4.0]);
    var positivePart := MapElements(inpts, PositivePart);
    var negativePart := MapElements(MapElements(inpts, NegativePart), Abs);
    assert positivePart.data == [0.0, 4.0];
    assert negativePart.data == [3.0, 0.0];
    assert [1, 2][..2] == [1, 2] && [1, 2][2..] == [];
    assert Interleave([], [], 0, 1) == [];
    assert Interleave([4.0], [0.0], 1, 1) == [4.0, 0.0];
    assert Interleave([0.0, 4.0], [3.0, 0.0], 2, 1) == [0.0, 3.0, 4.0, 0.0];
    assert Product([1, 2]) == 2 && Product([]) == 1;
    assert Insert([1, 2], 2, 2) == [1, 2, 2];
    assert StackAxis(2, 2) == Some(2);
    assert Stack(positivePart, negativePart, 2)
        == Success(Array([1, 2, 2], Interleave([0.0, 4.0], [3.0, 0.0], 2, 1)));
    assert ToPositive(inpts) == Stack(positivePart, negativePart, 2);
  }
}
