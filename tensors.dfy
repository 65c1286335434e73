/**
 The part of torch's tensor model that the encoding package relies on: dense
 tensors of reals stored in row-major order, element-wise operations, and
 torch.stack of two equally shaped tensors along a newly inserted axis.
 */
module Tensors {
  import opened Wrappers

  /** Number of elements of a tensor of the given shape. */
  function Product(shape: seq<nat>): nat
  {
    if shape == [] then 1 else shape[0] * Product(shape[1..])
  }

  datatype Array = Array(shape: seq<nat>, data: seq<real>)

  /** A tensor: a shape and exactly Product(shape) elements in row-major order. */
  type Tensor = a: Array | |a.data| == Product(a.shape) witness Array([], [0.0])

  /** `idx` is a valid multi-index into a tensor of shape `shape`. */
  predicate InBounds(shape: seq<nat>, idx: seq<nat>)
  {
    |idx| == |shape| && forall j :: 0 <= j < |idx| ==> idx[j] < shape[j]
  }

  /** Row-major position of the multi-index `idx` in a tensor of shape `shape`. */
  function Offset(shape: seq<nat>, idx: seq<nat>): nat
    requires |idx| == |shape|
  {
    if shape == [] then 0 else idx[0] * Product(shape[1..]) + Offset(shape[1..], idx[1..])
  }

  lemma {:induction false} ProductConcat(s1: seq<nat>, s2: seq<nat>)
    ensures Product(s1 + s2) == Product(s1) * Product(s2)
  {
    if s1 == [] {
      assert s1 + s2 == s2;
    } else {
      assert (s1 + s2)[1..] == s1[1..] + s2;
      ProductConcat(s1[1..], s2);
      MulAssoc(s1[0], Product(s1[1..]), Product(s2));
    }
  }

  lemma MulAssoc(x: int, y: int, z: int)
    ensures x * (y * z) == (x * y) * z
  {
  }

  /** Splitting a shape at axis `d` splits its element count into a product. */
  lemma ProductSplit(shape: seq<nat>, d: nat)
    requires d <= |shape|
    ensures Product(shape) == Product(shape[..d]) * Product(shape[d..])
  {
    assert shape == shape[..d] + shape[d..];
    ProductConcat(shape[..d], shape[d..]);
  }

  /** Inserting an axis of length 2 doubles the element count. */
  lemma ProductInsert(shape: seq<nat>, d: nat)
    requires d <= |shape|
    ensures Product(shape[..d] + [2] + shape[d..]) == 2 * Product(shape)
    ensures Product(shape[..d] + [2] + shape[d..]) == 2 * (Product(shape[..d]) * Product(shape[d..]))
  {
    var s1, s2 := shape[..d], shape[d..];
    assert s1 + [2] + s2 == s1 + ([2] + s2);
    ProductConcat(s1, [2] + s2);
    assert ([2] + s2)[1..] == s2;
    var p1, p2 := Product(s1), Product(s2);
    assert Product([2] + s2) == 2 * p2;
    ProductSplit(shape, d);
    MulTwo(p1, p2);
  }

  lemma MulTwo(p: nat, q: nat)
    ensures p * (2 * q) == 2 * (p * q)
  {
  }

  lemma MulMonotone(a: nat, b: nat, c: nat)
    requires a <= b
    ensures a * c <= b * c
  {
  }

  /** A place inside block `o` of `n` blocks of `size` elements lies before the end. */
  lemma BlockBound(o: nat, n: nat, size: nat, i: nat)
    requires o < n && i < size
    ensures o * size + i < n * size
  {
    MulMonotone(o + 1, n, size);
    assert (o + 1) * size == o * size + size;
  }

  /** Every in-bounds multi-index has a position inside the data. */
  lemma {:induction false} OffsetBound(shape: seq<nat>, idx: seq<nat>)
    requires InBounds(shape, idx)
    ensures Offset(shape, idx) < Product(shape)
  {
    if shape != [] {
      assert InBounds(shape[1..], idx[1..]) by {
        forall j | 0 <= j < |idx[1..]| ensures idx[1..][j] < shape[1..][j] {
          assert idx[1..][j] == idx[j + 1];
        }
      }
      OffsetBound(shape[1..], idx[1..]);
      var p := Product(shape[1..]);
      assert Offset(shape, idx) == idx[0] * p + Offset(shape[1..], idx[1..]);
      assert Product(shape) == shape[0] * p;
      BlockBound(idx[0], shape[0], p, Offset(shape[1..], idx[1..]));
    }
  }

  /** Row-major order is lexicographic: the leading axes select a block, the trailing ones a place in it. */
  lemma {:induction false} OffsetConcat(s1: seq<nat>, s2: seq<nat>, i1: seq<nat>, i2: seq<nat>)
    requires |i1| == |s1| && |i2| == |s2|
    ensures Offset(s1 + s2, i1 + i2) == Offset(s1, i1) * Product(s2) + Offset(s2, i2)
  {
    if s1 == [] {
      assert s1 + s2 == s2 && i1 + i2 == i2;
    } else {
      assert (s1 + s2)[1..] == s1[1..] + s2;
      assert (i1 + i2)[1..] == i1[1..] + i2;
      OffsetConcat(s1[1..], s2, i1[1..], i2);
      ProductConcat(s1[1..], s2);
      Regroup(i1[0], Product(s1[1..]), Product(s2), Offset(s1[1..], i1[1..]), Offset(s2, i2));
    }
  }

  lemma Regroup(x: int, p1: int, p2: int, o1: int, o2: int)
    ensures x * (p1 * p2) + (o1 * p2 + o2) == (x * p1 + o1) * p2 + o2
  {
  }

  /** An element-wise operation such as torch.clamp or torch.abs. */
  function MapElements(t: Tensor, f: real -> real): (r: Tensor)
    ensures r.shape == t.shape
    ensures forall i :: 0 <= i < |t.data| ==> r.data[i] == f(t.data[i])
  {
    Array(t.shape, seq(|t.data|, i requires 0 <= i < |t.data| => f(t.data[i])))
  }

  /** Element-wise difference of two equally shaped tensors (torch's `a - b`). */
  function Subtract(a: Tensor, b: Tensor): (r: Tensor)
    requires a.shape == b.shape
    ensures r.shape == a.shape
    ensures forall i :: 0 <= i < |a.data| ==> r.data[i] == a.data[i] - b.data[i]
  {
    Array(a.shape, seq(|a.data|, i requires 0 <= i < |a.data| => a.data[i] - b.data[i]))
  }

  /** Splitting off the first of `n` blocks of `size` elements. */
  lemma Peel(n: nat, size: nat)
    requires n > 0
    ensures 0 <= (n - 1) * size && n * size == size + (n - 1) * size
  {
  }

  /**
   Row-major data of two tensors stacked along a new axis, where both are
   viewed as `outer` blocks of `inner` elements: block o of `a`, then block o
   of `b`, for o in order.
   */
  function Interleave(a: seq<real>, b: seq<real>, outer: nat, inner: nat): (r: seq<real>)
    requires |a| == outer * inner && |b| == outer * inner
    ensures |r| == 2 * (outer * inner)
    decreases outer
  {
    if outer == 0 then []
    else
      Peel(outer, inner);
      a[..inner] + b[..inner] + Interleave(a[inner..], b[inner..], outer - 1, inner)
  }

  /** The interleaving starts with the first block of each operand ... */
  lemma InterleaveHead(a: seq<real>, b: seq<real>, outer: nat, inner: nat, i: nat)
    requires |a| == outer * inner && |b| == outer * inner
    requires 0 < outer && i < inner
    ensures inner + i < 2 * (outer * inner) && i < |a|
    ensures Interleave(a, b, outer, inner)[i] == a[i]
    ensures Interleave(a, b, outer, inner)[inner + i] == b[i]
  {
    Peel(outer, inner);
  }

  /** ... and continues with the interleaving of the remaining blocks. */
  lemma InterleaveTail(a: seq<real>, b: seq<real>, outer: nat, inner: nat, q: nat)
    requires |a| == outer * inner && |b| == outer * inner
    requires 0 < outer && q < 2 * ((outer - 1) * inner)
    ensures |a[inner..]| == (outer - 1) * inner && |b[inner..]| == (outer - 1) * inner
    ensures 2 * inner + q < 2 * (outer * inner)
    ensures Interleave(a, b, outer, inner)[2 * inner + q]
            == Interleave(a[inner..], b[inner..], outer - 1, inner)[q]
  {
    Peel(outer, inner);
  }

  lemma DropAt(s: seq<real>, n: nat, j: nat)
    requires n + j < |s|
    ensures s[n..][j] == s[n + j]
  {
  }

  /**
   Element i of block o of `a`, which starts at `start`, sits at place i of
   the first half of output block o.
   */
  lemma {:induction false} InterleaveAtFirst(a: seq<real>, b: seq<real>, outer: nat, inner: nat, o: nat, start: nat, i: nat)
    requires |a| == outer * inner && |b| == outer * inner
    requires o < outer && i < inner && start == o * inner
    ensures start + i < |a| && 2 * start + i < |Interleave(a, b, outer, inner)|
    ensures Interleave(a, b, outer, inner)[2 * start + i] == a[start + i]
    decreases o
  {
    BlockBound(o, outer, inner, i);
    if o == 0 {
      InterleaveHead(a, b, outer, inner, i);
    } else {
      Peel(outer, inner);
      Peel(o, inner);
      InterleaveAtFirst(a[inner..], b[inner..], outer - 1, inner, o - 1, start - inner, i);
      InterleaveTail(a, b, outer, inner, 2 * (start - inner) + i);
      DropAt(a, inner, start - inner + i);
    }
  }

  /**
   Element i of block o of `b`, which starts at `start`, sits at place i of
   the second half of output block o.
   */
  lemma {:induction false} InterleaveAtSecond(a: seq<real>, b: seq<real>, outer: nat, inner: nat, o: nat, start: nat, i: nat)
    requires |a| == outer * inner && |b| == outer * inner
    requires o < outer && i < inner && start == o * inner
    ensures start + i < |b| && 2 * start + inner + i < |Interleave(a, b, outer, inner)|
    ensures Interleave(a, b, outer, inner)[2 * start + inner + i] == b[start + i]
    decreases o
  {
    BlockBound(o, outer, inner, i);
    if o == 0 {
      InterleaveHead(a, b, outer, inner, i);
    } else {
      Peel(outer, inner);
      Peel(o, inner);
      InterleaveAtSecond(a[inner..], b[inner..], outer - 1, inner, o - 1, start - inner, i);
      InterleaveTail(a, b, outer, inner, 2 * (start - inner) + inner + i);
      DropAt(b, inner, start - inner + i);
    }
  }

  /** Stacking only rearranges: the result holds exactly the elements of both operands. */
  lemma {:induction false} InterleaveMultiset(a: seq<real>, b: seq<real>, outer: nat, inner: nat)
    requires |a| == outer * inner && |b| == outer * inner
    ensures multiset(Interleave(a, b, outer, inner)) == multiset(a) + multiset(b)
    decreases outer
  {
    if outer != 0 {
      Peel(outer, inner);
      InterleaveMultiset(a[inner..], b[inner..], outer - 1, inner);
      assert a == a[..inner] + a[inner..];
      assert b == b[..inner] + b[inner..];
    }
  }

  /** The k-th of the two blocks of `inner` elements inside each of `outer` groups. */
  function Slice(s: seq<real>, outer: nat, inner: nat, k: nat): (r: seq<real>)
    requires k < 2 && |s| == 2 * (outer * inner)
    ensures |r| == outer * inner
    decreases outer
  {
    if outer == 0 then []
    else
      Peel(outer, inner);
      s[k * inner..(k + 1) * inner] + Slice(s[2 * inner..], outer - 1, inner, k)
  }

  /** Taking the k-th slice of an interleaving gives back the k-th operand. */
  lemma {:induction false} SliceInterleave(a: seq<real>, b: seq<real>, outer: nat, inner: nat, k: nat)
    requires |a| == outer * inner && |b| == outer * inner && k < 2
    ensures Slice(Interleave(a, b, outer, inner), outer, inner, k) == if k == 0 then a else b
    decreases outer
  {
    if outer != 0 {
      Peel(outer, inner);
      var s := Interleave(a, b, outer, inner);
      assert s == a[..inner] + b[..inner] + Interleave(a[inner..], b[inner..], outer - 1, inner);
      assert s[2 * inner..] == Interleave(a[inner..], b[inner..], outer - 1, inner);
      SliceInterleave(a[inner..], b[inner..], outer - 1, inner, k);
      if k == 0 {
        assert s[0..inner] == a[..inner];
        assert a == a[..inner] + a[inner..];
      } else {
        assert s[inner..2 * inner] == b[..inner];
        assert b == b[..inner] + b[inner..];
      }
    }
  }

  /**
   The axis at which torch.stack inserts the new axis into a result of rank
   `rank + 1`: `dim` must lie in [-(rank + 1), rank], and a negative `dim`
   counts from the end.
   */
  function StackAxis(dim: int, rank: nat): (r: Option<nat>)
    ensures r.Some? <==> -(rank + 1) <= dim <= rank
    ensures r.Some? ==> r.value <= rank && (r.value == dim || r.value == dim + (rank + 1))
  {
    if dim < -(rank + 1) || rank < dim then None
    else if dim < 0 then Some(dim + rank + 1)
    else Some(dim)
  }

  /** The IndexError torch.stack raises for a `dim` outside [low, high]. */
  datatype StackError = DimensionOutOfRange(dim: int, low: int, high: int)

  /**
   torch.stack((a, b), dim) for two tensors of the same shape: it fails exactly
   for a `dim` outside [-(n + 1), n], reporting that `dim`, and otherwise
   inserts an axis of length 2 at the new axis.
   */
  function Stack(a: Tensor, b: Tensor, dim: int): (r: Result<Tensor, StackError>)
    requires a.shape == b.shape
    ensures r.Failure? <==> !(-(|a.shape| + 1) <= dim <= |a.shape|)
    ensures r.Failure? ==> r.error == DimensionOutOfRange(dim, -(|a.shape| + 1), |a.shape|)
    ensures r.Success? ==> r.value.shape == Insert(a.shape, StackAxis(dim, |a.shape|).value, 2)
  {
    var rank := |a.shape|;
    match StackAxis(dim, rank)
    case None => Failure(DimensionOutOfRange(dim, -(rank + 1), rank))
    case Some(d) =>
      ProductSplit(a.shape, d);
      ProductInsert(a.shape, d);
      Success(Array(Insert(a.shape, d, 2),
                    Interleave(a.data, b.data, Product(a.shape[..d]), Product(a.shape[d..]))))
  }

  /** `s` with `x` inserted before position d. */
  function Insert(s: seq<nat>, d: nat, x: nat): (r: seq<nat>)
    requires d <= |s|
    ensures |r| == |s| + 1 && r[d] == x
    ensures forall j :: 0 <= j < d ==> r[j] == s[j]
    ensures forall j :: d < j < |r| ==> r[j] == s[j - 1]
  {
    s[..d] + [x] + s[d..]
  }

  /** Row-major position of index k on a new axis of length 2 placed between two groups of axes. */
  lemma OffsetMiddle(s1: seq<nat>, s2: seq<nat>, i1: seq<nat>, i2: seq<nat>, k: nat)
    requires |i1| == |s1| && |i2| == |s2|
    ensures Offset(s1 + ([2] + s2), i1 + ([k] + i2))
            == Offset(s1, i1) * (2 * Product(s2)) + (k * Product(s2) + Offset(s2, i2))
  {
    assert ([2] + s2)[1..] == s2;
    assert ([k] + i2)[1..] == i2;
    OffsetConcat(s1, [2] + s2, i1, [k] + i2);
  }

  /**
   Row-major positions after inserting an axis of length 2 at d: the axes
   before d select a block of twice the old size, and index k of the new axis
   selects its half.
   */
  lemma OffsetInsert(shape: seq<nat>, idx: seq<nat>, d: nat)
    requires |idx| == |shape| && d <= |shape|
    ensures var outer, inner := Offset(shape[..d], idx[..d]), Offset(shape[d..], idx[d..]);
            var size := Product(shape[d..]);
            && Offset(shape, idx) == outer * size + inner
            && Offset(Insert(shape, d, 2), Insert(idx, d, 0)) == 2 * (outer * size) + inner
            && Offset(Insert(shape, d, 2), Insert(idx, d, 1)) == 2 * (outer * size) + size + inner
  {
    var s1, s2, i1, i2 := shape[..d], shape[d..], idx[..d], idx[d..];
    SplitConcat(shape, d, 2);
    SplitConcat(idx, d, 0);
    SplitConcat(idx, d, 1);
    OffsetConcat(s1, s2, i1, i2);
    OffsetMiddle(s1, s2, i1, i2, 0);
    OffsetMiddle(s1, s2, i1, i2, 1);
    MulTwo(Offset(s1, i1), Product(s2));
  }

  lemma SplitConcat(s: seq<nat>, d: nat, x: nat)
    requires d <= |s|
    ensures s == s[..d] + s[d..]
    ensures Insert(s, d, x) == s[..d] + ([x] + s[d..])
  {
  }

  lemma InsertInBounds(shape: seq<nat>, idx: seq<nat>, d: nat, k: nat)
    requires InBounds(shape, idx) && d <= |shape| && k < 2
    ensures InBounds(Insert(shape, d, 2), Insert(idx, d, k))
  {
    var s, at := Insert(shape, d, 2), Insert(idx, d, k);
    forall j | 0 <= j < |at| ensures at[j] < s[j] {
      if j < d {
        assert at[j] == idx[j] && s[j] == shape[j];
      } else if j > d {
        assert at[j] == idx[j - 1] && s[j] == shape[j - 1];
      }
    }
  }

  lemma SplitInBounds(shape: seq<nat>, idx: seq<nat>, d: nat)
    requires InBounds(shape, idx) && d <= |shape|
    ensures InBounds(shape[..d], idx[..d]) && InBounds(shape[d..], idx[d..])
  {
    forall j | 0 <= j < d ensures idx[..d][j] < shape[..d][j] { assert idx[..d][j] == idx[j]; }
    forall j | 0 <= j < |idx| - d ensures idx[d..][j] < shape[d..][j] { assert idx[d..][j] == idx[d + j]; }
  }

  /** InterleaveAtFirst for positions given by name, so callers need not unfold them. */
  lemma InterleaveAtFirstAt(a: seq<real>, b: seq<real>, outer: nat, inner: nat, o: nat, i: nat, pos: int, src: int)
    requires |a| == outer * inner && |b| == outer * inner
    requires o < outer && i < inner
    requires pos == 2 * (o * inner) + i && src == o * inner + i
    ensures 0 <= src < |a| && 0 <= pos < |Interleave(a, b, outer, inner)|
    ensures Interleave(a, b, outer, inner)[pos] == a[src]
  {
    InterleaveAtFirst(a, b, outer, inner, o, o * inner, i);
  }

  /** InterleaveAtSecond for positions given by name, so callers need not unfold them. */
  lemma InterleaveAtSecondAt(a: seq<real>, b: seq<real>, outer: nat, inner: nat, o: nat, i: nat, pos: int, src: int)
    requires |a| == outer * inner && |b| == outer * inner
    requires o < outer && i < inner
    requires pos == 2 * (o * inner) + inner + i && src == o * inner + i
    ensures 0 <= src < |b| && 0 <= pos < |Interleave(a, b, outer, inner)|
    ensures Interleave(a, b, outer, inner)[pos] == b[src]
  {
    InterleaveAtSecond(a, b, outer, inner, o, o * inner, i);
  }

  /** Interleaving at axis d puts element idx of `a` at idx with 0 inserted at d. */
  lemma InterleaveOffsetFirst(a: seq<real>, b: seq<real>, shape: seq<nat>, idx: seq<nat>, d: nat)
    requires InBounds(shape, idx) && d <= |shape|
    requires |a| == Product(shape[..d]) * Product(shape[d..]) && |b| == |a|
    ensures var r := Interleave(a, b, Product(shape[..d]), Product(shape[d..]));
            var at := Insert(idx, d, 0);
            && Offset(shape, idx) < |a| && Offset(Insert(shape, d, 2), at) < |r|
            && r[Offset(Insert(shape, d, 2), at)] == a[Offset(shape, idx)]
  {
    var s1, s2, i1, i2 := shape[..d], shape[d..], idx[..d], idx[d..];
    SplitInBounds(shape, idx, d);
    OffsetBound(s1, i1);
    OffsetBound(s2, i2);
    OffsetInsert(shape, idx, d);
    InterleaveAtFirstAt(a, b, Product(s1), Product(s2), Offset(s1, i1), Offset(s2, i2),
                        Offset(Insert(shape, d, 2), Insert(idx, d, 0)), Offset(shape, idx));
  }

  /** Interleaving at axis d puts element idx of `b` at idx with 1 inserted at d. */
  lemma InterleaveOffsetSecond(a: seq<real>, b: seq<real>, shape: seq<nat>, idx: seq<nat>, d: nat)
    requires InBounds(shape, idx) && d <= |shape|
    requires |a| == Product(shape[..d]) * Product(shape[d..]) && |b| == |a|
    ensures var r := Interleave(a, b, Product(shape[..d]), Product(shape[d..]));
            var at := Insert(idx, d, 1);
            && Offset(shape, idx) < |b| && Offset(Insert(shape, d, 2), at) < |r|
            && r[Offset(Insert(shape, d, 2), at)] == b[Offset(shape, idx)]
  {
    var s1, s2, i1, i2 := shape[..d], shape[d..], idx[..d], idx[d..];
    SplitInBounds(shape, idx, d);
    OffsetBound(s1, i1);
    OffsetBound(s2, i2);
    OffsetInsert(shape, idx, d);
    InterleaveAtSecondAt(a, b, Product(s1), Product(s2), Offset(s1, i1), Offset(s2, i2),
                        Offset(Insert(shape, d, 2), Insert(idx, d, 1)), Offset(shape, idx));
  }

  /** Element `idx` of the first operand sits in the stacked tensor at `idx` with 0 inserted at the new axis. */
  lemma StackAtFirst(a: Tensor, b: Tensor, dim: int, idx: seq<nat>)
    requires a.shape == b.shape && Stack(a, b, dim).Success?
    requires InBounds(a.shape, idx)
    ensures var d := StackAxis(dim, |a.shape|).value;
            var out := Stack(a, b, dim).value;
            var at := Insert(idx, d, 0);
            && InBounds(out.shape, at)
            && Offset(a.shape, idx) < |a.data| && Offset(out.shape, at) < |out.data|
            && out.data[Offset(out.shape, at)] == a.data[Offset(a.shape, idx)]
  {
    var d := StackAxis(dim, |a.shape|).value;
    StackData(a, b, dim);
    InsertInBounds(a.shape, idx, d, 0);
    InterleaveOffsetFirst(a.data, b.data, a.shape, idx, d);
  }

  /** Element `idx` of the second operand sits in the stacked tensor at `idx` with 1 inserted at the new axis. */
  lemma StackAtSecond(a: Tensor, b: Tensor, dim: int, idx: seq<nat>)
    requires a.shape == b.shape && Stack(a, b, dim).Success?
    requires InBounds(a.shape, idx)
    ensures var d := StackAxis(dim, |a.shape|).value;
            var out := Stack(a, b, dim).value;
            var at := Insert(idx, d, 1);
            && InBounds(out.shape, at)
            && Offset(a.shape, idx) < |b.data| && Offset(out.shape, at) < |out.data|
            && out.data[Offset(out.shape, at)] == b.data[Offset(a.shape, idx)]
  {
    var d := StackAxis(dim, |a.shape|).value;
    StackData(a, b, dim);
    InsertInBounds(a.shape, idx, d, 1);
    InterleaveOffsetSecond(a.data, b.data, a.shape, idx, d);
  }

  /** The stacked tensor's data is the interleaving of blocks split at the new axis. */
  lemma StackData(a: Tensor, b: Tensor, dim: int)
    requires a.shape == b.shape && Stack(a, b, dim).Success?
    ensures var d := StackAxis(dim, |a.shape|).value;
            var outer, inner := Product(a.shape[..d]), Product(a.shape[d..]);
            && |a.data| == outer * inner
            && Stack(a, b, dim).value.shape == Insert(a.shape, d, 2)
            && Stack(a, b, dim).value.data == Interleave(a.data, b.data, outer, inner)
  {
    ProductSplit(a.shape, StackAxis(dim, |a.shape|).value);
  }

  /** torch's t.select(d, k) on an axis of length 2: the k-th slice, with axis d removed. */
  function Select(t: Tensor, d: nat, k: nat): (r: Tensor)
    requires d < |t.shape| && t.shape[d] == 2 && k < 2
    ensures r.shape == t.shape[..d] + t.shape[d + 1..]
  {
    var rest := t.shape[..d] + t.shape[d + 1..];
    assert rest[..d] == t.shape[..d] && rest[d..] == t.shape[d + 1..];
    assert t.shape == rest[..d] + [2] + rest[d..];
    ProductInsert(rest, d);
    ProductSplit(rest, d);
    Array(rest, Slice(t.data, Product(rest[..d]), Product(rest[d..]), k))
  }

  /** Selecting index k of the stacked axis gives back the k-th stacked tensor. */
  lemma StackSelect(a: Tensor, b: Tensor, dim: int, k: nat)
    requires a.shape == b.shape && Stack(a, b, dim).Success? && k < 2
    ensures var d := StackAxis(dim, |a.shape|).value;
            var out := Stack(a, b, dim).value;
            d < |out.shape| && out.shape[d] == 2
            && Select(out, d, k) == if k == 0 then a else b
  {
    var d := StackAxis(dim, |a.shape|).value;
    var out := Stack(a, b, dim).value;
    var rest := out.shape[..d] + out.shape[d + 1..];
    assert rest == a.shape;
    ProductSplit(a.shape, d);
    SliceInterleave(a.data, b.data, Product(a.shape[..d]), Product(a.shape[d..]), k);
  }

  /** torch.stack only rearranges: its data holds exactly the elements of both operands. */
  lemma StackMultiset(a: Tensor, b: Tensor, dim: int)
    requires a.shape == b.shape && Stack(a, b, dim).Success?
    ensures multiset(Stack(a, b, dim).value.data) == multiset(a.data) + multiset(b.data)
  {
    var d := StackAxis(dim, |a.shape|).value;
    ProductSplit(a.shape, d);
    InterleaveMultiset(a.data, b.data, Product(a.shape[..d]), Product(a.shape[d..]));
  }
}
