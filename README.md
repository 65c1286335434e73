# bindsnet encoding: encoder wrappers and sign splitting

This project models the encoding package of bindsnet, a spiking-neural-network
simulator, in Dafny. It covers two parts.

- `to_positive` in `bindsnet/encoding/preprocessing.py` takes a signed tensor.
  It stacks the positive part `clamp(min=0)` with the magnitude of the negative
  part `abs(clamp(max=0))` along a new axis of length 2 at `dim`, which
  defaults to 2.
- The encoder classes in `bindsnet/encoding/encoders.py` each bind a spike
  transform's positional arguments (`time`) and keyword arguments (`dt`,
  `sparsity`, `approx`, extra `**kwargs`) at construction. They apply that
  transform to every tensor they are called with. `NullEncoder` passes its
  input through. `PositiveEncoder` wraps another encoder and runs `to_positive`
  first.

Files:

- `wrappers.dfy`: `Option` and `Result`. A `Result` is the value of a call that
  either returns or raises.
- `tensors.dfy` (module `Tensors`): the slice of PyTorch that `to_positive`
  uses.
  - A tensor is a shape and its row-major data.
  - `Offset` gives the row-major position of a multi-index.
  - `torch.stack` of two tensors, including its `dim` range check and the
    wrap-around of a negative `dim`.
  - `select` on the stacked axis.
- `preprocessing.dfy` (module `Preprocessing`): `to_positive` and its
  properties.
- `encoders.dfy` (module `Encoders`): the encoder classes and `PositiveEncoder`.
  - `Encoder` is one Dafny class with one named constructor per Python
    subclass, each with the Python defaults.
  - The field `behaviour` records what `__call__` does. The base class has no
    `enc`. The null encoder returns its input. Every other subclass has `enc`
    bound to one transform.
  - The transforms of `encodings.py` reach every call as a parameter.

Facts about the code that the model keeps:

- The encoder constructors at encoders.py:38-117 validate nothing. `time`,
  `dt`, `sparsity` and `approx` are stored as given, so the model's
  constructors have no preconditions.
- `to_positive` inserts a new axis of length 2 at `dim` and leaves the
  lengths of the existing axes unchanged. `dim` defaults to axis 2, which is
  the last axis only for inputs of rank 2.
- For `[[-3, 4]]` with the default `dim`, the result has shape `(1, 2, 2)` and
  data `[[[0, 3], [4, 0]]]`: each element's pair lies along the last axis.
  `Preprocessing.ToPositiveExample` proves this value. For every valid `dim`,
  the positive part sits at index 0 of the new axis and the magnitude of the
  negative part at index 1 (`Preprocessing.ToPositiveAt`).

## Model

| member | source | states |
|---|---|---|
| Tensors.StackAxis | bindsnet/encoding/preprocessing.py:13 | torch.stack accepts `dim` exactly in [-(n+1), n] for inputs of rank n, and puts the new axis at `dim`, or at `dim + n + 1` when `dim` is negative |
| Tensors.Stack | bindsnet/encoding/preprocessing.py:13 | torch.stack of two same-shape tensors fails exactly for a `dim` outside [-(n+1), n], with an IndexError naming that `dim` and the range; otherwise the result's shape is the input shape with a 2 inserted at the new axis |
| Tensors.StackAtFirst | bindsnet/encoding/preprocessing.py:13 | every element of the first operand at index idx appears in the stacked tensor at idx with 0 inserted at the new axis, which is in bounds |
| Tensors.StackAtSecond | bindsnet/encoding/preprocessing.py:13 | every element of the second operand at index idx appears in the stacked tensor at idx with 1 inserted at the new axis |
| Tensors.StackSelect | bindsnet/encoding/preprocessing.py:13 | selecting index 0 or 1 of the new axis gives back exactly the first or the second stacked tensor, shape and data |
| Tensors.StackMultiset | bindsnet/encoding/preprocessing.py:13 | stacking only rearranges: the result's elements are, as a multiset, those of both operands |
| Preprocessing.ClampMin | bindsnet/encoding/preprocessing.py:10 | clamp(min=lo) gives a value at least lo and at least x, equal to one of them |
| Preprocessing.ClampMax | bindsnet/encoding/preprocessing.py:11 | clamp(max=hi) gives a value at most hi and at most x, equal to one of them |
| Preprocessing.PositivePart | bindsnet/encoding/preprocessing.py:10 | the element-wise positive part is non-negative, at least x, and equal to x or 0 |
| Preprocessing.NegativePart | bindsnet/encoding/preprocessing.py:11 | the element-wise negative part is non-positive, at most x, and equal to x or 0 |
| Preprocessing.Abs | bindsnet/encoding/preprocessing.py:13 | abs gives a non-negative value equal to x or -x |
| Preprocessing.ToPositive | bindsnet/encoding/preprocessing.py:4-13 | to_positive raises exactly when `dim` is outside [-(n+1), n], with that IndexError; otherwise its shape is the input's with an axis of length 2 inserted at `dim` (counted from the end when negative) |
| Preprocessing.ToPositiveAt | bindsnet/encoding/preprocessing.py:10-13 | for every input index, the output at that index with 0 on the new axis is max(x, 0) and with 1 on the new axis is max(-x, 0) |
| Preprocessing.PositiveAt | bindsnet/encoding/preprocessing.py:10-13 | the output at an input index with 0 inserted on the new axis is max(x, 0) |
| Preprocessing.NegativeAt | bindsnet/encoding/preprocessing.py:11-13 | the output at an input index with 1 inserted on the new axis is max(-x, 0) |
| Preprocessing.ToPositiveHalves | bindsnet/encoding/preprocessing.py:10-13 | the first half along the new axis is max(x, 0) and the second half is max(-x, 0), element by element, each with the input's shape |
| Preprocessing.ToPositiveRoundTrip | bindsnet/encoding/preprocessing.py:10-13 | first half minus second half is the input, so no magnitude is lost |
| Preprocessing.ToPositiveNonNegative | bindsnet/encoding/preprocessing.py:10-13 | every element of the output is non-negative |
| Preprocessing.ToPositiveExclusive | bindsnet/encoding/preprocessing.py:10-13 | at each position at most one of the two halves is non-zero |
| Preprocessing.ToPositiveOfNonNegative | bindsnet/encoding/preprocessing.py:10-13 | a non-negative input comes back unchanged as the first half, over an all-zero second half |
| Preprocessing.ToPositiveDefaultDim | bindsnet/encoding/preprocessing.py:4 | with the default dim = 2, to_positive succeeds exactly on inputs of rank at least 2, inserting the new axis at position 2 |
| Preprocessing.ToPositiveExample | bindsnet/encoding/preprocessing.py:4-13 | [[-3, 4]] with the default dim gives shape (1, 2, 2) and data [[[0, 3], [4, 0]]] |
| Encoders.BindKeywords | bindsnet/encoding/encoders.py:38-49 | the stored keyword arguments are the named ones together with the extra `**kwargs`, the named value winning on a shared name |
| Encoders.Encoder.constructor | bindsnet/encoding/encoders.py:13-15 | Encoder(*args, **kwargs) stores the arguments unchanged and binds no transform |
| Encoders.Encoder.NullEncoder | bindsnet/encoding/encoders.py:30-31 | NullEncoder stores no arguments and passes its input through |
| Encoders.Encoder.SingleEncoder | bindsnet/encoding/encoders.py:38-51 | binds `single` with positional `time` and keywords dt (default 1.0), sparsity (default 0.5) and the extra kwargs |
| Encoders.Encoder.RepeatEncoder | bindsnet/encoding/encoders.py:55-66 | binds `repeat` with positional `time` and keywords dt (default 1.0) and the extra kwargs |
| Encoders.Encoder.BernoulliEncoder | bindsnet/encoding/encoders.py:70-85 | binds `bernoulli` with positional `time` and keywords dt (default 1.0) and the extra kwargs |
| Encoders.Encoder.PoissonEncoder | bindsnet/encoding/encoders.py:89-102 | binds `poisson` with positional `time` and keywords dt (default 1.0), approx (default False) and the extra kwargs |
| Encoders.Encoder.RankOrderEncoder | bindsnet/encoding/encoders.py:106-117 | binds `rank_order` with positional `time` and keywords dt (default 1.0) and the extra kwargs |
| Encoders.Encoder.ApplyEnc | bindsnet/encoding/encoders.py:17-18 | `self.enc(...)` raises AttributeError exactly when no transform is bound; otherwise it is the bound transform applied to the input with exactly the stored arguments |
| Encoders.Encoder.Call | bindsnet/encoding/encoders.py:17-34 | calling a null encoder returns its input; calling the base class raises AttributeError on `enc`; any other encoder returns its transform applied with its stored arguments |
| Encoders.EncoderCall | bindsnet/encoding/encoders.py:13-18 | an `Encoder(*args, **kwargs)` called on any tensor raises AttributeError on `enc`, whatever its arguments |
| Encoders.NullEncoderCall | bindsnet/encoding/encoders.py:30-34 | a fresh `NullEncoder()` called on any tensor returns that tensor |
| Encoders.SingleEncoderCall | bindsnet/encoding/encoders.py:38-51 | a fresh `SingleEncoder(time)` hands `single` the input, positional `[time]` and exactly the keywords dt = 1.0, sparsity = 0.5 |
| Encoders.RepeatEncoderCall | bindsnet/encoding/encoders.py:55-66 | a fresh `RepeatEncoder(time)` hands `repeat` the input, positional `[time]` and exactly the keyword dt = 1.0 |
| Encoders.BernoulliEncoderCall | bindsnet/encoding/encoders.py:70-85 | a fresh `BernoulliEncoder(time, max_prob=p)` hands `bernoulli` the input, positional `[time]` and exactly the keywords dt = 1.0, max_prob = p |
| Encoders.PoissonEncoderCall | bindsnet/encoding/encoders.py:89-102 | a fresh `PoissonEncoder(time)` hands `poisson` the input, positional `[time]` and exactly the keywords dt = 1.0, approx = False |
| Encoders.RankOrderEncoderCall | bindsnet/encoding/encoders.py:106-117 | a fresh `RankOrderEncoder(time)` hands `rank_order` the input, positional `[time]` and exactly the keyword dt = 1.0 |
| Encoders.PositiveEncoder.constructor | bindsnet/encoding/encoders.py:121-129 | stores the wrapped encoder and `dim`, defaulting to 0, without validation |
| Encoders.PositiveEncoder.CallAsWritten | bindsnet/encoding/encoders.py:131-133 | the call as written always raises: the stack's IndexError for an out-of-range `dim`, otherwise AttributeError on `enc` |
| Encoders.PositiveEncoder.Call | bindsnet/encoding/encoders.py:131-133 | the corrected call returns the stack's IndexError for an out-of-range `dim`, and otherwise the wrapped encoder's `enc` applied to to_positive's output with the wrapped encoder's stored arguments |
| Encoders.PositiveEncoderSeesNonNegative | bindsnet/encoding/encoders.py:131-133 | the wrapped transform only ever sees non-negative data: libraries agreeing on non-negative tensors give the same result |
| Encoders.PositiveEncoderDelegates | bindsnet/encoding/encoders.py:131-133 | for a bound wrapped encoder, the corrected call is that encoder's own call on the split input; it fails exactly when the split does, and never with the default dim = 0 |
| Encoders.PositiveEncoderCounterexample | bindsnet/encoding/encoders.py:120-133 | PositiveEncoder(RepeatEncoder(3)) on [[-3.0, 4.0]]: the as-written call raises AttributeError on `enc`, the corrected call succeeds |
| Encoders.PositiveEncoderDiscrepancy | bindsnet/encoding/encoders.py:133 | whenever the split succeeds and the wrapped encoder is bound, the as-written call raises AttributeError while the corrected call returns the wrapped transform's result |

## Left out

- The transforms `single`, `repeat`, `bernoulli`, `poisson` and `rank_order`:
  - They live in `bindsnet/encoding/encodings.py`, which is not part of this
    model.
  - Every call takes them as the parameter `transforms`, so the model proves
    only what the wrappers do with them. That means which transform is used,
    on which tensor, with which arguments.
  - Errors raised inside a transform are not modelled.
- Randomness in `bernoulli` and `poisson` is not modelled. The `transforms`
  parameter stands for the state of the random source.
- `bindsnet/encoding/__init__.py` only re-exports names, so it is not part of
  this model.
- Floating point, dtypes and device placement are not modelled:
  - Tensor elements are mathematical reals, so there is no NaN, no infinity and
    no signed zero.
  - Integer tensors are not distinguished.
- Python values are reduced to the `Value` datatype (int, float, bool, str).
  Other argument types are not modelled.
- BindKeywords: a name shared by the named keywords and `**kwargs` cannot
  arise at encoders.py:38, 55, 70, 89 and 106.
  - Python's binding puts an argument such as `dt` into the named parameter,
    never into `**kwargs`.
  - A call `f(time, dt=dt, **kwargs)` with `"dt"` in `kwargs` would raise
    TypeError ("got multiple values for keyword argument").
  - For that unreachable case, the model lets the named value win instead of
    raising.
- The constructors take the annotated types: `time: int`, `dt: real`,
  `sparsity: real`, `approx: bool`. Python does not enforce annotations and
  stores values of other types unchecked, for example `dt=1` or
  `time=100.0`. The model cannot represent those.
- Keyword-argument order is not modelled, because the stored kwargs are a
  `map`.
- The subclass hierarchy is flattened into one class with one named constructor
  per subclass. Overriding is recorded in the `behaviour` field. A
  user-assigned `enc` attribute or a later reassignment of `enc_args` is not
  modelled.
- The model takes no position on whether calling an encoder is safe from
  several threads.

## Findings

| source | as written | input that shows it | evidently intended | confidence | as-written member | corrected member |
|---|---|---|---|---|---|---|
| bindsnet/encoding/encoders.py:133 | the call looks up `self.enc` and `self.enc_kwargs`, which PositiveEncoder never assigns; it is not an Encoder subclass | `PositiveEncoder(RepeatEncoder(3))` called on any tensor, for example `[[-3.0, 4.0]]`, raises AttributeError | `self.encoder.enc(positive_inpts, *self.encoder.enc_args, **self.encoder.enc_kwargs)`: the wrapped encoder's transform with its own arguments | high (not executed) | Encoders.PositiveEncoder.CallAsWritten, with Encoders.PositiveEncoderDiscrepancy and Encoders.PositiveEncoderCounterexample | Encoders.PositiveEncoder.Call |
