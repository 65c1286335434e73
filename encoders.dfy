/**
 The encoder wrappers of bindsnet/encoding/encoders.py: objects that bind the
 positional and keyword arguments of one spike-train transform at construction
 and apply it, with those arguments, to every tensor they are called with; and
 PositiveEncoder, which splits a signed input with to_positive before handing
 it to a wrapped encoder.

 The transforms themselves (single, repeat, bernoulli, poisson, rank_order)
 live in bindsnet/encoding/encodings.py, which is not part of this model: a
 call receives them as a parameter `transforms`, which also stands for the
 state of the random source the stochastic transforms draw from.
 */
module Encoders {
  import opened Wrappers
  import opened Tensors
  import opened Preprocessing

  /** A Python argument value an encoder can bind. */
  datatype Value = IntVal(i: int) | RealVal(x: real) | BoolVal(b: bool) | StrVal(s: string)

  /** The transform of encodings.py an encoder's `enc` attribute refers to. */
  datatype Transform = Single | Repeat | Bernoulli | Poisson | RankOrder

  /**
   The transforms of encodings.py, applied to a tensor with positional and
   keyword arguments.
   */
  type Transforms = (Transform, Tensor, seq<Value>, map<string, Value>) -> Tensor

  /**
   What calling an encoder does: the base class has no `enc` attribute, the
   null encoder overrides the call, and every other encoder binds `enc` to one
   transform.
   */
  datatype Behaviour = Unbound | Identity | Bound(transform: Transform)

  /** The exceptions a call can raise in this model. */
  datatype CallError =
    | MissingAttribute(name: string)   // AttributeError on an attribute never assigned
    | StackFailure(cause: StackError)  // IndexError from torch.stack inside to_positive

  /**
   Python's binding of `f(..., dt=dt, **kwargs)`: the named keyword arguments
   together with the extra ones; a name given explicitly takes the explicit
   value.
   */
  function BindKeywords(named: map<string, Value>, kwargs: map<string, Value>): (r: map<string, Value>)
    ensures r.Keys == named.Keys + kwargs.Keys
    ensures forall k :: k in named ==> r[k] == named[k]
    ensures forall k :: k in kwargs && k !in named ==> r[k] == kwargs[k]
  {
    kwargs + named
  }

  /** A tensor all of whose elements are non-negative. */
  predicate NonNegative(t: Tensor)
  {
    forall i :: 0 <= i < |t.data| ==> t.data[i] >= 0.0
  }

  /**
   Encoder and its subclasses. The fields are the attributes the constructors
   assign: `enc_args`, `enc_kwargs` and, through `behaviour`, `enc`.
   */
  class Encoder {
    var behaviour: Behaviour
    var encArgs: seq<Value>
    var encKwargs: map<string, Value>

    /** Encoder(*args, **kwargs): stores the arguments, binds no transform. */
    constructor (args: seq<Value>, kwargs: map<string, Value>)
      ensures behaviour == Unbound && encArgs == args && encKwargs == kwargs
    {
      behaviour := Unbound;
      encArgs := args;
      encKwargs := kwargs;
    }

    /** NullEncoder(): no arguments, and a call that returns its input. */
    constructor NullEncoder()
      ensures behaviour == Identity && encArgs == [] && encKwargs == map[]
    {
      behaviour := Identity;
      encArgs := [];
      encKwargs := map[];
    }

    /** SingleEncoder(time, dt=1.0, sparsity=0.5, **kwargs), bound to encodings.single. */
    constructor SingleEncoder(time: int, dt: real := 1.0, sparsity: real := 0.5, kwargs: map<string, Value> := map[])
      ensures behaviour == Bound(Single) && encArgs == [IntVal(time)]
      ensures encKwargs == BindKeywords(map["dt" := RealVal(dt), "sparsity" := RealVal(sparsity)], kwargs)
    {
      behaviour := Bound(Single);
      encArgs := [IntVal(time)];
      encKwargs := BindKeywords(map["dt" := RealVal(dt), "sparsity" := RealVal(sparsity)], kwargs);
    }

    /** RepeatEncoder(time, dt=1.0, **kwargs), bound to encodings.repeat. */
    constructor RepeatEncoder(time: int, dt: real := 1.0, kwargs: map<string, Value> := map[])
      ensures behaviour == Bound(Repeat) && encArgs == [IntVal(time)]
      ensures encKwargs == BindKeywords(map["dt" := RealVal(dt)], kwargs)
    {
      behaviour := Bound(Repeat);
      encArgs := [IntVal(time)];
      encKwargs := BindKeywords(map["dt" := RealVal(dt)], kwargs);
    }

    /** BernoulliEncoder(time, dt=1.0, **kwargs), bound to encodings.bernoulli. */
    constructor BernoulliEncoder(time: int, dt: real := 1.0, kwargs: map<string, Value> := map[])
      ensures behaviour == Bound(Bernoulli) && encArgs == [IntVal(time)]
      ensures encKwargs == BindKeywords(map["dt" := RealVal(dt)], kwargs)
    {
      behaviour := Bound(Bernoulli);
      encArgs := [IntVal(time)];
      encKwargs := BindKeywords(map["dt" := RealVal(dt)], kwargs);
    }

    /** PoissonEncoder(time, dt=1.0, approx=False, **kwargs), bound to encodings.poisson. */
    constructor PoissonEncoder(time: int, dt: real := 1.0, approx: bool := false, kwargs: map<string, Value> := map[])
      ensures behaviour == Bound(Poisson) && encArgs == [IntVal(time)]
      ensures encKwargs == BindKeywords(map["dt" := RealVal(dt), "approx" := BoolVal(approx)], kwargs)
    {
      behaviour := Bound(Poisson);
      encArgs := [IntVal(time)];
      encKwargs := BindKeywords(map["dt" := RealVal(dt), "approx" := BoolVal(approx)], kwargs);
    }

    /** RankOrderEncoder(time, dt=1.0, **kwargs), bound to encodings.rank_order. */
    constructor RankOrderEncoder(time: int, dt: real := 1.0, kwargs: map<string, Value> := map[])
      ensures behaviour == Bound(RankOrder) && encArgs == [IntVal(time)]
      ensures encKwargs == BindKeywords(map["dt" := RealVal(dt)], kwargs)
    {
      behaviour := Bound(RankOrder);
      encArgs := [IntVal(time)];
      encKwargs := BindKeywords(map["dt" := RealVal(dt)], kwargs);
    }

    /**
     self.enc(img, *self.enc_args, **self.enc_kwargs): the bound transform
     applied with exactly the stored arguments, or an AttributeError when no
     transform was ever bound.
     */
    function ApplyEnc(img: Tensor, transforms: Transforms): (r: Result<Tensor, CallError>)
      reads this
      ensures r.Failure? <==> !behaviour.Bound?
      ensures r.Failure? ==> r.error == MissingAttribute("enc")
      ensures r.Success? ==> r.value == transforms(behaviour.transform, img, encArgs, encKwargs)
    {
      if behaviour.Bound? then Success(transforms(behaviour.transform, img, encArgs, encKwargs))
      else Failure(MissingAttribute("enc"))
    }

    /**
     encoder(img): the null encoder returns its input untouched; every other
     encoder applies its `enc` with the stored arguments.
     */
    function Call(img: Tensor, transforms: Transforms): (r: Result<Tensor, CallError>)
      reads this
      ensures behaviour == Identity ==> r == Success(img)
      ensures behaviour == Unbound ==> r == Failure(MissingAttribute("enc"))
      ensures behaviour.Bound? ==> r == Success(transforms(behaviour.transform, img, encArgs, encKwargs))
    {
      if behaviour == Identity then Success(img) else ApplyEnc(img, transforms)
    }
  }

  /** Encoder(*args, **kwargs) called on any tensor raises AttributeError on `enc`. */
  method EncoderCall(args: seq<Value>, kwargs: map<string, Value>, img: Tensor, transforms: Transforms)
    returns (r: Result<Tensor, CallError>)
    ensures r == Failure(MissingAttribute("enc"))
  {
    var e := new Encoder(args, kwargs);
    r := e.Call(img, transforms);
  }

  /** NullEncoder() called on any tensor returns that tensor. */
  method NullEncoderCall(img: Tensor, transforms: Transforms) returns (r: Result<Tensor, CallError>)
    ensures r == Success(img)
  {
    var e := new Encoder.NullEncoder();
    r := e.Call(img, transforms);
  }

  /** SingleEncoder(time) hands `single` the positional time and the defaults dt = 1.0, sparsity = 0.5. */
  method SingleEncoderCall(time: int, img: Tensor, transforms: Transforms) returns (r: Result<Tensor, CallError>)
    ensures r == Success(transforms(Single, img, [IntVal(time)], map["dt" := RealVal(1.0), "sparsity" := RealVal(0.5)]))
  {
    var e := new Encoder.SingleEncoder(time);
    assert e.encKwargs == map["dt" := RealVal(1.0), "sparsity" := RealVal(0.5)];
    r := e.Call(img, transforms);
  }

  /** RepeatEncoder(time) hands `repeat` the positional time and the default dt = 1.0. */
  method RepeatEncoderCall(time: int, img: Tensor, transforms: Transforms) returns (r: Result<Tensor, CallError>)
    ensures r == Success(transforms(Repeat, img, [IntVal(time)], map["dt" := RealVal(1.0)]))
  {
    var e := new Encoder.RepeatEncoder(time);
    assert e.encKwargs == map["dt" := RealVal(1.0)];
    r := e.Call(img, transforms);
  }

  /** BernoulliEncoder(time, max_prob=p) hands `bernoulli` the positional time, the default dt = 1.0 and max_prob. */
  method BernoulliEncoderCall(time: int, maxProb: real, img: Tensor, transforms: Transforms)
    returns (r: Result<Tensor, CallError>)
    ensures r == Success(transforms(Bernoulli, img, [IntVal(time)],
                                    map["dt" := RealVal(1.0), "max_prob" := RealVal(maxProb)]))
  {
    var e := new Encoder.BernoulliEncoder(time, kwargs := map["max_prob" := RealVal(maxProb)]);
    assert e.encKwargs == map["dt" := RealVal(1.0), "max_prob" := RealVal(maxProb)];
    r := e.Call(img, transforms);
  }

  /** PoissonEncoder(time) hands `poisson` the positional time and the defaults dt = 1.0, approx = False. */
  method PoissonEncoderCall(time: int, img: Tensor, transforms: Transforms) returns (r: Result<Tensor, CallError>)
    ensures r == Success(transforms(Poisson, img, [IntVal(time)], map["dt" := RealVal(1.0), "approx" := BoolVal(false)]))
  {
    var e := new Encoder.PoissonEncoder(time);
    assert e.encKwargs == map["dt" := RealVal(1.0), "approx" := BoolVal(false)];
    r := e.Call(img, transforms);
  }

  /** RankOrderEncoder(time) hands `rank_order` the positional time and the default dt = 1.0. */
  method RankOrderEncoderCall(time: int, img: Tensor, transforms: Transforms) returns (r: Result<Tensor, CallError>)
    ensures r == Success(transforms(RankOrder, img, [IntVal(time)], map["dt" := RealVal(1.0)]))
  {
    var e := new Encoder.RankOrderEncoder(time);
    assert e.encKwargs == map["dt" := RealVal(1.0)];
    r := e.Call(img, transforms);
  }

  /**
   PositiveEncoder(encoder, dim=0): a wrapper, not an Encoder subclass, that
   keeps the encoder it wraps and the axis along which to_positive stacks.
   */
  class PositiveEncoder {
    var encoder: Encoder
    var dim: int

    constructor (encoder: Encoder, dim: int := 0)
      ensures this.encoder == encoder && this.dim == dim
    {
      this.encoder := encoder;
      this.dim := dim;
    }

    /**
     The call as the class defines it: after to_positive, it looks up
     `self.enc`, which PositiveEncoder never assigns, so every call raises,
     with the IndexError of the stack when `dim` is out of range for the input
     and with AttributeError otherwise.
     */
    function CallAsWritten(inpts: Tensor): (r: Result<Tensor, CallError>)
      reads this
      ensures r.Failure?
      ensures ToPositive(inpts, dim).Failure? ==> r.error == StackFailure(ToPositive(inpts, dim).error)
      ensures ToPositive(inpts, dim).Success? ==> r.error == MissingAttribute("enc")
    {
      match ToPositive(inpts, dim)
      case Failure(e) => Failure(StackFailure(e))
      case Success(_) => Failure(MissingAttribute("enc"))
    }

    /**
     The call as evidently intended: the wrapped encoder's `enc` applied to the
     split input, with the wrapped encoder's stored arguments.
     */
    function Call(inpts: Tensor, transforms: Transforms): (r: Result<Tensor, CallError>)
      reads this, encoder
      ensures ToPositive(inpts, dim).Failure? ==> r == Failure(StackFailure(ToPositive(inpts, dim).error))
      ensures ToPositive(inpts, dim).Success? ==> r == encoder.ApplyEnc(ToPositive(inpts, dim).value, transforms)
    {
      match ToPositive(inpts, dim)
      case Failure(e) => Failure(StackFailure(e))
      case Success(positiveInpts) => encoder.ApplyEnc(positiveInpts, transforms)
    }
  }

  /**
   The wrapped transform only ever sees non-negative data: two transform
   libraries that agree on all non-negative tensors give the same result.
   */
  lemma PositiveEncoderSeesNonNegative(p: PositiveEncoder, inpts: Tensor, t1: Transforms, t2: Transforms)
    requires forall tr, t: Tensor, args, kwargs :: NonNegative(t) ==> t1(tr, t, args, kwargs) == t2(tr, t, args, kwargs)
    ensures p.Call(inpts, t1) == p.Call(inpts, t2)
  {
    if ToPositive(inpts, p.dim).Success? {
      ToPositiveNonNegative(inpts, p.dim);
      assert NonNegative(ToPositive(inpts, p.dim).value);
    }
  }

  /**
   The corrected call, on a bound encoder, is the wrapped encoder's own call
   on the split input, and fails exactly when the split does; with the default
   dim = 0 the split accepts inputs of every rank.
   */
  lemma PositiveEncoderDelegates(p: PositiveEncoder, inpts: Tensor, transforms: Transforms)
    requires p.encoder.behaviour.Bound?
    ensures ToPositive(inpts, p.dim).Success? ==>
              p.Call(inpts, transforms) == p.encoder.Call(ToPositive(inpts, p.dim).value, transforms)
    ensures p.Call(inpts, transforms).Success? <==> ToPositive(inpts, p.dim).Success?
    ensures p.dim == 0 ==> p.Call(inpts, transforms).Success?
  {
  }

  /**
   The discrepancy at line 133: whenever the split succeeds and the wrapped
   encoder has a transform, the call as written raises while the corrected call
   returns the wrapped transform's result.
   */
  lemma PositiveEncoderDiscrepancy(p: PositiveEncoder, inpts: Tensor, transforms: Transforms)
    requires p.encoder.behaviour.Bound? && ToPositive(inpts, p.dim).Success?
    ensures p.CallAsWritten(inpts) == Failure(MissingAttribute("enc"))
    ensures p.Call(inpts, transforms)
            == Success(transforms(p.encoder.behaviour.transform, ToPositive(inpts, p.dim).value,
                                  p.encoder.encArgs, p.encoder.encKwargs))
  {
  }

  /**
   A concrete instance of the discrepancy: PositiveEncoder(RepeatEncoder(3))
   called on [[-3.0, 4.0]].
   */
  method PositiveEncoderCounterexample(transforms: Transforms)
    returns (asWritten: Result<Tensor, CallError>, corrected: Result<Tensor, CallError>)
    ensures asWritten == Failure(MissingAttribute("enc"))
    ensures corrected.Success?
  {
    var repeat := new Encoder.RepeatEncoder(3);
    var wrapper := new PositiveEncoder(repeat);
    var inpts: Tensor := Array([1, 2], [-3.0, 4.0]);
    PositiveEncoderDelegates(wrapper, inpts, transforms);
    asWritten := wrapper.CallAsWritten(inpts);
    corrected := wrapper.Call(inpts, transforms);
  }
}
