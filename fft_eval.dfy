/** FFT::eval_cpu as the step-by-step procedure it is: stride vectors scaled
    in place, the output allocated, the iteration shape and nelem computed,
    both arrays registered with the encoder and one kernel call dispatched. */
module FftEval {
  import opened FftTypes
  import opened FftScale
  import opened FftPlan

  /** Copies the element strides into a fresh vector and multiplies each
      entry in place by the item size. */
  method ByteStrides(strides: seq<int>, itemsize: nat) returns (r: seq<int>)
    ensures |r| == |strides|
    ensures forall i :: 0 <= i < |r| ==> r[i] == strides[i] * itemsize
    ensures r == Scaled(strides, itemsize)
  {
    var v := new int[|strides|](i requires 0 <= i < |strides| => strides[i]);
    for i := 0 to v.Length
      invariant forall j :: 0 <= j < i ==> v[j] == strides[j] * itemsize
      invariant forall j :: i <= j < v.Length ==> v[j] == strides[j]
    {
      v[i] := v[i] * itemsize;
    }
    r := v[..];
  }

  /** The allocator and the command encoder, seen only through the effects
      eval_cpu asks of them, recorded in the order they are asked. */
  class EffectLog {
    var events: seq<Event>

    constructor ()
      ensures events == []
    {
      events := [];
    }

    /** allocator::malloc for the output's data. */
    method Malloc(nbytes: nat)
      modifies this
      ensures events == old(events) + [Alloc(nbytes)]
    {
      events := events + [Alloc(nbytes)];
    }

    method SetInputArray(a: ArrayDesc)
      modifies this
      ensures events == old(events) + [SetInput(a)]
    {
      events := events + [SetInput(a)];
    }

    method SetOutputArray(a: ArrayDesc)
      modifies this
      ensures events == old(events) + [SetOutput(a)]
    {
      events := events + [SetOutput(a)];
    }

    /** Defers one kernel call; the pocketfft work itself is not modelled. */
    method Dispatch(call: KernelCall)
      modifies this
      ensures events == old(events) + [Event.Dispatch(call)]
    {
      events := events + [Event.Dispatch(call)];
    }
  }

  /** FFT::eval_cpu. The inverse flag and the axes are the primitive's
      members; the call either returns having dispatched the planned kernel
      call, or throws after allocating and registering but before dispatching. */
  method EvalCpu(log: EffectLog, input: ArrayDesc, output: ArrayDesc, axes: seq<nat>, inverse: bool)
    returns (outcome: Outcome)
    requires PlanRequires(input, output, axes, inverse)
    modifies log
    ensures log.events == old(log.events) + EvalTrace(input, output, axes, inverse)
    ensures outcome == match Plan(input, output, axes, inverse)
                       case Success(_) => Returned
                       case Failure(message) => Thrown(message)
    ensures Dispatches(log.events) == old(Dispatches(log.events)) + match Plan(input, output, axes, inverse)
                                                                  case Success(call) => [call]
                                                                  case Failure(_) => []
  {
    ghost var before := log.events;
    var stridesIn := ByteStrides(input.strides, input.itemsize);
    var stridesOut := ByteStrides(output.strides, output.itemsize);

    log.Malloc(output.nbytes);

    var shape: seq<nat> := [];
    if output.dtype == Float32 {
      shape := shape + output.shape;
    } else {
      shape := shape + input.shape;
    }
    assert shape == IterationShape(input, output);

    var nelem: nat := 1;
    if inverse {
      nelem := AxesProduct(shape, axes);
    }

    log.SetInputArray(input);
    log.SetOutputArray(output);
    assert log.events == before + [Alloc(output.nbytes), SetInput(input), SetOutput(output)];

    if input.dtype == Complex64 && output.dtype == Complex64 {
      log.Dispatch(KernelCall(C2C, shape, stridesIn, stridesOut, axes, !inverse, nelem));
      outcome := Returned;
    } else if input.dtype == Float32 && output.dtype == Complex64 {
      log.Dispatch(KernelCall(R2C, shape, stridesIn, stridesOut, axes, !inverse, nelem));
      outcome := Returned;
    } else if input.dtype == Complex64 && output.dtype == Float32 {
      log.Dispatch(KernelCall(C2R, shape, stridesIn, stridesOut, axes, !inverse, nelem));
      outcome := Returned;
    } else {
      outcome := Thrown(UnexpectedCombination);
    }
    TraceAfterRegistration(before, input, output, axes, inverse);
  }

  /** A caller on a fresh log: the 8-point r2c forward transform and then the
      c2r inverse back from 5 bins leave eight events and exactly the two
      planned kernel calls, the second scaled by 1/8. */
  method HalfSpectrumOnFreshLog() returns (forward: Outcome, inverse: Outcome, events: seq<Event>)
    ensures forward == Returned && inverse == Returned
    ensures |events| == 8 && events[0] == Alloc(40) && events[4] == Alloc(32)
    ensures Dispatches(events) == [KernelCall(R2C, [8], [4], [8], [0], true, 1),
                                   KernelCall(C2R, [8], [8], [4], [0], false, 8)]
  {
    var log := new EffectLog();
    var real8 := ArrayDesc([8], [1], Float32, 4, 32);
    var bins5 := ArrayDesc([5], [1], Complex64, 8, 40);
    HalfSpectrumScenario(real8, bins5);
    assert Dispatches([]) == [];
    forward := EvalCpu(log, real8, bins5, [0], false);
    inverse := EvalCpu(log, bins5, real8, [0], true);
    events := log.events;
  }
}
