/** The reference definition of what FFT::eval_cpu does: the kernel call it
    plans from the two arrays, the axes and the direction, and the sequence of
    effects it produces. */
module FftPlan {
  import opened FftTypes
  import opened FftScale

  /** The kernel chosen for an (input dtype, output dtype) pair, if any. */
  function SelectKind(inType: DType, outType: DType): (r: Option<Kind>)
    ensures r == Some(C2C) <==> inType == Complex64 && outType == Complex64
    ensures r == Some(R2C) <==> inType == Float32 && outType == Complex64
    ensures r == Some(C2R) <==> inType == Complex64 && outType == Float32
    ensures r.None? <==> !(inType in {Float32, Complex64} && outType in {Float32, Complex64})
                         || (inType == Float32 && outType == Float32)
  {
    if inType == Complex64 && outType == Complex64 then Some(C2C)
    else if inType == Float32 && outType == Complex64 then Some(R2C)
    else if inType == Complex64 && outType == Float32 then Some(C2R)
    else None
  }

  /** The dtypes each kernel reads and writes. */
  function InputType(k: Kind): DType {
    match k
    case C2C => Complex64
    case R2C => Float32
    case C2R => Complex64
  }

  function OutputType(k: Kind): DType {
    match k
    case C2C => Complex64
    case R2C => Complex64
    case C2R => Float32
  }

  /** Kind selection and the kernels' dtypes are inverse to each other: each
      kernel is selected by exactly its own dtype pair. */
  lemma SelectKindInverse(inType: DType, outType: DType, k: Kind)
    ensures SelectKind(InputType(k), OutputType(k)) == Some(k)
    ensures SelectKind(inType, outType) == Some(k) ==> inType == InputType(k) && outType == OutputType(k)
  {
  }

  /** Element strides turned into byte strides. */
  function Scaled(strides: seq<int>, itemsize: nat): seq<int> {
    seq(|strides|, i requires 0 <= i < |strides| => strides[i] * itemsize)
  }

  /** The shape handed to the kernel: the output's when the output is
      float32, the input's otherwise. */
  function IterationShape(input: ArrayDesc, output: ArrayDesc): seq<nat> {
    if output.dtype == Float32 then output.shape else input.shape
  }

  /** What the axes must satisfy: they are read only for an inverse transform. */
  predicate PlanRequires(input: ArrayDesc, output: ArrayDesc, axes: seq<nat>, inverse: bool) {
    inverse ==> AxesIn(IterationShape(input, output), axes)
  }

  /** The kernel call eval_cpu dispatches, or the message it throws. */
  function Plan(input: ArrayDesc, output: ArrayDesc, axes: seq<nat>, inverse: bool): (r: Result<KernelCall>)
    requires PlanRequires(input, output, axes, inverse)
    ensures r.Failure? <==> SelectKind(input.dtype, output.dtype).None?
    ensures r.Failure? ==> r.message == UnexpectedCombination
    ensures r.Success? ==> SelectKind(input.dtype, output.dtype) == Some(r.value.kind)
    ensures r.Success? ==>
      && r.value.shape == IterationShape(input, output)
      && r.value.axes == axes
      && r.value.forward == !inverse
      && |r.value.stridesIn| == |input.strides|
      && (forall i :: 0 <= i < |input.strides| ==> r.value.stridesIn[i] == input.strides[i] * input.itemsize)
      && |r.value.stridesOut| == |output.strides|
      && (forall i :: 0 <= i < |output.strides| ==> r.value.stridesOut[i] == output.strides[i] * output.itemsize)
      && r.value.nelem == if inverse then AxesProduct(IterationShape(input, output), axes) else 1
  {
    var shape := IterationShape(input, output);
    var nelem := if inverse then AxesProduct(shape, axes) else 1;
    match SelectKind(input.dtype, output.dtype)
    case None => Failure(UnexpectedCombination)
    case Some(k) =>
      Success(KernelCall(k, shape, Scaled(input.strides, input.itemsize),
                         Scaled(output.strides, output.itemsize), axes, !inverse, nelem))
  }

  /** The factor the kernel multiplies its result by. */
  function Scale(call: KernelCall): (r: real)
    requires call.nelem > 0
    ensures 0.0 < r <= 1.0
    ensures r * call.nelem as real == 1.0
  {
    1.0 / call.nelem as real
  }

  /** The iteration shape is taken from the array that carries the full
      length of a real transform: the float32 input of r2c, the float32
      output of c2r, and the input of c2c. */
  lemma IterationShapeFromRealSide(input: ArrayDesc, output: ArrayDesc, axes: seq<nat>, inverse: bool)
    requires PlanRequires(input, output, axes, inverse)
    requires Plan(input, output, axes, inverse).Success?
    ensures var call := Plan(input, output, axes, inverse).value;
      && (call.kind == R2C ==> input.dtype == Float32 && call.shape == input.shape)
      && (call.kind == C2R ==> output.dtype == Float32 && call.shape == output.shape)
      && (call.kind == C2C ==> call.shape == input.shape)
  {
  }

  /** A forward transform is not normalised. */
  lemma ForwardScaleIsOne(input: ArrayDesc, output: ArrayDesc, axes: seq<nat>)
    requires Plan(input, output, axes, false).Success?
    ensures Plan(input, output, axes, false).value.nelem == 1
    ensures Scale(Plan(input, output, axes, false).value) == 1.0
  {
  }

  /** An inverse transform over axes of non-zero length is scaled by exactly
      one over the product of their lengths, and that scale does not depend
      on the order in which the axes are listed. */
  lemma {:induction false} InverseScale(input: ArrayDesc, output: ArrayDesc, axes: seq<nat>, axes': seq<nat>)
    requires AxesIn(IterationShape(input, output), axes)
    requires Plan(input, output, axes, true).Success?
    requires forall i :: 0 <= i < |axes| ==> IterationShape(input, output)[axes[i]] > 0
    requires multiset(axes') == multiset(axes)
    ensures AxesIn(IterationShape(input, output), axes')
    ensures Plan(input, output, axes, true).value.nelem > 0
    ensures Scale(Plan(input, output, axes, true).value) * AxesProduct(IterationShape(input, output), axes) as real == 1.0
    ensures Plan(input, output, axes', true).Success?
    ensures Plan(input, output, axes', true).value.nelem == Plan(input, output, axes, true).value.nelem
  {
    var shape := IterationShape(input, output);
    forall i | 0 <= i < |axes'| ensures axes'[i] < |shape| {
      assert axes'[i] in multiset(axes);
      var j :| 0 <= j < |axes| && axes[j] == axes'[i];
    }
    ProductZeroIff(shape, axes);
    ProductPermutation(shape, axes, axes');
  }

  /** The kernel calls dispatched in a sequence of events, in order. */
  function Dispatches(events: seq<Event>): seq<KernelCall>
    decreases |events|
  {
    if events == [] then []
    else (if events[0].Dispatch? then [events[0].call] else []) + Dispatches(events[1..])
  }

  lemma {:induction false} DispatchesAppend(a: seq<Event>, b: seq<Event>)
    ensures Dispatches(a + b) == Dispatches(a) + Dispatches(b)
    decreases |a|
  {
    if a == [] {
      assert a + b == b;
    } else {
      var head := if a[0].Dispatch? then [a[0].call] else [];
      assert (a + b)[0] == a[0];
      assert (a + b)[1..] == a[1..] + b;
      assert Dispatches(a + b) == head + Dispatches(a[1..] + b);
      DispatchesAppend(a[1..], b);
      assert Dispatches(a) == head + Dispatches(a[1..]);
    }
  }

  /** The effects of one eval_cpu call: the output allocation of out.nbytes,
      the input and output registration, and the dispatch when the dtype pair
      is supported. */
  function EvalTrace(input: ArrayDesc, output: ArrayDesc, axes: seq<nat>, inverse: bool): (r: seq<Event>)
    requires PlanRequires(input, output, axes, inverse)
    ensures |r| == if Plan(input, output, axes, inverse).Success? then 4 else 3
    ensures r[0] == Alloc(output.nbytes)
    ensures r[1] == SetInput(input) && r[2] == SetOutput(output)
    ensures forall i :: 0 <= i < |r| && r[i].Dispatch? ==> i == 3
    ensures Dispatches(r) == match Plan(input, output, axes, inverse)
                             case Success(call) => [call]
                             case Failure(_) => []
  {
    var registered := [Alloc(output.nbytes), SetInput(input), SetOutput(output)];
    assert Dispatches(registered) == [] by {
      var tail := [SetOutput(output)];
      assert tail[1..] == [] && Dispatches(tail) == [];
      assert registered[1..][1..] == tail && Dispatches(registered[1..]) == [];
    }
    match Plan(input, output, axes, inverse)
    case Success(call) =>
      DispatchesAppend(registered, [Dispatch(call)]);
      assert [Dispatch(call)][1..] == [];
      registered + [Dispatch(call)]
    case Failure(_) => registered
  }

  /** A log extended by one eval_cpu call gains the planned dispatch, if any. */
  lemma TraceAfterRegistration(before: seq<Event>, input: ArrayDesc, output: ArrayDesc, axes: seq<nat>, inverse: bool)
    requires PlanRequires(input, output, axes, inverse)
    ensures before + EvalTrace(input, output, axes, inverse)
         == before + [Alloc(output.nbytes), SetInput(input), SetOutput(output)] + match Plan(input, output, axes, inverse)
                                                                                 case Success(call) => [Dispatch(call)]
                                                                                 case Failure(_) => []
    ensures Dispatches(before + EvalTrace(input, output, axes, inverse))
         == Dispatches(before) + match Plan(input, output, axes, inverse)
                                 case Success(call) => [call]
                                 case Failure(_) => []
  {
    DispatchesAppend(before, EvalTrace(input, output, axes, inverse));
  }

  /** An inverse transform over no axes is not normalised: the fold returns its seed. */
  lemma InverseOverNoAxes(input: ArrayDesc, output: ArrayDesc)
    requires Plan(input, output, [], true).Success?
    ensures Plan(input, output, [], true).value.nelem == 1
  {
  }

  /** Length-8 real data through r2c into 5 complex bins and back through c2r:
      the inverse takes its length from the 8-element real output, not from
      the 5-element complex input, so its scale is exactly 1/8. */
  lemma HalfSpectrumScenario(real8: ArrayDesc, bins5: ArrayDesc)
    requires real8 == ArrayDesc([8], [1], Float32, 4, 32)
    requires bins5 == ArrayDesc([5], [1], Complex64, 8, 40)
    ensures Plan(real8, bins5, [0], false) == Success(KernelCall(R2C, [8], [4], [8], [0], true, 1))
    ensures Plan(bins5, real8, [0], true) == Success(KernelCall(C2R, [8], [8], [4], [0], false, 8))
    ensures Scale(Plan(bins5, real8, [0], true).value) == 1.0 / 8.0
  {
    var ax: seq<nat> := [0];
    assert ax[1..] == [];
    assert AxesProduct([8], ax) == 8;
    assert Scaled([1], 4) == [4] && Scaled([1], 8) == [8];
  }

  /** A 4 x 4 complex inverse transform over both axes is scaled by 1/16,
      whichever order the axes are listed in. */
  lemma TwoAxesScenario(grid: ArrayDesc)
    requires grid == ArrayDesc([4, 4], [4, 1], Complex64, 8, 128)
    ensures Plan(grid, grid, [0, 1], true).Success?
    ensures Plan(grid, grid, [0, 1], true).value.kind == C2C
    ensures Plan(grid, grid, [0, 1], true).value.nelem == 16
    ensures Plan(grid, grid, [1, 0], true).value.nelem == 16
    ensures Scale(Plan(grid, grid, [0, 1], true).value) == 1.0 / 16.0
  {
    var ax: seq<nat> := [0, 1];
    assert ax[1..] == [1] && ax[1..][1..] == [];
    assert AxesProduct([4, 4], ax) == 16;
    InverseScale(grid, grid, [0, 1], [1, 0]);
  }

  /** Below 2^31 the nelem of the plan is the one the source's int-seeded
      fold computes. */
  lemma PlanNelemMatchesSource(input: ArrayDesc, output: ArrayDesc, axes: seq<nat>)
    requires AxesIn(IterationShape(input, output), axes)
    requires Plan(input, output, axes, true).Success?
    requires AxesProduct(IterationShape(input, output), axes) < TwoTo31
    ensures Plan(input, output, axes, true).value.nelem == AsWrittenNelem(IterationShape(input, output), axes)
  {
    AsWrittenAgreesBelowInt32Max(IterationShape(input, output), axes);
  }

  /** At 2^32 they part: a 65536 x 65536 complex inverse transform is planned
      with nelem 2^32, where the source's fold yields 0. */
  lemma PlanNelemDepartsFromSource(grid: ArrayDesc)
    requires grid == ArrayDesc([65536, 65536], [65536, 1], Complex64, 8, 0x8_0000_0000)
    ensures AxesIn(grid.shape, [0, 1])
    ensures Plan(grid, grid, [0, 1], true).Success?
    ensures Plan(grid, grid, [0, 1], true).value.nelem == 0x1_0000_0000
    ensures AsWrittenNelem(IterationShape(grid, grid), [0, 1]) == 0
  {
    AsWrittenNelemOverflows();
  }
}
