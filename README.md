# MLX CPU FFT dispatch, modelled in Dafny

This project models `FFT::eval_cpu` from MLX's CPU backend (`mlx/backend/cpu/fft.cpp`).
That routine sits between an FFT primitive of the array graph and the pocketfft library.
It does the following, in order:

1. It converts the input's and the output's element strides into byte strides.
2. It allocates the output buffer.
3. It chooses the iteration shape: the output's shape when the output is `float32`, the input's otherwise.
4. It computes the normalisation `scale = 1 / nelem`. For an inverse transform, `nelem` is the product of the iteration-shape sizes over the axes. For a forward transform it is 1.
5. It registers both arrays with the command encoder.
6. It dispatches one deferred call to exactly one of pocketfft's `c2c`, `r2c` or `c2r`. Which one depends on the (input dtype, output dtype) pair. Any other pair throws "unexpected input and output type combination".

Layout:

- `fft_types.dfy` (module `FftTypes`): dtypes, the array descriptor, the kernel call, effect events, results.
- `fft_scale.dfy` (module `FftScale`): the `nelem` product fold and its algebra. It also holds the fold as the C++ compiles it (see Findings).
- `fft_plan.dfy` (module `FftPlan`): a pure reference definition of the kernel call (`Plan`) and of the effect sequence (`EvalTrace`), with lemmas about both.
- `fft_eval.dfy` (module `FftEval`): the imperative procedure. `ByteStrides` scales a vector in place. The class `EffectLog` records allocation and encoder calls. `EvalCpu` follows the source's statements in their order, except that it computes `nelem` with the corrected exact product rather than the source's int-seeded fold (see Findings). Its postcondition ties the log and the outcome to `EvalTrace` and `Plan`. `HalfSpectrumOnFreshLog` is a caller that runs two transforms on a fresh log.

The float scale is carried exactly, as its denominator `nelem`. `FftPlan.Scale` gives the real number `1 / nelem`.

Three behaviours of `eval_cpu` worth noting:

- An empty axis list is accepted. It gives `nelem = 1` (`FftPlan.InverseOverNoAxes`).
- The exception message is a fixed text. It does not name the offending dtype pair.
- An unsupported pair is detected only after the output has been allocated and both arrays registered.

## Model

| member | source | states |
|---|---|---|
| `FftEval.ByteStrides` | mlx/backend/cpu/fft.cpp:14-23 | the byte-stride vector has the length of the element strides; entry i is strides[i] * itemsize, in the same order |
| `FftPlan.SelectKind` | mlx/backend/cpu/fft.cpp:47-117 | (complex64, complex64) selects c2c, (float32, complex64) r2c, (complex64, float32) c2r, and every other pair selects nothing, each as an if-and-only-if |
| `FftPlan.SelectKindInverse` | mlx/backend/cpu/fft.cpp:47-117 | each kernel is selected by its own dtype pair and only by it |
| `FftPlan.Plan` | mlx/backend/cpu/fft.cpp:12-117 | it fails, with the constant message, exactly on unsupported dtype pairs; otherwise the kernel call carries the iteration shape, the byte strides of both arrays, the axes unchanged, forward = !inverse, and nelem = product over axes when inverse and 1 when forward |
| `FftPlan.IterationShape` | mlx/backend/cpu/fft.cpp:27-32 | the output's shape when the output is float32, the input's otherwise; it has no ensures of its own, and `FftPlan.Plan` and `FftPlan.IterationShapeFromRealSide` state its use |
| `FftPlan.Scaled` | mlx/backend/cpu/fft.cpp:14-23 | the byte strides as a value; it has no ensures of its own, and `FftEval.ByteStrides` and `FftPlan.Plan` state its entries pointwise |
| `FftPlan.IterationShapeFromRealSide` | mlx/backend/cpu/fft.cpp:27-32 | the shape passed to r2c is that of its float32 input, the one passed to c2r that of its float32 output, and the one passed to c2c that of its input |
| `FftPlan.Scale` | mlx/backend/cpu/fft.cpp:34-40 | the kernel's scale is a real in (0, 1] whose product with nelem is exactly 1 |
| `FftPlan.ForwardScaleIsOne` | mlx/backend/cpu/fft.cpp:34-35 | a forward transform has nelem 1 and scale 1 |
| `FftPlan.InverseScale` | mlx/backend/cpu/fft.cpp:35-41 | for an inverse transform over axes of non-zero length, scale * product == 1, and a permuted axis list gives the same nelem |
| `FftPlan.InverseOverNoAxes` | mlx/backend/cpu/fft.cpp:36-39 | an inverse transform over an empty axis list has nelem 1 |
| `FftPlan.HalfSpectrumScenario` | mlx/backend/cpu/fft.cpp:27-41 | an 8-point real r2c produces a forward call on shape [8]; the inverse c2r from 5 bins back to 8 reals uses shape [8] and scale 1/8 |
| `FftPlan.TwoAxesScenario` | mlx/backend/cpu/fft.cpp:34-52 | a 4 x 4 complex inverse over axes [0, 1] or [1, 0] is c2c with nelem 16 and scale 1/16 |
| `FftScale.Accumulate` | mlx/backend/cpu/fft.cpp:36-39 | the left fold over the axes in exact arithmetic; it has no ensures of its own, and its properties are stated by `FftScale.AccumulateFactor` and the product lemmas below |
| `FftScale.AxesProduct` | mlx/backend/cpu/fft.cpp:36-39 | the corrected nelem, the fold seeded with 1; it has no ensures of its own, and its properties are stated by `FftScale.ProductAppend`, `FftScale.ProductSnoc`, `FftScale.ProductPermutation`, `FftScale.ProductZeroIff` and `FftPlan.InverseScale` |
| `FftScale.AccumulateFactor` | mlx/backend/cpu/fft.cpp:36-39 | seeding the fold with acc multiplies the product by acc |
| `FftScale.ProductCons` | mlx/backend/cpu/fft.cpp:36-39 | the first axis contributes its size as a factor |
| `FftScale.ProductAppend` | mlx/backend/cpu/fft.cpp:36-39 | the product over x + y is the product over x times the product over y |
| `FftScale.ProductSnoc` | mlx/backend/cpu/fft.cpp:36-39 | an axis listed once more contributes its size once more (repeated axes are not collapsed) |
| `FftScale.ProductPermutation` | mlx/backend/cpu/fft.cpp:36-39 | axis lists with the same multiset have the same product |
| `FftScale.ProductZeroIff` | mlx/backend/cpu/fft.cpp:36-40 | the product is zero exactly when some listed axis has length zero |
| `FftScale.ToInt32` | mlx/backend/cpu/fft.cpp:36-37 | conversion to int gives the value in [-2^31, 2^31) congruent modulo 2^32 |
| `FftScale.ToSizeT` | mlx/backend/cpu/fft.cpp:36 | conversion to size_t gives the value in [0, 2^64) congruent modulo 2^64 |
| `FftScale.Int32Step` | mlx/backend/cpu/fft.cpp:37-38 | one step of the fold as compiled (int accumulator times size_t size, stored back into the int); its result is always in the int range; `FftScale.Int32StepWraps` states its value |
| `FftScale.AccumulateInt32` | mlx/backend/cpu/fft.cpp:36-39 | the fold as compiled; from a seed in the int range its result stays in the int range; `FftScale.AccumulateInt32Wraps` states its value |
| `FftScale.AsWrittenNelem` | mlx/backend/cpu/fft.cpp:36-40 | the source's nelem is a sign-extended int: below 2^31, or within 2^31 of the top of the size_t range; `FftScale.AsWrittenNelemWraps` states its value |
| `FftScale.Int32StepWraps` | mlx/backend/cpu/fft.cpp:37-38 | one compiled accumulate step equals the exact product wrapped to 32 bits |
| `FftScale.AccumulateInt32Wraps` | mlx/backend/cpu/fft.cpp:36-39 | the compiled fold equals the exact product wrapped to 32 bits |
| `FftScale.AsWrittenNelemWraps` | mlx/backend/cpu/fft.cpp:36-39 | nelem as written is the exact product wrapped to int and then converted to size_t |
| `FftScale.AsWrittenAgreesBelowInt32Max` | mlx/backend/cpu/fft.cpp:36-39 | below 2^31 the as-written nelem equals the exact product |
| `FftScale.AsWrittenNelemOverflows` | mlx/backend/cpu/fft.cpp:36-40 | shapes 65536 x 32768 and 65536 x 65536 over axes [0, 1] give nelem 2^64 - 2^31 and 0 instead of 2^31 and 2^32 |
| `FftPlan.PlanNelemMatchesSource` | mlx/backend/cpu/fft.cpp:35-40 | when the product over the axes is below 2^31, the plan's nelem equals the source's int-seeded fold |
| `FftPlan.PlanNelemDepartsFromSource` | mlx/backend/cpu/fft.cpp:35-40 | for a 65536 x 65536 complex inverse over both axes the plan's nelem is 2^32 while the source's fold gives 0 |
| `FftPlan.DispatchesAppend` | mlx/backend/cpu/fft.cpp:52-96 | the dispatches of a concatenated log are the dispatches of each part, in order |
| `FftPlan.EvalTrace` | mlx/backend/cpu/fft.cpp:25-117 | the effects are the allocation of out.nbytes, the input registration, the output registration, then one dispatch carrying the planned call on success and none on failure; no dispatch is at any other position |
| `FftPlan.TraceAfterRegistration` | mlx/backend/cpu/fft.cpp:43-117 | a log extended by one call's effects ends with the three registration-side events and the planned dispatch, and its dispatches grow by exactly the planned call or by nothing |
| `FftEval.EffectLog.Malloc` | mlx/backend/cpu/fft.cpp:25 | appends exactly one allocation event of the requested size |
| `FftEval.EffectLog.SetInputArray` | mlx/backend/cpu/fft.cpp:44 | appends exactly one input-registration event |
| `FftEval.EffectLog.SetOutputArray` | mlx/backend/cpu/fft.cpp:45 | appends exactly one output-registration event |
| `FftEval.EffectLog.Dispatch` | mlx/backend/cpu/fft.cpp:52-69 | appends exactly one dispatch event carrying the kernel call |
| `FftEval.HalfSpectrumOnFreshLog` | mlx/backend/cpu/fft.cpp:12-118 | on a fresh log, an r2c forward and a c2r inverse both return, leave eight events that start with each output's allocation, and dispatch exactly the two planned calls |
| `FftEval.EvalCpu` | mlx/backend/cpu/fft.cpp:12-118 | it appends exactly EvalTrace to the log; it returns when Plan succeeds and throws Plan's message otherwise; the log gains exactly the planned call as a dispatch on success and no dispatch on failure |

## Left out

- The pocketfft kernels `c2c`, `r2c` and `c2r`. They are foreign, floating-point code. A dispatch is an opaque event carrying its arguments; transform results, round trips and linearity are not modelled.
- The float type of `scale`. It is carried exactly as `1 / nelem`, without IEEE rounding. When nelem is 0 the source divides by zero and gets infinity; `FftPlan.Scale` is defined only for nelem > 0.
- Allocator and command-encoder internals: memory allocation, dependency tracking and the deferred execution of the dispatched closure. They appear only as events in `EffectLog`, and allocation failure is not modelled.
- Raw data pointers (`data<T>()`, `reinterpret_cast`). A dispatch records the kernel call, not the buffers. A registration records the array descriptor.
- `FftEval.ByteStrides`: the product of a stride and the item size is unbounded. The source's 64-bit `ptrdiff_t` could wrap, but not for strides of an array that fits in memory.
- `FftPlan.Plan` and `FftEval.EvalCpu` carry the corrected exact `nelem` (`FftScale.AxesProduct`), not the source's int-seeded fold. The two agree below 2^31 (`FftPlan.PlanNelemMatchesSource`). From 2^31 on the source's value differs (`FftPlan.PlanNelemDepartsFromSource`; see Findings).
- `FftScale.AxesProduct`: the corrected fold is exact. A `size_t` accumulator would still wrap at 2^64, which a product of in-memory dimensions does not reach unless axes are repeated many times.
- `out.nbytes()` and `itemsize()` are fields of the array descriptor. The array class that computes them is not part of this model. Nor is the dtype list: the dtype enumeration lists the runtime's dtypes, and only `float32` and `complex64` matter here.
- The axes must index the iteration shape (`FftPlan.PlanRequires`), and only for an inverse transform, because only the `nelem` fold reads them here. The source does not check them.

## Findings

| source | as written | input that shows it | evidently intended | confidence | as-written member | corrected member |
|---|---|---|---|---|---|---|
| mlx/backend/cpu/fft.cpp:36-39 | `std::accumulate(..., 1, ...)` takes its accumulator type from the `int` literal `1`. Each partial product `x * shape[y]` is formed in `size_t` and stored back into a 32-bit `int`, which wraps modulo 2^32 (C++20; implementation-defined before). The final `int` is then sign-extended into the `size_t` nelem. | inverse FFT of a 65536 x 65536 array over axes [0, 1]: nelem becomes 0 instead of 2^32, so the scale is infinity. Over a 65536 x 32768 array, nelem becomes 2^64 - 2^31 instead of 2^31. | nelem is the exact product of the axis lengths, as with a `size_t` seed (`size_t{1}`) | not executed; the wrap follows from C++ conversion rules | `FftScale.AsWrittenNelemOverflows` (with `FftScale.AsWrittenNelem`, `FftScale.AsWrittenNelemWraps`) | `FftScale.AxesProduct` (proved in `FftScale.ProductAppend`, `FftScale.ProductPermutation`, `FftScale.ProductZeroIff`, `FftPlan.InverseScale`) |
