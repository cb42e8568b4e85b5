/** Values that FFT::eval_cpu reads, computes and hands on. */
module FftTypes {

  /** The element types of the runtime. The CPU FFT distinguishes only Float32 and Complex64. */
  datatype DType =
    | Bool | UInt8 | UInt16 | UInt32 | UInt64
    | Int8 | Int16 | Int32 | Int64
    | Float16 | Float32 | Float64 | BFloat16 | Complex64

  /** What eval_cpu asks of an array: its shape, element strides, dtype,
      bytes per element and total bytes. */
  datatype ArrayDesc = ArrayDesc(
    shape: seq<nat>,
    strides: seq<int>,
    dtype: DType,
    itemsize: nat,
    nbytes: nat)

  /** The three pocketfft entry points: c2c, r2c and c2r. */
  datatype Kind = C2C | R2C | C2R

  /** The arguments one deferred pocketfft call receives. The float scale is
      carried exactly as its denominator: the kernel scales by 1 / nelem. */
  datatype KernelCall = KernelCall(
    kind: Kind,
    shape: seq<nat>,
    stridesIn: seq<int>,
    stridesOut: seq<int>,
    axes: seq<nat>,
    forward: bool,
    nelem: nat)

  /** The visible effects of eval_cpu, in the order they happen: the output
      allocation, the encoder's input and output registration, and the one
      dispatch of a kernel call. */
  datatype Event =
    | Alloc(nbytes: nat)
    | SetInput(input: ArrayDesc)
    | SetOutput(output: ArrayDesc)
    | Dispatch(call: KernelCall)

  datatype Option<T> = None | Some(value: T)

  datatype Result<T> = Success(value: T) | Failure(message: string)

  /** How eval_cpu returns: normally, or by throwing an exception with a message. */
  datatype Outcome = Returned | Thrown(message: string)

  /** The text of the runtime_error thrown for an unsupported dtype pair. */
  const UnexpectedCombination: string :=
    "[FFT] Received unexpected input and output type combination."
}
