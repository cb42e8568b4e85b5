/** The normalisation denominator of an inverse transform: the product of the
    iteration-shape sizes over the transformed axes (fft.cpp, the
    std::accumulate fold), exactly and as the C++ accumulator computes it. */
module FftScale {

  /** Every axis indexes the shape. */
  predicate AxesIn(shape: seq<nat>, axes: seq<nat>) {
    forall i :: 0 <= i < |axes| ==> axes[i] < |shape|
  }

  /** The left fold of std::accumulate over the axes, each step multiplying
      the accumulator by shape[axis], in exact arithmetic. */
  function Accumulate(acc: nat, shape: seq<nat>, axes: seq<nat>): nat
    requires AxesIn(shape, axes)
    decreases |axes|
  {
    if axes == [] then acc else Accumulate(acc * shape[axes[0]], shape, axes[1..])
  }

  /** The product of shape[a] over the axes, seeded with 1. */
  function AxesProduct(shape: seq<nat>, axes: seq<nat>): nat
    requires AxesIn(shape, axes)
  {
    Accumulate(1, shape, axes)
  }

  /** Seeding the fold with acc scales the plain product by acc. */
  lemma {:induction false} AccumulateFactor(acc: nat, shape: seq<nat>, axes: seq<nat>)
    requires AxesIn(shape, axes)
    ensures Accumulate(acc, shape, axes) == acc * AxesProduct(shape, axes)
    decreases |axes|
  {
    if axes != [] {
      var d := shape[axes[0]];
      AccumulateFactor(acc * d, shape, axes[1..]);
      AccumulateFactor(d, shape, axes[1..]);
      assert Accumulate(1, shape, axes) == Accumulate(d, shape, axes[1..]);
      assert acc * d * AxesProduct(shape, axes[1..]) == acc * (d * AxesProduct(shape, axes[1..]));
    }
  }

  /** The first axis contributes its size as a factor. */
  lemma ProductCons(shape: seq<nat>, a: nat, axes: seq<nat>)
    requires a < |shape| && AxesIn(shape, axes)
    ensures AxesIn(shape, [a] + axes)
    ensures AxesProduct(shape, [a] + axes) == shape[a] * AxesProduct(shape, axes)
  {
    assert ([a] + axes)[1..] == axes;
    AccumulateFactor(shape[a], shape, axes);
  }

  /** The product over a concatenation of axis lists is the product of the two products. */
  lemma {:induction false} ProductAppend(shape: seq<nat>, x: seq<nat>, y: seq<nat>)
    requires AxesIn(shape, x) && AxesIn(shape, y)
    ensures AxesIn(shape, x + y)
    ensures AxesProduct(shape, x + y) == AxesProduct(shape, x) * AxesProduct(shape, y)
    decreases |x|
  {
    if x == [] {
      assert x + y == y;
    } else {
      var rest := x[1..];
      assert x == [x[0]] + rest;
      assert x + y == [x[0]] + (rest + y);
      ProductAppend(shape, rest, y);
      ProductCons(shape, x[0], rest + y);
      ProductCons(shape, x[0], rest);
      assert shape[x[0]] * (AxesProduct(shape, rest) * AxesProduct(shape, y))
          == (shape[x[0]] * AxesProduct(shape, rest)) * AxesProduct(shape, y);
    }
  }

  /** An axis listed once more contributes its size once more: repeated axes
      are not collapsed. */
  lemma ProductSnoc(shape: seq<nat>, axes: seq<nat>, a: nat)
    requires AxesIn(shape, axes) && a < |shape|
    ensures AxesIn(shape, axes + [a])
    ensures AxesProduct(shape, axes + [a]) == AxesProduct(shape, axes) * shape[a]
  {
    ProductAppend(shape, axes, [a]);
    assert [a][1..] == [];
    assert AxesProduct(shape, [a]) == Accumulate(shape[a], shape, []) == shape[a];
  }

  /** Taking one axis out of the list divides its size out of the product. */
  lemma ProductRemoveAt(shape: seq<nat>, y: seq<nat>, j: nat)
    requires AxesIn(shape, y) && j < |y|
    ensures AxesIn(shape, y[..j] + y[j + 1..])
    ensures AxesProduct(shape, y) == shape[y[j]] * AxesProduct(shape, y[..j] + y[j + 1..])
  {
    var a, l, r := y[j], y[..j], y[j + 1..];
    assert y == l + ([a] + r);
    ProductCons(shape, a, r);
    ProductAppend(shape, l, [a] + r);
    ProductAppend(shape, l, r);
    var p, q := AxesProduct(shape, l), AxesProduct(shape, r);
    assert p * (shape[a] * q) == shape[a] * (p * q);
  }

  /** Removing the first element of x and an equal element of y keeps the multisets equal. */
  lemma MultisetRemove(x: seq<nat>, y: seq<nat>, j: nat)
    requires |x| > 0 && j < |y| && y[j] == x[0]
    requires multiset(x) == multiset(y)
    ensures multiset(x[1..]) == multiset(y[..j] + y[j + 1..])
  {
    var a := x[0];
    assert x == [a] + x[1..];
    assert y == y[..j] + [a] + y[j + 1..];
    assert multiset(x[1..]) == multiset(x) - multiset{a};
    assert multiset(y[..j] + y[j + 1..]) == multiset(y) - multiset{a};
  }

  /** The product depends on the axes only as a multiset: the order in which
      they are listed does not change the scale. */
  lemma {:induction false} ProductPermutation(shape: seq<nat>, x: seq<nat>, y: seq<nat>)
    requires AxesIn(shape, x) && AxesIn(shape, y)
    requires multiset(x) == multiset(y)
    ensures AxesProduct(shape, x) == AxesProduct(shape, y)
    decreases |x|
  {
    if x == [] {
      assert |y| == |multiset(y)| == 0;
    } else {
      assert x[0] in multiset(y);
      var j :| 0 <= j < |y| && y[j] == x[0];
      MultisetRemove(x, y, j);
      ProductRemoveAt(shape, y, j);
      ProductPermutation(shape, x[1..], y[..j] + y[j + 1..]);
      assert x == [x[0]] + x[1..];
      ProductCons(shape, x[0], x[1..]);
    }
  }

  /** The product is zero exactly when some transformed axis has length zero;
      otherwise the scale 1 / product is defined. */
  lemma {:induction false} ProductZeroIff(shape: seq<nat>, axes: seq<nat>)
    requires AxesIn(shape, axes)
    ensures AxesProduct(shape, axes) == 0 <==> exists i :: 0 <= i < |axes| && shape[axes[i]] == 0
    decreases |axes|
  {
    if axes != [] {
      var rest := axes[1..];
      assert axes == [axes[0]] + rest;
      ProductCons(shape, axes[0], rest);
      ProductZeroIff(shape, rest);
      if exists i :: 0 <= i < |rest| && shape[rest[i]] == 0 {
        var i :| 0 <= i < |rest| && shape[rest[i]] == 0;
        assert shape[axes[i + 1]] == 0;
      }
      if exists i :: 0 <= i < |axes| && shape[axes[i]] == 0 {
        var i :| 0 <= i < |axes| && shape[axes[i]] == 0;
        if i > 0 {
          assert shape[rest[i - 1]] == 0;
        }
      }
    }
  }

  // The fold as compiled. std::accumulate takes its accumulator type from
  // the seed, the int literal 1: each step forms x * shape[y] in size_t
  // and stores the result back into a 32-bit int; the final int is then
  // converted to the size_t nelem.

  const TwoTo31: int := 0x8000_0000
  const TwoTo32: int := 0x1_0000_0000
  const TwoTo64: int := 0x1_0000_0000_0000_0000

  /** Conversion to a 32-bit signed int: the value in [-2^31, 2^31) congruent modulo 2^32. */
  function ToInt32(x: int): (r: int)
    ensures -TwoTo31 <= r < TwoTo31
    ensures (r - x) % TwoTo32 == 0
  {
    var m := x % TwoTo32;
    if m < TwoTo31 then m else m - TwoTo32
  }

  /** Conversion to a 64-bit size_t: the value in [0, 2^64) congruent modulo 2^64. */
  function ToSizeT(x: int): (r: nat)
    ensures r < TwoTo64
    ensures (r - x) % TwoTo64 == 0
  {
    x % TwoTo64
  }

  /** One step of the compiled fold: int accumulator times size_t dimension,
      multiplied in size_t and stored back into the int. */
  function Int32Step(x: int, d: nat): (r: int)
    ensures -TwoTo31 <= r < TwoTo31
  {
    ToInt32(ToSizeT(ToSizeT(x) * d))
  }

  function AccumulateInt32(acc: int, shape: seq<nat>, axes: seq<nat>): (r: int)
    requires AxesIn(shape, axes)
    ensures -TwoTo31 <= acc < TwoTo31 ==> -TwoTo31 <= r < TwoTo31
    decreases |axes|
  {
    if axes == [] then acc else AccumulateInt32(Int32Step(acc, shape[axes[0]]), shape, axes[1..])
  }

  /** nelem as fft.cpp computes it: a sign-extended int, so either below
      2^31 or within 2^31 of the top of the size_t range. */
  function AsWrittenNelem(shape: seq<nat>, axes: seq<nat>): (r: nat)
    requires AxesIn(shape, axes)
    ensures r < TwoTo31 || TwoTo64 - TwoTo31 <= r < TwoTo64
  {
    ToSizeT(AccumulateInt32(1, shape, axes))
  }

  /** Two integers congruent modulo 2^32 convert to the same int. */
  lemma ToInt32Congruent(a: int, b: int)
    requires (a - b) % TwoTo32 == 0
    ensures ToInt32(a) == ToInt32(b)
  {
  }

  /** Congruence modulo 2^32 survives multiplication by any factor. */
  lemma MulCongruent(a: int, b: int, d: int)
    requires (a - b) % TwoTo32 == 0
    ensures (a * d - b * d) % TwoTo32 == 0
  {
    var k := (a - b) / TwoTo32;
    assert a - b == TwoTo32 * k;
    assert a * d - b * d == (a - b) * d;
    assert a * d - b * d == TwoTo32 * (k * d);
  }

  /** Congruence modulo 2^64 implies congruence modulo 2^32. */
  lemma Congruent64To32(a: int, b: int)
    requires (a - b) % TwoTo64 == 0
    ensures (a - b) % TwoTo32 == 0
  {
    var k := (a - b) / TwoTo64;
    assert a - b == TwoTo32 * (TwoTo32 * k);
  }

  /** Congruence modulo 2^32 is transitive. */
  lemma CongruentTrans(a: int, b: int, c: int)
    requires (a - b) % TwoTo32 == 0 && (b - c) % TwoTo32 == 0
    ensures (a - c) % TwoTo32 == 0
  {
  }

  /** A compiled step is the exact product wrapped to 32 bits. */
  lemma Int32StepWraps(x: int, d: nat)
    ensures Int32Step(x, d) == ToInt32(x * d)
  {
    var u := ToSizeT(x);
    Congruent64To32(u, x);
    MulCongruent(u, x, d);
    var w := ToSizeT(u * d);
    Congruent64To32(w, u * d);
    CongruentTrans(w, u * d, x * d);
    ToInt32Congruent(w, x * d);
  }

  /** Wrapping an intermediate product to 32 bits does not change the wrapped final product. */
  lemma WrapThenMultiply(m: int, p: int)
    ensures ToInt32(ToInt32(m) * p) == ToInt32(m * p)
  {
    var t := ToInt32(m);
    MulCongruent(t, m, p);
    ToInt32Congruent(t * p, m * p);
  }

  /** One compiled step followed by the rest of the product wraps like the whole product. */
  lemma StepThenMultiply(acc: int, d: nat, p: int)
    ensures ToInt32(Int32Step(acc, d) * p) == ToInt32(acc * (d * p))
  {
    Int32StepWraps(acc, d);
    WrapThenMultiply(acc * d, p);
    assert acc * d * p == acc * (d * p);
  }

  /** The compiled fold yields the exact product wrapped to 32 bits. */
  lemma {:induction false} AccumulateInt32Wraps(acc: int, shape: seq<nat>, axes: seq<nat>)
    requires AxesIn(shape, axes)
    requires -TwoTo31 <= acc < TwoTo31
    ensures AccumulateInt32(acc, shape, axes) == ToInt32(acc * AxesProduct(shape, axes))
    decreases |axes|
  {
    if axes == [] {
      assert AxesProduct(shape, axes) == 1;
    } else {
      var d := shape[axes[0]];
      var rest := axes[1..];
      assert axes == [axes[0]] + rest;
      ProductCons(shape, axes[0], rest);
      AccumulateInt32Wraps(Int32Step(acc, d), shape, rest);
      StepThenMultiply(acc, d, AxesProduct(shape, rest));
    }
  }

  /** The nelem fft.cpp computes is the exact product wrapped to a 32-bit
      int and then sign-extended into size_t. */
  lemma AsWrittenNelemWraps(shape: seq<nat>, axes: seq<nat>)
    requires AxesIn(shape, axes)
    ensures AsWrittenNelem(shape, axes) == ToSizeT(ToInt32(AxesProduct(shape, axes)))
  {
    AccumulateInt32Wraps(1, shape, axes);
  }

  /** Below 2^31 the compiled fold agrees with the exact product. */
  lemma AsWrittenAgreesBelowInt32Max(shape: seq<nat>, axes: seq<nat>)
    requires AxesIn(shape, axes)
    requires AxesProduct(shape, axes) < TwoTo31
    ensures AsWrittenNelem(shape, axes) == AxesProduct(shape, axes)
  {
    AsWrittenNelemWraps(shape, axes);
  }

  /** Two inputs on which the compiled fold departs from the product: a
      65536 x 32768 transform gets nelem = 2^64 - 2^31 instead of 2^31 (a
      scale near 5e-20 instead of 1/2^31), and a 65536 x 65536 transform gets
      nelem = 0 instead of 2^32 (the float division then yields infinity). */
  lemma AsWrittenNelemOverflows()
    ensures AxesIn([65536, 32768], [0, 1]) && AxesIn([65536, 65536], [0, 1])
    ensures AxesProduct([65536, 32768], [0, 1]) == 0x8000_0000
    ensures AsWrittenNelem([65536, 32768], [0, 1]) == 0xFFFF_FFFF_8000_0000
    ensures AxesProduct([65536, 65536], [0, 1]) == 0x1_0000_0000
    ensures AsWrittenNelem([65536, 65536], [0, 1]) == 0
  {
    var s1: seq<nat>, s2: seq<nat>, ax: seq<nat> := [65536, 32768], [65536, 65536], [0, 1];
    assert ax[1..] == [1] && ax[1..][1..] == [];
    assert Int32Step(1, 65536) == 65536;
    assert Int32Step(65536, 32768) == -0x8000_0000;
    assert Int32Step(65536, 65536) == 0;
  }
}
