/** The float to N-bit code mapping of the MIT joint commands, over exact reals. */
module Quantiser {
  import opened Rounding

  /** How a fixed-point mapping resolves a value between two codes: V2 rounds, V3 truncates. */
  datatype Quantisation = Nearest | Truncate

  /** A field's value range and code width. */
  datatype Range = Range(lo: real, hi: real, bits: nat) {
    predicate Valid() {
      lo < hi && 0 < bits < 32
    }

    function MaxCode(): (m: nat)
      ensures bits > 0 ==> m > 0
    {
      Pow2(bits) - 1
    }

    /** `step` is the distance between neighbouring codes: the codes 0..MaxCode() span the range evenly. */
    predicate HasStep(step: real) {
      MaxCode() as real * step == hi - lo
    }

    /** The value the receiver reads back from code `c`. */
    function CodePoint(c: int, step: real): real {
      lo + c as real * step
    }
  }

  function Pow2(n: nat): (p: nat)
    ensures p > 0 && (n > 0 ==> p > 1)
  {
    if n == 0 then 1 else 2 * Pow2(n - 1)
  }

  function Clamp(value: real, lo: real, hi: real): real {
    var v := if value < lo then lo else value;
    if v > hi then hi else v
  }

  /** The two modes multiply and divide in the driver's orders before they drop the fraction. */
  function CodeOf(v: real, span: real, maxInt: real, q: Quantisation): int
    requires span != 0.0
  {
    if q.Nearest? then LRound(v / span * maxInt) else Trunc(v * maxInt / span)
  }

  function FloatToUintRange(value: real, r: Range, q: Quantisation): int
    requires r.lo < r.hi
  {
    CodeOf(Clamp(value, r.lo, r.hi) - r.lo, r.hi - r.lo, r.MaxCode() as real, q)
  }

  /** Every valid range has a step, and it is positive. */
  lemma StepOf(r: Range) returns (step: real)
    requires r.Valid()
    ensures r.HasStep(step) && step > 0.0
  {
    step := (r.hi - r.lo) / r.MaxCode() as real;
  }

  lemma Ratio(v: real, span: real, m: real, step: real, x: real)
    requires x * step == v && m * step == span && span > 0.0
    ensures v / span * m == x && v * m / span == x
  {
    var product := v * m;
    assert x * span == product by {
      Regroup(x, step, m);
    }
    DivIs(product, span, x);
    var a := v / span;
    assert a * m * span == product by {
      DivIs(v, span, a);
      Regroup(a, m, span);
      Regroup(a, span, m);
    }
    MulCancel(a * m, x, span);
  }

  lemma CodeOfRatio(v: real, span: real, m: real, x: real, q: Quantisation)
    requires span != 0.0 && v / span * m == x && v * m / span == x
    ensures CodeOf(v, span, m, q) == if q.Nearest? then LRound(x) else Trunc(x)
  {
    var y, z := v / span * m, v * m / span;
    assert CodeOf(v, span, m, q) == if q.Nearest? then LRound(y) else Trunc(z);
    SameCode(y, x);
    SameCode(z, x);
  }

  lemma Regroup(a: real, b: real, c: real)
    ensures a * (b * c) == a * b * c && b * c == c * b
  {}

  lemma DivIs(a: real, b: real, x: real)
    requires b != 0.0
    ensures x * b == a <==> a / b == x
  {}

  lemma MulCancel(a: real, b: real, k: real)
    requires a * k == b * k && k > 0.0
    ensures a == b
  {
    MulOrder(a, b, k);
    MulOrder(b, a, k);
  }

  lemma MulMonotone(a: real, b: real, k: real)
    requires a <= b && k >= 0.0
    ensures a * k <= b * k
  {}

  lemma MulStrict(a: real, b: real, k: real)
    requires a < b && k > 0.0
    ensures a * k < b * k
  {}

  lemma MulOrder(a: real, b: real, k: real)
    requires a * k <= b * k && k > 0.0
    ensures a <= b
  {
    if b < a {
      MulStrict(b, a, k);
    }
  }

  /** The height `x` of the clamped value above the bottom of the range, in steps. */
  lemma Height(value: real, r: Range, step: real) returns (x: real)
    requires r.Valid() && r.HasStep(step) && step > 0.0
    ensures x * step == Clamp(value, r.lo, r.hi) - r.lo
    ensures 0.0 <= x <= r.MaxCode() as real
  {
    var v := Clamp(value, r.lo, r.hi) - r.lo;
    x := v / step;
    assert x * step == v;
    MulOrder(0.0, x, step);
    MulOrder(x, r.MaxCode() as real, step);
  }

  /** Both of the driver's expressions compute that height before they drop the fraction. */
  lemma InSteps(value: real, r: Range, q: Quantisation, step: real, x: real)
    requires r.Valid() && r.HasStep(step)
    requires x * step == Clamp(value, r.lo, r.hi) - r.lo
    ensures FloatToUintRange(value, r, q) == if q.Nearest? then LRound(x) else Trunc(x)
  {
    Ratio(Clamp(value, r.lo, r.hi) - r.lo, r.hi - r.lo, r.MaxCode() as real, step, x);
    CodeOfRatio(Clamp(value, r.lo, r.hi) - r.lo, r.hi - r.lo, r.MaxCode() as real, x, q);
  }

  lemma Located(value: real, r: Range, q: Quantisation, step: real) returns (x: real)
    requires r.Valid() && r.HasStep(step) && step > 0.0
    ensures x * step == Clamp(value, r.lo, r.hi) - r.lo
    ensures 0.0 <= x <= r.MaxCode() as real
    ensures FloatToUintRange(value, r, q) == if q.Nearest? then LRound(x) else Trunc(x)
  {
    x := Height(value, r, step);
    InSteps(value, r, q, step, x);
  }

  /** No value, in or out of range, spills out of the field. */
  lemma CodeFitsField(value: real, r: Range, q: Quantisation)
    requires r.Valid()
    ensures 0 <= FloatToUintRange(value, r, q) <= r.MaxCode()
  {
    var step := StepOf(r);
    var x := Located(value, r, q, step);
  }

  lemma CodeMonotone(value: real, other: real, r: Range, q: Quantisation)
    requires r.Valid() && value <= other
    ensures FloatToUintRange(value, r, q) <= FloatToUintRange(other, r, q)
  {
    var step := StepOf(r);
    var x := Height(value, r, step);
    var y := Height(other, r, step);
    assert x <= y by {
      MulOrder(x, y, step);
    }
    InSteps(value, r, q, step, x);
    InSteps(other, r, q, step, y);
    LRoundMonotone(x, y);
  }

  /** An out-of-range value takes the extreme code and does not wrap. */
  lemma CodeSaturates(value: real, r: Range, q: Quantisation)
    requires r.Valid()
    ensures value <= r.lo ==> FloatToUintRange(value, r, q) == 0
    ensures value >= r.hi ==> FloatToUintRange(value, r, q) == r.MaxCode()
  {
    var step := StepOf(r);
    var x := Height(value, r, step);
    InSteps(value, r, q, step, x);
    if value <= r.lo {
      MulOrder(x, 0.0, step);
    } else if value >= r.hi {
      MulOrder(r.MaxCode() as real, x, step);
    }
  }

  /** A value that lies on a code point gets exactly that code. */
  lemma CodePointExact(c: nat, r: Range, q: Quantisation, step: real)
    requires r.Valid() && r.HasStep(step) && step > 0.0 && c <= r.MaxCode()
    ensures r.lo <= r.CodePoint(c, step) <= r.hi
    ensures FloatToUintRange(r.CodePoint(c, step), r, q) == c
  {
    CodePointInRange(c, r, step);
    InSteps(r.CodePoint(c, step), r, q, step, c as real);
  }

  lemma CodePointInRange(c: nat, r: Range, step: real)
    requires r.Valid() && r.HasStep(step) && step > 0.0 && c <= r.MaxCode()
    ensures r.lo <= r.CodePoint(c, step) <= r.hi
  {
    MulMonotone(0.0, c as real, step);
    MulMonotone(c as real, r.MaxCode() as real, step);
  }

  /** Rounding picks a closest code point: it is within half a step, and no other code point is nearer than that. */
  lemma NearestIsClosest(value: real, r: Range, c: int, step: real)
    requires r.Valid() && r.HasStep(step) && step > 0.0 && r.lo <= value <= r.hi
    ensures var code := FloatToUintRange(value, r, Nearest);
            && -step / 2.0 <= value - r.CodePoint(code, step) <= step / 2.0
            && (c < code ==> value - r.CodePoint(c, step) >= step / 2.0)
            && (c > code ==> r.CodePoint(c, step) - value >= step / 2.0)
  {
    var x := Located(value, r, Nearest, step);
    RoundedOffset(value, r, step, x, FloatToUintRange(value, r, Nearest), c);
  }

  lemma RoundedOffset(value: real, r: Range, step: real, x: real, code: int, c: int)
    requires step > 0.0 && x * step == value - r.lo && code == LRound(x)
    ensures -step / 2.0 <= value - r.CodePoint(code, step) <= step / 2.0
    ensures c < code ==> value - r.CodePoint(c, step) >= step / 2.0
    ensures c > code ==> r.CodePoint(c, step) - value >= step / 2.0
  {
    LRoundNearest(x);
    AtLeast(value, r, step, x, code, -0.5);
    AtMost(value, r, step, x, code, 0.5);
    if c < code {
      AtLeast(value, r, step, x, c, 0.5);
    } else if c > code {
      AtMost(value, r, step, x, c, -0.5);
    }
  }

  lemma AtLeast(value: real, r: Range, step: real, x: real, c: int, k: real)
    requires step > 0.0 && x * step == value - r.lo && k <= x - c as real
    ensures k * step <= value - r.CodePoint(c, step)
  {
    var d := x - c as real;
    Offset(value, r, step, x, c, d);
    MulMonotone(k, d, step);
  }

  lemma AtMost(value: real, r: Range, step: real, x: real, c: int, k: real)
    requires step > 0.0 && x * step == value - r.lo && x - c as real <= k
    ensures value - r.CodePoint(c, step) <= k * step
    ensures x - c as real < k ==> value - r.CodePoint(c, step) < k * step
  {
    var d := x - c as real;
    Offset(value, r, step, x, c, d);
    MulMonotone(d, k, step);
    if d < k {
      MulStrict(d, k, step);
    }
  }

  lemma Offset(value: real, r: Range, step: real, x: real, c: int, d: real)
    requires x * step == value - r.lo && d == x - c as real
    ensures value - r.CodePoint(c, step) == d * step
  {
    Distribute(x, c as real, d, step);
  }

  lemma Distribute(a: real, b: real, d: real, k: real)
    requires d == a - b
    ensures d * k == a * k - b * k
  {}

  /** Truncation picks the greatest code point not above the value, less than a step below it. */
  lemma TruncateIsGreatestBelow(value: real, r: Range, c: int, step: real)
    requires r.Valid() && r.HasStep(step) && step > 0.0 && r.lo <= value <= r.hi
    ensures var code := FloatToUintRange(value, r, Truncate);
            && 0.0 <= value - r.CodePoint(code, step) < step
            && (r.CodePoint(c, step) <= value <==> c <= code)
  {
    var x := Located(value, r, Truncate, step);
    TruncatedOffset(value, r, step, x, FloatToUintRange(value, r, Truncate), c);
  }

  lemma TruncatedOffset(value: real, r: Range, step: real, x: real, code: int, c: int)
    requires step > 0.0 && x * step == value - r.lo && code == Trunc(x) && x >= 0.0
    ensures 0.0 <= value - r.CodePoint(code, step) < step
    ensures r.CodePoint(c, step) <= value <==> c <= code
  {
    AtLeast(value, r, step, x, code, 0.0);
    AtMost(value, r, step, x, code, 1.0);
    if c <= code {
      AtLeast(value, r, step, x, c, 0.0);
    } else {
      AtMost(value, r, step, x, c, 0.0);
    }
  }

  /** V2 rounds and V3 truncates, so their codes of one value differ by at most one, V2's being the larger. */
  lemma ProtocolsWithinOneCode(value: real, r: Range)
    requires r.Valid()
    ensures 0 <= FloatToUintRange(value, r, Nearest) - FloatToUintRange(value, r, Truncate) <= 1
  {
    var step := StepOf(r);
    var x := Height(value, r, step);
    InSteps(value, r, Nearest, step, x);
    InSteps(value, r, Truncate, step, x);
  }
}
