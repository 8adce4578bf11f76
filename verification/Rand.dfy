/** rand.c: the generator object and rand_range. */
module Rand {
  import opened Xorshift32

  const MAXINT := 0x7fff_ffff

  function Pow2(n: nat): (r: nat)
    ensures r > 0
  {
    if n == 0 then 1 else 2 * Pow2(n - 1)
  }

  /** The number with these binary digits, lowest first. */
  function Value(digits: seq<bool>): (r: nat)
    ensures r < Pow2(|digits|)
  {
    if digits == [] then 0
    else
      var n := |digits| - 1;
      Value(digits[..n]) + if digits[n] then Pow2(n) else 0
  }

  function Mask(i: nat): bv32 {
    if i == 0 then 1 else Mask(i - 1) << 1
  }

  function Digits(x: bv32): (d: seq<bool>)
    ensures |d| == 31
  {
    seq(31, i requires 0 <= i => x & Mask(i) != 0)
  }

  /** The number rand returns in state x: its low 31 bits. */
  function Output(x: bv32): (r: nat) {
    Value(Digits(x))
  }

  lemma TopDigit()
    ensures Mask(30) == 0x4000_0000 && Pow2(30) == 0x4000_0000
  {
    assert Mask(10) == 0x400 && Pow2(10) == 0x400;
    assert Mask(20) == 0x10_0000 && Pow2(20) == 0x10_0000;
  }

  lemma ValueBounds(d: seq<bool>)
    requires |d| == 31
    ensures Value(d) <= MAXINT
    ensures !d[30] ==> Value(d) <= MAXINT / 2
  {
    TopDigit();
    assert |d[..30]| == 30;
  }

  lemma OutputBounds(x: bv32)
    ensures Output(x) <= MAXINT
    ensures !Bit30(x) ==> Output(x) <= MAXINT / 2
  {
    ValueBounds(Digits(x));
    if !Bit30(x) {
      LowTop(x);
    }
  }

  lemma LowTop(x: bv32)
    requires !Bit30(x)
    ensures !Digits(x)[30]
  {
    TopDigit();
  }

  // ---- rand yields every number of 31 bits, and its low 31 bits decide which ----

  function And(a: bv32, b: bv32): bv32 { a & b }

  function Or(a: bv32, b: bv32): bv32 { a | b }

  function Shl(a: bv32): bv32 { a << 1 }

  function Shr(a: bv32): bv32 { a >> 1 }

  lemma ShlAnd(a: bv32, b: bv32) ensures And(Shl(a), Shl(b)) == Shl(And(a, b)) {}

  lemma ShlLow(a: bv32) ensures And(1, Shl(a)) == 0 {}

  lemma ShlShr(x: bv32, a: bv32) ensures And(x, Shl(a)) == Shl(And(Shr(x), a)) {}

  lemma ShlZero() ensures Shl(0) == 0 {}

  lemma AndSwap(a: bv32, b: bv32) ensures And(a, b) == And(b, a) {}

  lemma AndSame(a: bv32) ensures And(a, a) == a && And(a, 0) == 0 && And(0, a) == 0 {}

  lemma AndOr(x: bv32, a: bv32, b: bv32) ensures And(x, Or(a, b)) == Or(And(x, a), And(x, b)) {}

  lemma OrAnd(x: bv32, a: bv32, b: bv32) ensures And(Or(a, b), x) == Or(And(a, x), And(b, x)) {}

  lemma OrZero(a: bv32, b: bv32) ensures Or(a, 0) == a && (Or(a, b) == 0 <==> a == 0 && b == 0) {}

  lemma LowBit(x: bv32) ensures And(x, 1) == 0 || And(x, 1) == 1 {}

  lemma MaskNext(i: nat)
    ensures Mask(0) == 1 && Mask(i + 1) == Shl(Mask(i))
  {
  }

  lemma DigitAt(x: bv32, i: nat)
    requires i < 31
    ensures Digits(x)[i] <==> And(x, Mask(i)) != 0
  {
  }

  lemma {:induction false} MasksApart(i: nat, j: nat)
    requires i < j
    ensures And(Mask(i), Mask(j)) == 0
  {
    hide Mask, And, Shl;
    MaskNext(j - 1);
    if i == 0 {
      ShlLow(Mask(j - 1));
    } else {
      MaskNext(i - 1);
      MasksApart(i - 1, j - 1);
      ShlAnd(Mask(i - 1), Mask(j - 1));
      ShlZero();
    }
  }

  lemma {:induction false} MaskZero(i: nat, j: nat)
    requires i <= j && Mask(i) == 0
    ensures Mask(j) == 0
  {
    hide Mask, Shl;
    if i < j {
      MaskZero(i, j - 1);
      MaskNext(j - 1);
      ShlZero();
    }
  }

  lemma MaskMeets(n: nat, i: nat)
    requires n <= 30 && i <= 30
    ensures And(Mask(n), Mask(i)) != 0 <==> n == i
  {
    if Mask(i) == 0 {
      MaskZero(i, 30);
      TopDigit();
    }
    hide Mask, And;
    AndSame(Mask(i));
    if i < n {
      MasksApart(i, n);
      AndSwap(Mask(i), Mask(n));
    } else if n < i {
      MasksApart(n, i);
    }
  }

  /** Of a single bit, x has all or nothing. */
  lemma {:induction false} OneBit(x: bv32, i: nat)
    ensures And(x, Mask(i)) == 0 || And(x, Mask(i)) == Mask(i)
    decreases i
  {
    hide Mask, And, Shl, Shr;
    if i == 0 {
      MaskNext(0);
      LowBit(x);
    } else {
      MaskNext(i - 1);
      OneBit(Shr(x), i - 1);
      ShlShr(x, Mask(i - 1));
      ShlZero();
    }
  }

  /** The state with these low bits, all others clear. */
  function Pack(d: seq<bool>): bv32 {
    if d == [] then 0
    else
      var n := |d| - 1;
      if d[n] then Or(Pack(d[..n]), Mask(n)) else Pack(d[..n])
  }

  lemma {:induction false} PackBit(d: seq<bool>, i: nat)
    requires |d| <= 31 && i <= 30
    ensures And(Pack(d), Mask(i)) != 0 <==> i < |d| && d[i]
  {
    hide Mask, And, Or;
    if d == [] {
      AndSame(Mask(i));
    } else {
      var n := |d| - 1;
      PackBit(d[..n], i);
      if d[n] {
        OrAnd(Mask(i), Pack(d[..n]), Mask(n));
        OrZero(And(Pack(d[..n]), Mask(i)), And(Mask(n), Mask(i)));
        MaskMeets(n, i);
      }
    }
  }

  /** r in n binary digits, lowest first. */
  function Binary(r: nat, n: nat): (d: seq<bool>)
    requires r < Pow2(n)
    ensures |d| == n && Value(d) == r
  {
    if n == 0 then []
    else if r >= Pow2(n - 1) then
      var d := Binary(r - Pow2(n - 1), n - 1);
      assert (d + [true])[..n - 1] == d;
      d + [true]
    else
      var d := Binary(r, n - 1);
      assert (d + [false])[..n - 1] == d;
      d + [false]
  }

  /** Every number from 0 to MAXINT is the output of some state ... */
  lemma OutputOnto(r: nat) returns (x: bv32)
    requires r <= MAXINT
    ensures Output(x) == r
  {
    TopDigit();
    assert Pow2(31) == MAXINT + 1;
    hide Mask, And, Pack, Digits;
    var d := Binary(r, 31);
    x := Pack(d);
    forall i | 0 <= i < 31 ensures Digits(x)[i] == d[i] {
      PackBit(d, i);
      DigitAt(x, i);
    }
    assert Digits(x) == d;
  }

  function LowBits(n: nat): bv32 {
    if n == 0 then 0 else Or(LowBits(n - 1), Mask(n - 1))
  }

  lemma {:induction false} PackDigits(x: bv32, n: nat)
    requires n <= 31
    ensures Pack(Digits(x)[..n]) == And(x, LowBits(n))
  {
    hide Mask, And, Or, Digits;
    if n == 0 {
      AndSame(x);
    } else {
      PackDigits(x, n - 1);
      var d := Digits(x)[..n];
      assert d[..n - 1] == Digits(x)[..n - 1];
      DigitAt(x, n - 1);
      OneBit(x, n - 1);
      AndOr(x, LowBits(n - 1), Mask(n - 1));
      OrZero(And(x, LowBits(n - 1)), 0);
    }
  }

  lemma AllLowBits()
    ensures LowBits(31) == 0x7fff_ffff
  {
    assert Mask(10) == 0x400 && LowBits(10) == 0x3ff;
    assert Mask(20) == 0x10_0000 && LowBits(20) == 0xf_ffff;
    TopDigit();
    assert LowBits(30) == 0x3fff_ffff;
  }

  lemma {:induction false} ValueInjective(c: seq<bool>, d: seq<bool>)
    requires |c| == |d| && Value(c) == Value(d)
    ensures c == d
  {
    if c != [] {
      var n := |c| - 1;
      ValueInjective(c[..n], d[..n]);
      assert c == c[..n] + [c[n]] && d == d[..n] + [d[n]];
    }
  }

  lemma PackedLow(x: bv32)
    ensures Pack(Digits(x)) == And(x, 0x7fff_ffff)
  {
    AllLowBits();
    PackDigits(x, 31);
    assert Digits(x)[..31] == Digits(x);
  }

  lemma PackInjective(c: seq<bool>, d: seq<bool>)
    requires |c| == |d| == 31 && Pack(c) == Pack(d)
    ensures c == d
  {
    hide Mask, And, Pack;
    forall i | 0 <= i < 31 ensures c[i] == d[i] {
      PackBit(c, i);
      PackBit(d, i);
    }
  }

  /** ... and two states have the same output exactly if their low 31 bits agree. */
  lemma OutputIsLowBits(x: bv32, y: bv32)
    ensures Output(x) == Output(y) <==> x & 0x7fff_ffff == y & 0x7fff_ffff
  {
    hide Pack, Value, Digits;
    PackedLow(x);
    PackedLow(y);
    if Output(x) == Output(y) {
      ValueInjective(Digits(x), Digits(y));
    }
    if Pack(Digits(x)) == Pack(Digits(y)) {
      PackInjective(Digits(x), Digits(y));
    }
  }

  // ---- rand_range ----

  function Threshold(max: int): (t: int)
    requires max > 0
  {
    MAXINT / max * max
  }

  /** Does the retry loop accept the draw r? */
  predicate Accepts(max: int, r: int)
    requires max > 0
  {
    0 <= r <= MAXINT && r < Threshold(max)
  }

  /** The retry loop can end exactly when max fits in 31 bits, and a draw with bit 30 clear
      is then always accepted. */
  lemma ThresholdBounds(max: int)
    requires max > 0
    ensures Threshold(max) <= MAXINT
    ensures max <= MAXINT ==> MAXINT / 2 < Threshold(max)
    ensures (exists r :: Accepts(max, r)) <==> max <= MAXINT
  {
    var q := MAXINT / max;
    assert q * max <= MAXINT < q * max + max;
    if max <= MAXINT {
      assert q >= 1;
      assert max <= q * max;
      assert Accepts(max, 0);
    } else {
      assert q == 0;
    }
  }

  /** Values r in [0, n) with residue j. */
  function Preimages(n: nat, max: nat, j: nat): nat
    requires max > 0
  {
    if n == 0 then 0 else Preimages(n - 1, max, j) + if (n - 1) % max == j then 1 else 0
  }

  lemma {:induction false} PreimagesPeriod(q: nat, max: nat, j: nat, d: nat)
    requires j < max && d <= max
    ensures Preimages(q * max + d, max, j) == q + if j < d then 1 else 0
    decreases q, d
  {
    if d > 0 {
      PreimagesPeriod(q, max, j, d - 1);
      Residue(q, max, d - 1);
      assert q * max + d - 1 == q * max + (d - 1);
    } else if q > 0 {
      PreimagesPeriod(q - 1, max, j, max);
      assert (q - 1) * max + max == q * max;
    }
  }

  lemma Residue(q: nat, max: nat, d: nat)
    requires d < max
    ensures (q * max + d) % max == d
  {
    var a := q * max + d;
    var k := a / max;
    assert a == k * max + a % max;
    assert (k - q) * max == d - a % max;
    SmallMultiple(k - q, max);
  }

  lemma SmallMultiple(x: int, max: nat)
    requires 0 - max < x * max < max
    ensures x == 0
  {
  }

  /** rand_range is exact: of the draws it accepts, each residue has the same number. */
  lemma RangeIsUniform(max: nat, j: nat)
    requires 0 < max <= MAXINT && j < max
    ensures Preimages(Threshold(max), max, j) == Threshold(max) / max == MAXINT / max
  {
    PreimagesPeriod(MAXINT / max, max, j, 0);
    var q := MAXINT / max;
    Residue(q, max, 0);
    assert Threshold(max) == q * max + 0;
    assert Threshold(max) / max == q;
  }

  class Rng {
    var state: bv32   // randstate

    constructor ()
      ensures state == 1
    {
      state := 1;
    }

    method Srand(seed: bv32)
      modifies this
      ensures state != 0 && (seed != 0 ==> state == seed)
    {
      state := seed;
      if state == 0 {
        state := 1;
      }
    }

    method Rand() returns (r: int)
      modifies this
      ensures state == Xorshift(old(state)) && r == Output(state)
    {
      state := Left13(state);
      state := Right17(state);
      state := Left5(state);
      r := Output(state);
    }

    /** rand, for a caller that is i draws into the run that began in state x. */
    method RandInRun(ghost x: bv32, ghost i: nat) returns (r: int)
      requires i < WINDOW && state == States(x)[i]
      modifies this
      ensures state == States(x)[i + 1] && r == Draws(x)[i + 1]
    {
      r := Rand();
      NextDraw(x, i, state);
    }

    /** Draw until a value lies below the threshold: at most 33 times, from any state. */
    method RandRange(max: int) returns (r: int)
      requires 0 < max <= MAXINT
      modifies this
      ensures (state, r) == Drawn(old(state), max)
    {
      var threshold := MAXINT / max * max;
      ghost var x := state;
      ghost var bound := SoonAccepted(x, max);
      r := RandInRun(x, 0);
      ghost var draws := 1;
      while r >= threshold
        invariant 1 <= draws <= bound && state == States(x)[draws] && r == Draws(x)[draws]
        invariant forall i :: 1 <= i < draws ==> Draws(x)[i] >= threshold
        decreases bound - draws
      {
        r := RandInRun(x, draws);
        draws := draws + 1;
      }
      FirstFound(Draws(x), max, 1, draws);
      r := r % max;
    }
  }

  /** The states and the outputs of the next 33 draws; entry 0 is the present. */
  ghost function States(x: bv32): (s: seq<bv32>)
    ensures |s| == WINDOW + 1 && s[0] == x
  {
    seq(WINDOW + 1, i requires 0 <= i => Iter(i, x))
  }

  ghost function Draws(x: bv32): (d: seq<int>)
    ensures |d| == WINDOW + 1
  {
    seq(WINDOW + 1, i requires 0 <= i <= WINDOW => Output(Iter(i, x)))
  }

  lemma NextDraw(x: bv32, i: nat, state: bv32)
    requires i < WINDOW && state == Xorshift(States(x)[i])
    ensures state == States(x)[i + 1] && Output(state) == Draws(x)[i + 1]
  {
    assert States(x)[i] == Iter(i, x);
  }

  /** Draw number k is the first one, counting from 1, that the retry loop accepts. */
  ghost predicate FirstAccepted(draws: seq<int>, max: int, k: nat)
    requires max > 0
  {
    && 1 <= k < |draws| && draws[k] < Threshold(max)
    && forall i :: 1 <= i < k ==> draws[i] >= Threshold(max)
  }

  /** The number of the first draw from number i on that the retry loop accepts. */
  ghost function Accepted(draws: seq<int>, max: int, i: nat): nat
    requires max > 0
    decreases |draws| - i
  {
    if i >= |draws| || draws[i] < Threshold(max) then i else Accepted(draws, max, i + 1)
  }

  lemma {:induction false} FirstFound(draws: seq<int>, max: int, i: nat, k: nat)
    requires max > 0 && FirstAccepted(draws, max, k) && 1 <= i <= k
    ensures Accepted(draws, max, i) == k
    decreases k - i
  {
    if i < k {
      FirstFound(draws, max, i + 1, k);
    }
  }

  /** The state rand_range leaves and the number it returns. */
  ghost function Drawn(x: bv32, max: int): (d: (bv32, int))
    requires max > 0
    ensures 0 <= d.1 < max
  {
    var k := Accepted(Draws(x), max, 1);
    if k <= WINDOW then (States(x)[k], Draws(x)[k] % max) else (x, 0)
  }

  /** Some draw is accepted, and the first such draw is the one rand_range uses. */
  lemma DrawnIsFirst(x: bv32, max: int) returns (k: nat)
    requires 0 < max <= MAXINT
    ensures FirstAccepted(Draws(x), max, k)
    ensures Drawn(x, max) == (States(x)[k], Draws(x)[k] % max)
  {
    var bound := SoonAccepted(x, max);
    k := 1;
    while Draws(x)[k] >= Threshold(max)
      invariant 1 <= k <= bound && forall i :: 1 <= i < k ==> Draws(x)[i] >= Threshold(max)
      decreases bound - k
    {
      k := k + 1;
    }
    FirstFound(Draws(x), max, 1, k);
  }

  /** Srand leaves a non-zero state, and no number of draws leads from it to zero. */
  lemma {:induction false} NeverZero(n: nat, x: bv32)
    requires x != 0
    ensures Iter(n, x) != 0
  {
    if n > 0 {
      NeverZero(n - 1, x);
      StepKernel(Iter(n - 1, x));
    }
  }

  lemma {:induction false} IterShift(n: nat, x: bv32)
    ensures Iter(n, Xorshift(x)) == Iter(n + 1, x)
  {
    if n > 0 {
      IterShift(n - 1, x);
    }
  }

  lemma LowDraw(x: bv32) returns (k: nat)
    ensures 1 <= k <= WINDOW && Draws(x)[k] <= MAXINT / 2
  {
    Bit30Clears(Xorshift(x));
    var i: nat :| i < WINDOW && !Bit30(Iter(i, Xorshift(x)));
    IterShift(i, x);
    OutputBounds(Iter(i, Xorshift(x)));
    k := i + 1;
  }

  lemma SoonAccepted(x: bv32, max: int) returns (k: nat)
    requires 0 < max <= MAXINT
    ensures 1 <= k <= WINDOW && Draws(x)[k] < Threshold(max)
  {
    ThresholdBounds(max);
    k := LowDraw(x);
  }
}
