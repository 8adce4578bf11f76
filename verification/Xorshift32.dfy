/** The xorshift generator of rand.c: it permutes the 32-bit states, never leaves the
    non-zero ones, and the retry loop of rand_range ends within 33 draws.

    The last fact is linear algebra over bits. The step is linear, and its characteristic
    polynomial has an odd number of terms, those `InTap` lists: the outputs at these eleven
    positions of any 33 in a row have bit 30 set an even number of times. So bit 30 is clear
    in one of the 33, and an output with bit 30 clear is below every threshold. */
module Xorshift32 {

  // ---- the step ----

  function Left13(x: bv32): bv32 { x ^ (x << 13) }
  function Right17(x: bv32): bv32 { x ^ (x >> 17) }
  function Left5(x: bv32): bv32 { x ^ (x << 5) }

  /** One step of the state. */
  function Xorshift(x: bv32): bv32 {
    Left5(Right17(Left13(x)))
  }

  /** z is the bitwise exclusive or of x and y. The lemmas below are about this relation. */
  predicate IsXor(z: bv32, x: bv32, y: bv32) { z ^ x ^ y == 0 }

  lemma Shl13Xor(x: bv32, y: bv32, z: bv32)
    requires IsXor(z, x, y)
    ensures IsXor(z << 13, x << 13, y << 13)
  {
  }

  lemma Shr17Xor(x: bv32, y: bv32, z: bv32)
    requires IsXor(z, x, y)
    ensures IsXor(z >> 17, x >> 17, y >> 17)
  {
  }

  lemma Shl5Xor(x: bv32, y: bv32, z: bv32)
    requires IsXor(z, x, y)
    ensures IsXor(z << 5, x << 5, y << 5)
  {
  }

  lemma AddXor(x: bv32, y: bv32, z: bv32, p: bv32, q: bv32, r: bv32, sx: bv32, sy: bv32, sz: bv32)
    requires IsXor(z, x, y) && IsXor(r, p, q)
    requires IsXor(sx, x, p) && IsXor(sy, y, q) && IsXor(sz, z, r)
    ensures IsXor(sz, sx, sy)
  {
  }

  lemma Left13Cancel(x: bv32, s: bv32)
    requires s == x ^ (x << 13)
    ensures s ^ x ^ (x << 13) == 0
  {
  }

  lemma Left13Def(x: bv32)
    ensures IsXor(Left13(x), x, x << 13)
  {
    Left13Cancel(x, Left13(x));
  }

  lemma Left13Xor(x: bv32, y: bv32, z: bv32)
    requires IsXor(z, x, y)
    ensures IsXor(Left13(z), Left13(x), Left13(y))
  {
    Shl13Xor(x, y, z);
    Left13Def(x); Left13Def(y); Left13Def(z);
    AddXor(x, y, z, x << 13, y << 13, z << 13, Left13(x), Left13(y), Left13(z));
  }

  lemma Right17Refute(x: bv32, s: bv32)
    requires s == x ^ (x >> 17)
    ensures s ^ x ^ (x >> 17) != 0 ==> false
  {
  }

  lemma Right17Cancel(x: bv32, s: bv32)
    requires s == x ^ (x >> 17)
    ensures s ^ x ^ (x >> 17) == 0
  {
    Right17Refute(x, s);
  }

  lemma Right17Def(x: bv32)
    ensures IsXor(Right17(x), x, x >> 17)
  {
    Right17Cancel(x, Right17(x));
  }

  lemma Right17Xor(x: bv32, y: bv32, z: bv32)
    requires IsXor(z, x, y)
    ensures IsXor(Right17(z), Right17(x), Right17(y))
  {
    Shr17Xor(x, y, z);
    Right17Def(x); Right17Def(y); Right17Def(z);
    AddXor(x, y, z, x >> 17, y >> 17, z >> 17, Right17(x), Right17(y), Right17(z));
  }

  lemma Left5Cancel(x: bv32, s: bv32)
    requires s == x ^ (x << 5)
    ensures s ^ x ^ (x << 5) == 0
  {
  }

  lemma Left5Def(x: bv32)
    ensures IsXor(Left5(x), x, x << 5)
  {
    Left5Cancel(x, Left5(x));
  }

  lemma Left5Xor(x: bv32, y: bv32, z: bv32)
    requires IsXor(z, x, y)
    ensures IsXor(Left5(z), Left5(x), Left5(y))
  {
    Shl5Xor(x, y, z);
    Left5Def(x); Left5Def(y); Left5Def(z);
    AddXor(x, y, z, x << 5, y << 5, z << 5, Left5(x), Left5(y), Left5(z));
  }

  /** The step is linear over exclusive or. */
  lemma StepXor(x: bv32, y: bv32, z: bv32)
    requires IsXor(z, x, y)
    ensures IsXor(Xorshift(z), Xorshift(x), Xorshift(y))
  {
    Left13Xor(x, y, z);
    Right17Xor(Left13(x), Left13(y), Left13(z));
    Left5Xor(Right17(Left13(x)), Right17(Left13(y)), Right17(Left13(z)));
  }

  // ---- a permutation that keeps zero and non-zero apart ----

  lemma Left13Kernel(x: bv32) ensures Left13(x) == 0 <==> x == 0 {}
  lemma Right17Kernel(x: bv32) ensures Right17(x) == 0 <==> x == 0 {}
  lemma Left5Kernel(x: bv32) ensures Left5(x) == 0 <==> x == 0 {}

  /** The generator never reaches the dead state 0 from another one. */
  lemma StepKernel(x: bv32)
    ensures Xorshift(x) == 0 <==> x == 0
  {
    Left13Kernel(x);
    Right17Kernel(Left13(x));
    Left5Kernel(Right17(Left13(x)));
  }

  lemma ZeroMeansEqual(z: bv32, x: bv32, y: bv32)
    requires IsXor(z, x, y) && z == 0
    ensures x == y
  {
  }

  lemma EqualMeansZero(z: bv32, x: bv32, y: bv32)
    requires IsXor(z, x, y) && x == y
    ensures z == 0
  {
  }

  lemma XorOf(x: bv32, y: bv32) returns (z: bv32)
    ensures IsXor(z, x, y)
  {
    z := x ^ y;
  }

  /** Different states have different successors: on the 2^32 states the step is a
      permutation. */
  lemma StepInjective(x: bv32, y: bv32)
    requires Xorshift(x) == Xorshift(y)
    ensures x == y
  {
    var z := XorOf(x, y);
    StepXor(x, y, z);
    EqualMeansZero(Xorshift(z), Xorshift(x), Xorshift(y));
    StepKernel(z);
    ZeroMeansEqual(z, x, y);
  }

  // ---- one of 33 outputs in a row has bit 30 clear ----

  function Iter(n: nat, x: bv32): bv32 {
    if n == 0 then x else Xorshift(Iter(n - 1, x))
  }

  predicate Bit30(x: bv32) { x & 0x4000_0000 != 0 }

  lemma {:induction false} IterXor(n: nat, x: bv32, y: bv32, z: bv32)
    requires IsXor(z, x, y)
    ensures IsXor(Iter(n, z), Iter(n, x), Iter(n, y))
  {
    if n > 0 {
      IterXor(n - 1, x, y, z);
      StepXor(Iter(n - 1, x), Iter(n - 1, y), Iter(n - 1, z));
    }
  }

  lemma Bit30Xor(x: bv32, y: bv32, z: bv32)
    requires IsXor(z, x, y)
    ensures Bit30(z) == (Bit30(x) != Bit30(y))
  {
  }

  lemma IterBit(n: nat, x: bv32, y: bv32, z: bv32)
    requires IsXor(z, x, y)
    ensures Bit30(Iter(n, z)) == (Bit30(Iter(n, x)) != Bit30(Iter(n, y)))
  {
    IterXor(n, x, y, z);
    Bit30Xor(Iter(n, x), Iter(n, y), Iter(n, z));
  }

  const WINDOW := 33

  /** Bit 30 of x and its next 32 successors. */
  function Outs(x: bv32): (b: seq<bool>)
    ensures |b| == WINDOW
  {
    seq(WINDOW, i requires 0 <= i => Bit30(Iter(i, x)))
  }

  /** Exponents of the characteristic polynomial of the step. */
  predicate InTap(n: nat) { n == 0 || n == 6 || n == 9 || n == 14 || n == 15 || 17 <= n <= 21 || n == 32 }

  /** Is an odd number of the tapped bits set? */
  predicate Odd(b: seq<bool>) {
    if b == [] then false else Odd(b[..|b| - 1]) != (InTap(|b| - 1) && b[|b| - 1])
  }

  predicate PointwiseXor(c: seq<bool>, a: seq<bool>, b: seq<bool>) {
    |a| == |b| == |c| && forall i :: 0 <= i < |a| ==> c[i] == (a[i] != b[i])
  }

  lemma {:induction false} OddXor(a: seq<bool>, b: seq<bool>, c: seq<bool>)
    requires PointwiseXor(c, a, b)
    ensures Odd(c) == (Odd(a) != Odd(b))
  {
    if a != [] {
      var n := |a| - 1;
      OddXor(a[..n], b[..n], c[..n]);
    }
  }

  lemma OutsBit(i: nat, x: bv32)
    requires i < WINDOW
    ensures Outs(x)[i] == Bit30(Iter(i, x))
  {
  }

  lemma OutsXor(x: bv32, y: bv32, z: bv32)
    requires IsXor(z, x, y)
    ensures PointwiseXor(Outs(z), Outs(x), Outs(y))
  {
    var a, b, c := Outs(x), Outs(y), Outs(z);
    forall i | 0 <= i < WINDOW
      ensures c[i] == (a[i] != b[i])
    {
      OutsBit(i, x); OutsBit(i, y); OutsBit(i, z);
      IterBit(i, x, y, z);
    }
  }

  predicate Even(x: bv32) { !Odd(Outs(x)) }

  lemma EvenXor(x: bv32, y: bv32, z: bv32)
    requires IsXor(z, x, y) && Even(x) && Even(y)
    ensures Even(z)
  {
    OutsXor(x, y, z);
    OddXor(Outs(x), Outs(y), Outs(z));
  }

  lemma {:induction false} Skip(b: seq<bool>, n: nat, m: nat)
    requires m <= n <= |b| && forall i: nat :: m <= i < n ==> !InTap(i)
    ensures Odd(b[..n]) == Odd(b[..m])
  {
    if m < n {
      Skip(b, n - 1, m);
      assert b[..n][..n - 1] == b[..n - 1];
    }
  }

  lemma Take(b: seq<bool>, n: nat)
    requires n < |b| && InTap(n)
    ensures Odd(b[..n + 1]) == (Odd(b[..n]) != b[n])
  {
    assert b[..n + 1][..n] == b[..n];
  }

  lemma Chain(b: seq<bool>)
    requires |b| == WINDOW
    ensures Odd(b) == (
      b[0] != (b[6] != (b[9] != (b[14] != (b[15] != (b[17] != (b[18] != (b[19] != (b[20] != (b[21] != b[32]))))))))))
  {
    assert b[..33] == b;
    Take(b, 32); Skip(b, 32, 22); Take(b, 21); Take(b, 20);
    Take(b, 19); Take(b, 18); Take(b, 17); Skip(b, 17, 16);
    ChainLow(b);
  }

  lemma ChainLow(b: seq<bool>)
    requires |b| == WINDOW
    ensures Odd(b[..16]) == (b[0] != (b[6] != (b[9] != (b[14] != b[15]))))
  {
    Take(b, 15); Take(b, 14); Skip(b, 14, 10); Take(b, 9);
    Skip(b, 9, 7); Take(b, 6); Skip(b, 6, 1); Take(b, 0);
  }

  // ---- every state is an exclusive or of single bits ----

  /** Every state whose set bits lie in m is even. */
  ghost predicate EvenOn(m: bv32) {
    forall x :: Within(x, m) ==> Even(x)
  }

  predicate Within(x: bv32, m: bv32) { x & !m == 0 }

  lemma ZeroEven()
    ensures Even(0)
  {
    if !Even(0) {
      OutsXor(0, 0, 0);
      OddXor(Outs(0), Outs(0), Outs(0));
    }
  }

  lemma OneBit(x: bv32, m: bv32)
    requires m & (m - 1) == 0 && x & !m == 0
    ensures x == 0 || x == m
  {
  }

  lemma BitEven(m: bv32)
    requires m & (m - 1) == 0 && !Odd(Outs(m))
    ensures EvenOn(m)
  {
    ZeroEven();
    forall x | Within(x, m) ensures Even(x) {
      OneBit(x, m);
    }
  }

  lemma PartWithin(x: bv32, m: bv32, n: bv32, p: bv32, q: bv32)
    requires x & !(m | n) == 0 && p == x & m && q == x & n & !m
    ensures p & !m == 0 && q & !n == 0
  {
  }

  lemma PartXor(x: bv32, m: bv32, n: bv32, p: bv32, q: bv32)
    requires x & !(m | n) == 0 && p == x & m && q == x & n & !m
    ensures x ^ p ^ q == 0
  {
  }

  lemma Split(x: bv32, m: bv32, n: bv32) returns (p: bv32, q: bv32)
    requires x & !(m | n) == 0
    ensures IsXor(x, p, q) && Within(p, m) && Within(q, n)
  {
    p, q := x & m, x & n & !m;
    PartWithin(x, m, n, p, q);
    PartXor(x, m, n, p, q);
  }

  lemma Join(m: bv32, n: bv32, u: bv32)
    requires EvenOn(m) && EvenOn(n) && u == m | n
    ensures EvenOn(u)
  {
    forall x | Within(x, u) ensures Even(x) {
      var p, q := Split(x, m, n);
      EvenXor(p, q, x);
    }
  }

  lemma Nibble0()
    ensures EvenOn(0xF)
  {
    Chain(Outs(0x1)); BitEven(0x1);
    Chain(Outs(0x2)); BitEven(0x2);
    Chain(Outs(0x4)); BitEven(0x4);
    Chain(Outs(0x8)); BitEven(0x8);
    Join(0x1, 0x2, 0x3); Join(0x3, 0x4, 0x7); Join(0x7, 0x8, 0xF);
  }

  lemma Nibble1()
    ensures EvenOn(0xF0)
  {
    Chain(Outs(0x10)); BitEven(0x10);
    Chain(Outs(0x20)); BitEven(0x20);
    Chain(Outs(0x40)); BitEven(0x40);
    Chain(Outs(0x80)); BitEven(0x80);
    Join(0x10, 0x20, 0x30); Join(0x30, 0x40, 0x70); Join(0x70, 0x80, 0xF0);
  }

  lemma Nibble2()
    ensures EvenOn(0xF00)
  {
    Chain(Outs(0x100)); BitEven(0x100);
    Chain(Outs(0x200)); BitEven(0x200);
    Chain(Outs(0x400)); BitEven(0x400);
    Chain(Outs(0x800)); BitEven(0x800);
    Join(0x100, 0x200, 0x300); Join(0x300, 0x400, 0x700); Join(0x700, 0x800, 0xF00);
  }

  lemma Nibble3()
    ensures EvenOn(0xF000)
  {
    Chain(Outs(0x1000)); BitEven(0x1000);
    Chain(Outs(0x2000)); BitEven(0x2000);
    Chain(Outs(0x4000)); BitEven(0x4000);
    Chain(Outs(0x8000)); BitEven(0x8000);
    Join(0x1000, 0x2000, 0x3000); Join(0x3000, 0x4000, 0x7000); Join(0x7000, 0x8000, 0xF000);
  }

  lemma Nibble4()
    ensures EvenOn(0xF0000)
  {
    Chain(Outs(0x10000)); BitEven(0x10000);
    Chain(Outs(0x20000)); BitEven(0x20000);
    Chain(Outs(0x40000)); BitEven(0x40000);
    Chain(Outs(0x80000)); BitEven(0x80000);
    Join(0x10000, 0x20000, 0x30000); Join(0x30000, 0x40000, 0x70000); Join(0x70000, 0x80000, 0xF0000);
  }

  lemma Nibble5()
    ensures EvenOn(0xF00000)
  {
    Chain(Outs(0x100000)); BitEven(0x100000);
    Chain(Outs(0x200000)); BitEven(0x200000);
    Chain(Outs(0x400000)); BitEven(0x400000);
    Chain(Outs(0x800000)); BitEven(0x800000);
    Join(0x100000, 0x200000, 0x300000); Join(0x300000, 0x400000, 0x700000); Join(0x700000, 0x800000, 0xF00000);
  }

  lemma Nibble6()
    ensures EvenOn(0xF000000)
  {
    Chain(Outs(0x1000000)); BitEven(0x1000000);
    Chain(Outs(0x2000000)); BitEven(0x2000000);
    Chain(Outs(0x4000000)); BitEven(0x4000000);
    Chain(Outs(0x8000000)); BitEven(0x8000000);
    Join(0x1000000, 0x2000000, 0x3000000); Join(0x3000000, 0x4000000, 0x7000000); Join(0x7000000, 0x8000000, 0xF000000);
  }

  lemma Nibble7()
    ensures EvenOn(0xF0000000)
  {
    Chain(Outs(0x10000000)); BitEven(0x10000000);
    Chain(Outs(0x20000000)); BitEven(0x20000000);
    Chain(Outs(0x40000000)); BitEven(0x40000000);
    Chain(Outs(0x80000000)); BitEven(0x80000000);
    Join(0x10000000, 0x20000000, 0x30000000); Join(0x30000000, 0x40000000, 0x70000000);
    Join(0x70000000, 0x80000000, 0xF0000000);
  }

  lemma AllEven(x: bv32)
    ensures Even(x)
  {
    Nibble0();
    Nibble1(); Join(0xF, 0xF0, 0xFF);
    Nibble2(); Join(0xFF, 0xF00, 0xFFF);
    Nibble3(); Join(0xFFF, 0xF000, 0xFFFF);
    Nibble4(); Join(0xFFFF, 0xF0000, 0xFFFFF);
    Nibble5(); Join(0xFFFFF, 0xF00000, 0xFFFFFF);
    Nibble6(); Join(0xFFFFFF, 0xF000000, 0xFFFFFFF);
    Nibble7(); Join(0xFFFFFFF, 0xF0000000, 0xFFFFFFFF);
    assert Within(x, 0xFFFFFFFF);
  }

  lemma AllSetIsOdd(b: seq<bool>)
    requires |b| == WINDOW && forall i :: 0 <= i < WINDOW ==> b[i]
    ensures Odd(b)
  {
    Chain(b);
  }

  /** Among any state and its 32 successors one has bit 30 clear. */
  lemma Bit30Clears(x: bv32)
    ensures exists i: nat :: i < WINDOW && !Bit30(Iter(i, x))
  {
    AllEven(x);
    var b := Outs(x);
    if forall i :: 0 <= i < WINDOW ==> b[i] {
      AllSetIsOdd(b);
    } else {
      var i: nat :| i < WINDOW && !b[i];
      assert !Bit30(Iter(i, x));
    }
  }

  /** The first states from seed 1. */
  lemma KnownStates()
    ensures Xorshift(1) == 270369 && Xorshift(270369) == 67634689
  {
    assert Left13(1) == 0x2001 && Right17(0x2001) == 0x2001 && Left5(0x2001) == 270369;
    assert Left5(Right17(Left13(270369))) == 67634689;
  }
}
