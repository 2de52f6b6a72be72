/** Number conversion through float64 (numberToNumber in copy/struct.go). */
module Numbers {
  datatype Num = I | I8 | I16 | I32 | I64 | U | U8 | U16 | U32 | U64 | F32 | F64
  {
    predicate IsSigned() { I? || I8? || I16? || I32? || I64? }
    predicate IsUnsigned() { U? || U8? || U16? || U32? || U64? }
    predicate IsFloat() { F32? || F64? }

    /** 2 to the width. */
    function Modulus(): (m: int)
      ensures m >= 0x100 && m % 2 == 0 && 0x1_0000_0000_0000_0000 % m == 0
    {
      if I8? || U8? then 0x100
      else if I16? || U16? then 0x1_0000
      else if I32? || U32? || F32? then 0x1_0000_0000
      else 0x1_0000_0000_0000_0000
    }
  }

  /** The integers a kind can hold. */
  predicate InRange(k: Num, n: int) {
    if k.IsSigned() then -k.Modulus() / 2 <= n < k.Modulus() / 2
    else k.IsUnsigned() && 0 <= n < k.Modulus()
  }

  /** The value an integer kind keeps of a 64-bit integer: its low bits, read as the kind reads them. */
  function Wrapped(k: Num, n: int): (r: int)
    requires !k.IsFloat()
    ensures InRange(k, r)
  {
    var m := k.Modulus();
    if k.IsSigned() then (n + m / 2) % m - m / 2 else n % m
  }

  ghost predicate Congruent(a: int, b: int, m: int) { exists q: int :: a == b + q * m }

  /** Two's complement: the value in the kind's range that differs by a multiple of the modulus. */
  lemma WrappedIsCongruent(k: Num, n: int)
    requires !k.IsFloat()
    ensures Congruent(Wrapped(k, n), n, k.Modulus())
    ensures InRange(k, n) ==> Wrapped(k, n) == n
  {
    var m := k.Modulus();
    var shifted := if k.IsSigned() then n + m / 2 else n;
    DivideInt(shifted, m);
    assert Wrapped(k, n) == n + (-(shifted / m)) * m;
  }

  lemma CongruentInRange(k: Num, a: int, b: int)
    requires InRange(k, a) && InRange(k, b) && Congruent(a, b, k.Modulus())
    ensures a == b
  {
    var m := k.Modulus();
    var q: int :| a == b + q * m;
    assert -m < q * m < m;
    SmallMultiple(q, m);
  }

  lemma SmallMultiple(q: int, m: int)
    requires m > 0 && -m < q * m < m
    ensures q == 0
  {}

  lemma DivideInt(n: int, m: int)
    requires m > 0
    ensures n % m == n + (-(n / m)) * m
    ensures 0 <= n < m ==> n % m == n
  {}

  // ------------------------------------------------------------------ float64

  datatype Float = Fin(x: real) | Inf(negative: bool) | NaN

  const MANTISSA: int := 0x20_0000_0000_0000    // 2^53

  /** The spacing of the floating point numbers around a natural number, where it is not below 1. */
  function Unit(n: nat): (u: nat)
    ensures u >= 1
    ensures n < MANTISSA ==> u == 1
    ensures n >= MANTISSA ==> MANTISSA / 2 * u <= n < MANTISSA * u && u % 2 == 0
  {
    if n < MANTISSA then 1 else 2 * Unit(n / 2)
  }

  function RoundNat(n: nat): int {
    var u := Unit(n);
    var q, r := n / u, n % u;
    if 2 * r < u || (2 * r == u && q % 2 == 0) then q * u else (q + 1) * u
  }

  /** The conversion of an integer to float64: to the nearest representable number, ties to even. */
  function RoundF64(n: int): int { if n >= 0 then RoundNat(n) else -RoundNat(-n) }

  function Abs(n: int): nat { if n >= 0 then n else -n }

  lemma DivisionFacts(n: nat, u: nat)
    requires u > 0
    ensures n == n / u * u + n % u && 0 <= n % u < u && n / u * u + u == (n / u + 1) * u
  {}

  lemma RoundIsNear(n: nat)
    ensures 2 * Abs(RoundNat(n) - n) <= Unit(n)
    ensures RoundNat(n) == n <==> n % Unit(n) == 0
    ensures RoundNat(n) == n / Unit(n) * Unit(n) || RoundNat(n) == (n / Unit(n) + 1) * Unit(n)
  {
    DivisionFacts(n, Unit(n));
  }

  /** No multiple of the spacing is nearer, and of two equally near ones the even one is taken. */
  lemma RoundIsNearest(n: nat, m: int)
    ensures Abs(RoundNat(n) - n) <= Abs(m * Unit(n) - n)
    ensures Abs(RoundNat(n) - n) == Abs(m * Unit(n) - n) && m * Unit(n) != RoundNat(n)
            ==> exists e: int :: RoundNat(n) == 2 * e * Unit(n)
  {
    var u, q := Unit(n), n / Unit(n);
    DivisionFacts(n, u);
    RoundIsNear(n);
    ProductGap(m, q, u);
    if Abs(RoundNat(n) - n) == Abs(m * u - n) && m * u != RoundNat(n) {
      ProductGap(m, q + 1, u);
      assert 2 * (n % u) == u;
      EvenMultiple(q, u);
    }
  }

  lemma ProductGap(m: int, q: int, u: int)
    requires u > 0
    ensures m < q ==> m * u <= q * u - u
    ensures m > q ==> m * u >= q * u + u
    ensures m == q ==> m * u == q * u
  {
    if m < q {
      MulOrdered(m, q - 1, u);
    } else if m > q {
      MulOrdered(q + 1, m, u);
    }
  }

  lemma MulOrdered(a: int, b: int, u: int)
    requires a <= b && u > 0
    ensures a * u <= b * u && (b - 1) * u == b * u - u && (a + 1) * u == a * u + u
    ensures (a - 1) * u == a * u - u && (b + 1) * u == b * u + u
  {}

  lemma EvenMultiple(q: int, u: int)
    ensures q % 2 == 0 ==> exists e: int :: q * u == 2 * e * u
    ensures q % 2 == 1 ==> exists e: int :: (q + 1) * u == 2 * e * u
  {
    if q % 2 == 0 {
      assert q * u == 2 * (q / 2) * u;
    } else {
      assert q + 1 == 2 * ((q + 1) / 2);
      assert (q + 1) * u == 2 * ((q + 1) / 2) * u;
    }
  }

  /** Exact up to 2^53, and exactly where the spacing divides the number; off by at most
      |n| / 2^53 everywhere. */
  lemma RoundingBound(n: int)
    ensures Abs(n) <= MANTISSA ==> RoundF64(n) == n
    ensures RoundF64(n) == n <==> Abs(n) % Unit(Abs(n)) == 0
    ensures Abs(RoundF64(n) - n) * MANTISSA <= Abs(n)
  {
    RoundIsNear(Abs(n));
    assert Abs(n) == MANTISSA ==> Unit(Abs(n)) == 2;
  }

  /** x is m * 2^(k - 149). */
  ghost predicate Scaled(x: real, m: int, k: nat) { x * Pow2(149) as real == (m * Pow2(k)) as real }

  /** What float32 represents: the infinities, NaN, and up to 24 bits at a scale from 2^-149 to 2^104. */
  ghost predicate IsFloat32(f: Float) {
    f.Fin? ==> exists m: int, k: nat :: Abs(m) < 0x100_0000 && k <= 253 && Scaled(f.x, m, k)
  }

  // ------------------------------------------------------------ back to integers

  function Trunc(x: real): int { if x >= 0.0 then x.Floor else -((-x).Floor) }

  /** What the language leaves to the implementation: conversions of a float64 that is out of
      range, and narrowing to float32. */
  datatype FloatEnv = FloatEnv(toInt64: Float -> int, toUint64: Float -> int, toFloat32: Float -> Float)

  function ToInt64(env: FloatEnv, f: Float): int {
    if f.Fin? && InRange(I64, Trunc(f.x)) then Trunc(f.x) else env.toInt64(f)
  }

  function ToUint64(env: FloatEnv, f: Float): int {
    if f.Fin? && InRange(U64, Trunc(f.x)) then Trunc(f.x) else env.toUint64(f)
  }

  predicate Negative(f: Float) { (f.Fin? && f.x < 0.0) || (f.Inf? && f.negative) }

  /** The integer a float64 becomes in an integer kind. */
  function IntOf(env: FloatEnv, k: Num, f: Float): (r: int)
    requires !k.IsFloat()
    ensures InRange(k, r)
  {
    if k.IsSigned() then Wrapped(k, ToInt64(env, f))
    else Wrapped(k, ToUint64(env, if Negative(f) then Fin(0.0) else f))
  }

  /** An integer's whole way through float64 into an integer kind. */
  function Detour(env: FloatEnv, k: Num, n: int): (r: int)
    requires !k.IsFloat()
    ensures InRange(k, r)
  {
    IntOf(env, k, Fin(RoundF64(n) as real))
  }

  lemma TruncInteger(z: int)
    ensures Trunc(z as real) == z
  {}

  lemma IntOfInteger(env: FloatEnv, k: Num, z: int)
    requires !k.IsFloat()
    ensures k.IsSigned() && InRange(I64, z) ==> IntOf(env, k, Fin(z as real)) == Wrapped(k, z)
    ensures k.IsUnsigned() && z < 0 ==> IntOf(env, k, Fin(z as real)) == Wrapped(k, 0)
    ensures k.IsUnsigned() && InRange(U64, z) ==> IntOf(env, k, Fin(z as real)) == Wrapped(k, z)
  {
    hide Wrapped;
    TruncInteger(z);
    TruncInteger(0);
  }

  /** Up to 2^53 nothing is lost on the way: a signed kind gets the number modulo its width in
      two's complement, an unsigned kind gets 0 for a negative number and else the number modulo
      its width; a number the kind can hold arrives as it is. */
  lemma DetourExact(env: FloatEnv, k: Num, n: int)
    requires !k.IsFloat() && Abs(n) <= MANTISSA
    ensures k.IsSigned() ==> Congruent(Detour(env, k, n), n, k.Modulus())
    ensures k.IsUnsigned() ==> Congruent(Detour(env, k, n), if n < 0 then 0 else n, k.Modulus())
    ensures InRange(k, n) ==> Detour(env, k, n) == n
  {
    hide RoundF64, Wrapped, IntOf, Unit, Congruent;
    RoundingBound(n);
    IntOfInteger(env, k, n);
    WrappedIsCongruent(k, n);
    WrappedIsCongruent(k, 0);
  }

  // ------------------------------------------------- numbers beyond 2^53 and the top

  /** The first number of a 64-bit kind that rounds up to the power of two past its largest. */
  function Overflow(k: Num): (n: int)
    requires k in {I, I64, U, U64}
  {
    if k.IsSigned() then 0x8000_0000_0000_0000 - 512 else 0x1_0000_0000_0000_0000 - 1024
  }

  lemma {:induction false} UnitOf(n: nat, u: nat, e: nat)
    requires u == Pow2(e) && MANTISSA * u / 2 <= n < MANTISSA * u
    ensures Unit(n) == u
  {
    if e > 0 {
      assert u == 2 * Pow2(e - 1);
      UnitOf(n / 2, u / 2, e - 1);
    }
  }

  function Pow2(e: nat): nat { if e == 0 then 1 else 2 * Pow2(e - 1) }

  lemma Pow2At()
    ensures Pow2(10) == 1024 && Pow2(11) == 2048
  {}

  /** Just below 2^63 and 2^64, where the spacing is 1024 and 2048, the upper half of the last gap
      rounds up. */
  lemma RoundAtTop(n: nat, u: nat)
    requires u in {1024, 2048} && n < MANTISSA * u
    ensures n < MANTISSA * u - u / 2 ==> RoundNat(n) < MANTISSA * u
    ensures n >= MANTISSA * u - u / 2 ==> RoundNat(n) == MANTISSA * u
  {
    hide Unit, Pow2;
    if n >= MANTISSA * u / 2 {
      Pow2At();
      UnitOf(n, u, if u == 1024 then 10 else 11);
      DivisionFacts(n, u);
    } else {
      RoundingBound(n);
    }
  }

  lemma RoundInKind(k: Num, n: int)
    requires k in {I, I64, U, U64} && InRange(k, n)
    ensures n < Overflow(k) ==> InRange(k, RoundF64(n))
    ensures n >= Overflow(k) ==> RoundF64(n) == if k.IsSigned() then k.Modulus() / 2 else k.Modulus()
  {
    hide RoundNat, Unit, Pow2;
    RoundingBound(n);
    if n >= 0 {
      RoundAtTop(n, if k.IsSigned() then 1024 else 2048);
    } else if n > -k.Modulus() / 2 {
      RoundAtTop(-n, 1024);
    } else {
      Pow2At();
      UnitOf(-n, 2048, 11);
    }
  }

  /** In a 64-bit kind that can hold the number, what arrives is off by at most |n| / 2^53 and exact
      exactly where float64 can represent n, up to the last numbers of the kind: those round to the
      power of two past its largest, and the implementation decides. */
  lemma DetourBound(env: FloatEnv, k: Num, n: int)
    requires k in {I, I64, U, U64} && InRange(k, n)
    ensures n < Overflow(k) ==>
              && Abs(Detour(env, k, n) - n) * MANTISSA <= Abs(n)
              && (Detour(env, k, n) == n <==> Abs(n) % Unit(Abs(n)) == 0)
    ensures n >= Overflow(k) ==>
              Detour(env, k, n)
              == if k.IsSigned() then Wrapped(k, env.toInt64(Fin((k.Modulus() / 2) as real)))
                 else Wrapped(k, env.toUint64(Fin(k.Modulus() as real)))
  {
    hide RoundF64, Wrapped, Unit, Congruent;
    RoundInKind(k, n);
    RoundingBound(n);
    TruncInteger(RoundF64(n));
    if n < Overflow(k) {
      hide IntOf;
      IntOfInteger(env, k, RoundF64(n));
      WrappedIsCongruent(k, RoundF64(n));
    }
  }
}
