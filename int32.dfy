/** The ToInt32 conversion of ECMA-262 (section 7.1.6 of recent editions),
    which the `0 | x` expression applies to its operand. The operand here is
    always an integer, so the truncation step of ToInt32 is the identity. */
module Int32 {
  const TWO_31: int := 0x8000_0000
  const TWO_32: int := 0x1_0000_0000

  /** The signed 32-bit range [-2^31, 2^31 - 1]. */
  predicate InRange(x: int) {
    -TWO_31 <= x < TWO_31
  }

  /** x and y denote the same 32-bit pattern. */
  predicate Congruent(x: int, y: int) {
    (x - y) % TWO_32 == 0
  }

  /** ToInt32: reduce modulo 2^32 and take the representative in the signed range. */
  function ToInt32(x: int): (r: int)
    ensures InRange(r)
    ensures Congruent(r, x)
  {
    var m := x % TWO_32;
    if m >= TWO_31 then m - TWO_32 else m
  }

  /** Two signed 32-bit values with the same bit pattern are equal. */
  lemma {:induction false} CongruentInRange(x: int, y: int)
    requires InRange(x) && InRange(y) && Congruent(x, y)
    ensures x == y
  {
    var d := x - y;
    assert -TWO_32 < d < TWO_32;
    assert d % TWO_32 == 0;
    assert d == (d / TWO_32) * TWO_32;
  }

  /** The two ensures of ToInt32 determine it: whatever lies in range with the
      same bit pattern as x is ToInt32(x). */
  lemma {:induction false} ToInt32Unique(x: int, r: int)
    requires InRange(r) && Congruent(r, x)
    ensures r == ToInt32(x)
  {
    var t := ToInt32(x);
    assert (r - t) % TWO_32 == 0 by {
      assert (r - x) % TWO_32 == 0 && (t - x) % TWO_32 == 0;
      assert r - x == ((r - x) / TWO_32) * TWO_32;
      assert t - x == ((t - x) / TWO_32) * TWO_32;
      assert r - t == ((r - x) / TWO_32 - (t - x) / TWO_32) * TWO_32;
    }
    CongruentInRange(r, t);
  }

  /** ToInt32 is the identity on the signed range. */
  lemma {:induction false} ToInt32Identity(x: int)
    requires InRange(x)
    ensures ToInt32(x) == x
  {
    ToInt32Unique(x, x);
  }

  /** ToInt32 depends only on its argument's bit pattern. */
  lemma {:induction false} ToInt32Congruent(x: int, y: int)
    requires Congruent(x, y)
    ensures ToInt32(x) == ToInt32(y)
  {
    var t := ToInt32(y);
    assert Congruent(t, x) by {
      assert (t - y) % TWO_32 == 0 && (y - x) % TWO_32 == 0;
      assert t - y == ((t - y) / TWO_32) * TWO_32;
      assert x - y == ((x - y) / TWO_32) * TWO_32;
      assert t - x == ((t - y) / TWO_32 - (x - y) / TWO_32) * TWO_32;
    }
    ToInt32Unique(x, t);
  }

  /** Truncating the accumulator before one more hash step changes nothing:
      ToInt32(k * ToInt32(x) + c) == ToInt32(k * x + c). */
  lemma {:induction false} ToInt32Step(k: int, x: int, c: int)
    ensures ToInt32(k * ToInt32(x) + c) == ToInt32(k * x + c)
  {
    var t := ToInt32(x);
    var q := (t - x) / TWO_32;
    assert t - x == q * TWO_32;
    assert (k * t + c) - (k * x + c) == (k * q) * TWO_32 by {
      assert k * t - k * x == k * (t - x);
    }
    ToInt32Congruent(k * t + c, k * x + c);
  }
}
