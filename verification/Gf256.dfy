/** The field GF(2^8) of FIPS 197, section 4: bytes are polynomials over GF(2) of
    degree below 8, added by exclusive or and multiplied modulo
    m(x) = x^8 + x^4 + x^3 + x + 1. The engine only ever doubles (Xtime); this module
    defines the product from the polynomials and proves the field laws it needs. */
module Gf256 {
  import opened Bytes

  function Add(x: byte, y: byte): byte {
    x ^ y
  }

  /** The engine's doubling step: multiply by x and reduce. */
  function Xtime(x: byte): byte {
    (x << 1) ^ (if x & 0x80 != 0 then 0x1b else 0x00)
  }

  // ---------- Multiplication as the standard defines it (section 4.2) ----------

  function Plus(u: bv16, v: bv16): bv16 {
    u ^ v
  }

  /** The coefficient of x^i. */
  predicate Coefficient(w: bv16, i: nat)
    requires i < 16
  {
    (w >> i) & 1 != 0
  }

  /** w(x) * x^n. */
  function Up(w: bv16, n: nat): bv16
    decreases n
  {
    if n == 0 then w else Up(w << 1, n - 1)
  }

  /** The polynomial product of b(x) with the n lowest terms of a(x). */
  function Product(a: byte, b: byte, n: nat): bv16
    requires n <= 8
  {
    if n == 0 then 0
    else Plus(Product(a, b, n - 1), if Coefficient(a as bv16, n - 1) then Up(b as bv16, n - 1) else 0)
  }

  /** Subtracts m(x) * x^k when that clears the coefficient of x^(8+k). */
  function Cancel(w: bv16, k: nat): bv16
    requires k < 7
  {
    if Coefficient(w, 8 + k) then Plus(w, Up(0x11b, k)) else w
  }

  /** Long division by m(x): clears the coefficients of x^(7+k) down to x^8. */
  function Remainder(w: bv16, k: nat): bv16
    requires k <= 7
    decreases k
  {
    if k == 0 then w else Remainder(Cancel(w, k - 1), k - 1)
  }

  function Mul(a: byte, b: byte): byte {
    (Remainder(Product(a, b, 8), 7) & 0xff) as byte
  }

  // ---------- Multiplication as repeated doubling ----------

  function Xtimes(x: byte, n: nat): byte {
    if n == 0 then x else Xtime(Xtimes(x, n - 1))
  }

  /** The sum of x^i * b over the n lowest terms x^i of a. */
  function Doublings(a: byte, b: byte, n: nat): byte
    requires n <= 8
  {
    if n == 0 then 0
    else Add(Doublings(a, b, n - 1), if Coefficient(a as bv16, n - 1) then Xtimes(b, n - 1) else 0)
  }

  /** Multiplying modulo m(x) is adding up repeated doublings. */
  lemma MulIsDoublings(a: byte, b: byte)
    ensures Mul(a, b) == Doublings(a, b, 8)
  {
    hide Remainder, Product, Doublings;
    RemainderOfProduct(a, b, 8);
    Narrow(Doublings(a, b, 8));
  }

  lemma Narrow(x: byte)
    ensures (x as bv16 & 0xff) as byte == x
  {}

  lemma {:induction false} RemainderOfProduct(a: byte, b: byte, n: nat)
    requires n <= 8
    ensures Remainder(Product(a, b, n), 7) == Doublings(a, b, n) as bv16
  {
    hide Plus, Add, Coefficient, Xtimes, Up, Remainder;
    RemainderOfByte(0, 7);
    if n > 0 {
      var d := Doublings(a, b, n - 1);
      var term := if Coefficient(a as bv16, n - 1) then Up(b as bv16, n - 1) else 0;
      var step := if Coefficient(a as bv16, n - 1) then Xtimes(b, n - 1) else 0;
      RemainderOfProduct(a, b, n - 1);
      RemainderLinear(Product(a, b, n - 1), term, 7);
      RemainderUp(b, n - 1, 7);
      Widen(d, step);
    }
  }

  lemma Widen(x: byte, y: byte)
    ensures Add(x, y) as bv16 == Plus(x as bv16, y as bv16)
  {
    calc {
      Add(x, y) as bv16;
      (x ^ y) as bv16;
      (x as bv16) ^ (y as bv16);
      Plus(x as bv16, y as bv16);
    }
  }

  lemma {:induction false} RemainderLinear(u: bv16, v: bv16, k: nat)
    requires k <= 7
    ensures Remainder(Plus(u, v), k) == Plus(Remainder(u, k), Remainder(v, k))
    decreases k
  {
    hide Plus, Cancel;
    if k > 0 {
      CancelLinear(u, v, k - 1);
      RemainderLinear(Cancel(u, k - 1), Cancel(v, k - 1), k - 1);
    }
  }

  lemma CancelLinear(u: bv16, v: bv16, k: nat)
    requires k < 7
    ensures Cancel(Plus(u, v), k) == Plus(Cancel(u, k), Cancel(v, k))
  {
    hide Coefficient, Plus, Up;
    CoefficientPlus(u, v, 8 + k);
    PlusSwap(u, v, Up(0x11b, k));
    PlusAssociates(u, v, Up(0x11b, k));
    PlusTwice(u, v, Up(0x11b, k));
  }

  lemma CoefficientPlus(u: bv16, v: bv16, i: nat)
    requires i < 16
    ensures Coefficient(Plus(u, v), i) == (Coefficient(u, i) != Coefficient(v, i))
  {
    assert (u ^ v) >> i == (u >> i) ^ (v >> i);
  }

  lemma PlusSwap(u: bv16, v: bv16, m: bv16)
    ensures Plus(Plus(u, m), v) == Plus(Plus(u, v), m)
  {
    hide Plus;
    PlusAssociates(u, m, v);
    PlusCommutes(m, v);
    PlusAssociates(u, v, m);
  }

  lemma PlusCommutes(u: bv16, v: bv16)
    ensures Plus(u, v) == Plus(v, u)
  {}

  lemma PlusAssociates(u: bv16, v: bv16, m: bv16)
    ensures Plus(u, Plus(v, m)) == Plus(Plus(u, v), m)
  {
    assert u ^ (v ^ m) == (u ^ v) ^ m;
  }

  lemma PlusTwice(u: bv16, v: bv16, m: bv16)
    ensures Plus(Plus(u, m), Plus(v, m)) == Plus(u, v)
  {
    hide Plus;
    PlusAssociates(Plus(u, m), v, m);
    PlusSwap(u, v, m);
    PlusSelf(Plus(u, v), m);
  }

  lemma PlusSelf(u: bv16, m: bv16)
    ensures Plus(Plus(u, m), m) == u
  {
    assert (u ^ m) ^ m == u;
  }

  lemma {:induction false} UpPlus(u: bv16, v: bv16, n: nat)
    ensures Up(Plus(u, v), n) == Plus(Up(u, n), Up(v, n))
    decreases n
  {
    hide Plus;
    if n > 0 {
      ShiftPlus(u, v);
      UpPlus(u << 1, v << 1, n - 1);
    }
  }

  lemma ShiftPlus(u: bv16, v: bv16)
    ensures Plus(u, v) << 1 == Plus(u << 1, v << 1)
  {
    calc {
      Plus(u, v) << 1;
      (u ^ v) << 1;
      (u << 1) ^ (v << 1);
      Plus(u << 1, v << 1);
    }
  }

  lemma {:induction false} CoefficientUp(w: bv16, i: nat, n: nat)
    requires 7 <= i && i + n < 16
    ensures Coefficient(Up(w, n), i + n) == Coefficient(w, i)
    decreases n
  {
    hide Coefficient;
    if n > 0 {
      CoefficientShift(w, i);
      CoefficientUp(w << 1, i + 1, n - 1);
    }
  }

  lemma CoefficientShift(w: bv16, i: nat)
    requires 7 <= i < 15
    ensures Coefficient(w << 1, i + 1) == Coefficient(w, i)
  {
    if i == 7 {} else if i == 8 {} else if i == 9 {} else if i == 10 {}
    else if i == 11 {} else if i == 12 {} else if i == 13 {} else {}
  }

  lemma XtimeReduces(a: byte)
    ensures Xtime(a) as bv16 == if a & 0x80 != 0 then Plus(a as bv16 << 1, 0x11b) else a as bv16 << 1
  {
    if a & 0x80 != 0 {} else {}
  }

  /** One cancellation of a shifted byte is one doubling of the byte. */
  lemma CancelUp(a: byte, n: nat)
    requires n < 7
    ensures Cancel(Up(a as bv16, n + 1), n) == Up(Xtime(a) as bv16, n)
  {
    assert Coefficient(a as bv16, 7) == (a & 0x80 != 0);
    hide Plus, Xtime, Coefficient;
    XtimeReduces(a);
    CoefficientUp(a as bv16, 7, n + 1);
    UpPlus(a as bv16 << 1, 0x11b, n);
  }

  lemma CancelLow(a: byte, n: nat, k: nat)
    requires n <= k < 7
    ensures Cancel(Up(a as bv16, n), k) == Up(a as bv16, n)
  {
    assert !Coefficient(a as bv16, 8 + k - n);
    hide Coefficient;
    CoefficientUp(a as bv16, 8 + k - n, n);
  }

  lemma {:induction false} RemainderUp(a: byte, n: nat, k: nat)
    requires n <= k <= 7
    ensures Remainder(Up(a as bv16, n), k) == Xtimes(a, n) as bv16
    decreases k
  {
    hide Cancel, Xtime, Xtimes, Up;
    if k > n {
      CancelLow(a, n, k - 1);
      RemainderUp(a, n, k - 1);
    } else if k > 0 {
      CancelUp(a, n - 1);
      XtimesMore(a, n - 1);
      RemainderUp(Xtime(a), n - 1, k - 1);
    } else {
      UpZero(a as bv16);
      XtimesNone(a);
    }
  }

  lemma XtimesNone(a: byte)
    ensures Xtimes(a, 0) == a
  {}

  lemma XtimesMore(a: byte, n: nat)
    ensures Xtimes(a, n + 1) == Xtimes(Xtime(a), n)
  {
    hide Xtime;
    XtimesXtime(a, n);
  }

  lemma UpZero(w: bv16)
    ensures Up(w, 0) == w
  {}

  lemma RemainderOfByte(a: byte, k: nat)
    requires k <= 7
    ensures Remainder(a as bv16, k) == a as bv16
  {
    UpZero(a as bv16);
    RemainderUp(a, 0, k);
  }

  // ---------- The field laws ----------

  lemma XtimeLinear(x: byte, y: byte)
    ensures Xtime(Add(x, y)) == Add(Xtime(x), Xtime(y))
  {
    assert ((x ^ y) & 0x80 != 0) == ((x & 0x80 != 0) != (y & 0x80 != 0));
    assert (x ^ y) << 1 == (x << 1) ^ (y << 1);
    if x & 0x80 != 0 {
      if y & 0x80 != 0 {} else {}
    } else {
      if y & 0x80 != 0 {} else {}
    }
  }

  lemma Interchange(p: byte, q: byte, r: byte, s: byte)
    ensures Add(Add(p, q), Add(r, s)) == Add(Add(p, r), Add(q, s))
  {
    hide Add;
    calc {
      Add(Add(p, q), Add(r, s));
      { AddAssociates(p, q, Add(r, s)); }
      Add(p, Add(q, Add(r, s)));
      { AddAssociates(q, r, s); AddCommutes(q, r); AddAssociates(r, q, s); }
      Add(p, Add(r, Add(q, s)));
      { AddAssociates(p, r, Add(q, s)); }
      Add(Add(p, r), Add(q, s));
    }
  }

  lemma AddCommutes(x: byte, y: byte)
    ensures Add(x, y) == Add(y, x)
  {}

  lemma AddAssociates(x: byte, y: byte, z: byte)
    ensures Add(Add(x, y), z) == Add(x, Add(y, z))
  {
    assert (x ^ y) ^ z == x ^ (y ^ z);
  }

  lemma AddZero(x: byte)
    ensures Add(x, 0) == x == Add(0, x)
  {}

  lemma AddSelf(x: byte, y: byte)
    ensures Add(Add(x, y), y) == x
  {
    assert (x ^ y) ^ y == x;
  }

  lemma {:induction false} XtimesLinear(x: byte, y: byte, n: nat)
    ensures Xtimes(Add(x, y), n) == Add(Xtimes(x, n), Xtimes(y, n))
  {
    hide Add, Xtime;
    if n > 0 {
      XtimesLinear(x, y, n - 1);
      XtimeLinear(Xtimes(x, n - 1), Xtimes(y, n - 1));
    }
  }

  lemma {:induction false} XtimesZero(n: nat)
    ensures Xtimes(0, n) == 0
  {
    if n > 0 {
      XtimesZero(n - 1);
    }
  }

  lemma {:induction false} XtimesXtime(x: byte, n: nat)
    ensures Xtimes(Xtime(x), n) == Xtime(Xtimes(x, n))
  {
    hide Xtime;
    if n > 0 {
      XtimesXtime(x, n - 1);
    }
  }

  lemma {:induction false} DoublingsLinear(a: byte, x: byte, y: byte, n: nat)
    requires n <= 8
    ensures Doublings(a, Add(x, y), n) == Add(Doublings(a, x, n), Doublings(a, y, n))
  {
    hide Add, Xtime, Coefficient;
    AddZero(0);
    if n > 0 {
      DoublingsLinear(a, x, y, n - 1);
      XtimesLinear(x, y, n - 1);
      var c := Coefficient(a as bv16, n - 1);
      Interchange(Doublings(a, x, n - 1), if c then Xtimes(x, n - 1) else 0,
                  Doublings(a, y, n - 1), if c then Xtimes(y, n - 1) else 0);
    }
  }

  lemma {:induction false} DoublingsXtime(a: byte, x: byte, n: nat)
    requires n <= 8
    ensures Doublings(a, Xtime(x), n) == Xtime(Doublings(a, x, n))
  {
    XtimesZero(1);
    hide Add, Xtime, Coefficient;
    if n > 0 {
      DoublingsXtime(a, x, n - 1);
      XtimesXtime(x, n - 1);
      XtimeLinear(Doublings(a, x, n - 1), if Coefficient(a as bv16, n - 1) then Xtimes(x, n - 1) else 0);
    }
  }

  lemma {:induction false} DoublingsXtimes(a: byte, x: byte, k: nat)
    ensures Doublings(a, Xtimes(x, k), 8) == Xtimes(Doublings(a, x, 8), k)
  {
    hide Add, Xtime, Coefficient, Doublings;
    if k > 0 {
      DoublingsXtimes(a, x, k - 1);
      DoublingsXtime(a, Xtimes(x, k - 1), 8);
    }
  }

  lemma {:induction false} DoublingsZero(a: byte, n: nat)
    requires n <= 8
    ensures Doublings(a, 0, n) == 0
  {
    hide Xtime, Coefficient;
    if n > 0 {
      DoublingsZero(a, n - 1);
      XtimesZero(n - 1);
    }
  }

  lemma {:induction false} DoublingsCommute(a: byte, b: byte, c: byte, n: nat)
    requires n <= 8
    ensures Doublings(a, Doublings(b, c, n), 8) == Doublings(b, Doublings(a, c, 8), n)
  {
    hide Add, Xtime, Coefficient, Xtimes;
    if n == 0 {
      DoublingsZero(a, 8);
    } else {
      DoublingsCommute(a, b, c, n - 1);
      DoublingsLinear(a, Doublings(b, c, n - 1), if Coefficient(b as bv16, n - 1) then Xtimes(c, n - 1) else 0, 8);
      DoublingsXtimes(a, c, n - 1);
      DoublingsZero(a, 8);
    }
  }

  function LowBits(a: byte, n: nat): byte
    requires n <= 8
  {
    a & ((1 << n) - 1)
  }

  lemma LowBitsStep(a: byte, n: nat)
    requires n < 8
    ensures LowBits(a, n + 1) == Add(LowBits(a, n), if Coefficient(a as bv16, n) then 1 << n else 0)
  {
    if n == 0 {} else if n == 1 {} else if n == 2 {} else if n == 3 {}
    else if n == 4 {} else if n == 5 {} else if n == 6 {} else {}
  }

  lemma {:induction false} XtimesOne(n: nat)
    requires n < 8
    ensures Xtimes(1, n) == 1 << n
  {
    if n > 0 {
      XtimesOne(n - 1);
    }
  }

  lemma {:induction false} DoublingsOfOne(a: byte, n: nat)
    requires n <= 8
    ensures Doublings(a, 1, n) == LowBits(a, n)
  {
    if n > 0 {
      hide Add, Xtime, Coefficient, Xtimes, LowBits;
      DoublingsOfOne(a, n - 1);
      XtimesOne(n - 1);
      LowBitsStep(a, n - 1);
    }
  }

  lemma MulOne(a: byte)
    ensures Mul(a, 1) == a
  {
    assert LowBits(a, 8) == a;
    hide *;
    MulIsDoublings(a, 1);
    DoublingsOfOne(a, 8);
  }

  lemma MulLinear(a: byte, x: byte, y: byte)
    ensures Mul(a, Add(x, y)) == Add(Mul(a, x), Mul(a, y))
  {
    hide *;
    MulIsDoublings(a, x);
    MulIsDoublings(a, y);
    MulIsDoublings(a, Add(x, y));
    DoublingsLinear(a, x, y, 8);
  }

  lemma MulLeftCommutes(a: byte, b: byte, c: byte)
    ensures Mul(a, Mul(b, c)) == Mul(b, Mul(a, c))
  {
    hide *;
    MulIsDoublings(a, c);
    MulIsDoublings(b, c);
    MulIsDoublings(a, Mul(b, c));
    MulIsDoublings(b, Mul(a, c));
    DoublingsCommute(a, b, c, 8);
  }

  lemma MulCommutes(a: byte, b: byte)
    ensures Mul(a, b) == Mul(b, a)
  {
    hide *;
    MulOne(a);
    MulOne(b);
    MulLeftCommutes(a, b, 1);
  }

  lemma MulAssociates(a: byte, b: byte, c: byte)
    ensures Mul(Mul(a, b), c) == Mul(a, Mul(b, c))
  {
    hide *;
    MulCommutes(Mul(a, b), c);
    MulLeftCommutes(c, a, b);
    MulCommutes(c, b);
  }

  // ---------- Inverses ----------

  /** y is the multiplicative inverse of x, with {00} its own inverse (section 5.1.1). */
  predicate IsInverse(x: byte, y: byte) {
    if x == 0 then y == 0 else Mul(x, y) == 1
  }

  lemma InverseUnique(x: byte, y: byte, z: byte)
    requires IsInverse(x, y) && IsInverse(x, z)
    ensures y == z
  {
    hide Mul;
    if x != 0 {
      MulOne(y);
      MulOne(z);
      MulLeftCommutes(y, x, z);
      MulCommutes(y, z);
      MulLeftCommutes(x, z, y);
    }
  }

  lemma InverseSymmetric(x: byte, y: byte)
    requires IsInverse(x, y)
    ensures IsInverse(y, x)
  {
    assert Mul(x, 0) == 0 by { 
      hide *;
      MulIsDoublings(x, 0);
      DoublingsZero(x, 8);
    }
    hide Mul;
    MulCommutes(x, y);
  }
}
