/**
 The CPU's multiply/divide unit (lacpu/rtl/mycpu/div.v, mul.v, mul_div_lock.v
 and mul_div_top.v) as a clocked circuit over 32-bit values: a divider of 32
 subtract-and-shift steps, a multiplier with two registers, a latch for the
 operands, and signs taken off before and put back after. The architecture is
 section 2.2.1 of the LoongArch Reference Manual, Volume 1.
 */
module Divider {

  // ---------------------------------------------------------------- powers of two

  function Pow(n: nat): (p: nat)
    ensures p > 0
  {
    if n == 0 then 1 else 2 * Pow(n - 1)
  }

  const WORD: nat := 0x1_0000_0000
  const HALF: nat := 0x8000_0000

  lemma PowWord()
    ensures Pow(31) == HALF && Pow(32) == WORD
  {
    assert Pow(8) == 256;
    assert Pow(16) == 65536;
    assert Pow(24) == 0x100_0000;
  }

  lemma {:induction false} PowSum(i: nat, j: nat)
    ensures Pow(i + j) == Pow(i) * Pow(j)
  {
    if i > 0 {
      PowSum(i - 1, j);
    }
  }

  // ---------------------------------------------------------------- the divider

  datatype Div = Div(cnt: nat, q: nat, r: nat)

  // temp, carry and sub_result
  function Shifted(d: Div): nat {
    (2 * d.r + d.q / HALF) % WORD
  }

  function DivTick(d: Div, valid: bool, a: nat, b: nat): Div {
    if d.cnt != 0 then
      var temp := Shifted(d);
      if temp < b then Div(d.cnt - 1, 2 * d.q % WORD, temp)
      else Div(d.cnt - 1, (2 * d.q + 1) % WORD, temp - b)
    else if valid then Div(32, a, 0)
    else d
  }

  // After i steps: the top i bits of a are h, divided by b with quotient k and
  // remainder r; the register q holds the other bits of a, then k.
  ghost predicate Partial(a: nat, b: nat, i: nat, q: nat, r: nat, x: nat, k: nat, h: nat) {
    && i <= 32
    && a == h * Pow(32 - i) + x && x < Pow(32 - i)
    && q == x * Pow(i) + k && k < Pow(i)
    && h == k * b + r && r < b
  }

  lemma MulMono(x: nat, y: nat, p: nat)
    requires x <= y
    ensures x * p <= y * p
  {
  }

  lemma TopBound(a: nat, h: nat, p: nat, x: nat, s: nat)
    requires a == h * p + x && a < s * p
    ensures h < s
  {
    if h >= s {
      MulMono(s, h, p);
    }
  }

  lemma LowBound(x: nat, s: nat, k: nat, p: nat)
    requires k < s && x < p
    ensures x * s + k < p * s
  {
    MulMono(x + 1, p, s);
    assert (x + 1) * s == x * s + s;
  }

  // The partial remainder is below 2^i, so no bit is lost when it is shifted.
  lemma RemainderFits(a: nat, b: nat, i: nat, q: nat, r: nat, x: nat, k: nat, h: nat)
    requires Partial(a, b, i, q, r, x, k, h) && a < WORD
    ensures h < Pow(i) && r < Pow(i) && q < WORD
  {
    PowWord();
    PowSum(i, 32 - i);
    hide Pow;
    TopBound(a, h, Pow(32 - i), x, Pow(i));
    LowBound(x, Pow(i), k, Pow(32 - i));
    assert r <= h by {
      MulMono(0, k, b);
    }
  }

  lemma SplitTop(x: nat, bit: nat, p: nat, y: nat, s: nat)
    requires x == bit * p + y
    ensures x * s == bit * (p * s) + y * s
  {
    assert (bit * p + y) * s == bit * p * s + y * s;
    assert bit * p * s == bit * (p * s);
  }

  lemma TopBit(q: nat, bit: nat, rest: nat)
    requires bit < 2 && rest < HALF && q == bit * HALF + rest
    ensures q / HALF == bit
  {
  }

  // q is x above k; its top bit is that of x.
  lemma TopOf(x: nat, s: nat, p: nat, k: nat, bit: nat, y: nat)
    requires p * s == HALF && k < s && bit < 2 && y < p && x == bit * p + y
    ensures x * s + k == bit * HALF + (y * s + k) && y * s + k < HALF
  {
    SplitTop(x, bit, p, y, s);
    LowBound(y, s, k, p);
  }

  // The top bit of q is the next bit of a.
  lemma NextBit(i: nat, q: nat, x: nat, k: nat) returns (bit: nat, y: nat)
    requires i < 32 && x < Pow(32 - i) && q == x * Pow(i) + k && k < Pow(i)
    ensures bit < 2 && x == bit * Pow(31 - i) + y && y < Pow(31 - i) && q / HALF == bit
    ensures q == bit * HALF + (y * Pow(i) + k) && y * Pow(i) + k < HALF
  {
    HalfPow(i);
    hide Pow;
    var p := Pow(31 - i);
    if x < p {
      bit, y := 0, x;
    } else {
      bit, y := 1, x - p;
    }
    TopOf(x, Pow(i), p, k, bit, y);
    TopBit(q, bit, y * Pow(i) + k);
  }

  lemma HalfPow(i: nat)
    requires i < 32
    ensures Pow(32 - i) == 2 * Pow(31 - i) && Pow(31 - i) * Pow(i) == HALF
  {
    PowSum(31 - i, i);
    PowWord();
  }

  lemma Ticked(d: Div, b: nat, bit: nat, carry: nat)
    requires d.cnt != 0 && d.q / HALF == bit && d.q < WORD && 2 * d.r + bit < WORD
    requires carry == if 2 * d.r + bit < b then 0 else 1
    ensures DivTick(d, false, 0, b).q == (2 * d.q + carry) % WORD
    ensures DivTick(d, false, 0, b).r == 2 * d.r + bit - carry * b
  {
    assert Shifted(d) == 2 * d.r + bit;
  }

  // One step of the divider divides one more bit.
  lemma DivStep(a: nat, b: nat, i: nat, d: Div, x: nat, k: nat, h: nat) returns (x': nat, k': nat, h': nat)
    requires Partial(a, b, i, d.q, d.r, x, k, h) && i < 32 && a < WORD && d.cnt != 0
    ensures Partial(a, b, i + 1, DivTick(d, false, 0, b).q, DivTick(d, false, 0, b).r, x', k', h')
  {
    RemainderFits(a, b, i, d.q, d.r, x, k, h);
    var bit, y := NextBit(i, d.q, x, k);
    NoBitLost(i, d.r, bit);
    assert Pow(i + 1) == 2 * Pow(i) && 32 - (i + 1) == 31 - i;
    var carry := if 2 * d.r + bit < b then 0 else 1;
    Ticked(d, b, bit, carry);
    hide Pow, DivTick;
    x', k', h' := y, 2 * k + carry, 2 * h + bit;
    NextTop(a, i, h, x, bit, y);
    NextQuotient(i, d.q, y, k, bit, carry);
    NextDivision(h, k, b, d.r, bit, carry);
  }

  lemma NoBitLost(i: nat, r: nat, bit: nat)
    requires i < 32 && r < Pow(i) && bit < 2
    ensures 2 * r + bit < WORD
  {
    PowMono(i + 1, 32);
    PowWord();
  }

  lemma NextDivision(h: nat, k: nat, b: nat, r: nat, bit: nat, carry: nat)
    requires h == k * b + r && r < b && bit < 2 && carry == if 2 * r + bit < b then 0 else 1
    ensures 2 * r + bit - carry * b >= 0 && 2 * h + bit == (2 * k + carry) * b + (2 * r + bit - carry * b)
    ensures 2 * r + bit - carry * b < b
  {
    assert (2 * k + carry) * b == 2 * (k * b) + carry * b;
  }

  lemma {:induction false} PowMono(i: nat, j: nat)
    requires i <= j
    ensures Pow(i) <= Pow(j)
  {
    if i < j {
      PowMono(i, j - 1);
    }
  }

  lemma NextTop(a: nat, i: nat, h: nat, x: nat, bit: nat, y: nat)
    requires i < 32 && a == h * Pow(32 - i) + x && x == bit * Pow(31 - i) + y
    ensures a == (2 * h + bit) * Pow(31 - i) + y
  {
    var p := Pow(31 - i);
    assert h * (2 * p) == (2 * h) * p;
    assert (2 * h + bit) * p == (2 * h) * p + bit * p;
  }

  lemma NextQuotient(i: nat, q: nat, y: nat, k: nat, bit: nat, carry: nat)
    requires i < 32 && bit < 2 && carry < 2 && q == bit * HALF + (y * Pow(i) + k) && y * Pow(i) + k < HALF
    ensures (2 * q + carry) % WORD == y * Pow(i + 1) + (2 * k + carry)
  {
    var rest := y * Pow(i) + k;
    assert y * Pow(i + 1) == 2 * (y * Pow(i));
    assert 2 * q + carry == bit * WORD + (2 * rest + carry);
  }

  // ---------------------------------------------------------------- multiplier and latch

  datatype Mul = Mul(cnt: nat, hi: nat, lo: nat, product: nat)

  function MulTick(m: Mul, valid: bool, a: nat, b: nat): Mul {
    if m.cnt != 0 then Mul(m.cnt - 1, m.product / WORD, m.product % WORD, a * b)
    else if valid then Mul(2, 0, 0, 0)
    else m
  }

  datatype Lock = Lock(first: bool, mulMask: bool, divMask: bool, a: nat, b: nat, sign: bool, rem: bool)

  // mul_div_op (one bit each), mul_div_sign, the operands, and the stall bits'
  // condition for going on
  datatype Input = Input(mul: bool, mulh: bool, div: bool, mod: bool, signed: bool, a: nat, b: nat, go: bool)

  datatype Unit = Unit(lock: Lock, m: Mul, d: Div)

  predicate Negative(x: nat) { x >= HALF }

  // ~x + 1
  function Negate(x: nat): nat { (WORD - x) % WORD }

  // src_a, src_b
  function Magnitude(x: nat, signed: bool): nat
    requires x < WORD
  {
    if signed && Negative(x) then Negate(x) else x
  }

  predicate MulEn(i: Input) { i.mul || i.mulh }
  predicate DivEn(i: Input) { i.div || i.mod }

  function ALocked(u: Unit, i: Input): nat
    requires i.a < WORD
  {
    if u.lock.first then Magnitude(i.a, i.signed) else u.lock.a
  }

  function BLocked(u: Unit, i: Input): nat
    requires i.b < WORD
  {
    if u.lock.first then Magnitude(i.b, i.signed) else u.lock.b
  }

  predicate MulValid(u: Unit, i: Input) { MulEn(i) && u.lock.mulMask }
  predicate DivValid(u: Unit, i: Input) { DivEn(i) && u.lock.divMask }

  predicate StallReq(u: Unit, i: Input) {
    MulValid(u, i) || u.m.cnt != 0 || DivValid(u, i) || u.d.cnt != 0
  }

  function LockTick(u: Unit, i: Input): Lock
    requires i.a < WORD && i.b < WORD
  {
    var a, b := Magnitude(i.a, i.signed), Magnitude(i.b, i.signed);
    var sign, rem := Negative(i.a) != Negative(i.b), Negative(i.a);
    if MulEn(i) && u.lock.first then Lock(false, false, true, a, b, sign, rem)
    else if DivEn(i) && u.lock.first then Lock(false, true, false, a, b, sign, rem)
    else if !StallReq(u, i) && (MulEn(i) || DivEn(i)) && !u.lock.first && i.go then
      Lock(true, true, true, 0, 0, false, false)
    else u.lock
  }

  function UnitTick(u: Unit, i: Input): Unit
    requires i.a < WORD && i.b < WORD
  {
    Unit(LockTick(u, i), MulTick(u.m, MulValid(u, i), ALocked(u, i), BLocked(u, i)),
         DivTick(u.d, DivValid(u, i), ALocked(u, i), BLocked(u, i)))
  }

  // {s, ~x[30:0] + 1}: the sum is 31 bits wide
  function WithSign(x: nat): nat {
    HALF + (HALF - x % HALF) % HALF
  }

  function SignFlag(u: Unit, i: Input): bool {
    if u.lock.first then Negative(i.a) != Negative(i.b) else u.lock.sign
  }

  function RemFlag(u: Unit, i: Input): bool {
    if u.lock.first then Negative(i.a) else u.lock.rem
  }

  // {s, ~x[30:0]}
  function WithSignHigh(x: nat): nat {
    HALF + (HALF - 1 - x % HALF)
  }

  // mul_div_result
  function Result(u: Unit, i: Input): nat {
    if i.mul then (if i.signed && SignFlag(u, i) && u.m.lo != 0 then Negate(u.m.lo) else u.m.lo)
    else if i.mulh then (if i.signed && SignFlag(u, i) && u.m.hi != 0 then WithSignHigh(u.m.hi) else u.m.hi)
    else if i.div then (if i.signed && SignFlag(u, i) && u.d.q != 0 then WithSign(u.d.q) else u.d.q)
    else if i.mod then (if i.signed && RemFlag(u, i) && u.d.r != 0 then WithSign(u.d.r) else u.d.r)
    else 0
  }

  // ---------------------------------------------------------------- a whole operation

  // Nothing in progress
  ghost predicate Ready(u: Unit) {
    u.lock.first && u.lock.mulMask && u.lock.divMask && u.m.cnt == 0 && u.d.cnt == 0
  }

  ghost predicate Run(us: seq<Unit>, ins: seq<Input>) {
    && |us| == |ins| + 1
    && forall t :: 0 <= t < |ins| ==> ins[t].a < WORD && ins[t].b < WORD && us[t + 1] == UnitTick(us[t], ins[t])
  }

  // The operands of the request that started in cycle 0
  ghost predicate Latched(u: Unit, i: Input)
    requires i.a < WORD && i.b < WORD
  {
    && !u.lock.first && u.lock.a == Magnitude(i.a, i.signed) && u.lock.b == Magnitude(i.b, i.signed)
    && u.lock.sign == (Negative(i.a) != Negative(i.b)) && u.lock.rem == Negative(i.a)
  }

  // Whatever the inputs do meanwhile, the operands stay latched, the unit keeps
  // asking for a stall, and the divider has done t - 1 of its steps.
  lemma {:induction false} DivRun(us: seq<Unit>, ins: seq<Input>, t: nat) returns (x: nat, k: nat, h: nat)
    requires Run(us, ins) && 1 <= t <= 33 && t < |us| && Ready(us[0]) && DivEn(ins[0]) && !MulEn(ins[0])
    requires Magnitude(ins[0].b, ins[0].signed) != 0
    ensures Latched(us[t], ins[0]) && !us[t].lock.divMask && us[t].d.cnt == 33 - t
    ensures Partial(Magnitude(ins[0].a, ins[0].signed), Magnitude(ins[0].b, ins[0].signed), t - 1, us[t].d.q, us[t].d.r,
                    x, k, h)
    decreases t
  {
    var a, b := Magnitude(ins[0].a, ins[0].signed), Magnitude(ins[0].b, ins[0].signed);
    assert us[t - 1 + 1] == UnitTick(us[t - 1], ins[t - 1]);
    if t == 1 {
      x, k, h := a, 0, 0;
      PowWord();
      assert Pow(0) == 1;
    } else {
      x, k, h := DivRun(us, ins, t - 1);
      DivGoes(us[t - 1], ins[t - 1], ins[0]);
      hide Partial, Pow, UnitTick, DivTick;
      x, k, h := DivStep(a, b, t - 2, us[t - 1].d, x, k, h);
    }
  }

  // While the divider counts, no input reaches it or the latch.
  lemma DivGoes(u: Unit, i: Input, i0: Input)
    requires i0.a < WORD && i0.b < WORD && i.a < WORD && i.b < WORD && Latched(u, i0) && !u.lock.divMask && u.d.cnt != 0
    ensures Latched(UnitTick(u, i), i0) && !UnitTick(u, i).lock.divMask && UnitTick(u, i).d.cnt == u.d.cnt - 1
    ensures UnitTick(u, i).d == DivTick(u.d, false, 0, Magnitude(i0.b, i0.signed))
  {
  }

  lemma DivDone(a: nat, b: nat, q: nat, r: nat, x: nat, k: nat, h: nat)
    requires Partial(a, b, 32, q, r, x, k, h)
    ensures a == q * b + r && r < b
  {
    assert Pow(0) == 1 && x == 0;
  }

  lemma NoMultiple(d: int, b: nat, e: int)
    requires d * b == e && 0 - b < e < b
    ensures d == 0
  {
    NegMul(d, b);
    if d >= 1 {
      MulMono(1, d, b);
    } else if d <= -1 {
      MulMono(1, 0 - d, b);
    }
  }

  lemma NegMul(x: int, y: int)
    ensures (0 - x) * y == 0 - x * y && x * (0 - y) == 0 - x * y && (0 - x) * (0 - y) == x * y
  {
  }

  // The quotient and the remainder are unique.
  lemma DivUnique(a: nat, b: nat, q: nat, r: nat)
    requires a == q * b + r && r < b
    ensures q == a / b && r == a % b
  {
    var q2, r2 := a / b, a % b;
    assert a == q2 * b + r2;
    assert (q - q2) * b == q * b - q2 * b;
    NoMultiple(q - q2, b, r2 - r);
  }

  // For every dividend and every divisor but 0, 32 steps give the quotient and
  // the remainder of the magnitudes, and the operands are still latched.
  lemma DividesMagnitudes(us: seq<Unit>, ins: seq<Input>)
    requires Run(us, ins) && 34 <= |us| && Ready(us[0]) && DivEn(ins[0]) && !MulEn(ins[0])
    requires Magnitude(ins[0].b, ins[0].signed) != 0
    ensures Latched(us[33], ins[0]) && us[33].d.cnt == 0
    ensures us[33].d.q == Magnitude(ins[0].a, ins[0].signed) / Magnitude(ins[0].b, ins[0].signed)
    ensures us[33].d.r == Magnitude(ins[0].a, ins[0].signed) % Magnitude(ins[0].b, ins[0].signed)
  {
    var x, k, h := DivRun(us, ins, 33);
    DivDone(Magnitude(ins[0].a, ins[0].signed), Magnitude(ins[0].b, ins[0].signed), us[33].d.q, us[33].d.r, x, k, h);
    DivUnique(Magnitude(ins[0].a, ins[0].signed), Magnitude(ins[0].b, ins[0].signed), us[33].d.q, us[33].d.r);
  }

  // ---------------------------------------------------------------- as the architecture has it

  // A 32-bit pattern as a signed number, and back
  function Int(x: nat): int { if Negative(x) then x - WORD else x }
  function Bits(v: int): nat { v % WORD }

  function Abs(v: int): nat { if v < 0 then -v else v }

  // Division that truncates toward zero
  function Quot(p: int, q: int): int
    requires q != 0
  {
    if (p < 0) != (q < 0) then 0 - Abs(p) / Abs(q) else Abs(p) / Abs(q)
  }

  function Rem(p: int, q: int): int
    requires q != 0
  {
    if p < 0 then 0 - Abs(p) % Abs(q) else Abs(p) % Abs(q)
  }

  // It is the division with a remainder that is smaller than the divisor and
  // has the sign of the dividend.
  lemma TruncatingDivision(p: int, q: int)
    requires q != 0
    ensures p == q * Quot(p, q) + Rem(p, q) && Abs(Rem(p, q)) < Abs(q) && (Rem(p, q) == 0 || (Rem(p, q) < 0 <==> p < 0))
  {
    hide Quot, Rem;
    var k, r := Parts(p, q);
    NegMul(Abs(q), k);
    SignCases(p, q, Abs(p), Abs(q), k, r);
  }

  lemma Parts(p: int, q: int) returns (k: nat, r: nat)
    requires q != 0
    ensures Abs(p) == Abs(q) * k + r && r < Abs(q)
    ensures Quot(p, q) == (if (p < 0) != (q < 0) then 0 - k else k) && Rem(p, q) == if p < 0 then 0 - r else r
  {
    Euclid(Abs(p), Abs(q));
    k, r := Abs(p) / Abs(q), Abs(p) % Abs(q);
  }

  lemma Euclid(m: nat, n: nat)
    requires n > 0
    ensures m == n * (m / n) + m % n && m % n < n
  {
  }

  lemma SignCases(p: int, q: int, m: nat, n: nat, k: nat, r: nat)
    requires q != 0 && m == Abs(p) && n == Abs(q) && m == n * k + r && r < n
    requires (0 - n) * k == 0 - n * k && n * (0 - k) == 0 - n * k && (0 - n) * (0 - k) == n * k
    ensures var quot := if (p < 0) != (q < 0) then 0 - k else k;
            var rem := if p < 0 then 0 - r else r;
            p == q * quot + rem && Abs(rem) < n
  {
  }

  lemma MagnitudeIs(x: nat, signed: bool)
    requires x < WORD
    ensures Magnitude(x, signed) == (if signed then Abs(Int(x)) else x) && Magnitude(x, true) <= HALF
    ensures (Negative(x) <==> Int(x) < 0)
  {
  }

  // The sign put back on 1..2^31 gives the negative number; -2^31 included.
  lemma SignRestored(x: nat)
    requires 0 < x <= HALF
    ensures WithSign(x) == Bits(0 - x)
  {
  }

  lemma QuotientFits(m: nat, n: nat)
    requires n > 0
    ensures m / n <= m && m % n < n
  {
    assert m == n * (m / n) + m % n;
    MulMono(1, n, m / n);
  }

  // DIV.W, DIV.WU, MOD.W, MOD.WU: 33 cycles after the request, whatever the
  // operand inputs do in between.
  lemma Divides(us: seq<Unit>, ins: seq<Input>)
    requires Run(us, ins) && 34 <= |ins| && Ready(us[0]) && DivEn(ins[0]) && !MulEn(ins[0]) && !MulEn(ins[33])
    requires ins[33].signed == ins[0].signed && (ins[0].signed ==> Int(ins[0].b) != 0) && ins[0].b != 0
    ensures ins[0].signed && ins[33].div ==> Result(us[33], ins[33]) == Bits(Quot(Int(ins[0].a), Int(ins[0].b)))
    ensures ins[0].signed && !ins[33].div && ins[33].mod ==>
      Result(us[33], ins[33]) == Bits(Rem(Int(ins[0].a), Int(ins[0].b)))
    ensures !ins[0].signed && ins[33].div ==> Result(us[33], ins[33]) == ins[0].a / ins[0].b
    ensures !ins[0].signed && !ins[33].div && ins[33].mod ==> Result(us[33], ins[33]) == ins[0].a % ins[0].b
  {
    var a, b := ins[0].a, ins[0].b;
    MagnitudeIs(a, ins[0].signed);
    MagnitudeIs(b, ins[0].signed);
    DividesMagnitudes(us, ins);
    LatchedFlags(us[33], ins[0]);
    QuotientFits(Magnitude(a, ins[0].signed), Magnitude(b, ins[0].signed));
    hide Run, Latched, Magnitude, WithSign, Bits, Quot, Rem, Int, Negative;
    if ins[0].signed {
      QuotBits(Int(a), Int(b), us[33].d.q);
      RemBits(Int(a), Int(b), us[33].d.r);
    }
  }

  lemma QuotBits(p: int, q: int, k: nat)
    requires q != 0 && k == Abs(p) / Abs(q) && k <= HALF
    ensures Bits(Quot(p, q)) == if (p < 0) != (q < 0) && k != 0 then WithSign(k) else k
  {
    if k != 0 {
      SignRestored(k);
    }
  }

  lemma RemBits(p: int, q: int, r: nat)
    requires q != 0 && r == Abs(p) % Abs(q) && r <= HALF
    ensures Bits(Rem(p, q)) == if p < 0 && r != 0 then WithSign(r) else r
  {
    if r != 0 {
      SignRestored(r);
    }
  }

  lemma LatchedFlags(u: Unit, i: Input)
    requires i.a < WORD && i.b < WORD && Latched(u, i)
    ensures !u.lock.first && u.lock.sign == (Negative(i.a) != Negative(i.b)) && u.lock.rem == Negative(i.a)
  {
  }

  // MUL.W and MULH.WU: three cycles after the request.
  lemma Multiplies(us: seq<Unit>, ins: seq<Input>)
    requires Run(us, ins) && 4 <= |ins| && Ready(us[0]) && MulEn(ins[0]) && ins[3].signed == ins[0].signed
    ensures Latched(us[3], ins[0])
    ensures ins[3].mul ==>
      Result(us[3], ins[3]) ==
      if ins[0].signed then Bits(Int(ins[0].a) * Int(ins[0].b)) else Bits(ins[0].a * ins[0].b)
    ensures !ins[3].mul && ins[3].mulh && !ins[0].signed ==> Result(us[3], ins[3]) == ins[0].a * ins[0].b / WORD
  {
    var a, b := ins[0].a, ins[0].b;
    MulRun(us, ins);
    MagnitudeIs(a, ins[0].signed);
    MagnitudeIs(b, ins[0].signed);
    LatchedFlags(us[3], ins[0]);
    hide Run, Latched, Magnitude;
    if ins[0].signed {
      SignedLow(Int(a), Int(b));
    }
  }

  lemma MulRun(us: seq<Unit>, ins: seq<Input>)
    requires Run(us, ins) && 4 <= |ins| && Ready(us[0]) && MulEn(ins[0])
    ensures Latched(us[3], ins[0])
    ensures var p := Magnitude(ins[0].a, ins[0].signed) * Magnitude(ins[0].b, ins[0].signed);
            us[3].m.hi == p / WORD && us[3].m.lo == p % WORD
  {
    assert us[1] == UnitTick(us[0], ins[0]);
    assert us[1 + 1] == UnitTick(us[1], ins[1]);
    assert us[2 + 1] == UnitTick(us[2], ins[2]);
  }

  // The low word of a product with the sign put back
  lemma SignedLow(p: int, q: int)
    ensures var lo := Abs(p) * Abs(q) % WORD;
            Bits(p * q) == if (p < 0) != (q < 0) && lo != 0 then Negate(lo) else lo
  {
    var m := Abs(p) * Abs(q);
    assert p * q == if (p < 0) != (q < 0) then -m else m;
    assert m == m / WORD * WORD + m % WORD;
  }

  // MULH.W is not right for every input: with operands of different signs the
  // product -m needs m to have a high and a low word that are not 0.
  predicate HighWordRight(p: int, q: int) {
    var m := Abs(p) * Abs(q);
    (p < 0) == (q < 0) || m == 0 || (m / WORD != 0 && m % WORD != 0)
  }

  // The unit gives the high word of the signed product exactly then.
  lemma MultipliesHigh(us: seq<Unit>, ins: seq<Input>)
    requires Run(us, ins) && 4 <= |ins| && Ready(us[0]) && MulEn(ins[0]) && ins[3].signed && ins[0].signed
    requires !ins[3].mul && ins[3].mulh
    ensures Result(us[3], ins[3]) == Bits(Int(ins[0].a) * Int(ins[0].b) / WORD) <==>
      HighWordRight(Int(ins[0].a), Int(ins[0].b))
  {
    var a, b := ins[0].a, ins[0].b;
    MulRun(us, ins);
    MagnitudeIs(a, true);
    MagnitudeIs(b, true);
    LatchedFlags(us[3], ins[0]);
    HighBound(Magnitude(a, true), Magnitude(b, true));
    hide Run, Latched, Magnitude, HighWordRight, WithSignHigh, Bits;
    SignedHigh(Int(a), Int(b));
  }

  lemma HighBound(m: nat, n: nat)
    requires m <= HALF && n <= HALF
    ensures m * n / WORD < HALF
  {
    MulMono(m, HALF, n);
    assert HALF * n <= HALF * HALF;
  }

  lemma SignedHigh(p: int, q: int)
    requires Abs(p) * Abs(q) / WORD < HALF
    ensures var hi := Abs(p) * Abs(q) / WORD;
            Bits(p * q / WORD) == (if (p < 0) != (q < 0) && hi != 0 then WithSignHigh(hi) else hi) <==>
            HighWordRight(p, q)
  {
    var m := Abs(p) * Abs(q);
    SignedProduct(p, q);
    if (p < 0) != (q < 0) {
      NegativeHigh(m);
    }
  }

  lemma SignedProduct(p: int, q: int)
    ensures p * q == if (p < 0) != (q < 0) then 0 - Abs(p) * Abs(q) else Abs(p) * Abs(q)
  {
    NegMul(Abs(p), Abs(q));
  }

  // The high word of -m
  lemma NegativeHigh(m: nat)
    requires m / WORD < HALF
    ensures (0 - m) / WORD == if m % WORD == 0 then 0 - m / WORD else -1 - m / WORD
  {
  }

  // For example, -1 times 1: the unit gives 0, the high word of -1 is 0xFFFFFFFF.
  lemma HighWordWrong(us: seq<Unit>, ins: seq<Input>)
    requires Run(us, ins) && 4 <= |ins| && Ready(us[0]) && MulEn(ins[0])
    requires ins[0].signed && ins[3].signed && !ins[3].mul && ins[3].mulh
    requires ins[0].a == 0xFFFF_FFFF && ins[0].b == 1
    ensures Result(us[3], ins[3]) == 0
    ensures Bits(Int(ins[0].a) * Int(ins[0].b) / WORD) == 0xFFFF_FFFF
  {
    MulRun(us, ins);
    MagnitudeIs(ins[0].a, true);
    MagnitudeIs(ins[0].b, true);
  }

  // ---------------------------------------------------------------- stalling the pipeline

  // The pipeline is held from the request until the quotient is there.
  lemma DivStalls(us: seq<Unit>, ins: seq<Input>, t: nat)
    requires Run(us, ins) && t < 33 && t < |ins| && Ready(us[0]) && DivEn(ins[0]) && !MulEn(ins[0])
    requires Magnitude(ins[0].b, ins[0].signed) != 0
    ensures StallReq(us[t], ins[t])
  {
    if t > 0 {
      var x, k, h := DivRun(us, ins, t);
    }
  }

  lemma {:induction false} NoMul(us: seq<Unit>, ins: seq<Input>, t: nat)
    requires Run(us, ins) && t < |us| && us[0].m.cnt == 0 && forall k :: 0 <= k < t ==> !MulEn(ins[k])
    ensures us[t].m.cnt == 0
  {
    if t > 0 {
      NoMul(us, ins, t - 1);
      assert us[t - 1 + 1] == UnitTick(us[t - 1], ins[t - 1]);
    }
  }

  // Then it is let go, and the unit is ready for the next request as soon as the
  // pipeline moves on; until then it keeps the result.
  lemma DivReleases(us: seq<Unit>, ins: seq<Input>)
    requires Run(us, ins) && 34 <= |ins| && Ready(us[0]) && DivEn(ins[0]) && DivEn(ins[33])
    requires Magnitude(ins[0].b, ins[0].signed) != 0 && forall k :: 0 <= k < 34 ==> !MulEn(ins[k])
    ensures !StallReq(us[33], ins[33])
    ensures if ins[33].go then Ready(us[34]) else us[34] == us[33]
  {
    var x, k, h := DivRun(us, ins, 33);
    NoMul(us, ins, 33);
    assert us[33 + 1] == UnitTick(us[33], ins[33]);
  }

  // Likewise for a product, after three cycles
  lemma MulStalls(us: seq<Unit>, ins: seq<Input>)
    requires Run(us, ins) && 4 <= |ins| && Ready(us[0]) && MulEn(ins[0])
    ensures StallReq(us[0], ins[0]) && StallReq(us[1], ins[1]) && StallReq(us[2], ins[2])
    ensures MulEn(ins[3]) && (forall k :: 0 <= k < 4 ==> !DivEn(ins[k])) ==>
      && !StallReq(us[3], ins[3])
      && if ins[3].go then Ready(us[4]) else us[4] == us[3]
  {
    assert us[0 + 1] == UnitTick(us[0], ins[0]) && us[1 + 1] == UnitTick(us[1], ins[1]);
    assert us[2 + 1] == UnitTick(us[2], ins[2]) && us[3 + 1] == UnitTick(us[3], ins[3]);
  }
}
