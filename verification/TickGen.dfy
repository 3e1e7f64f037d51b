// uart_baud_tick_gen.v: a fractional phase accumulator.
module TickGen {

  // ----- The constant expressions of the module -----

  function Pow2(n: nat): (p: nat)
    ensures p > 0
  {
    if n == 0 then 1 else 2 * Pow2(n - 1)
  }

  lemma PowZero()
    ensures Pow2(0) == 1
  {
  }

  // The number of bits of v, as the elaboration-time function counts them.
  method Log2(v: nat) returns (k: nat)
    ensures v < Pow2(k)
    ensures k > 0 ==> Pow2(k - 1) <= v
  {
    k := 0;
    while v / Pow2(k) > 0
      invariant k > 0 ==> Pow2(k - 1) <= v
      decreases v - k
    {
      Pow2Grows(k);
      DivPositive(v, Pow2(k));
      k := k + 1;
    }
    DivZero(v, Pow2(k));
  }

  lemma DivPositive(v: nat, p: nat)
    requires p > 0 && v / p > 0
    ensures v >= p
  {
  }

  lemma DivZero(v: nat, p: nat)
    requires p > 0 && v / p == 0
    ensures v < p
  {
  }

  lemma Pow2Grows(k: nat)
    ensures Pow2(k) > k
  {
  }

  function Bits(v: nat): (k: nat)
    ensures v < Pow2(k) && (k > 0 ==> Pow2(k - 1) <= v)
  {
    if v == 0 then 0 else 1 + Bits(v / 2)
  }

  function AccWidth(clkFreq: nat, baud: nat): nat
    requires baud > 0
  {
    Bits(clkFreq / baud) + 8
  }

  // The increment, with the right shifts of the source as divisions.
  function Increment(clkFreq: nat, rate: nat, accWidth: nat, shiftLimiter: nat): int
    requires shiftLimiter <= accWidth && clkFreq / Pow2(shiftLimiter) > 0
  {
    (rate * Pow2(accWidth - shiftLimiter) + clkFreq / Pow2(shiftLimiter + 1)) / (clkFreq / Pow2(shiftLimiter))
  }

  const CLK_FREQ := 12000000
  const BAUD := 115200
  const OVERSAMPLING := 8

  // The accumulator of the instantiated modules and its increments for the transmitter
  // and for the oversampling receiver.
  const MODULUS := 32768
  const TX_INC := 315
  const RX_INC := 2517

  lemma Pow2Values()
    ensures Pow2(1) == 2 && Pow2(2) == 4 && Pow2(4) == 16 && Pow2(5) == 32 && Pow2(11) == 2048
    ensures Pow2(14) == 16384 && Pow2(15) == 32768 && Pow2(16) == 65536
  {
    assert Pow2(4) == 16;
    assert Pow2(8) == 256;
    assert Pow2(11) == 2048;
    assert Pow2(14) == 16384;
  }

  // At 12 MHz and 115200 baud: 15 accumulator bits, increments 315 and 2517, and no
  // intermediate value that leaves 31 bits.
  lemma InstantiatedConstants()
    ensures AccWidth(CLK_FREQ, BAUD) == 15 && Pow2(15) == MODULUS
    ensures Bits(BAUD / Pow2(31 - 15)) == 1 && Bits(BAUD * OVERSAMPLING / Pow2(31 - 15)) == 4
    ensures Pow2(1) == 2 && Pow2(4) == 16
    ensures Increment(CLK_FREQ, BAUD, 15, 1) == TX_INC
    ensures Increment(CLK_FREQ, BAUD * OVERSAMPLING, 15, 4) == RX_INC
    ensures BAUD * Pow2(15 - 1) + CLK_FREQ / Pow2(2) < 0x8000_0000
    ensures BAUD * OVERSAMPLING * Pow2(15 - 4) + CLK_FREQ / Pow2(5) < 0x8000_0000
  {
    Pow2Values();
    assert CLK_FREQ / BAUD == 104;
    assert Bits(104) == 1 + Bits(52) == 2 + Bits(26) == 3 + Bits(13);
    assert Bits(13) == 1 + Bits(6) == 2 + Bits(3) == 4;
    assert Bits(1) == 1;
    assert BAUD * OVERSAMPLING / 65536 == 14;
    assert Bits(14) == 1 + Bits(7) == 2 + Bits(3) == 4;
  }

  // ----- The accumulator -----

  // m is 2^w for w accumulator bits; the register has one more bit, the tick.
  predicate Tick(m: nat, acc: nat) {
    acc >= m
  }

  function Step(m: nat, inc: nat, acc: nat, enable: bool): nat
    requires m > 0
  {
    if enable then acc % m + inc else inc
  }

  class BaudTickGen {
    const m: nat
    const inc: nat
    var acc: nat

    ghost predicate Valid()
      reads this
    {
      0 < inc <= m && acc < 2 * m
    }

    constructor (m: nat, inc: nat)
      requires 0 < inc <= m
      ensures Valid() && this.m == m && this.inc == inc && acc == 0
    {
      this.m, this.inc, acc := m, inc, 0;
    }

    // The sum never needs more than the w + 1 bits of the register.
    method Edge(enable: bool)
      requires Valid()
      modifies this
      ensures Valid()
      ensures acc == Step(m, inc, old(acc), enable)
    {
      if enable {
        acc := acc % m + inc;
      } else {
        acc := inc;
      }
    }
  }

  // ----- Conservation -----

  // The accumulator after n enabled cycles from zero.
  function AccAfter(m: nat, inc: nat, n: nat): nat
    requires m > 0
  {
    if n == 0 then 0 else Step(m, inc, AccAfter(m, inc, n - 1), true)
  }

  // The ticks seen up to and including that state.
  function Ticks(m: nat, inc: nat, n: nat): nat
    requires m > 0
  {
    if n == 0 then 0
    else Ticks(m, inc, n - 1) + if Tick(m, AccAfter(m, inc, n)) then 1 else 0
  }

  lemma WrapOnce(m: nat, inc: nat, acc: nat)
    requires 0 < inc <= m && acc < 2 * m
    ensures acc % m == if Tick(m, acc) then acc - m else acc
  {
  }

  lemma MulSucc(a: int, b: int)
    ensures a * (b + 1) == a * b + a
    ensures (b + 1) * a == b * a + a
  {
  }

  lemma CancelLess(a: int, b: int, c: int)
    requires c > 0 && a * c < b * c
    ensures a < b
  {
  }

  // One cycle of the ledger: x is what has been added so far.
  lemma LedgerStep(m: nat, inc: nat, acc: nat, t: nat, x: int)
    requires 0 < inc <= m && m * t + acc % m == x
    ensures var acc' := acc % m + inc;
      acc' < m + inc && m * (if Tick(m, acc') then t + 1 else t) + acc' % m == x + inc
  {
    MulSucc(m, t);
    WrapOnce(m, inc, acc % m + inc);
  }

  // No phase is lost: every cycle adds inc, and every tick takes out m.
  lemma {:induction false} Conservation(m: nat, inc: nat, n: nat)
    requires 0 < inc <= m
    ensures AccAfter(m, inc, n) < m + inc
    ensures m * Ticks(m, inc, n) + AccAfter(m, inc, n) % m == n * inc
  {
    if n > 0 {
      Conservation(m, inc, n - 1);
      LedgerStep(m, inc, AccAfter(m, inc, n - 1), Ticks(m, inc, n - 1), (n - 1) * inc);
      MulSucc(inc, n - 1);
    }
  }

  // The ticks of n cycles are the ideal rate, rounded down.
  lemma TickRate(m: nat, inc: nat, n: nat)
    requires 0 < inc <= m
    ensures Ticks(m, inc, n) == n * inc / m
  {
    hide AccAfter, Ticks;
    Conservation(m, inc, n);
    QuotientIs(n * inc, m, Ticks(m, inc, n), AccAfter(m, inc, n) % m);
  }

  lemma QuotientIs(x: nat, m: nat, q: nat, r: nat)
    requires m > 0 && r < m && m * q + r == x
    ensures q == x / m
  {
    var d := x / m;
    assert x == d * m + x % m;
    assert x == q * m + r;
    MulSucc(m, d);
    MulSucc(m, q);
    CancelLess(q, d + 1, m);
    CancelLess(d, q + 1, m);
  }

  lemma DivDiv(x: nat, a: nat, m: nat)
    requires a > 0 && m > 0
    ensures a * m > 0 && x / a / m == x / (a * m)
  {
    var y, s := x / a, x % a;
    var q, r := y / m, y % m;
    Regroup(a, m, q, r);
    Product(a, r + 1, m);
    QuotientIs(x, a * m, q, a * r + s);
  }

  lemma Regroup(a: nat, m: nat, q: nat, r: nat)
    ensures a * (m * q + r) == a * m * q + a * r
  {
  }

  lemma Product(a: nat, r: nat, m: nat)
    requires a > 0 && 0 < r <= m
    ensures 0 < a * r <= a * m && a * r == a * (r - 1) + a
  {
  }

  lemma TickLeavesLittle(m: nat, inc: nat, k: nat)
    requires 0 < inc <= m && k > 0 && Tick(m, AccAfter(m, inc, k))
    ensures AccAfter(m, inc, k) % m < inc
  {
    hide AccAfter;
    Conservation(m, inc, k);
    WrapOnce(m, inc, AccAfter(m, inc, k));
  }

  // Two neighbouring ticks are m / inc cycles apart, rounded down or up.
  lemma TickGaps(m: nat, inc: nat, k: nat, k': nat)
    requires 0 < inc <= m && 0 < k < k'
    requires Tick(m, AccAfter(m, inc, k)) && Tick(m, AccAfter(m, inc, k'))
    requires Ticks(m, inc, k') == Ticks(m, inc, k) + 1
    ensures m / inc <= k' - k <= (m + inc - 1) / inc
  {
    hide AccAfter, Ticks;
    Conservation(m, inc, k);
    Conservation(m, inc, k');
    TickLeavesLittle(m, inc, k);
    TickLeavesLittle(m, inc, k');
    MulSucc(m, Ticks(m, inc, k));
    MulDifference(k', k, inc);
    GapBounds(m, inc, k' - k);
  }

  lemma MulDifference(a: int, b: int, c: int)
    ensures (a - b) * c == a * c - b * c
  {
  }

  lemma GapBounds(m: nat, inc: nat, d: nat)
    requires inc > 0 && m - inc < d * inc < m + inc
    ensures m / inc <= d <= (m + inc - 1) / inc
  {
    var q, u := m / inc, (m + inc - 1) / inc;
    assert m == q * inc + m % inc;
    assert m + inc - 1 == u * inc + (m + inc - 1) % inc;
    MulDifference(q, 1, inc);
    CancelLess(q - 1, d, inc);
    MulSucc(inc, u);
    CancelLess(d, u + 1, inc);
  }
}
