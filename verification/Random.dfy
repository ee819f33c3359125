/** The multiplicative generator behind skip list heights and read sampling (util/random.h). */
module Random {
  const M: nat := 0x7fff_ffff    // 2^31 - 1
  const A: nat := 16807

  /** A times INVERSE is 1 modulo M. */
  const INVERSE: nat := 1407677000

  predicate GoodSeed(s: int) {
    1 <= s <= M - 1
  }

  function Step(s: nat): nat {
    s * A % M
  }

  /** The number that call j from seed s on returns. */
  function Output(s: nat, j: nat): nat {
    Step(if j == 0 then s else Output(s, j - 1))
  }

  lemma ModuloIs(x: int, q: int, r: int)
    requires x == q * M + r && 0 <= r < M
    ensures x % M == r
  {
    var d := x / M - q;
    assert x == (x / M) * M + x % M;
    assert d * M == r - x % M;
  }

  /** Multiplying by the inverse leads back, so no good seed steps to 0 and no two seeds step to the same. */
  lemma StepBack(s: nat)
    requires GoodSeed(s)
    ensures GoodSeed(Step(s)) && Step(s) * INVERSE % M == s
  {
    var t := Step(s);
    var q := s * A / M;
    assert s * A == q * M + t;
    var k := 11017;
    assert A * INVERSE == k * M + 1;
    assert t * INVERSE == s * (A * INVERSE) - q * INVERSE * M;
    assert s * (A * INVERSE) == s * k * M + s;
    ModuloIs(t * INVERSE, s * k - q * INVERSE, s);
    assert t != 0;
  }

  lemma StepInjective(s: nat, t: nat)
    requires GoodSeed(s) && GoodSeed(t) && Step(s) == Step(t)
    ensures s == t
  {
    StepBack(s);
    StepBack(t);
  }

  class Random {
    var seed: nat

    ghost predicate Valid()
      reads this
    {
      GoodSeed(seed)
    }

    constructor (s: nat)
      requires s < 0x1_0000_0000
      ensures Valid()
      ensures var low := s % 0x8000_0000; seed == if low == 0 || low == M then 1 else low
    {
      seed := s % 0x8000_0000;
      if s % 0x8000_0000 == 0 || s % 0x8000_0000 == M {
        seed := 1;
      }
    }

    /** The remainder by shift and add; no intermediate leaves its machine word. */
    method Next() returns (r: nat)
      requires Valid()
      modifies this
      ensures Valid() && seed == r == Step(old(seed))
    {
      var product := seed * A;
      assert product < 0x1_0000_0000_0000_0000;
      var high, low := product / 0x8000_0000, product % 0x8000_0000;
      StepBack(seed);
      Folded(product, high, low);
      assert high + low < 0x1_0000_0000;
      seed := high + low;
      if seed > M {
        seed := seed - M;
      }
      r := seed;
    }
  }

  /** 2^31 is 1 modulo M. */
  lemma Folded(product: nat, high: nat, low: nat)
    requires product == high * 0x8000_0000 + low && low < 0x8000_0000 && high < A && product % M != 0
    ensures product % M == if high + low > M then high + low - M else high + low
  {
    assert product == high * M + (high + low);
    if high + low > M {
      ModuloIs(product, high + 1, high + low - M);
    } else if high + low < M {
      ModuloIs(product, high, high + low);
    } else {
      ModuloIs(product, high + 1, 0);
    }
  }
}
