// Small facts about products, quotients and remainders.
module Arithmetic {
  lemma SmallMultiple(d: int, m: int)
    requires m > 0
    ensures d >= 1 ==> d * m >= m
    ensures d <= -1 ==> d * m <= -m
  {
  }

  lemma ModUnique(x: int, m: int, q: int, r: int)
    requires m > 0 && x == q * m + r && 0 <= r < m
    ensures x % m == r
  {
    var q', r' := x / m, x % m;
    assert x == q' * m + r';
    assert (q - q') * m == r' - r;
    SmallMultiple(q - q', m);
  }

  function RoundedDown(x: int, m: int): int
    requires m > 0
  {
    x / m * m
  }

  lemma RoundedDownBounds(x: int, m: int)
    requires m > 0
    ensures RoundedDown(x, m) <= x < RoundedDown(x, m) + m
    ensures RoundedDown(x, m) % m == 0
  {
    ModUnique(x / m * m, m, x / m, 0);
  }

  lemma RoundedDownOf8(x: int, m: int)
    requires m > 0 && m % 8 == 0
    ensures RoundedDown(x, m) % 8 == 0
  {
    MultipleOf8(x / m, m);
  }

  lemma MultipleOf8(q: int, m: int)
    requires m % 8 == 0
    ensures q * m % 8 == 0
  {
    var k := m / 8;
    assert m == 8 * k;
    assert q * m == (q * k) * 8;
    ModUnique(q * m, 8, q * k, 0);
  }

  lemma EightsDoNotMatter(x: int, k: int)
    ensures (x + 8 * k) % 8 == x % 8
  {
  }

  // Between multiples of 8 there is room for 8 or none.
  lemma NextMultipleOf8(r: int, p: int, m: int)
    requires r % 8 == 0 && p % 8 == 0 && m % 8 == 0 && r < p + m
    ensures r <= p + m - 8
  {
  }
}
