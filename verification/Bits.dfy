// Powers of two and the position of the highest set bit.
module Bits {
  function Pow2(n: nat): (r: nat)
    ensures r > 0
  {
    if n == 0 then 1 else 2 * Pow2(n - 1)
  }

  // Bits::Log2FloorNonZero and Bits::Log2FloorNonZero64.
  function Log2Floor(n: nat): (r: nat)
    requires n > 0
  {
    if n == 1 then 0 else 1 + Log2Floor(n / 2)
  }

  lemma {:induction false} LogBrackets(n: nat)
    requires n > 0
    ensures Pow2(Log2Floor(n)) <= n < Pow2(Log2Floor(n) + 1)
  {
    if n > 1 {
      LogBrackets(n / 2);
    }
  }

  lemma {:induction false} SmallLog(v: nat, k: nat)
    requires 0 < v < Pow2(k)
    ensures Log2Floor(v) < k
    decreases k
  {
    if v > 1 {
      SmallLog(v / 2, k - 1);
    }
  }

  lemma {:induction false} LargeLog(v: nat, k: nat)
    requires Pow2(k) <= v
    ensures Log2Floor(v) >= k
    decreases k
  {
    if k > 0 {
      LargeLog(v / 2, k - 1);
    }
  }

  lemma {:induction false} PowersGrow(i: nat, j: nat)
    requires i <= j
    ensures Pow2(i) <= Pow2(j)
    ensures Pow2(j) >= j + 1
    decreases j
  {
    if i < j {
      PowersGrow(i, j - 1);
    } else if j > 0 {
      PowersGrow(i - 1, j - 1);
    }
  }

  lemma LogIs(v: nat, k: nat)
    requires Pow2(k) <= v < Pow2(k + 1)
    ensures Log2Floor(v) == k
  {
    LargeLog(v, k);
    SmallLog(v, k + 1);
  }

  lemma {:induction false} PowersAdd(i: nat, j: nat)
    ensures Pow2(i + j) == Pow2(i) * Pow2(j)
  {
    if i > 0 {
      PowersAdd(i - 1, j);
    }
  }

  lemma SmallPowers()
    ensures Pow2(0) == 1 && Pow2(1) == 2 && Pow2(3) == 8 && Pow2(4) == 16 && Pow2(5) == 32
  {
    assert Pow2(2) == 4 && Pow2(3) == 8 && Pow2(4) == 16;
  }

  lemma PowerOf64()
    ensures Pow2(64) == 0x1_0000_0000_0000_0000
  {
    SmallPowers();
    hide Pow2;
    PowersAdd(4, 4);
    PowersAdd(8, 8);
    PowersAdd(16, 16);
    PowersAdd(32, 32);
  }
}
