// The size classes of the arrays an arena keeps for reuse. List i holds
// blocks of at least 2^(i+4) bytes.
module SizeClasses {
  import opened Bits

  // Sizes are 64-bit.
  const SIZE_LIMIT: int := 0x1_0000_0000_0000_0000

  // The list a request looks in: its size is rounded up.
  function RequestIndex(size: nat): (i: nat)
    requires size >= 16
    ensures size <= Pow2(i + 4)
  {
    assert Pow2(3) == 8;
    LargeLog(size - 1, 3);
    LogBrackets(size - 1);
    Log2Floor(size - 1) - 3
  }

  // The list a returned array is filed under: its size is rounded down.
  function ReturnIndex(size: nat): (i: nat)
    requires size >= 16
    ensures Pow2(i + 4) <= size < Pow2(i + 5)
  {
    assert Pow2(2) == 4;
    LargeLog(size, 4);
    LogBrackets(size);
    Log2Floor(size) - 4
  }

  // A returned array that has no list becomes the new table of lists. It is
  // strictly longer than the table it replaces, and long enough to file
  // another array of its own size.
  lemma GrownTableFits(size: nat, length: nat)
    requires 16 <= size < SIZE_LIMIT
    requires ReturnIndex(size) >= length
    ensures length < size / 8
    ensures length < 64
    ensures ReturnIndex(size) < size / 8 && ReturnIndex(size) < 64
  {
    var i := ReturnIndex(size);
    PowersGrow(0, i + 1);
    PowersAdd(3, i + 1);
    SmallPowers();
    PowerOf64();
    if i >= 60 {
      PowersGrow(64, i + 4);
    }
  }

  // A request is never served from a list whose blocks could be too small.
  lemma ServedBlocksAreLargeEnough(request: nat, filed: nat)
    requires request >= 16 && filed >= 16
    requires RequestIndex(request) == ReturnIndex(filed)
    ensures request <= filed
  {
  }

  // The class of a request: more than one power of two, at most the next.
  lemma RequestIs(n: nat, i: nat)
    requires n >= 16 && Pow2(i + 3) < n <= Pow2(i + 4)
    ensures RequestIndex(n) == i
  {
    hide Pow2, Log2Floor;
    LogIs(n - 1, i + 3);
  }

  // A returned array can serve a later request for exactly its own size if
  // and only if that size is a power of two; for every other size the
  // request looks one list further up.
  lemma SameSizeReuse(size: nat)
    requires size >= 16
    ensures RequestIndex(size) == ReturnIndex(size) <==> exists k: nat :: size == Pow2(k)
    ensures RequestIndex(size) == ReturnIndex(size) || RequestIndex(size) == ReturnIndex(size) + 1
  {
    hide Pow2, Log2Floor;
    var i := ReturnIndex(size);
    PowersAdd(1, i + 3);
    SmallPowers();
    PowersGrow(i + 3, i + 4);
    if size == Pow2(i + 4) {
      LogIs(size - 1, i + 3);
    } else {
      LogIs(size - 1, i + 4);
      forall k: nat ensures size != Pow2(k) {
        if k <= i + 4 { PowersGrow(k, i + 4); } else { PowersGrow(i + 5, k); }
      }
    }
  }

  // Arrays of 8 + 2^k bytes, the sizes a growing repeated field asks for,
  // are filed one list below the one the field comment names, for all but
  // the smallest of them.
  lemma NaturalGrowthIsFiledBelow(k: nat)
    requires k >= 3
    ensures Pow2(k) >= 8
    ensures RequestIndex(8 + Pow2(k)) == k - 3
    ensures ReturnIndex(8 + Pow2(k)) == if k == 3 then 0 else k - 4
  {
    hide Pow2, Log2Floor;
    SmallPowers();
    PowersGrow(3, k);
    PowersAdd(1, k);
    if k == 3 {
      LogIs(15, 3);
      LogIs(16, 4);
    } else {
      PowersGrow(4, k);
      LogIs(8 + Pow2(k) - 1, k);
      LogIs(8 + Pow2(k), k);
    }
  }
}
