// Modifier bytes: union, removal and single bits.
module ModBits {
  function Join(x: bv8, y: bv8): bv8 { x | y }

  function Without(x: bv8, y: bv8): bv8 { x & !y }

  predicate SingleBit(b: bv8) {
    b == 1 || b == 2 || b == 4 || b == 8 || b == 16 || b == 32 || b == 64 || b == 128
  }

  predicate Has(m: bv8, b: bv8) { m & b != 0 }

  // a lies within x, or has nothing in common with it.
  predicate Inside(a: bv8, x: bv8) { a & !x == 0 }
  predicate Apart(a: bv8, b: bv8) { a & b == 0 }

  lemma JoinNothing(x: bv8)
    ensures Join(x, 0) == x && Without(x, 0) == x
  {
  }

  lemma HasJoin(x: bv8, y: bv8, b: bv8)
    ensures Has(Join(x, y), b) <==> Has(x, b) || Has(y, b)
  {
  }

  lemma HasWithout(x: bv8, y: bv8, b: bv8)
    requires SingleBit(b)
    ensures Has(Without(x, y), b) <==> Has(x, b) && !Has(y, b)
  {
  }

  lemma SomeBit(x: bv8)
    requires x != 0
    ensures exists b :: SingleBit(b) && Has(x, b)
  {
    assert Has(x, 1) || Has(x, 2) || Has(x, 4) || Has(x, 8)
           || Has(x, 16) || Has(x, 32) || Has(x, 64) || Has(x, 128);
    assert SingleBit(1) && SingleBit(2) && SingleBit(4) && SingleBit(8);
    assert SingleBit(16) && SingleBit(32) && SingleBit(64) && SingleBit(128);
  }

  lemma InsideJoin(a: bv8, x: bv8, m: bv8)
    ensures Inside(a, x) ==> Inside(a, Join(x, m))
    ensures Inside(m, Join(x, m))
    ensures Inside(a, x) && Apart(x, m) ==> Apart(a, m) && Apart(m, a)
  {
  }

  lemma InsideWithout(a: bv8, x: bv8, m: bv8)
    requires Inside(a, x) && Apart(a, m)
    ensures Inside(a, Without(x, m))
  {
  }

  lemma InsideWithoutIff(a: bv8, x: bv8, m: bv8)
    requires Inside(a, x)
    ensures Inside(a, Without(x, m)) <==> Apart(a, m)
  {
  }

  // Taking out what was put in restores the byte exactly when none of it was
  // there before.
  lemma JoinWithout(x: bv8, m: bv8)
    ensures Without(Join(x, m), m) == Without(x, m)
    ensures Without(x, m) == x <==> Apart(x, m)
  {
  }

  lemma WithoutLaws(x: bv8, m: bv8, n: bv8)
    ensures Without(Without(x, m), n) == Without(x, Join(m, n))
    ensures Without(Without(Join(x, m), n), m) == Without(x, Join(n, m))
  {
  }
}
