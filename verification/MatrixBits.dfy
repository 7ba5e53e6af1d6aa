// One row of the key matrix as a bit word, one bit per column.
module MatrixBits {
  type Row = bv32

  const WIDTH: nat := 32

  function Twice(m: Row): Row { m << 1 }

  function Half(x: Row): Row { x >> 1 }

  // The loop's col_mask at column c.
  function Mask(c: nat): Row {
    if c == 0 then 1 else Twice(Mask(c - 1))
  }

  predicate Hits(x: Row, m: Row) { x & m != 0 }

  function Xor(x: Row, y: Row): Row { x ^ y }

  // The key in column c is down.
  predicate Down(x: Row, c: nat) { Hits(x, Mask(c)) }

  predicate Single(m: Row) { m != 0 && m & (m - 1) == 0 }

  lemma SingleShift(m: Row)
    requires Single(m) && m != 0x8000_0000
    ensures Single(Twice(m)) && Twice(m) > m
  {
  }

  lemma SinglesApart(m: Row, n: Row)
    requires Single(m) && Single(n) && m != n
    ensures !Hits(m, n)
  {
  }

  lemma HitsSelf(m: Row)
    requires Single(m)
    ensures Hits(m, m)
  {
    SelfMask(m);
  }

  lemma SelfMask(m: Row)
    ensures m & m == m
  {
  }

  lemma AllOrNothing(x: Row, m: Row)
    requires Single(m)
    ensures x & m == 0 || x & m == m
  {
  }

  lemma XorWords(x: Row, y: Row, m: Row)
    ensures (x ^ y) & m == (x & m) ^ (y & m)
    ensures m ^ m == 0 && m ^ 0 == m && 0 ^ m == m
  {
  }

  lemma HitsXor(x: Row, y: Row, m: Row)
    requires Single(m)
    ensures Hits(Xor(x, y), m) <==> Hits(x, m) != Hits(y, m)
  {
    AllOrNothing(x, m);
    AllOrNothing(y, m);
    XorWords(x, y, m);
  }

  lemma XorZero(x: Row, y: Row)
    ensures Xor(x, y) == 0 <==> x == y
  {
  }

  lemma HitsShift(x: Row, m: Row)
    requires Hits(Half(x), m)
    ensures Hits(x, Twice(m)) && m != 0x8000_0000
  {
  }

  lemma TopMask()
    ensures Mask(31) == 0x8000_0000
  {
    assert Mask(4) == 0x10 && Mask(8) == 0x100 && Mask(12) == 0x1000 && Mask(16) == 0x1_0000;
    assert Mask(20) == 0x10_0000 && Mask(24) == 0x100_0000 && Mask(28) == 0x1000_0000;
  }

  lemma {:induction false} ShiftedOut(c: nat, d: nat)
    requires c <= d && Mask(c) == 0
    ensures Mask(d) == 0
  {
    if c < d {
      ShiftedOut(c, d - 1);
    }
  }

  lemma NotYetTop(c: nat)
    requires c < 31
    ensures Mask(c) != 0x8000_0000
  {
    TopMask();
    if Mask(c + 1) == 0 {
      ShiftedOut(c + 1, 31);
    }
  }

  lemma {:induction false} MaskSingle(c: nat)
    requires c < WIDTH
    ensures Single(Mask(c))
  {
    if c > 0 {
      MaskSingle(c - 1);
      NotYetTop(c - 1);
      SingleShift(Mask(c - 1));
    }
  }

  lemma {:induction false} MasksGrow(c: nat, d: nat)
    requires c < d < WIDTH
    ensures Mask(c) < Mask(d)
  {
    MaskSingle(d - 1);
    NotYetTop(d - 1);
    SingleShift(Mask(d - 1));
    if c < d - 1 {
      MasksGrow(c, d - 1);
    }
  }

  lemma MasksApart(c: nat, d: nat)
    requires c < WIDTH && d < WIDTH && c != d
    ensures !Down(Mask(c), d)
  {
    hide Hits;
    if c < d { MasksGrow(c, d); } else { MasksGrow(d, c); }
    MaskSingle(c);
    MaskSingle(d);
    SinglesApart(Mask(c), Mask(d));
  }

  // Exclusive or, read column by column.
  lemma XorDown(x: Row, y: Row, c: nat)
    requires c < WIDTH
    ensures Down(Xor(x, y), c) <==> Down(x, c) != Down(y, c)
  {
    hide Hits, Xor, Mask;
    MaskSingle(c);
    HitsXor(x, y, Mask(c));
  }

  // Toggling one column leaves the others alone.
  lemma FlipDown(x: Row, c: nat, d: nat)
    requires c < WIDTH && d < WIDTH
    ensures Down(Xor(x, Mask(c)), d) <==> if d == c then !Down(x, d) else Down(x, d)
  {
    hide Hits, Xor, Mask;
    XorDown(x, Mask(c), d);
    MaskSingle(c);
    HitsSelf(Mask(c));
    if c != d { MasksApart(c, d); }
  }

  lemma ShiftSmaller(x: Row)
    requires x != 0 && !Hits(x, 1)
    ensures Half(x) < x && Half(x) != 0
  {
  }

  // A non-zero row has a key down.
  lemma {:induction false} SomeDown(x: Row) returns (c: nat)
    requires x != 0
    ensures c < WIDTH && Down(x, c)
    decreases x
  {
    hide Hits, Half, Twice;
    c := 0;
    if !Hits(x, 1) {
      ShiftSmaller(x);
      var d := SomeDown(Half(x));
      HitsShift(x, Mask(d));
      TopMask();
      c := d + 1;
    }
  }

  lemma SameRow(x: Row, y: Row)
    requires forall c :: 0 <= c < WIDTH ==> (Down(x, c) <==> Down(y, c))
    ensures x == y
  {
    hide Hits, Xor, Down;
    XorZero(x, y);
    if Xor(x, y) != 0 {
      var c := SomeDown(Xor(x, y));
      XorDown(x, y, c);
    }
  }

  function Common(x: Row, y: Row): Row { x & y }

  lemma CommonHits(x: Row, y: Row, m: Row)
    ensures Hits(Common(x, y), m) ==> Hits(x, m) && Hits(y, m)
  {
  }

  // The lowest key of a row, and the row without it.
  function Lowest(x: Row): Row { Common(x, 0 - x) }

  function Rest(x: Row): Row { Common(x - 1, x) }

  lemma LowestSingle(x: Row)
    requires x != 0
    ensures Single(Lowest(x))
  {
  }

  lemma RestNonZero(x: Row)
    ensures Rest(x) != 0 ==> x != 0
  {
  }

  lemma LowestHits(x: Row, m: Row)
    ensures Hits(Lowest(x), m) ==> Hits(x, m)
    ensures Hits(Rest(x), m) ==> Hits(x, m)
  {
    hide Common, Hits;
    CommonHits(x, 0 - x, m);
    CommonHits(x - 1, x, m);
  }

  lemma RestMisses(x: Row)
    ensures !Hits(Rest(x), Lowest(x))
  {
  }

  lemma TwoBits(x: Row, m: Row, n: Row)
    requires Single(m) && Single(n) && m != n && Hits(x, m) && Hits(x, n)
    ensures Rest(x) != 0
  {
  }

  // At least two keys of the row are down.
  ghost predicate TwoKeys(x: Row) {
    exists c, d :: 0 <= c < d < WIDTH && Down(x, c) && Down(x, d)
  }

  // ((row - 1) & row) != 0 says exactly that.
  lemma TwoDown(x: Row)
    ensures Rest(x) != 0 <==> TwoKeys(x)
  {
    hide Hits, Lowest, Rest, Mask, Single;
    if Rest(x) != 0 {
      RestNonZero(x);
      LowestSingle(x);
      SingleNonZero(Lowest(x));
      var c := SomeDown(Lowest(x));
      var d := SomeDown(Rest(x));
      LowestHits(x, Mask(c));
      LowestHits(x, Mask(d));
      MaskSingle(c);
      RestMisses(x);
      if Mask(c) != Lowest(x) { SinglesApart(Lowest(x), Mask(c)); }
      assert c != d;
      var lo, hi := if c < d then c else d, if c < d then d else c;
      assert Down(x, lo) && Down(x, hi);
    }
    if TwoKeys(x) {
      var c, d :| 0 <= c < d < WIDTH && Down(x, c) && Down(x, d);
      MaskSingle(c);
      MaskSingle(d);
      MasksGrow(c, d);
      TwoBits(x, Mask(c), Mask(d));
    }
  }

  lemma SingleNonZero(m: Row)
    requires Single(m)
    ensures m != 0
  {
  }
}
