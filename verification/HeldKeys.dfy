// What a held key puts into the keyboard report, and how a collection of held
// keys covers a key list or a modifier byte.
module HeldKeys {
  import opened KeyList
  import opened KeyEvents
  import opened ModBits

  // Every bit of x comes from one of the sources.
  ghost predicate CoversBits(src: map<KeyPos, bv8>, x: bv8) {
    forall b :: SingleBit(b) && Has(x, b) ==> exists p :: p in src && Has(src[p], b)
  }

  // Every key of the list comes from one of the sources.
  ghost predicate CoversKeys(src: map<KeyPos, Code>, keys: seq<Code>) {
    forall c :: c in keys ==> exists p :: p in src && src[p] == c
  }

  lemma PressCoversBits(src: map<KeyPos, bv8>, x: bv8, p: KeyPos, m: bv8)
    requires CoversBits(src, x) && p !in src
    ensures CoversBits(src[p := m], Join(x, m))
  {
    hide Has, SingleBit, Join, Without;
    var src' := src[p := m];
    forall b | SingleBit(b) && Has(Join(x, m), b)
      ensures exists q :: q in src' && Has(src'[q], b)
    {
      HasJoin(x, m, b);
      if Has(m, b) {
        assert Has(src'[p], b);
      } else {
        var q :| q in src && Has(src[q], b);
        assert Has(src'[q], b);
      }
    }
  }

  lemma ReleaseCoversBits(src: map<KeyPos, bv8>, x: bv8, p: KeyPos)
    requires CoversBits(src, x) && p in src
    ensures CoversBits(src - {p}, Without(x, src[p]))
  {
    hide Has, SingleBit, Join, Without;
    var src' := src - {p};
    forall b | SingleBit(b) && Has(Without(x, src[p]), b)
      ensures exists q :: q in src' && Has(src'[q], b)
    {
      HasWithout(x, src[p], b);
      var q :| q in src && Has(src[q], b);
      assert q in src' && src'[q] == src[q];
    }
  }

  lemma PressCoversKeys(src: map<KeyPos, Code>, keys: seq<Code>, p: KeyPos, c: Code, cap: nat)
    requires CoversKeys(src, keys) && p !in src && cap > 0
    ensures CoversKeys(src[p := c], Add(keys, c, cap)) && CoversKeys(src[p := c], keys)
  {
    var src' := src[p := c];
    forall k | k in Add(keys, c, cap) || k in keys
      ensures exists q :: q in src' && src'[q] == k
    {
      if k == c {
        assert src'[p] == k;
      } else {
        assert k in keys;
        var q :| q in src && src[q] == k;
        assert src'[q] == k;
      }
    }
  }

  lemma ReleaseCoversKeys(src: map<KeyPos, Code>, keys: seq<Code>, p: KeyPos)
    requires CoversKeys(src, keys) && p in src
    ensures CoversKeys(src - {p}, Del(keys, src[p]))
  {
    hide Del;
    var src' := src - {p};
    DelMembers(keys, src[p]);
    forall k | k in Del(keys, src[p])
      ensures exists q :: q in src' && src'[q] == k
    {
      var q :| q in src && src[q] == k;
      assert q in src' && src'[q] == src[q];
    }
  }

  lemma NothingHeld(src: map<KeyPos, bv8>, x: bv8)
    requires CoversBits(src, x) && src == map[]
    ensures x == 0
  {
    if x != 0 {
      SomeBit(x);
    }
  }

  lemma NoKeyHeld(src: map<KeyPos, Code>, keys: seq<Code>)
    requires CoversKeys(src, keys) && src == map[]
    ensures keys == []
  {
    var k := if keys == [] then NO_KEY else keys[0];
    assert keys == [] || k in keys;
    assert forall p :: p !in src;
    assert k !in keys;
  }

  // Exactness: the sources have no bit in common and x is their union.
  ghost predicate ExactBits(src: map<KeyPos, bv8>, x: bv8) {
    && CoversBits(src, x)
    && (forall p :: p in src ==> Inside(src[p], x))
    && (forall p, q :: p in src && q in src && p != q ==> Apart(src[p], src[q]))
  }

  lemma PressExactBits(src: map<KeyPos, bv8>, x: bv8, p: KeyPos, m: bv8)
    requires ExactBits(src, x) && p !in src && Apart(x, m)
    ensures ExactBits(src[p := m], Join(x, m))
  {
    hide Inside, Apart, CoversBits, Join, Without;
    PressCoversBits(src, x, p, m);
    forall q | q in src
      ensures Inside(src[q], Join(x, m)) && Apart(src[q], m) && Apart(m, src[q])
    {
      InsideJoin(src[q], x, m);
    }
    InsideJoin(m, x, m);
  }

  lemma ReleaseExactBits(src: map<KeyPos, bv8>, x: bv8, p: KeyPos)
    requires ExactBits(src, x) && p in src
    ensures ExactBits(src - {p}, Without(x, src[p]))
  {
    hide Inside, Apart, CoversBits, Join, Without;
    ReleaseCoversBits(src, x, p);
    forall q | q in src && q != p
      ensures Inside(src[q], Without(x, src[p]))
    {
      InsideWithout(src[q], x, src[p]);
    }
  }

  // The key list holds every source's key once; sources with key 0 have none.
  ghost predicate ExactKeys(src: map<KeyPos, Code>, keys: seq<Code>) {
    && CoversKeys(src, keys)
    && (forall p :: p in src && src[p] != NO_KEY ==> src[p] in keys)
    && (forall p, q :: p in src && q in src && p != q && src[p] != NO_KEY ==> src[p] != src[q])
  }

  lemma PressExactKeys(src: map<KeyPos, Code>, keys: seq<Code>, p: KeyPos, c: Code, cap: nat)
    requires ExactKeys(src, keys) && p !in src && c !in keys && |keys| < cap
    ensures c != NO_KEY ==> ExactKeys(src[p := c], Add(keys, c, cap))
    ensures c == NO_KEY ==> ExactKeys(src[p := c], keys)
  {
    PressCoversKeys(src, keys, p, c, cap);
  }

  lemma ReleaseExactKeys(src: map<KeyPos, Code>, keys: seq<Code>, p: KeyPos)
    requires ExactKeys(src, keys) && p in src
    ensures src[p] != NO_KEY ==> ExactKeys(src - {p}, Del(keys, src[p]))
    ensures src[p] == NO_KEY && NO_KEY !in keys ==> ExactKeys(src - {p}, keys)
  {
    hide Del;
    ReleaseCoversKeys(src, keys, p);
    DelMembers(keys, src[p]);
    if NO_KEY !in keys && src[p] == NO_KEY {
      DelAbsent(keys, NO_KEY);
    }
  }
}
