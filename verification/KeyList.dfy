// The ordered list of keys that the 6-key rollover report stands for, and the
// laws of the filter that extracts it from a row of report slots.
module KeyList {

  type Code = bv8

  const NO_KEY: Code := 0

  // The live keys of a row of slots, in order; 0 marks a free slot.
  function NonZero(s: seq<Code>): (r: seq<Code>)
    ensures |r| <= |s|
    ensures NO_KEY !in r
  {
    if s == [] then []
    else (if s[0] == NO_KEY then [] else [s[0]]) + NonZero(s[1..])
  }

  // The key list after pressing c with room for cap keys: already down is a
  // no-op, otherwise c goes last and the oldest key makes room if none is left.
  function Add(l: seq<Code>, c: Code, cap: nat): seq<Code>
    requires 0 < cap
  {
    if c in l then l
    else if |l| < cap then l + [c]
    else l[1..] + [c]
  }

  // The key list after releasing c.
  function Del(l: seq<Code>, c: Code): (r: seq<Code>)
    ensures c !in r
  {
    if l == [] then []
    else (if l[0] == c then [] else [l[0]]) + Del(l[1..], c)
  }

  ghost predicate Distinct(l: seq<Code>) {
    forall i, j :: 0 <= i < j < |l| ==> l[i] != l[j]
  }

  lemma ConcatAssoc(a: seq<Code>, b: seq<Code>, c: seq<Code>)
    ensures a + (b + c) == (a + b) + c
  {
  }

  lemma {:induction false} NonZeroConcat(a: seq<Code>, b: seq<Code>)
    ensures NonZero(a + b) == NonZero(a) + NonZero(b)
  {
    if a == [] {
      assert a + b == b;
    } else {
      NonZeroConcat(a[1..], b);
      assert (a + b)[1..] == a[1..] + b;
      ConcatAssoc(if a[0] == NO_KEY then [] else [a[0]], NonZero(a[1..]), NonZero(b));
    }
  }

  lemma {:induction false} NonZeroMembers(s: seq<Code>)
    ensures forall c :: c in NonZero(s) <==> c != NO_KEY && c in s
  {
    if s != [] {
      NonZeroMembers(s[1..]);
      assert s == [s[0]] + s[1..];
    }
  }

  lemma {:induction false} NonZeroOfZeros(s: seq<Code>)
    requires forall i :: 0 <= i < |s| ==> s[i] == NO_KEY
    ensures NonZero(s) == []
  {
    if s != [] {
      NonZeroOfZeros(s[1..]);
    }
  }

  lemma {:induction false} NonZeroOfLive(s: seq<Code>)
    requires NO_KEY !in s
    ensures NonZero(s) == s
  {
    if s != [] {
      NonZeroOfLive(s[1..]);
      assert s == [s[0]] + s[1..];
    }
  }

  lemma {:induction false} DelAbsent(l: seq<Code>, c: Code)
    requires c !in l
    ensures Del(l, c) == l
  {
    if l != [] {
      DelAbsent(l[1..], c);
      assert l == [l[0]] + l[1..];
    }
  }

  lemma {:induction false} DelConcat(a: seq<Code>, b: seq<Code>, c: Code)
    ensures Del(a + b, c) == Del(a, c) + Del(b, c)
  {
    if a == [] {
      assert a + b == b;
    } else {
      DelConcat(a[1..], b, c);
      assert (a + b)[1..] == a[1..] + b;
      ConcatAssoc(if a[0] == c then [] else [a[0]], Del(a[1..], c), Del(b, c));
    }
  }

  lemma {:induction false} DelMembers(l: seq<Code>, c: Code)
    ensures forall k :: k in Del(l, c) <==> k in l && k != c
    ensures |Del(l, c)| <= |l|
  {
    if l != [] {
      DelMembers(l[1..], c);
      assert l == [l[0]] + l[1..];
    }
  }

  lemma {:induction false} DelShrinks(l: seq<Code>, k: Code)
    requires k in l
    ensures |Del(l, k)| < |l|
  {
    if l[0] == k {
      DelMembers(l[1..], k);
    } else {
      assert l == [l[0]] + l[1..];
      DelShrinks(l[1..], k);
    }
  }

  lemma {:induction false} DelKeepsDistinct(l: seq<Code>, c: Code)
    requires Distinct(l)
    ensures Distinct(Del(l, c))
  {
    if l != [] {
      var rest := Del(l[1..], c);
      assert Distinct(l[1..]);
      DelKeepsDistinct(l[1..], c);
      DelMembers(l[1..], c);
      assert l[0] !in l[1..];
      assert forall j :: 0 <= j < |rest| ==> rest[j] in rest;
    }
  }

  lemma AddKeepsDistinct(l: seq<Code>, c: Code, cap: nat)
    requires Distinct(l) && 0 < cap
    ensures Distinct(Add(l, c, cap))
    ensures |l| <= cap ==> |Add(l, c, cap)| <= cap
  {
  }

  // Pressing a new key and releasing it restores the list exactly when the
  // press did not have to evict the oldest key.
  lemma {:induction false} AddDelRestores(l: seq<Code>, c: Code, cap: nat)
    requires c !in l && |l| <= cap && 0 < cap
    ensures Del(Add(l, c, cap), c) == if |l| < cap then l else l[1..]
  {
    var rest := if |l| < cap then l else l[1..];
    DelAbsent(rest, c);
    DelConcat(rest, [c], c);
    assert Del([c], c) == [];
  }

  // The list of a row split around one slot.
  lemma NonZeroSplit(r: seq<Code>, a: seq<Code>, x: Code, b: seq<Code>)
    requires r == a + [x] + b
    ensures NonZero(r) == NonZero(a) + (if x == NO_KEY then [] else [x]) + NonZero(b)
  {
    NonZeroConcat(a + [x], b);
    NonZeroConcat(a, [x]);
    assert NonZero([x]) == if x == NO_KEY then [] else [x];
  }

  lemma DistinctSplit(a: seq<Code>, x: Code, b: seq<Code>)
    requires Distinct(a + [x] + b)
    ensures x !in a && x !in b
  {
    var l := a + [x] + b;
    assert forall i :: 0 <= i < |a| ==> a[i] == l[i];
    assert forall i :: 0 <= i < |b| ==> b[i] == l[|a| + 1 + i];
    assert l[|a|] == x;
  }

  lemma DelSplit(a: seq<Code>, x: Code, b: seq<Code>)
    requires x !in a && x !in b
    ensures Del(a + [x] + b, x) == a + b
  {
    hide Del;
    DelConcat(a + [x], b, x);
    DelConcat(a, [x], x);
    DelOne(x);
    DelAbsent(a, x);
    DelAbsent(b, x);
  }

  lemma DelOne(x: Code)
    ensures Del([x], x) == []
  {
  }

  lemma NonZeroSnoc(s: seq<Code>, x: Code)
    ensures NonZero(s + [x]) == NonZero(s) + if x == NO_KEY then [] else [x]
  {
    NonZeroConcat(s, [x]);
  }
}
