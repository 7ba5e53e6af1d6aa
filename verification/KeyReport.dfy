// The keyboard report of action_util.c: a circular array of key slots that may
// contain holes, real, weak and one-shot modifier bytes, and the report sender.
module KeyReport {
  import opened KeyList
  import opened KeyboardState
  import opened ModBits
  import opened RingIndex

  // int8_t arithmetic, for values at most one wrap away.
  function Wrap8(n: int): (r: int)
    requires -384 <= n < 384
    ensures -128 <= r < 128 && (r == n || r == n - 256 || r == n + 256)
  {
    if n >= 128 then n - 256 else if n < -128 then n + 256 else n
  }

  // The two ways the sender puts the modifier byte together.
  lemma ModsByte(k: Kbd)
    ensures k.Mods() == Join(Join(k.realMods, k.weakMods), k.oneshotMods)
    ensures k.oneshotMods == 0 ==> k.Mods() == Join(k.realMods, k.weakMods)
  {
  }

  // A row of slots read in ring order, starting at slot h.
  function Rotate(s: seq<Code>, h: nat): (r: seq<Code>)
    requires h < |s|
    ensures |r| == |s|
    ensures forall k :: 0 <= k < |r| ==> r[k] == s[Slot(h, k, |s|)]
  {
    s[h..] + s[..h]
  }

  lemma RotateSet(s: seq<Code>, h: nat, k: nat, c: Code)
    requires h < |s| && k < |s|
    ensures Rotate(s[Slot(h, k, |s|) := c], h) == Rotate(s, h)[k := c]
  {
  }

  lemma RotateNext(s: seq<Code>, h: nat)
    requires h < |s|
    ensures Rotate(s, Inc(h, |s|)) == Rotate(s, h)[1..] + [s[h]]
  {
  }

  lemma RotateMembers(s: seq<Code>, h: nat)
    requires h < |s|
    ensures forall c :: c in Rotate(s, h) <==> c in s
  {
    assert s == s[..h] + s[h..];
  }

  lemma RotateCount(s: seq<Code>, h: nat)
    requires h < |s|
    ensures |NonZero(Rotate(s, h))| == |NonZero(s)|
  {
    hide NonZero;
    NonZeroConcat(s[..h], s[h..]);
    NonZeroConcat(s[h..], s[..h]);
    assert s == s[..h] + s[h..];
  }

  // Zeroing one live slot removes exactly its key from the list.
  lemma EraseSlot(r: seq<Code>, k: nat)
    requires k < |r| && r[k] != NO_KEY && Distinct(NonZero(r))
    ensures NonZero(r[k := NO_KEY]) == Del(NonZero(r), r[k])
    ensures |NonZero(r[k := NO_KEY])| == |NonZero(r)| - 1
  {
    hide NonZero, Del, Distinct;
    var a, b := r[..k], r[k + 1..];
    NonZeroSplit(r, a, r[k], b);
    NonZeroSplit(r[k := NO_KEY], a, NO_KEY, b);
    DistinctSplit(NonZero(a), r[k], NonZero(b));
    DelSplit(NonZero(a), r[k], NonZero(b));
  }

  // Moving a live slot down to the first hole keeps the list.
  lemma MoveSlot(r: seq<Code>, w: nat, k: nat)
    requires w < k < |r|
    requires forall i :: w <= i < k ==> r[i] == NO_KEY
    ensures NonZero(r[w := r[k]][k := NO_KEY]) == NonZero(r)
  {
    hide NonZero;
    var s := r[w := r[k]][k := NO_KEY];
    var a, b := r[..w], r[k + 1..];
    var gap, gap' := r[w..k], s[w + 1..k + 1];
    NonZeroOfZeros(gap);
    NonZeroOfZeros(gap');
    NonZeroSplit(r, a + gap, r[k], b);
    NonZeroConcat(a, gap);
    NonZeroSplit(s, a, r[k], gap' + b);
    NonZeroConcat(gap', b);
  }

  // Writing a key into a free slot that only free slots follow appends it.
  lemma AppendSlot(r: seq<Code>, k: nat, c: Code)
    requires k < |r| && c != NO_KEY
    requires forall i :: k <= i < |r| ==> r[i] == NO_KEY
    ensures NonZero(r[k := c]) == NonZero(r) + [c]
  {
    hide NonZero;
    NonZeroOfZeros(r[k..]);
    NonZeroOfZeros(r[k + 1..]);
    assert r == r[..k] + r[k..];
    NonZeroSplit(r[k := c], r[..k], c, r[k + 1..]);
    NonZeroConcat(r[..k], r[k..]);
  }

  // A row whose slots from a on are free has at most a live keys.
  lemma NonZeroShort(r: seq<Code>, a: nat)
    requires a <= |r|
    requires forall k :: a <= k < |r| ==> r[k] == NO_KEY
    ensures |NonZero(r)| <= a
  {
    hide NonZero;
    NonZeroOfZeros(r[a..]);
    NonZeroConcat(r[..a], r[a..]);
    assert r == r[..a] + r[a..];
  }

  // The first live key is the one behind the leading free slots.
  lemma FirstLive(r: seq<Code>, k: nat)
    requires k <= |r| && forall j :: 0 <= j < k ==> r[j] == NO_KEY
    ensures k < |r| && r[k] != NO_KEY ==> NonZero(r) != [] && NonZero(r)[0] == r[k]
    ensures (forall j :: k <= j < |r| ==> r[j] == NO_KEY) ==> NonZero(r) == []
  {
    hide NonZero;
    NonZeroOfZeros(r[..k]);
    if k < |r| && r[k] != NO_KEY {
      NonZeroSplit(r, r[..k], r[k], r[k + 1..]);
    } else if forall j :: k <= j < |r| ==> r[j] == NO_KEY {
      NonZeroOfZeros(r);
    }
  }

  // The only hole of a full arc is never its last slot.
  lemma HoleNotLast(r: seq<Code>, e: nat)
    requires 2 <= |r| && e < |r| && r[e] == NO_KEY
    requires forall k :: 0 <= k < e ==> r[k] != NO_KEY
    requires r[|r| - 1] == NO_KEY ==> NonZero(r) == []
    ensures e < |r| - 1
  {
    if e > 0 {
      AtLeast(r, 0);
    }
  }

  lemma AtLeast(r: seq<Code>, k: nat)
    requires k < |r| && r[k] != NO_KEY
    ensures |NonZero(r)| >= 1
  {
    NonZeroMembers(r);
    assert r[k] in r;
  }

  lemma AllFree(r: seq<Code>)
    requires NonZero(r) == []
    ensures forall k :: 0 <= k < |r| ==> r[k] == NO_KEY
  {
    NonZeroMembers(r);
    assert forall k :: 0 <= k < |r| ==> r[k] in r;
  }

  // Compaction under way: the first w slots are live, those from w up to k are
  // free and the slots from k on are still to be looked at.
  ghost predicate Packed(r: seq<Code>, live: seq<Code>, w: nat, k: nat) {
    && w < k <= |r|
    && (forall j :: 0 <= j < w ==> r[j] != NO_KEY)
    && (forall j :: w <= j < k ==> r[j] == NO_KEY)
    && NonZero(r) == live
  }

  lemma PackStart(r: seq<Code>, e: nat)
    requires e < |r| && r[e] == NO_KEY
    requires forall k :: 0 <= k < e ==> r[k] != NO_KEY
    ensures Packed(r, NonZero(r), e, e + 1)
  {
  }

  lemma PackStep(r: seq<Code>, live: seq<Code>, w: nat, k: nat)
    requires Packed(r, live, w, k) && k < |r|
    ensures r[k] == NO_KEY ==> Packed(r, live, w, k + 1)
    ensures r[k] != NO_KEY ==> Packed(r[w := r[k]][k := NO_KEY], live, w + 1, k + 1)
  {
    hide NonZero;
    if r[k] != NO_KEY {
      MoveSlot(r, w, k);
    }
  }

  lemma PackDone(r: seq<Code>, live: seq<Code>, w: nat)
    requires Packed(r, live, w, |r|)
    ensures NonZero(r) == live && |live| == w < |r|
    ensures forall j :: w <= j < |r| ==> r[j] == NO_KEY
  {
    hide NonZero;
    NonZeroOfLive(r[..w]);
    NonZeroOfZeros(r[w..]);
    NonZeroConcat(r[..w], r[w..]);
    assert r == r[..w] + r[w..];
  }

  // Overwriting the first of a full ring's slots.
  lemma FirstSlot(r: seq<Code>, c: Code)
    requires 2 <= |r| && c != NO_KEY && NonZero(r) != [] && Distinct(NonZero(r))
    ensures NonZero(r[0 := c]) == Add(NonZero(r), c, |r|) <==> r[0] == c
  {
    var l := NonZero(r);
    assert r == [r[0]] + r[1..] && r[0 := c] == [c] + r[1..];
    NonZeroConcat([r[0]], r[1..]);
    NonZeroConcat([c], r[1..]);
    NonZeroShort(r, |r|);
    if r[0] == c {
      assert c in l by { NonZeroMembers(r); }
    } else {
      assert NonZero(r[0 := c])[0] == c;
      if c in l {
        assert r[0] == NO_KEY ==> |NonZero(r[0 := c])| == |l| + 1;
      }
    }
  }

  lemma AppendIff(l: seq<Code>, c: Code, cap: nat)
    requires |l| < cap
    ensures l + [c] == Add(l, c, cap) <==> c !in l
  {
    assert |l + [c]| == |l| + 1;
  }

  lemma OneDistinct(c: Code)
    ensures Distinct([c])
  {
  }

  class KeyboardReport {
    const keys: array<Code>
    var head: nat
    var tail: nat
    var count: int
    // Keys that ClearKeys wiped without taking them off count, modulo 256.
    ghost var stale: nat

    var realMods: bv8
    var weakMods: bv8
    var oneshotMods: bv8
    ghost var sent: seq<Report>

    // The slots in ring order, starting at head.
    ghost function Ring(): (r: seq<Code>)
      requires head < keys.Length
      reads this`head, keys
      ensures |r| == keys.Length
    {
      Rotate(keys[..], head)
    }

    ghost function Live(): seq<Code>
      requires head < keys.Length
      reads this`head, keys
    {
      NonZero(Ring())
    }

    // Length of the arc from head up to tail; equal indices mean a full turn.
    ghost function Arc(): (l: nat)
      requires head < keys.Length && tail < keys.Length
      reads this`head, this`tail
      ensures 1 <= l <= keys.Length && tail == Slot(head, l, keys.Length)
    {
      if tail > head then tail - head else tail + keys.Length - head
    }

    // Slots outside the arc are free.
    ghost predicate Bounded()
      reads this`head, this`tail, keys
      ensures Bounded() ==> 2 <= keys.Length <= 127 && head < keys.Length && tail < keys.Length
    {
      && 2 <= keys.Length <= 127
      && head < keys.Length && tail < keys.Length
      && (forall k :: Arc() <= k < keys.Length ==> Ring()[k] == NO_KEY)
    }

    predicate InRange()
      reads this`head, this`tail
    {
      2 <= keys.Length && head < keys.Length && tail < keys.Length
    }

    // The last slot of the arc is live unless no slot is.
    ghost predicate Trimmed()
      requires Bounded()
      reads this`head, this`tail, keys
    {
      Live() == [] || Ring()[Arc() - 1] != NO_KEY
    }

    ghost predicate Valid()
      reads this`head, this`tail, this`count, this`stale, keys
      ensures Valid() ==> 2 <= keys.Length <= 127 && head < keys.Length && tail < keys.Length
    {
      && Bounded() && Trimmed()
      && Distinct(Live())
      && stale <= 255 && stale + |Live()| <= 256
      && count == Wrap8(|Live()| + stale)
    }

    // The count has not wrapped to 0 while keys are live.
    ghost predicate Counting()
      requires head < keys.Length
      reads this`head, this`count, keys
    {
      count != 0 || Live() == []
    }

    // The next press of this key comes out right.  With the count wrapped to 0
    // it goes into the slot at tail unseen: that is right exactly if the key is
    // new and the arc has room, or if the slot has it already.
    ghost predicate Lands(code: Code)
      requires InRange()
      reads this`head, this`tail, this`count, keys
    {
      Counting() || if tail == head then keys[tail] == code else code !in Live()
    }

    // The state this object stands for.
    ghost function State(): Kbd
      requires head < keys.Length
      reads this, keys
    {
      Kbd(keys.Length, Live(), realMods, weakMods, oneshotMods, sent)
    }

    constructor (slots: nat)
      requires 2 <= slots <= 127
      ensures Valid() && stale == 0 && fresh(keys)
      ensures State() == Kbd(slots, [], 0, 0, 0, [])
    {
      keys := new Code[slots](_ => NO_KEY);
      head, tail, count, stale := 0, 0, 0, 0;
      realMods, weakMods, oneshotMods, sent := 0, 0, 0, [];
      new;
      hide NonZero;
      NonZeroOfZeros(Ring());
    }

    lemma EmptyCount()
      requires Valid()
      ensures count == 0 <==> |Live()| + stale == 0 || |Live()| + stale == 256
      ensures Counting() <==> Live() == [] || |Live()| + stale < 256
      ensures stale == 0 && |Live()| < 128 ==> count == |Live()|
    {
    }

    // The key bytes of the wire report are exactly the live keys.
    lemma ReportKeys()
      requires Valid()
      ensures forall c :: c in Live() <==> c != NO_KEY && c in keys[..]
      ensures |Live()| <= keys.Length
    {
      hide NonZero, Del, Rotate;
      NonZeroMembers(Ring());
      RotateMembers(keys[..], head);
    }

    lemma RoomCounts()
      requires Valid() && stale + keys.Length <= 255
      ensures Counting()
    {
      hide NonZero, Rotate, Valid;
      ReportKeys();
      EmptyCount();
    }

    // Pushes the live slots of a full arc together, head first, and pulls tail
    // in behind them.  `hole` is the first hole, e slots from head.
    method Compact(hole: nat, ghost e: nat)
      requires 2 <= keys.Length && head < keys.Length && head == tail
      requires e < keys.Length && hole == Slot(head, e, keys.Length)
      requires Ring()[e] == NO_KEY && (Ring()[keys.Length - 1] == NO_KEY ==> Live() == [])
      requires forall k :: 0 <= k < e ==> Ring()[k] != NO_KEY
      modifies this`tail, keys
      ensures Live() == old(Live())
      ensures |Live()| < keys.Length && tail == Slot(head, |Live()|, keys.Length)
      ensures forall k :: |Live()| <= k < keys.Length ==> Ring()[k] == NO_KEY
    {
      hide NonZero, Del, Rotate, Packed, Slot, Inc, Sub;
      var n := keys.Length;
      ghost var r, live := Ring(), Live();
      HoleNotLast(r, e);
      PackStart(r, e);
      SlotSteps(head, e, n);
      var empty := hole;
      var offset := 1;
      var i := Inc(empty, n);
      ghost var w: nat, k: nat := e, e + 1;
      while true
        invariant tail == head && w < k < n
        invariant i == Slot(head, k, n) && empty == Slot(head, w, n) && offset == k - w
        invariant r == Ring() && Packed(r, live, w, k)
        decreases n - k
      {
        PackStep(r, live, w, k);
        SlotSteps(head, w, n);
        SlotSteps(head, k, n);
        RingAt(i, k);
        if keys[i] != NO_KEY {
          MoveDown(empty, i, w, k);
          r := r[w := r[k]][k := NO_KEY];
          empty := Inc(empty, n);
          w := w + 1;
        } else {
          offset := offset + 1;
        }
        i := Inc(i, n);
        k := k + 1;
        if k < n { SlotSteps(head, k, n); }
        if i == tail { break; }
      }
      PackDone(r, live, w);
      SlotSteps(head, w, n);
      tail := Sub(tail, offset, n);
    }

    lemma RingAt(i: nat, k: nat)
      requires head < keys.Length && k < keys.Length && i == Slot(head, k, keys.Length)
      ensures keys[i] == Ring()[k]
    {
    }

    // Moves the key in slot i, k slots from head, to slot hole.
    method MoveDown(hole: nat, i: nat, ghost w: nat, ghost k: nat)
      requires head < keys.Length && w < keys.Length && k < keys.Length && w != k
      requires hole == Slot(head, w, keys.Length) && i == Slot(head, k, keys.Length)
      modifies keys
      ensures Ring() == old(Ring())[w := old(Ring())[k]][k := NO_KEY]
    {
      hide NonZero, Rotate;
      RotateSet(keys[..], head, w, keys[i]);
      keys[hole] := keys[i];
      RotateSet(keys[..], head, k, NO_KEY);
      keys[i] := NO_KEY;
    }

    // Walks the arc looking for code; also reports the first hole, or -1.
    method Scan(code: Code) returns (found: bool, empty: int, ghost e: nat)
      requires head < keys.Length && tail < keys.Length && code != NO_KEY
      requires forall k :: Arc() <= k < keys.Length ==> Ring()[k] == NO_KEY
      ensures found <==> code in Ring()
      ensures !found && empty == -1 ==> forall j :: 0 <= j < Arc() ==> Ring()[j] != NO_KEY
      ensures !found && empty != -1 ==> e < Arc() && empty == Slot(head, e, keys.Length) && Ring()[e] == NO_KEY
      ensures !found && empty != -1 ==> forall j :: 0 <= j < e ==> Ring()[j] != NO_KEY
    {
      var n := keys.Length;
      ghost var r := Ring();
      found := false;
      empty, e := -1, 0;
      var i := head;
      ghost var k := 0;
      while true
        invariant 0 <= k < Arc() && i == Slot(head, k, n)
        invariant forall j :: 0 <= j < k ==> r[j] != code
        invariant empty == -1 ==> forall j :: 0 <= j < k ==> r[j] != NO_KEY
        invariant empty != -1 ==> e < k && empty == Slot(head, e, n) && r[e] == NO_KEY
        invariant empty != -1 ==> forall j :: 0 <= j < e ==> r[j] != NO_KEY
        decreases Arc() - k
      {
        assert keys[i] == r[k];
        if keys[i] == code {
          found := true;
          return;
        }
        if empty == -1 && keys[i] == NO_KEY {
          empty, e := i, k;
        }
        i := Inc(i, n);
        k := k + 1;
        if i == tail { break; }
      }
    }

    method AddKey(code: Code)
      requires Valid() && code != NO_KEY
      modifies this`head, this`tail, this`count, keys
      ensures InRange()
      ensures old(Counting()) ==> Valid()
      ensures State() == old(State()).AddKey(code) <==> old(Lands(code))
    {
      hide NonZero, Del, Rotate, Valid, Bounded, Trimmed, Distinct, Add;
      ValidIsBounded();
      if count != 0 {
        Insert(code);
      } else {
        if Live() == [] {
          AllFree(Ring());
        }
        AppendUnseen(code);
        JustOne(keys.Length, code);
      }
    }

    // add_key_byte while the count does not read 0.
    method Insert(code: Code)
      requires Valid() && code != NO_KEY && count != 0
      modifies this`head, this`tail, this`count, keys
      ensures Valid() && Live() == Add(old(Live()), code, keys.Length)
    {
      hide NonZero, Del, Rotate, Valid, Bounded, Trimmed, Distinct;
      NonZeroMembers(Ring());
      EmptyCount();
      Parts();
      var found, empty;
      ghost var e;
      found, empty, e := Scan(code);
      if found {
        return;
      }
      if tail == head {
        if empty == -1 {
          // pop head when there is no hole
          NonZeroOfLive(Ring());
          PopAndAppend(code);
          return;
        }
        Compact(empty, e);
        Append(code, |Live()|);
        return;
      }
      NonZeroShort(Ring(), Arc());
      Append(code, Arc());
    }

    // The last three lines of add_key_byte, straight after a count of 0.
    method AppendUnseen(code: Code)
      requires Valid() && code != NO_KEY && count == 0
      requires Live() == [] ==> forall k :: 0 <= k < keys.Length ==> Ring()[k] == NO_KEY
      modifies this`tail, this`count, keys
      ensures InRange()
      ensures old(Live()) == [] ==> Valid() && Live() == [code]
      ensures old(Live()) != [] ==>
                (Live() == Add(old(Live()), code, keys.Length) <==>
                 if old(tail) == head then old(keys[tail]) == code else code !in old(Live()))
    {
      hide NonZero, Add, Del, Rotate, Valid, Bounded, Trimmed, Distinct;
      Parts();
      EmptyCount();
      ghost var r := Ring();
      ghost var a := if tail == head then 0 else Arc();
      RotateSet(keys[..], head, a, code);
      if Live() == [] {
        AppendSlot(r, a, code);
      } else if tail == head {
        FirstSlot(r, code);
      } else {
        ReportKeys();
        NonZeroShort(r, a);
        AppendSlot(r, a, code);
        AppendIff(Live(), code, keys.Length);
      }
      OneDistinct(code);
      keys[tail] := code;
      assert Ring() == r[a := code];
      tail := Inc(tail, keys.Length);
      count := Wrap8(count + 1);
      if NonZero(r) == [] {
        assert [] + [code] == [code];
        TailAt(a + 1);
      }
    }

    // The full-ring case of AddKey: head moves on and the new key takes the
    // oldest key's slot.
    method PopAndAppend(code: Code)
      requires Valid() && code != NO_KEY && head == tail
      requires NO_KEY !in Ring() && code !in Ring()
      modifies this`head, this`tail, this`count, keys
      ensures Valid()
      ensures Live() == old(Live())[1..] + [code]
    {
      hide NonZero, Del, Rotate, Distinct, Valid, Bounded, Trimmed;
      Parts();
      ghost var was := Ring();
      AppendAfterPop(was, code);
      RotateSet(keys[..], head, 0, code);
      head := Inc(head, keys.Length);
      count := Wrap8(count - 1);
      keys[tail] := code;
      RotateNext(keys[..], tail);
      assert Ring() == was[1..] + [code];
      tail := Inc(tail, keys.Length);
      count := Wrap8(count + 1);
      TailAt(keys.Length);
    }

    // In a full ring without holes the new key takes the oldest key's slot.
    static lemma AppendAfterPop(r: seq<Code>, code: Code)
      requires r != [] && NO_KEY !in r && code != NO_KEY && Distinct(NonZero(r)) && code !in r
      ensures NonZero(r) == r
      ensures NonZero(r[1..] + [code]) == NonZero(r)[1..] + [code]
      ensures Distinct(NonZero(r[1..] + [code]))
    {
      hide NonZero;
      NonZeroOfLive(r);
      NonZeroOfLive(r[1..] + [code]);
      assert forall i :: 0 <= i < |r| - 1 ==> r[1..][i] == r[i + 1];
      assert forall i :: 0 <= i < |r| ==> r[i] in r;
    }

    // Stores code in the slot at tail, a slots from head; only free slots follow.
    method Append(code: Code, ghost a: nat)
      requires 2 <= keys.Length <= 127 && head < keys.Length
      requires a < keys.Length && tail == Slot(head, a, keys.Length)
      requires forall k :: a <= k < keys.Length ==> Ring()[k] == NO_KEY
      requires Distinct(Live()) && code != NO_KEY && code !in Live()
      requires stale + |Live()| <= 255 && count == Wrap8(|Live()| + stale)
      modifies this`tail, this`count, keys
      ensures Valid()
      ensures Live() == old(Live()) + [code]
    {
      hide NonZero, Del, Rotate, Valid, Bounded, Trimmed;
      ghost var r := Ring();
      AppendSlot(r, a, code);
      RotateSet(keys[..], head, a, code);
      keys[tail] := code;
      assert Ring() == r[a := code];
      tail := Inc(tail, keys.Length);
      count := Wrap8(count + 1);
      TailAt(a + 1);
    }

    // Moves tail back from a slots past head over free slots, at least one.
    method TrimTail(ghost a: nat) returns (ghost b: nat)
      requires 2 <= keys.Length && head < keys.Length
      requires 1 <= a <= keys.Length && tail == Slot(head, a, keys.Length)
      requires forall j :: a - 1 <= j < keys.Length ==> Ring()[j] == NO_KEY
      modifies this`tail
      ensures b < a && tail == Slot(head, b, keys.Length)
      ensures forall j :: b <= j < keys.Length ==> Ring()[j] == NO_KEY
      ensures b == 0 || Ring()[b - 1] != NO_KEY
    {
      hide NonZero, Rotate;
      var n := keys.Length;
      ghost var r := Ring();
      b := a;
      while true
        invariant 1 <= b <= a && tail == Slot(head, b, n)
        invariant forall j :: b - 1 <= j < n ==> r[j] == NO_KEY
        decreases b
      {
        tail := Sub(tail, 1, n);
        b := b - 1;
        if keys[Sub(tail, 1, n)] != NO_KEY { break; }
        if tail == head { break; }
      }
    }

    // What Valid says about the slots, the keys and the count.
    lemma Parts()
      requires Valid()
      ensures forall k :: Arc() <= k < keys.Length ==> Ring()[k] == NO_KEY
      ensures Live() == [] || Ring()[Arc() - 1] != NO_KEY
      ensures Distinct(Live()) && stale <= 255 && stale + |Live()| <= 256
      ensures count == Wrap8(|Live()| + stale)
    {
    }

    // How Valid follows from the position of tail, a slots past head.
    lemma TailAt(a: nat)
      requires 2 <= keys.Length <= 127 && head < keys.Length && a <= keys.Length
      requires tail == Slot(head, a, keys.Length)
      requires forall j :: a <= j < keys.Length ==> Ring()[j] == NO_KEY
      requires a == 0 || Ring()[a - 1] != NO_KEY
      requires Distinct(Live()) && stale <= 255 && stale + |Live()| <= 256
      requires count == Wrap8(|Live()| + stale)
      ensures Valid()
    {
      hide NonZero, Rotate;
      if a == 0 {
        NonZeroOfZeros(Ring());
      } else {
        assert Arc() == a;
      }
    }

    // While the count reads 0 a release does nothing.
    method DelKey(code: Code)
      requires Valid() && code != NO_KEY
      modifies this`head, this`tail, this`count, keys
      ensures Valid()
      ensures old(Counting()) ==> State() == old(State()).DelKey(code)
      ensures !old(Counting()) ==> State() == old(State())
      ensures State() == old(State()).DelKey(code) <==> old(Counting()) || code !in old(Live())
    {
      hide NonZero, Del, Rotate, Valid, Bounded, Trimmed, Distinct;
      Parts();
      var n := keys.Length;
      ghost var live := Live();
      NonZeroMembers(Ring());
      DelKeepsDistinct(live, code);
      if count == 0 {
        if code in live {
          DelShrinks(live, code);
        } else {
          DelAbsent(live, code);
        }
        return;
      }
      var i := head;
      ghost var k := 0;
      while true
        invariant 0 <= k < Arc() && i == Slot(head, k, n)
        invariant code !in Ring()[..k]
        decreases Arc() - k
      {
        assert keys[i] == Ring()[k];
        assert Ring()[..k + 1] == Ring()[..k] + [Ring()[k]];
        if keys[i] == code {
          Erase(i, k);
          return;
        }
        i := Inc(i, n);
        k := k + 1;
        if i == tail { break; }
      }
      assert Ring() == Ring()[..k] + Ring()[k..];
      DelAbsent(live, code);
    }

    // The found case of DelKey: slot i is the k-th of the arc.
    method Erase(i: nat, ghost k: nat)
      requires Valid() && k < Arc() && i == Slot(head, k, keys.Length) && keys[i] != NO_KEY
      modifies this`head, this`tail, this`count, keys
      ensures Valid()
      ensures Live() == Del(old(Live()), old(keys[i]))
    {
      hide NonZero, Del, Rotate, Distinct, Valid, Bounded, Trimmed;
      ghost var a := Vacate(i, k);
      if i == Sub(tail, 1, keys.Length) {
        a := TrimTail(a);
      } else if head == tail && Live() == [] {
        AllFree(Ring());
        a := 0;
      }
      TailAt(a);
    }

    // Frees slot i and takes its key off count; an empty ring starts over at
    // slot 0.
    method Vacate(i: nat, ghost k: nat) returns (ghost a: nat)
      requires Valid() && k < Arc() && i == Slot(head, k, keys.Length) && keys[i] != NO_KEY
      modifies this`head, this`tail, this`count, keys
      ensures head < keys.Length && 1 <= a <= keys.Length && tail == Slot(head, a, keys.Length)
      ensures forall j :: a <= j < keys.Length ==> Ring()[j] == NO_KEY
      ensures i == Sub(tail, 1, keys.Length) ==> Ring()[a - 1] == NO_KEY
      ensures i != Sub(tail, 1, keys.Length) ==> Ring()[a - 1] != NO_KEY || (head == tail && Live() == [])
      ensures Live() == Del(old(Live()), old(keys[i])) && Distinct(Live())
      ensures count == Wrap8(|Live()| + stale) && stale <= 255 && stale + |Live()| <= 256
    {
      hide NonZero, Del, Rotate, Distinct, Valid, Bounded, Trimmed;
      Parts();
      ghost var r := Ring();
      a := Arc();
      EraseSlot(r, k);
      DelKeepsDistinct(NonZero(r), r[k]);
      AtLeast(r, k);
      RotateSet(keys[..], head, k, NO_KEY);
      keys[i] := NO_KEY;
      assert Ring() == r[k := NO_KEY];
      count := Wrap8(count - 1);
      if count == 0 {
        ResetEmpty();
        tail, head := 0, 0;
        a := keys.Length;
        NonZeroOfZeros(Ring());
      }
    }

    // Once nothing is live the ring may start at any slot.
    lemma ResetEmpty()
      requires head < keys.Length && Live() == []
      ensures forall k :: 0 <= k < keys.Length ==> Rotate(keys[..], 0)[k] == NO_KEY
    {
      AllFree(Ring());
      RotateMembers(keys[..], head);
      RotateMembers(keys[..], 0);
      assert forall k :: 0 <= k < keys.Length ==> Rotate(keys[..], 0)[k] in Rotate(keys[..], 0);
    }

    // Frees every slot but leaves head, tail and count as they are.
    method ClearKeys()
      requires Bounded()
      modifies this`stale, keys
      ensures Bounded() && head == old(head)
      ensures State() == old(State()).ClearKeys()
      ensures stale == (old(stale) + |old(Live())|) % 256
      ensures old(Valid()) ==> Valid() && Counting()
    {
      hide NonZero, Del, Rotate;
      stale := (stale + |Live()|) % 256;
      var i := 0;
      while i < keys.Length
        invariant 0 <= i <= keys.Length
        invariant stale == (old(stale) + |old(Live())|) % 256
        invariant forall j :: 0 <= j < i ==> keys[j] == NO_KEY
      {
        keys[i] := NO_KEY;
        i := i + 1;
      }
      NonZeroOfZeros(Ring());
    }

    // The oldest live key, or 0.
    method GetFirstKey() returns (c: Code)
      requires Valid()
      ensures c == if Live() == [] then NO_KEY else Live()[0]
    {
      hide NonZero, Del, Rotate, Valid, Bounded, Trimmed, Distinct;
      Parts();
      var n := keys.Length;
      var i := head;
      ghost var k := 0;
      while true
        invariant 0 <= k < Arc() && i == Slot(head, k, n)
        invariant forall j :: 0 <= j < k ==> Ring()[j] == NO_KEY
        decreases Arc() - k
      {
        if keys[i] != NO_KEY { break; }
        i := Inc(i, n);
        k := k + 1;
        if i == tail { break; }
      }
      c := keys[i];
      FirstLive(Ring(), k);
    }

    // Number of live slots.
    method HasAnykey() returns (cnt: nat)
      requires head < keys.Length
      ensures cnt == |Live()|
    {
      hide NonZero, Del, Rotate;
      cnt := 0;
      var i := 0;
      while i < keys.Length
        invariant 0 <= i <= keys.Length
        invariant cnt == |NonZero(keys[..i])|
      {
        assert keys[..i + 1] == keys[..i] + [keys[i]];
        NonZeroSnoc(keys[..i], keys[i]);
        if keys[i] != NO_KEY {
          cnt := cnt + 1;
        }
        i := i + 1;
      }
      RotateCount(keys[..], head);
      assert keys[..keys.Length] == keys[..];
    }

    method SetOneshotMods(mods: bv8)
      requires Valid()
      modifies this`oneshotMods
      ensures Valid() && State() == old(State()).(oneshotMods := mods)
    {
      hide NonZero, Rotate, Valid;
      oneshotMods := mods;
    }

    method ClearOneshotMods()
      requires InRange()
      modifies this`oneshotMods
      ensures (old(Bounded()) ==> Bounded()) && (old(Valid()) ==> Valid()) && State() == old(State()).(oneshotMods := 0)
    {
      hide NonZero, Rotate, Valid, Bounded;
      oneshotMods := 0;
    }

    method SendKeyboardReport()
      requires InRange()
      modifies this`oneshotMods, this`sent
      ensures (old(Bounded()) ==> Bounded()) && (old(Valid()) ==> Valid())
      ensures State() == old(State()).Send()
    {
      hide NonZero, Rotate, Valid, Bounded, Kbd.Mods, Join;
      ModsByte(State());
      var mods := realMods;
      mods := Join(mods, weakMods);
      if oneshotMods != 0 {
        mods := Join(mods, oneshotMods);
        var any := HasAnykey();
        sent := sent + [Report(mods, Live())];
        if any != 0 {
          ClearOneshotMods();
        }
      } else {
        sent := sent + [Report(mods, Live())];
      }
    }

    method AddMods(mods: bv8)
      requires Valid()
      modifies this`realMods
      ensures Valid() && State() == old(State()).AddMods(mods)
    {
      hide NonZero, Rotate, Valid;
      realMods := realMods | mods;
    }

    method DelMods(mods: bv8)
      requires Valid()
      modifies this`realMods
      ensures Valid() && State() == old(State()).DelMods(mods)
    {
      hide NonZero, Rotate, Valid;
      realMods := realMods & !mods;
    }

    method SetMods(mods: bv8)
      requires Valid()
      modifies this`realMods
      ensures Valid() && State() == old(State()).(realMods := mods)
    {
      hide NonZero, Rotate, Valid;
      realMods := mods;
    }

    method AddWeakMods(mods: bv8)
      requires Valid()
      modifies this`weakMods
      ensures Valid() && State() == old(State()).AddWeakMods(mods)
    {
      hide NonZero, Rotate, Valid;
      weakMods := weakMods | mods;
    }

    method DelWeakMods(mods: bv8)
      requires Valid()
      modifies this`weakMods
      ensures Valid() && State() == old(State()).DelWeakMods(mods)
    {
      hide NonZero, Rotate, Valid;
      weakMods := weakMods & !mods;
    }

    method SetWeakMods(mods: bv8)
      requires Valid()
      modifies this`weakMods
      ensures Valid() && State() == old(State()).(weakMods := mods)
    {
      hide NonZero, Rotate, Valid;
      weakMods := mods;
    }

    // One update, where the count is right for it.
    method Do(op: Op)
      requires Valid() && KeyOp(op) && Counted(State(), stale, op)
      modifies this`head, this`tail, this`count, this`stale, this`realMods, this`weakMods,
        this`oneshotMods, this`sent, keys
      ensures Valid()
      ensures State() == Apply(old(State()), op)
      ensures stale == Owed(old(State()), old(stale), op)
    {
      hide NonZero, Rotate, Valid, Add, Del, Kbd.Mods;
      EmptyCount();
      match op
      case PressKey(c) => AddKey(c);
      case ReleaseKey(c) => DelKey(c);
      case DropKeys =>
        ValidIsBounded();
        ClearKeys();
      case SetReal(m) => SetMods(m);
      case SetWeak(m) => SetWeakMods(m);
      case SendReport =>
        ValidIsBounded();
        SendKeyboardReport();
    }

    // A run of updates is the run of the list they stand for, up to the first
    // press or release that finds the count wrapped to 0.
    method Execute(ops: seq<Op>) returns (n: nat)
      requires Valid() && forall i :: 0 <= i < |ops| ==> KeyOp(ops[i])
      modifies this`head, this`tail, this`count, this`stale, this`realMods, this`weakMods,
        this`oneshotMods, this`sent, keys
      ensures Valid() && n <= |ops| && State() == Run(old(State()), ops[..n])
      ensures n < |ops| ==> IsKeyOp(ops[n]) && !Counting()
      ensures AllCounted(old(State()), old(stale), ops) ==> n == |ops|
    {
      hide NonZero, Valid, State, Apply, Run, Counted, Owed, KeyOp, Counting, IsKeyOp;
      ghost var before, debt := State(), stale;
      assert ops[..0] == [] && ops[0..] == ops;
      RunNil(before);
      n := 0;
      while n < |ops|
        invariant n <= |ops| && Valid() && State() == Run(before, ops[..n])
        invariant AllCounted(before, debt, ops) ==> AllCounted(State(), stale, ops[n..])
      {
        assert ops[n..][0] == ops[n] && ops[n..][1..] == ops[n + 1..];
        CountedMeans(ops[n]);
        var wrapped := IsWrapped();
        if IsKeyOp(ops[n]) && wrapped { return; }
        assert ops[..n + 1] == ops[..n] + [ops[n]];
        RunSnoc(before, ops[..n], ops[n]);
        Do(ops[n]);
        n := n + 1;
      }
      assert ops[..|ops|] == ops;
    }

    // The count reads 0 with keys live.
    method IsWrapped() returns (b: bool)
      requires Valid()
      ensures b == !Counting()
    {
      var any := HasAnykey();
      b := count == 0 && any != 0;
    }

    lemma CountedMeans(op: Op)
      requires Valid()
      ensures Counted(State(), stale, op) <==> !IsKeyOp(op) || Counting()
    {
      hide Valid, NonZero, Rotate;
      EmptyCount();
    }

    lemma ValidIsBounded()
      requires Valid()
      ensures Bounded() && InRange()
    {
    }
  }

  predicate IsKeyOp(op: Op) { op.PressKey? || op.ReleaseKey? }

  predicate KeyOp(op: Op) {
    IsKeyOp(op) ==> op.c != NO_KEY
  }

  // What the count owes after an update, and when it is right for one.
  function Owed(k: Kbd, stale: nat, op: Op): nat {
    if op.DropKeys? then (stale + |k.keys|) % 256 else stale
  }

  predicate Counted(k: Kbd, stale: nat, op: Op) {
    IsKeyOp(op) ==> k.keys == [] || |k.keys| + stale < 256
  }

  predicate AllCounted(k: Kbd, stale: nat, ops: seq<Op>)
    decreases ops
  {
    ops == [] || (Counted(k, stale, ops[0]) && AllCounted(Apply(k, ops[0]), Owed(k, stale, ops[0]), ops[1..]))
  }

  // Without ClearKeys the count is always right.
  lemma {:induction false} NoDropsCounted(k: Kbd, ops: seq<Op>)
    requires k.Ok() && k.cap <= 127 && (forall i :: 0 <= i < |ops| ==> KeyOp(ops[i]) && !ops[i].DropKeys?)
    ensures AllCounted(k, 0, ops)
    decreases ops
  {
    hide Apply;
    if ops != [] {
      ApplyKeepsOk(k, ops[0]);
      NoDropsCounted(Apply(k, ops[0]), ops[1..]);
    }
  }

  lemma JustOne(slots: nat, code: Code)
    requires slots > 0
    ensures Add([], code, slots) == [code]
  {
  }

  // A key goes down and the keys are cleared: one more stays on the count.
  method WipeOne(report: KeyboardReport, code: Code)
    requires report.Valid() && report.stale < 255 && report.State().keys == [] && code != NO_KEY
    modifies report, report.keys
    ensures report.Valid() && report.State() == old(report.State()) && report.stale == old(report.stale) + 1
  {
    hide KeyboardReport.Valid, KeyboardReport.Live, KeyboardReport.Bounded, Add;
    JustOne(report.keys.Length, code);
    report.EmptyCount();
    report.AddKey(code);
    report.ValidIsBounded();
    report.ClearKeys();
  }

  // After 255 times clearing a report with a key down, the next key pressed
  // and released stays in the report.
  method LosesRelease(slots: nat, code: Code) returns (report: KeyboardReport)
    requires 2 <= slots <= 127 && code != NO_KEY
    ensures fresh(report) && fresh(report.keys) && report.Valid()
    ensures report.State() == Kbd(slots, [code], 0, 0, 0, [])
  {
    hide KeyboardReport.Valid, KeyboardReport.Live, Add, Del;
    JustOne(slots, code);
    report := new KeyboardReport(slots);
    for i := 0 to 255
      invariant fresh(report) && fresh(report.keys) && report.Valid() && report.stale == i
      invariant report.State() == Kbd(slots, [], 0, 0, 0, [])
    {
      WipeOne(report, code);
    }
    report.EmptyCount();
    report.AddKey(code);
    report.EmptyCount();
    report.DelKey(code);
  }

  lemma RunNil(k: Kbd)
    ensures Run(k, []) == k
  {
  }
}
