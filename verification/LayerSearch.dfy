// Which layer a press finds: the highest that is on in the layer word or in the
// default word and not transparent for the key.
module LayerSearch {
  import opened KeyEvents
  import opened ActionCode
  import opened Actions

  // Layer i is on by either word and has something for the key.
  predicate Offers(km: Keymap, layers: bv32, defaults: bv32, key: KeyPos, i: nat)
    requires i <= TOP_LAYER
  {
    (HasLayer(layers, i) || HasLayer(defaults, i)) && km(i, key) != ACTION_TRANSPARENT
  }

  predicate Finds(km: Keymap, layers: bv32, defaults: bv32, key: KeyPos, l: nat) {
    && l <= TOP_LAYER && (l == 0 || Offers(km, layers, defaults, key, l))
    && forall j :: l < j <= TOP_LAYER ==> !Offers(km, layers, defaults, key, j)
  }

  lemma EitherBit(x: bv32, y: bv32, b: bv32)
    ensures (x | y) & b != 0 <==> x & b != 0 || y & b != 0
  {
  }

  lemma HitActive(x: bv32, y: bv32, b: bv32)
    ensures Hit(Active(x, y), b) <==> Hit(x, b) || Hit(y, b)
  {
    hide Hit;
    assert Active(x, y) == x | y;
    HitOr(x, y, b);
  }

  lemma HitOr(x: bv32, y: bv32, b: bv32)
    ensures Hit(x | y, b) <==> Hit(x, b) || Hit(y, b)
  {
    EitherBit(x, y, b);
  }

  lemma EitherWord(layers: bv32, defaults: bv32, i: nat)
    requires i <= TOP_LAYER
    ensures HasLayer(Active(layers, defaults), i) <==> HasLayer(layers, i) || HasLayer(defaults, i)
  {
    hide Hit, Active, LayerBit;
    HitActive(layers, defaults, LayerBit(i));
  }

  // The search finds that layer and no other.
  lemma SearchFinds(km: Keymap, layers: bv32, defaults: bv32, key: KeyPos, l: nat)
    ensures Finds(km, layers, defaults, key, l) <==> l == CurrentLayer(km, Active(layers, defaults), key)
  {
    hide HasLayer, Active, CurrentLayer;
    var m := CurrentLayer(km, Active(layers, defaults), key);
    forall i: nat | i <= TOP_LAYER
      ensures Visible(km, Active(layers, defaults), key, i) <==> Offers(km, layers, defaults, key, i)
    {
      EitherWord(layers, defaults, i);
    }
    assert Finds(km, layers, defaults, key, m);
    if Finds(km, layers, defaults, key, l) {
      assert l <= m && m <= l;
    }
  }

  // A press resolves to the action of the layer found and notes that layer.
  lemma PressResolves(km: Keymap, w: World, e: Event, l: nat)
    requires Real(e) && e.pressed && Finds(km, w.layers, w.defaults, e.key, l)
    ensures Resolve(km, w, e) == (w.(pressedOn := w.pressedOn[e.key := l]), km(l, e.key))
  {
    hide Finds, Active, CurrentLayer;
    SearchFinds(km, w.layers, w.defaults, e.key, l);
  }

  // The bits of the layer words, one by one.
  lemma BitOfLayer(n: bv32, i: nat)
    requires n < 32 && i <= TOP_LAYER
    ensures HasLayer(BitOf(n), i) <==> i == n as nat
    ensures !HasLayer(0, i)
  {
  }

  lemma IsLayer(i: nat)
    requires i <= TOP_LAYER
    ensures BitOf(i as bv32) == LayerBit(i)
  {
  }

  lemma OnBit(x: bv32, n: bv32, b: bv32)
    requires n < 32
    ensures Hit(TurnOn(x, n), b) <==> Hit(x, b) || Hit(BitOf(n), b)
  {
    hide Hit, BitOf, Active, TurnOn;
    TurnOnJoins(x, n);
    HitActive(x, BitOf(n), b);
  }

  lemma TurnOnJoins(x: bv32, n: bv32)
    requires n < 32
    ensures TurnOn(x, n) == Active(x, BitOf(n))
  {
    hide BitOf;
  }

  // Switching a layer on changes that layer and no other.
  lemma SwitchesOne(x: bv32, n: bv32, i: nat)
    requires n < 32 && i <= TOP_LAYER
    ensures HasLayer(TurnOn(x, n), i) <==> i == n as nat || HasLayer(x, i)
  {
    hide Hit, LayerBit, TurnOn, BitOf;
    OnBit(x, n, LayerBit(i));
    BitOfLayer(n, i);
  }

  function Off(x: bv32, a: bv32): bv32 { x & !a }

  function Other(x: bv32, a: bv32): bv32 { x ^ a }

  lemma OffRaw(x: bv32, a: bv32, b: bv32)
    ensures a & b == 0 ==> (x & !a) & b == x & b
  {
  }

  lemma OffHit(x: bv32, a: bv32, b: bv32)
    ensures !Hit(a, b) ==> (Hit(x & !a, b) <==> Hit(x, b))
  {
    OffRaw(x, a, b);
  }

  lemma OffSame(x: bv32, b: bv32)
    ensures !Hit(Off(x, b), b)
  {
  }

  lemma OtherRaw(x: bv32, a: bv32, b: bv32)
    ensures (x ^ a) & b == (x & b) ^ (a & b)
    ensures (x & b) ^ 0 == x & b
  {
  }

  lemma OtherHit(x: bv32, a: bv32, b: bv32)
    ensures !Hit(a, b) ==> (Hit(x ^ a, b) <==> Hit(x, b))
  {
    OtherRaw(x, a, b);
  }

  lemma OffOne(x: bv32, a: bv32, b: bv32)
    ensures !Hit(a, b) ==> (Hit(Off(x, a), b) <==> Hit(x, b)) && (Hit(Other(x, a), b) <==> Hit(x, b))
    ensures !Hit(Off(x, b), b)
  {
    hide Hit;
    assert Off(x, a) == x & !a && Other(x, a) == x ^ a;
    OffHit(x, a, b);
    OtherHit(x, a, b);
    OffSame(x, b);
  }

  lemma OtherOne(x: bv32, n: bv32)
    requires n < 32
    ensures Hit(Other(x, BitOf(n)), BitOf(n)) <==> !Hit(x, BitOf(n))
  {
  }

  // Switching a layer off or over changes that layer and no other.
  lemma SwitchesOff(x: bv32, n: bv32, i: nat)
    requires n < 32 && i <= TOP_LAYER
    ensures HasLayer(TurnOff(x, n), i) <==> i != n as nat && HasLayer(x, i)
    ensures HasLayer(Invert(x, n), i) <==> (i == n as nat) != HasLayer(x, i)
  {
    hide Hit, LayerBit, Off, Other, BitOf;
    assert TurnOff(x, n) == Off(x, BitOf(n)) && Invert(x, n) == Other(x, BitOf(n)) by { OffIs(x, n); }
    OffOne(x, BitOf(n), LayerBit(i));
    BitOfLayer(n, i);
    IsLayer(i);
    OtherOne(x, n);
    hide TurnOff, Invert;
  }

  lemma OffIs(x: bv32, n: bv32)
    requires n < 32
    ensures TurnOff(x, n) == Off(x, BitOf(n)) && Invert(x, n) == Other(x, BitOf(n))
  {
    hide BitOf;
  }

  // ----- From action codes to the keys found -----

  // With only the n-th layer on, as the default or otherwise, keys come from it
  // where it has something for them and from layer 0 elsewhere.
  lemma OneLayer(km: Keymap, w: World, n: bv32, e: Event)
    requires n < 32 && Real(e) && e.pressed
    requires (w.layers == 0 && w.defaults == BitOf(n)) || (w.layers == BitOf(n) && w.defaults == 0)
    ensures Resolve(km, w, e).1 ==
            if km(n as nat, e.key) != ACTION_TRANSPARENT then km(n as nat, e.key) else km(0, e.key)
  {
    hide HasLayer, BitOf, Resolve;
    var l := if km(n as nat, e.key) != ACTION_TRANSPARENT then n as nat else 0;
    forall i: nat | i <= TOP_LAYER
      ensures Offers(km, w.layers, w.defaults, e.key, i) <==> i == n as nat && km(i, e.key) != ACTION_TRANSPARENT
    {
      BitOfLayer(n, i);
    }
    PressResolves(km, w, e, l);
  }

  // The release of ACTION_DEFAULT_LAYER_SET(n) with no layer on brings every key
  // to layer n.
  lemma DefaultSetResolves(km: Keymap, w: World, n: bv32, r: Record, e: Event)
    requires n < 32 && !r.event.pressed && w.layers == 0 && Real(e) && e.pressed
    ensures Resolve(km, Perform(w, DefaultLayerSet(n), r), e).1 ==
            if km(n as nat, e.key) != ACTION_TRANSPARENT then km(n as nat, e.key) else km(0, e.key)
  {
    hide Perform, Resolve, BitOf;
    DefaultLayerSetMeans(n, w, r);
    OneLayer(km, Perform(w, DefaultLayerSet(n), r), n, e);
  }

  // A layer switched on covers those below it and leaves those above it as they
  // are.
  lemma LayerOnCovers(km: Keymap, w: World, n: bv32, e: Event, l: nat)
    requires n < 32 && Real(e) && e.pressed && Finds(km, w.layers, w.defaults, e.key, l)
    ensures Resolve(km, w.(layers := TurnOn(w.layers, n)), e).1 ==
            if km(n as nat, e.key) != ACTION_TRANSPARENT && l < n as nat then km(n as nat, e.key) else km(l, e.key)
  {
    hide Resolve, HasLayer, Finds, TurnOn;
    FindsToo(km, w.layers, w.defaults, e.key, l, n);
    var l' := if km(n as nat, e.key) != ACTION_TRANSPARENT && l < n as nat then n as nat else l;
    PressResolves(km, w.(layers := TurnOn(w.layers, n)), e, l');
  }

  lemma FindsToo(km: Keymap, layers: bv32, defaults: bv32, key: KeyPos, l: nat, n: bv32)
    requires n < 32 && Finds(km, layers, defaults, key, l)
    ensures Finds(km, TurnOn(layers, n), defaults, key,
                  if km(n as nat, key) != ACTION_TRANSPARENT && l < n as nat then n as nat else l)
  {
    hide HasLayer, TurnOn;
    forall i: nat | i <= TOP_LAYER
      ensures Offers(km, TurnOn(layers, n), defaults, key, i) <==>
              Offers(km, layers, defaults, key, i) || (i == n as nat && km(i, key) != ACTION_TRANSPARENT)
    {
      SwitchesOne(layers, n, i);
    }
  }
}
