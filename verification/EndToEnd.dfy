// From key events to the report: what a run of the tap/hold machine leaves in
// the report of the action layer it drives.
module EndToEnd {
  import opened KeyEvents
  import opened KeyList
  import KeyboardState
  import opened ModBits
  import opened ActionCode
  import opened Actions
  import opened HeldKeys
  import opened StuckKeys
  import opened Tapping
  import opened TappingLedger
  import opened KeyOrder
  import opened KeyPairs
  import opened PairedRuns
  import opened Wired
  import opened HostReports

  // No action outlives its key by design.
  ghost predicate Undoes(km: Keymap) {
    forall l: nat, key: KeyPos :: Releases(km(l, key))
  }

  lemma ResolvesOn(km: Keymap, w: World, e: Event) returns (l: nat)
    requires Real(e)
    ensures Resolve(km, w, e).1 == km(l, e.key)
    ensures Resolve(km, w, e).0 == if e.pressed then w.(pressedOn := w.pressedOn[e.key := l]) else w
    ensures e.pressed ==> PressedOn(Resolve(km, w, e).0, e.key) == l
    ensures !e.pressed ==> PressedOn(w, e.key) == l
  {
    l := if e.pressed then CurrentLayer(km, Active(w.layers, w.defaults), e.key) else PressedOn(w, e.key);
  }

  lemma ResolvedUndoes(km: Keymap, w: World, e: Event)
    requires Undoes(km) && Real(e)
    ensures Releases(Resolve(km, w, e).1)
  {
    hide Resolve, Releases;
    var l := ResolvesOn(km, w, e);
    assert Releases(km(l, e.key));
  }

  // Wired together, the machine's record of a cancelled tap is the action
  // layer's.
  lemma CancelIs(km: Keymap, w: World, term: nat, log: seq<Call>, r: Record)
    requires Real(r.event)
    ensures Cancels(Wire(km, w, term), log, r) <==> CancelsTap(Resolve(km, Replay(km, w, log), r.event).1, r)
  {
    hide Resolve, Perform, Replay, IsModsTapKind;
  }

  // The keys a history of calls leaves down, with the actions of their presses.
  function HeldBy(km: Keymap, w: World, log: seq<Call>): map<KeyPos, Held> {
    if log == [] then map[]
    else
      var front, call := log[..|log| - 1], log[|log| - 1];
      match call
      case Process(r, _, _) => HeldAfter(km, Replay(km, w, front), HeldBy(km, w, front), Key(r))
      case Lookup(_) => HeldBy(km, w, front)
      case Overflow(_) => map[]
  }

  // Held keys and the mode of the machine's log agree.
  ghost predicate InStep(log: seq<Call>, held: map<KeyPos, Held>) {
    forall key ::
      && (key in held <==> ModeOf(log, key).Down?)
      && (key in held ==> held[key].tapped == ModeOf(log, key).tapped)
      && (key in held && ModeOf(log, key).again ==> IsModsTapKind(held[key].action) && !held[key].tapped)
  }

  ghost predicate Good(km: Keymap, w: World, held: map<KeyPos, Held>) {
    Tracked(km, w, held) && Covered(w.kb, held) && NO_KEY !in w.kb.keys && w.kb.cap > 0
  }

  // A key that is down is pressed again with a share that holds the old one.
  lemma AgainCovers(kb: KeyboardState.Kbd, held: map<KeyPos, Held>, p: KeyPos, h: Held)
    requires Covered(kb, held) && p in held && NO_KEY !in kb.keys
    requires ShareOf(held[p]).key == NO_KEY && ShareOf(held[p]).weak == 0
    requires Inside(ShareOf(held[p]).mods, ShareOf(h).mods)
    ensures Covered(Pressed(kb, ShareOf(h)), held[p := h])
  {
    hide ShareOf, CoversKeys, CoversBits, Inside, Add, Join;
    SharesAdded(held, p, h);
    NothingInside(ShareOf(h).weak);
    JoinMore(WeakOf(held), kb.weakMods, p, ShareOf(h).weak);
    JoinMore(RealOf(held), kb.realMods, p, ShareOf(h).mods);
    AddMore(KeysOf(held), kb.keys, p, ShareOf(h).key, kb.cap);
  }

  lemma NothingInside(m: bv8)
    ensures Inside(0, m)
  {
  }

  lemma JoinMore(src: map<KeyPos, bv8>, x: bv8, p: KeyPos, m: bv8)
    requires CoversBits(src, x) && p in src && Inside(src[p], m)
    ensures CoversBits(src[p := m], Join(x, m))
  {
    hide Has, SingleBit, Join, Inside;
    var src' := src[p := m];
    forall b | SingleBit(b) && Has(Join(x, m), b)
      ensures exists q :: q in src' && Has(src'[q], b)
    {
      HasJoin(x, m, b);
      if Has(m, b) {
        assert Has(src'[p], b);
      } else {
        var q :| q in src && Has(src[q], b);
        HasInside(src[p], m, b);
        assert Has(src'[q], b);
      }
    }
  }

  lemma HasInside(a: bv8, m: bv8, b: bv8)
    requires Inside(a, m)
    ensures Has(a, b) ==> Has(m, b)
  {
  }

  lemma AddMembers(keys: seq<Code>, c: Code, cap: nat, k: Code)
    requires cap > 0
    ensures k in Add(keys, c, cap) ==> k == c || k in keys
  {
  }

  lemma AddMore(src: map<KeyPos, Code>, keys: seq<Code>, p: KeyPos, c: Code, cap: nat)
    requires CoversKeys(src, keys) && p in src && src[p] == NO_KEY && NO_KEY !in keys && cap > 0
    ensures CoversKeys(src[p := c], Add(keys, c, cap)) && CoversKeys(src[p := c], keys)
  {
    var src' := src[p := c];
    forall k | k in Add(keys, c, cap) || k in keys
      ensures exists q :: q in src' && src'[q] == k
    {
      if k == c {
        assert src'[p] == k;
      } else {
        AddMembers(keys, c, cap, k);
        assert k in keys;
        var q :| q in src && src[q] == k;
        assert q in src' && src'[q] == k;
      }
    }
  }

  // Taking more out of the report leaves it covered.
  lemma LessCovers(kb: KeyboardState.Kbd, held: map<KeyPos, Held>, s: Share)
    requires Covered(kb, held)
    ensures Covered(Released(kb, s), held)
  {
    hide ShareOf, CoversBits, KeysOf, WeakOf, RealOf;
    DelMembers(kb.keys, s.key);
    LessBits(WeakOf(held), kb.weakMods, s.weak);
    LessBits(RealOf(held), kb.realMods, s.mods);
  }

  lemma LessBits(src: map<KeyPos, bv8>, x: bv8, m: bv8)
    requires CoversBits(src, x)
    ensures CoversBits(src, Without(x, m))
  {
    hide Has, SingleBit, Without;
    forall b | SingleBit(b) && Has(Without(x, m), b)
      ensures exists q :: q in src && Has(src[q], b)
    {
      HasWithout(x, m, b);
    }
  }

  lemma SameCovered(a: KeyboardState.Kbd, b: KeyboardState.Kbd, held: map<KeyPos, Held>)
    requires SameHeld(a, b) && Covered(b, held)
    ensures Covered(a, held)
  {
    hide KeysOf, WeakOf, RealOf, CoversKeys, CoversBits;
  }

  // ----- One call -----

  // The first press, or the release of a key that is down.
  lemma PairedCall(km: Keymap, w: World, held: map<KeyPos, Held>, r: Record)
    requires Undoes(km) && Good(km, w, held) && Real(r.event)
    requires if r.event.pressed then r.event.key !in held
             else r.event.key in held && held[r.event.key].tapped == (r.tap.count > 0)
    ensures Good(km, ProcessAction(km, w, r).0, HeldAfter(km, w, held, Key(r)))
  {
    hide Undoes, Tracked, Covered, ProcessAction, Resolve, Releases;
    ResolvedUndoes(km, w, r.event);
    StepTracks(km, w, held, Key(r));
    StepCovers(km, w, held, Key(r));
    StaysLiveAll(km, w, r);
  }

  lemma StaysLiveAll(km: Keymap, w: World, r: Record)
    requires Real(r.event)
    ensures StaysLive(w.kb, ProcessAction(km, w, r).0.kb)
  {
    hide Perform;
    PerformKeepsPresses(Resolve(km, w, r.event).0, Resolve(km, w, r.event).1, r);
  }

  // A key that is down already, by a cancelled tap, is pressed as an action that
  // holds its modifiers.
  predicate HandsOver(km: Keymap, w: World, held: map<KeyPos, Held>, r: Record) {
    r.event.pressed && r.event.key in held ==>
      var a := Resolve(km, w, r.event).1;
      Inside(ShareOf(held[r.event.key]).mods, ShareOf(Held(a, CountsAsTap(a, r))).mods)
  }

  lemma AgainCall(km: Keymap, w: World, held: map<KeyPos, Held>, r: Record)
    requires Undoes(km) && Good(km, w, held) && Real(r.event) && r.event.pressed && r.event.key in held
    requires IsModsTapKind(held[r.event.key].action) && !held[r.event.key].tapped && HandsOver(km, w, held, r)
    ensures Good(km, ProcessAction(km, w, r).0, HeldAfter(km, w, held, Key(r)))
  {
    hide Undoes, Perform, Releases, Covered, ShareOf, CurrentLayer, IsModsTapKind, CountsAsTap, Inside;
    var key := r.event.key;
    ResolvedUndoes(km, w, r.event);
    var l := ResolvesOn(km, w, r.event);
    var (w', a) := Resolve(km, w, r.event);
    var h := Held(a, CountsAsTap(a, r));
    PerformEffect(w', a, r, h);
    PerformKeepsPresses(w', a, r);
    HoldShareIs(held[key]);
    AgainCovers(w.kb, held, key, h);
    SameCovered(Perform(w', a, r).kb, Pressed(w.kb, ShareOf(h)), held[key := h]);
  }

  lemma HoldShareIs(h: Held)
    requires IsModsTapKind(h.action) && !h.tapped
    ensures ShareOf(h) == Share(NO_KEY, 0, Mods(h.action))
  {
    hide Mods;
  }

  // The modifiers of a cancelled tap come out with its key's release exactly if
  // the action the key is processed as the second time holds them.
  lemma SecondTimeIff(km: Keymap, w: World, p: Record, u: Record, m: bv8)
    requires Undoes(km) && Real(p.event) && Real(u.event) && p.event.key == u.event.key
    requires p.event.pressed && !u.event.pressed && Inside(m, w.kb.realMods)
    requires var a := Resolve(km, w, p.event).1; (u.tap.count > 0) == CountsAsTap(a, p)
    ensures var a := Resolve(km, w, p.event).1;
      var w' := ProcessAction(km, ProcessAction(km, w, p).0, u).0;
      Apart(m, w'.kb.realMods) <==> Inside(m, ShareOf(Held(a, CountsAsTap(a, p))).mods)
  {
    hide Undoes, Perform, Releases, ShareOf, CurrentLayer, CountsAsTap, Inside, Apart, Pressed, Released;
    ResolvedUndoes(km, w, p.event);
    var l := ResolvesOn(km, w, p.event);
    var (w1, a) := Resolve(km, w, p.event);
    var h := Held(a, CountsAsTap(a, p));
    PerformEffect(w1, a, p, h);
    PerformKeepsPresses(w1, a, p);
    var w2 := Perform(w1, a, p);
    PerformEffect(w2, a, u, h);
    InsideOrApart(m, w.kb, ShareOf(h));
    RealAfter(w2.kb, Pressed(w.kb, ShareOf(h)), ShareOf(h));
  }

  lemma RealAfter(a: KeyboardState.Kbd, b: KeyboardState.Kbd, s: Share)
    requires SameHeld(a, b)
    ensures Released(a, s).realMods == Released(b, s).realMods
  {
  }

  lemma InsideOrApart(m: bv8, kb: KeyboardState.Kbd, s: Share)
    requires Inside(m, kb.realMods)
    ensures Apart(m, Released(Pressed(kb, s), s).realMods) <==> Inside(m, s.mods)
  {
    hide Add, Del;
    TakenOut(m, kb.realMods, s.mods);
  }

  lemma TakenOut(m: bv8, x: bv8, s: bv8)
    requires Inside(m, x)
    ensures Apart(m, Without(Join(x, s), s)) <==> Inside(m, s)
  {
  }

  // A release of a key that is up already.
  lemma SpareCall(km: Keymap, w: World, held: map<KeyPos, Held>, r: Record)
    requires Undoes(km) && Good(km, w, held) && Real(r.event) && !r.event.pressed && r.event.key !in held
    ensures Good(km, ProcessAction(km, w, r).0, held) && HeldAfter(km, w, held, Key(r)) == held
  {
    hide Undoes, Perform, Releases, Covered, ShareOf;
    ResolvedUndoes(km, w, r.event);
    var a := Resolve(km, w, r.event).1;
    var h := Held(a, r.tap.count > 0);
    PerformEffect(w, a, r, h);
    PerformKeepsPresses(w, a, r);
    LessCovers(w.kb, held, ShareOf(h));
    SameCovered(Perform(w, a, r).kb, Released(w.kb, ShareOf(h)), held);
    assert held - {r.event.key} == held;
  }

  // A lookup records the layer of a key that is up.
  lemma LookupCall(km: Keymap, w: World, held: map<KeyPos, Held>, e: Event)
    requires Good(km, w, held) && Real(e) && (e.pressed ==> e.key !in held)
    ensures Good(km, Resolve(km, w, e).0, held)
  {
    hide Covered, CurrentLayer, Active, Releases;
  }

  lemma OverflowCall(km: Keymap, w: World)
    requires w.kb.cap > 0
    ensures Good(km, w.(kb := ClearKeyboard(w.kb)), map[])
  {
    assert forall b :: !Has(0, b);
  }

  // ----- A whole history -----

  lemma ProcessStep(km: Keymap, w: World, term: nat, log: seq<Call>, held: map<KeyPos, Held>, call: Call)
    requires Undoes(km) && call.Process? && Allowed(Wire(km, w, term), log, call)
    requires var v := Replay(km, w, log); Good(km, v, held) && HandsOver(km, v, held, call.rec)
    requires InStep(log, held)
    ensures var v := Replay(km, w, log); var held' := HeldAfter(km, v, held, Key(call.rec));
      Good(km, ProcessAction(km, v, call.rec).0, held') && InStep(log + [call], held')
  {
    hide Undoes, Good, ModeOf, Resolve, ProcessAction, Cancels, Replay, Wire, HandsOver;
    var r, v := call.rec, Replay(km, w, log);
    var m := ModeOf(log, r.event.key);
    if r.event.pressed && m.Down? {
      AgainCall(km, v, held, r);
    } else if r.event.pressed || m.Down? {
      PairedCall(km, v, held, r);
    } else {
      SpareCall(km, v, held, r);
    }
    StepInStep(km, w, term, log, held, call);
  }

  lemma StepInStep(km: Keymap, w: World, term: nat, log: seq<Call>, held: map<KeyPos, Held>, call: Call)
    requires call.Process? && Allowed(Wire(km, w, term), log, call) && InStep(log, held)
    ensures InStep(log + [call], HeldAfter(km, Replay(km, w, log), held, Key(call.rec)))
  {
    hide ModeOf, Resolve, Cancels, Replay, Wire;
    CancelIs(km, w, term, log, call.rec);
    forall key
      ensures ModeOf(log + [call], key) == ModeAfter(ModeOf(log, key), call, key)
    {
      Snoc(Wire(km, w, term), log, call, key);
    }
  }

  lemma QuietInStep(c: Setup, log: seq<Call>, held: map<KeyPos, Held>, call: Call)
    requires InStep(log, held) && !call.Process?
    ensures InStep(log + [call], if call.Lookup? then held else map[])
  {
    hide ModeOf;
    forall key
      ensures ModeOf(log + [call], key) == ModeAfter(ModeOf(log, key), call, key)
    {
      Snoc(c, log, call, key);
    }
  }

  // Every cancelled tap is processed again as an action that holds its
  // modifiers.
  predicate AllHandedOver(km: Keymap, w: World, log: seq<Call>) {
    log == [] ||
    var front, call := log[..|log| - 1], log[|log| - 1];
    AllHandedOver(km, w, front)
    && (call.Process? ==> HandsOver(km, Replay(km, w, front), HeldBy(km, w, front), call.rec))
  }

  // After every orderly history of calls in which all cancelled taps are handed
  // over, the report holds nothing but shares of the keys that are down.
  lemma {:induction false} ReplayCovers(km: Keymap, w: World, term: nat, log: seq<Call>)
    requires Undoes(km) && Orderly(Wire(km, w, term), log) && Good(km, w, map[]) && AllHandedOver(km, w, log)
    ensures Good(km, Replay(km, w, log), HeldBy(km, w, log)) && InStep(log, HeldBy(km, w, log))
    decreases |log|
  {
    hide Undoes, Good, InStep, Resolve, ProcessAction, HeldAfter, Allowed, Wire, HandsOver;
    if log == [] {
      assert InStep([], map[]) by { StartInStep(); }
    } else {
      var front, call := log[..|log| - 1], log[|log| - 1];
      assert log == front + [call];
      var v, held := Replay(km, w, front), HeldBy(km, w, front);
      ReplayCovers(km, w, term, front);
      match call {
        case Process(r, _, _) => ProcessStep(km, w, term, front, held, call);
        case Lookup(e) =>
          LookupStep(km, v, Wire(km, w, term), front, held, e);
          QuietInStep(Wire(km, w, term), front, held, call);
        case Overflow(_) =>
          CapOf(km, v, held);
          OverflowCall(km, v);
          QuietInStep(Wire(km, w, term), front, held, call);
      }
    }
  }

  // A modifier-tap key has the same action on every layer.
  ghost predicate SameTaps(km: Keymap) {
    forall l: nat, m: nat, key: KeyPos :: IsModsTapKind(km(l, key)) ==> km(m, key) == km(l, key)
  }

  lemma SameHandsOver(km: Keymap, w: World, held: map<KeyPos, Held>, r: Record)
    requires Undoes(km) && SameTaps(km) && Tracked(km, w, held) && Real(r.event)
    requires r.event.pressed && r.event.key in held ==>
               IsModsTapKind(held[r.event.key].action) && !held[r.event.key].tapped
               && (r.tap.count == 0 || r.tap.interrupted)
    ensures HandsOver(km, w, held, r)
  {
    hide Undoes, CurrentLayer, ShareOf, Releases, Inside;
    if r.event.pressed && r.event.key in held {
      var h, a := held[r.event.key], Resolve(km, w, r.event).1;
      var l := ResolvesOn(km, w, r.event);
      ResolvedUndoes(km, w, r.event);
      assert a == km(l, r.event.key) == km(PressedOn(w, r.event.key), r.event.key) == h.action;
      StaysHold(a, r);
      InsideItself(ShareOf(h).mods);
    }
  }

  lemma StaysHold(a: Action, r: Record)
    requires IsModsTapKind(a) && Releases(a) && r.event.pressed && (r.tap.count == 0 || r.tap.interrupted)
    ensures !CountsAsTap(a, r)
  {
  }

  lemma InsideItself(m: bv8)
    ensures Inside(m, m)
  {
  }

  // With such a keymap all cancelled taps are handed over.
  lemma {:induction false} SameTapsHandOver(km: Keymap, w: World, term: nat, log: seq<Call>)
    requires Undoes(km) && SameTaps(km) && Orderly(Wire(km, w, term), log) && Good(km, w, map[])
    ensures AllHandedOver(km, w, log)
    decreases |log|
  {
    hide Undoes, SameTaps, Covered, ModeOf, Resolve, Wire, HandsOver, HeldBy, Replay, Releases, Cancels;
    if log != [] {
      var front, call := log[..|log| - 1], log[|log| - 1];
      SameTapsHandOver(km, w, term, front);
      ReplayCovers(km, w, term, front);
      if call.Process? {
        SameHandsOver(km, Replay(km, w, front), HeldBy(km, w, front), call.rec);
      }
    }
  }

  lemma StartInStep()
    ensures InStep([], map[])
  {
  }

  lemma CapOf(km: Keymap, w: World, held: map<KeyPos, Held>)
    requires Good(km, w, held)
    ensures w.kb.cap > 0
  {
  }

  lemma LookupStep(km: Keymap, v: World, c: Setup, log: seq<Call>, held: map<KeyPos, Held>, e: Event)
    requires Good(km, v, held) && InStep(log, held) && Allowed(c, log, Lookup(e))
    ensures Good(km, Resolve(km, v, e).0, held)
  {
    hide Good, ModeOf, Resolve;
    LookupCall(km, v, held, e);
  }

  // ----- From key events -----

  predicate RestsEmpty(kb: KeyboardState.Kbd) { kb.keys == [] && kb.weakMods == 0 && kb.realMods == 0 }

  // Presses and releases of each key alternate, a press first.
  ghost predicate KeysAlternate(es: seq<Event>) {
    forall key :: key != KeyPos(255, 255) ==> Alternates(Of(es, key))
  }

  // Every key pressed in the run has been released again.
  ghost predicate AllReleased(es: seq<Event>) {
    forall key :: key != KeyPos(255, 255) ==> |Of(es, key)| % 2 == 0
  }

  lemma SmoothFromIdle(c: Setup, es: seq<Event>)
    requires Inputs(es) && KeysAlternate(es) && Smooth(c, IDLE, es)
    ensures var s := Run(c, IDLE, es);
      Ready(c, s) && forall key :: key != KeyPos(255, 255) ==> Presented(s, key) == Of(es, key)
  {
    hide Ready, Run, Smooth, Presented, Of, Alternates;
    IdleReady(c);
    forall key | key != KeyPos(255, 255)
      ensures Presented(IDLE, key) + Of(es, key) == Of(es, key)
    {
      assert [] + Of(es, key) == Of(es, key);
    }
    SmoothRun(c, IDLE, es);
  }

  // The key is pending, or its last event given to the action layer is a press.
  predicate EndsDown(s: State, key: KeyPos) {
    var x := SettledOf(s.log, key);
    Pends(s.tk, key) || (x != [] && x[|x| - 1].pressed)
  }

  // A key the machine leaves down is pending again or has a press as the last
  // of its settled events.
  lemma DownMeans(c: Setup, s: State, key: KeyPos)
    requires Ready(c, s) && key != KeyPos(255, 255) && ModeOf(s.log, key).Down?
    ensures EndsDown(s, key)
  {
    hide Orderly, ModeOf, RecsOf, SettledOf, Presented, Alternates, ClockOk;
    if !ModeOf(s.log, key).again {
      LastIsPress(c, s.log, key);
    }
  }

  // No stuck keys, from key events to the key list: after every smooth run of
  // alternating presses and releases in which cancelled taps are handed over,
  // the list and the modifiers hold nothing but the shares of keys whose last
  // event given to the action layer is a press, and are empty when all keys are
  // released and nothing waits.  The host has been told just that.
  lemma NoKeyStaysDown(km: Keymap, w: World, term: nat, es: seq<Event>)
    requires Undoes(km) && w.kb.cap > 0 && RestsEmpty(w.kb)
    requires Inputs(es) && KeysAlternate(es) && Smooth(Wire(km, w, term), IDLE, es)
    requires AllHandedOver(km, w, Run(Wire(km, w, term), IDLE, es).log)
    ensures var s := Run(Wire(km, w, term), IDLE, es);
      var kb, held := Replay(km, w, s.log).kb, HeldBy(km, w, s.log);
      && Covered(kb, held)
      && (forall key :: key in held && key != KeyPos(255, 255) ==> EndsDown(s, key))
      && (AllReleased(es) && s.buf == [] && Pending(s) == [] ==> RestsEmpty(kb))
      && (Informed(w.kb, {}) ==>
            && kb.LastReport() == KeyboardState.Report(Join(kb.realMods, kb.weakMods), kb.keys)
            && (AllReleased(es) && s.buf == [] && Pending(s) == [] ==> kb.LastReport() == KeyboardState.Report(0, [])))
  {
    hide Undoes, Ready, Run, Smooth, Wire, Presented, Of, Replay, HeldBy, ModeOf, Covered, Alternates, SettledOf,
      AllHandedOver, Informed;
    var c := Wire(km, w, term);
    var s := Run(c, IDLE, es);
    SmoothFromIdle(c, es);
    InitialReport(km, w);
    ReadyOrderly(c, s);
    ReplayCovers(km, w, term, s.log);
    var kb, held := Replay(km, w, s.log).kb, HeldBy(km, w, s.log);
    forall key | key in held && key != KeyPos(255, 255)
      ensures EndsDown(s, key)
    {
      DownMeans(c, s, key);
    }
    if AllReleased(es) && s.buf == [] && Pending(s) == [] {
      forall key
        ensures key !in held
      {
        NotDown(c, s, es, key);
      }
      assert held == map[];
      EmptyReport(kb);
    }
    if Informed(w.kb, {}) {
      HostKnows(km, w, s.log);
    }
  }

  // Without one-shot keys the host has been told the keys and modifiers, and
  // nothing else.
  lemma HostKnows(km: Keymap, w: World, log: seq<Call>)
    requires Undoes(km) && Informed(w.kb, {})
    ensures var kb := Replay(km, w, log).kb;
      && kb.LastReport() == KeyboardState.Report(Join(kb.realMods, kb.weakMods), kb.keys)
      && (RestsEmpty(kb) ==> kb.LastReport() == KeyboardState.Report(0, []))
  {
    hide Replay, Informed;
    NoOneShots(km);
    ReplayInforms(km, w, log, {});
    InformedExactly(Replay(km, w, log).kb);
  }

  lemma NoOneShots(km: Keymap)
    requires Undoes(km)
    ensures OneShots(km, {})
  {
    hide Mods;
    forall l: nat, key: KeyPos
      ensures !(IsModsTapKind(km(l, key)) && KeyCode(km(l, key)) == MODS_ONESHOT)
    {
      assert Releases(km(l, key));
    }
  }

  lemma ReadyOrderly(c: Setup, s: State)
    requires Ready(c, s)
    ensures Orderly(c, s.log)
  {
  }

  // A key whose events are all settled, the last a release, is up.
  lemma NotDown(c: Setup, s: State, es: seq<Event>, key: KeyPos)
    requires Ready(c, s) && AllReleased(es) && s.buf == [] && Pending(s) == []
    requires key != KeyPos(255, 255) ==> Presented(s, key) == Of(es, key)
    ensures !ModeOf(s.log, key).Down?
  {
    hide Orderly, ModeOf, Of, Alternates, SettledOf;
    if key == KeyPos(255, 255) {
      NoModeOfTicks(c, s.log);
    } else {
      NoneOf(key);
      var x := SettledOf(s.log, key);
      assert Events(s.buf) == [];
      assert Presented(s, key) == x;
      if ModeOf(s.log, key).Down? {
        DownMeans(c, s, key);
        LastOdd(x);
      }
    }
  }

  lemma LastOdd(x: seq<Event>)
    requires Alternates(x) && x != [] && x[|x| - 1].pressed
    ensures |x| % 2 == 1
  {
  }

  lemma {:induction false} NoModeOfTicks(c: Setup, log: seq<Call>)
    requires Orderly(c, log)
    ensures ModeOf(log, KeyPos(255, 255)).Up?
    decreases |log|
  {
    if log != [] {
      NoModeOfTicks(c, log[..|log| - 1]);
    }
  }
}
