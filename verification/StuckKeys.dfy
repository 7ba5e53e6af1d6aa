// No stuck keys: over every run of paired presses and releases, with layers
// changing at any time, the report holds nothing but what held keys put there.
module StuckKeys {
  import opened KeyEvents
  import opened KeyList
  import opened KeyboardState
  import opened ActionCode
  import opened Actions
  import opened HeldKeys
  import opened ModBits

  // A held key: the action its press resolved to, and whether the press was a
  // tap, as opposed to a hold.
  datatype Held = Held(action: Action, tapped: bool)

  // What a held key keeps in the report.
  datatype Share = Share(key: Code, weak: bv8, mods: bv8)

  const NOTHING := Share(NO_KEY, 0, 0)

  function CodeShare(code: Code): Share {
    if IsKey(code) then Share(code, 0, 0)
    else if IsMod(code) then Share(NO_KEY, 0, ModBit(code))
    else NOTHING
  }

  function ShareOf(h: Held): Share {
    var a := h.action;
    if IsKeyKind(a) then CodeShare(KeyCode(a)).(weak := Mods(a))
    else if IsModsTapKind(a) then
      if h.tapped then CodeShare(KeyCode(a)) else Share(NO_KEY, 0, Mods(a))
    else if IsLayerTapKind(a) then
      if 0xc0 <= TapCode(a) <= 0xdf then Share(NO_KEY, 0, LayerMods(TapCode(a)))
      else if h.tapped && !(OP_TAP_TOGGLE <= TapCode(a) <= OP_SET_CLEAR) then CodeShare(TapCode(a))
      else NOTHING
    else NOTHING
  }

  // One-shot and toggling modifiers outlive their key by design.
  predicate Releases(a: Action) {
    IsModsTapKind(a) ==> KeyCode(a) != MODS_ONESHOT && KeyCode(a) != MODS_TAP_TOGGLE
  }

  // The press counts as a tap: an interrupted modifier tap is a hold.
  predicate CountsAsTap(a: Action, r: Record) {
    r.tap.count > 0 && !CancelsTap(a, r)
  }

  function Pressed(kb: Kbd, s: Share): Kbd {
    kb.(keys := if s.key != NO_KEY && kb.cap > 0 then Add(kb.keys, s.key, kb.cap) else kb.keys,
        weakMods := Join(kb.weakMods, s.weak), realMods := Join(kb.realMods, s.mods))
  }

  function Released(kb: Kbd, s: Share): Kbd {
    kb.(keys := if s.key != NO_KEY then Del(kb.keys, s.key) else kb.keys,
        weakMods := Without(kb.weakMods, s.weak), realMods := Without(kb.realMods, s.mods))
  }

  // Equal up to the reports sent and the one-shot modifier.
  predicate SameHeld(a: Kbd, b: Kbd) {
    a.cap == b.cap && a.keys == b.keys && a.realMods == b.realMods && a.weakMods == b.weakMods
  }

  lemma CodeEffect(kb: Kbd, code: Code)
    ensures SameHeld(RegisterCode(kb, code), Pressed(kb, CodeShare(code)))
    ensures SameHeld(UnregisterCode(kb, code), Released(kb, CodeShare(code)))
  {
    hide Join, Without, ModBit, Mods, KeyCode;
    JoinNothing(kb.weakMods);
    JoinNothing(kb.realMods);
  }

  lemma ModsEffect(kb: Kbd, m: bv8)
    ensures SameHeld(RegisterMods(kb, m), Pressed(kb, Share(NO_KEY, 0, m)))
    ensures SameHeld(UnregisterMods(kb, m), Released(kb, Share(NO_KEY, 0, m)))
  {
    hide Join, Without, ModBit, Mods, KeyCode;
    JoinNothing(kb.weakMods);
    JoinNothing(kb.realMods);
  }

  lemma NothingEffect(kb: Kbd)
    ensures Pressed(kb, NOTHING) == kb && Released(kb, NOTHING) == kb
  {
    hide Join, Without, ModBit, Mods, KeyCode;
    JoinNothing(kb.weakMods);
    JoinNothing(kb.realMods);
  }

  lemma KeyEffect(kb: Kbd, a: Action)
    requires IsKeyKind(a)
    ensures SameHeld(KeyAction(kb, a, true), Pressed(kb, CodeShare(KeyCode(a)).(weak := Mods(a))))
    ensures SameHeld(KeyAction(kb, a, false), Released(kb, CodeShare(KeyCode(a)).(weak := Mods(a))))
  {
    hide Join, Without, ModBit, Mods, KeyCode;
    var m := Mods(a);
    JoinNothing(kb.weakMods);
    JoinNothing(kb.realMods);
    CodeEffect(if m != 0 then kb.AddWeakMods(m).Send() else kb, KeyCode(a));
    CodeEffect(kb, KeyCode(a));
  }

  lemma ModsTapEffect(kb: Kbd, a: Action, r: Record, h: Held)
    requires IsModsTapKind(a) && Releases(a) && h.action == a
    requires if r.event.pressed then h.tapped == CountsAsTap(a, r) else h.tapped == (r.tap.count > 0)
    ensures SameHeld(ModsTapAction(kb, a, r),
                     if r.event.pressed then Pressed(kb, ShareOf(h)) else Released(kb, ShareOf(h)))
  {
    hide RegisterCode, UnregisterCode, RegisterMods, UnregisterMods, Pressed, Released, CodeShare, Mods, KeyCode,
      OneshotAction, TapToggleAction;
    CodeEffect(kb, KeyCode(a));
    ModsEffect(kb, Mods(a));
  }

  lemma LayerTapEffect(w: World, a: Action, pressed: bool, count: nat, h: Held)
    requires IsLayerTapKind(a) && h.action == a && h.tapped == (count > 0)
    ensures SameHeld(LayerTapAction(w, a, pressed, count).kb,
                     if pressed then Pressed(w.kb, ShareOf(h)) else Released(w.kb, ShareOf(h)))
  {
    hide RegisterCode, UnregisterCode, RegisterMods, UnregisterMods, Pressed, Released, CodeShare, LayerMods, Mods,
      KeyCode, TapCode, BitOf, TurnOn, TurnOff, Invert, TapLayer;
    NothingEffect(w.kb);
    CodeEffect(w.kb, TapCode(a));
    ModsEffect(w.kb, LayerMods(TapCode(a)));
  }

  // A press adds the share of the key to the report, a release takes it out.
  lemma PerformEffect(w: World, a: Action, r: Record, h: Held)
    requires Releases(a) && h.action == a
    requires if r.event.pressed then h.tapped == CountsAsTap(a, r) else h.tapped == (r.tap.count > 0)
    ensures SameHeld(Perform(w, a, r).kb,
                     if r.event.pressed then Pressed(w.kb, ShareOf(h)) else Released(w.kb, ShareOf(h)))
  {
    hide KeyAction, ModsTapAction, LayerTapAction, Pressed, Released, CodeShare, LayerMods, Mods, Kind, KeyCode,
      TapCode, Bitop, On, Releases;
    NothingEffect(w.kb);
    if IsKeyKind(a) {
      KeyEffect(w.kb, a);
    } else if IsModsTapKind(a) {
      ModsTapEffect(w.kb, a, r, h);
    } else if IsLayerTapKind(a) {
      LayerTapEffect(w, a, r.event.pressed, r.tap.count, h);
    }
  }

  // What happens in a run: a key record, or layers changing for any reason.
  datatype Input = Key(r: Record) | Layers(layers: bv32, defaults: bv32)

  function Next(km: Keymap, w: World, i: Input): World {
    match i
    case Key(r) => ProcessAction(km, w, r).0
    case Layers(l, d) => w.(layers := l, defaults := d)
  }

  function HeldAfter(km: Keymap, w: World, held: map<KeyPos, Held>, i: Input): map<KeyPos, Held> {
    match i
    case Key(r) =>
      if r.event.pressed then
        var a := Resolve(km, w, r.event).1;
        held[r.event.key := Held(a, CountsAsTap(a, r))]
      else held - {r.event.key}
    case Layers(_, _) => held
  }

  // Presses and releases of a key alternate, and a release carries a tap count
  // exactly if its press counted as a tap.
  predicate Paired(km: Keymap, w: World, held: map<KeyPos, Held>, i: Input) {
    match i
    case Key(r) =>
      && Real(r.event)
      && if r.event.pressed then r.event.key !in held && Releases(Resolve(km, w, r.event).1)
         else r.event.key in held && held[r.event.key].tapped == (r.tap.count > 0)
    case Layers(_, _) => true
  }

  predicate PairedRun(km: Keymap, w: World, held: map<KeyPos, Held>, run: seq<Input>)
    decreases run
  {
    run != [] ==> Paired(km, w, held, run[0])
                  && PairedRun(km, Next(km, w, run[0]), HeldAfter(km, w, held, run[0]), run[1..])
  }

  function RunAll(km: Keymap, w: World, run: seq<Input>): World
    decreases run
  {
    if run == [] then w else RunAll(km, Next(km, w, run[0]), run[1..])
  }

  function HeldAtEnd(km: Keymap, w: World, held: map<KeyPos, Held>, run: seq<Input>): map<KeyPos, Held>
    decreases run
  {
    if run == [] then held
    else HeldAtEnd(km, Next(km, w, run[0]), HeldAfter(km, w, held, run[0]), run[1..])
  }

  function KeysOf(held: map<KeyPos, Held>): map<KeyPos, Code> {
    map p | p in held :: ShareOf(held[p]).key
  }

  function WeakOf(held: map<KeyPos, Held>): map<KeyPos, bv8> {
    map p | p in held :: ShareOf(held[p]).weak
  }

  function RealOf(held: map<KeyPos, Held>): map<KeyPos, bv8> {
    map p | p in held :: ShareOf(held[p]).mods
  }

  lemma KeysAdded(held: map<KeyPos, Held>, p: KeyPos, h: Held)
    ensures KeysOf(held[p := h]) == KeysOf(held)[p := ShareOf(h).key]
  {
    hide ShareOf;
  }

  lemma WeakAdded(held: map<KeyPos, Held>, p: KeyPos, h: Held)
    ensures WeakOf(held[p := h]) == WeakOf(held)[p := ShareOf(h).weak]
  {
    hide ShareOf;
  }

  lemma RealAdded(held: map<KeyPos, Held>, p: KeyPos, h: Held)
    ensures RealOf(held[p := h]) == RealOf(held)[p := ShareOf(h).mods]
  {
    hide ShareOf;
  }

  lemma SharesAdded(held: map<KeyPos, Held>, p: KeyPos, h: Held)
    ensures KeysOf(held[p := h]) == KeysOf(held)[p := ShareOf(h).key]
    ensures WeakOf(held[p := h]) == WeakOf(held)[p := ShareOf(h).weak]
    ensures RealOf(held[p := h]) == RealOf(held)[p := ShareOf(h).mods]
  {
    hide KeysOf, WeakOf, RealOf, ShareOf;
    KeysAdded(held, p, h);
    WeakAdded(held, p, h);
    RealAdded(held, p, h);
  }

  lemma SharesRemoved(held: map<KeyPos, Held>, p: KeyPos)
    ensures KeysOf(held - {p}) == KeysOf(held) - {p}
    ensures WeakOf(held - {p}) == WeakOf(held) - {p}
    ensures RealOf(held - {p}) == RealOf(held) - {p}
  {
    hide ShareOf;
  }

  // A release of a held key would resolve to the action of its press.
  predicate Tracked(km: Keymap, w: World, held: map<KeyPos, Held>) {
    forall p :: p in held ==> km(PressedOn(w, p), p) == held[p].action && Releases(held[p].action)
  }

  // The report holds nothing but shares of held keys.
  ghost predicate Covered(kb: Kbd, held: map<KeyPos, Held>) {
    && kb.cap > 0
    && CoversKeys(KeysOf(held), kb.keys)
    && CoversBits(WeakOf(held), kb.weakMods)
    && CoversBits(RealOf(held), kb.realMods)
  }

  // The report holds the share of every held key, and nothing else.
  ghost predicate Exact(kb: Kbd, held: map<KeyPos, Held>) {
    && kb.cap > 0 && NO_KEY !in kb.keys
    && ExactKeys(KeysOf(held), kb.keys)
    && ExactBits(WeakOf(held), kb.weakMods)
    && ExactBits(RealOf(held), kb.realMods)
  }

  lemma PressCovers(kb: Kbd, held: map<KeyPos, Held>, p: KeyPos, h: Held)
    requires Covered(kb, held) && p !in held
    ensures Covered(Pressed(kb, ShareOf(h)), held[p := h])
  {
    hide ShareOf, CoversKeys, CoversBits, Add;
    SharesAdded(held, p, h);
    PressCoversKeys(KeysOf(held), kb.keys, p, ShareOf(h).key, kb.cap);
    PressCoversBits(WeakOf(held), kb.weakMods, p, ShareOf(h).weak);
    PressCoversBits(RealOf(held), kb.realMods, p, ShareOf(h).mods);
  }

  lemma ReleaseCovers(kb: Kbd, held: map<KeyPos, Held>, p: KeyPos)
    requires Covered(kb, held) && p in held && NO_KEY !in kb.keys
    ensures Covered(Released(kb, ShareOf(held[p])), held - {p})
  {
    hide ShareOf, CoversKeys, CoversBits, Del;
    SharesRemoved(held, p);
    ReleaseCoversKeys(KeysOf(held), kb.keys, p);
    DelAbsent(kb.keys, NO_KEY);
    ReleaseCoversBits(WeakOf(held), kb.weakMods, p);
    ReleaseCoversBits(RealOf(held), kb.realMods, p);
  }

  // The share of the new key meets nothing that is in the report already.
  predicate Fits(kb: Kbd, s: Share) {
    s.key !in kb.keys && |kb.keys| < kb.cap && Apart(kb.weakMods, s.weak) && Apart(kb.realMods, s.mods)
  }

  lemma PressExact(kb: Kbd, held: map<KeyPos, Held>, p: KeyPos, h: Held)
    requires Exact(kb, held) && p !in held && Fits(kb, ShareOf(h))
    ensures Exact(Pressed(kb, ShareOf(h)), held[p := h])
  {
    hide ShareOf, ExactKeys, ExactBits, Apart;
    SharesAdded(held, p, h);
    PressExactKeys(KeysOf(held), kb.keys, p, ShareOf(h).key, kb.cap);
    PressExactBits(WeakOf(held), kb.weakMods, p, ShareOf(h).weak);
    PressExactBits(RealOf(held), kb.realMods, p, ShareOf(h).mods);
  }

  lemma ReleaseExact(kb: Kbd, held: map<KeyPos, Held>, p: KeyPos)
    requires Exact(kb, held) && p in held
    ensures Exact(Released(kb, ShareOf(held[p])), held - {p})
  {
    hide ShareOf, ExactKeys, ExactBits, Del;
    SharesRemoved(held, p);
    ReleaseExactKeys(KeysOf(held), kb.keys, p);
    DelMembers(kb.keys, ShareOf(held[p]).key);
    ReleaseExactBits(WeakOf(held), kb.weakMods, p);
    ReleaseExactBits(RealOf(held), kb.realMods, p);
  }

  lemma StepTracks(km: Keymap, w: World, held: map<KeyPos, Held>, i: Input)
    requires Tracked(km, w, held) && Paired(km, w, held, i)
    ensures Tracked(km, Next(km, w, i), HeldAfter(km, w, held, i))
  {
    hide Perform, Releases, CurrentLayer, Active;
    if i.Key? {
      var (w', a) := Resolve(km, w, i.r.event);
      PerformKeepsPresses(w', a, i.r);
    }
  }

  // The key list stays free of 0 and within the slots, whose number is fixed.
  predicate StaysLive(kb: Kbd, kb': Kbd) {
    && kb'.cap == kb.cap && (NO_KEY !in kb.keys ==> NO_KEY !in kb'.keys)
    && (|kb.keys| <= kb.cap ==> |kb'.keys| <= kb.cap)
  }

  lemma PerformKeepsPresses(w: World, a: Action, r: Record)
    ensures Perform(w, a, r).pressedOn == w.pressedOn && StaysLive(w.kb, Perform(w, a, r).kb)
  {
    hide Bitop, On, KeyAction, ModsTapAction, LayerTapAction, Kind;
    KeyActionStaysLive(w.kb, a, r.event.pressed);
    ModsTapStaysLive(w.kb, a, r);
    LayerTapStaysLive(w, a, r.event.pressed, r.tap.count);
  }

  lemma LayerTapStaysLive(w: World, a: Action, pressed: bool, count: nat)
    ensures var w' := LayerTapAction(w, a, pressed, count); w'.pressedOn == w.pressedOn && StaysLive(w.kb, w'.kb)
  {
    hide BitOf, TurnOn, TurnOff, Invert, LayerMods, Join, Without, RegisterCode, UnregisterCode, TapCode, TapLayer;
    KeysStayLive(w.kb, TapCode(a));
  }

  lemma KeyActionStaysLive(kb: Kbd, a: Action, pressed: bool)
    ensures StaysLive(kb, KeyAction(kb, a, pressed))
  {
    hide Mods, Join, Without, RegisterCode, UnregisterCode, KeyCode;
    KeysStayLive(kb, KeyCode(a));
    KeysStayLive(kb.AddWeakMods(Mods(a)).Send(), KeyCode(a));
  }

  lemma ModsTapStaysLive(kb: Kbd, a: Action, r: Record)
    ensures StaysLive(kb, ModsTapAction(kb, a, r))
  {
    hide Mods, Join, Without, RegisterCode, UnregisterCode, KeyCode;
    KeysStayLive(kb, KeyCode(a));
  }

  lemma KeysStayLive(kb: Kbd, code: Code)
    ensures StaysLive(kb, RegisterCode(kb, code)) && StaysLive(kb, UnregisterCode(kb, code))
  {
    DelMembers(kb.keys, code);
  }

  // The record an input brings, as an entry of the held keys.
  function Entry(km: Keymap, w: World, held: map<KeyPos, Held>, r: Record): Held
    requires !r.event.pressed ==> r.event.key in held
  {
    if r.event.pressed then Held(Resolve(km, w, r.event).1, CountsAsTap(Resolve(km, w, r.event).1, r))
    else held[r.event.key]
  }

  // process_action adds exactly the share of a pressed key and takes exactly
  // the share of its press out again.
  lemma KeyEffects(km: Keymap, w: World, held: map<KeyPos, Held>, r: Record)
    requires Tracked(km, w, held) && Paired(km, w, held, Key(r))
    ensures var h := Entry(km, w, held, r); var kb' := Next(km, w, Key(r)).kb;
      SameHeld(kb', if r.event.pressed then Pressed(w.kb, ShareOf(h)) else Released(w.kb, ShareOf(h)))
  {
    hide Perform, Pressed, Released, ShareOf, Releases, CountsAsTap, CurrentLayer, Active;
    var (w', a) := Resolve(km, w, r.event);
    PerformEffect(w', a, r, Entry(km, w, held, r));
  }

  lemma StepCovers(km: Keymap, w: World, held: map<KeyPos, Held>, i: Input)
    requires Tracked(km, w, held) && Covered(w.kb, held) && NO_KEY !in w.kb.keys && Paired(km, w, held, i)
    ensures Covered(Next(km, w, i).kb, HeldAfter(km, w, held, i)) && NO_KEY !in Next(km, w, i).kb.keys
  {
    hide Perform, Pressed, Released, ShareOf, Releases, CountsAsTap, CurrentLayer, Active, Tracked;
    hide KeysOf, WeakOf, RealOf, CoversKeys, CoversBits;
    if i.Key? {
      var r := i.r;
      KeyEffects(km, w, held, r);
      var (w', a) := Resolve(km, w, r.event);
      PerformKeepsPresses(w', a, r);
      if r.event.pressed {
        PressCovers(w.kb, held, r.event.key, Entry(km, w, held, r));
      } else {
        ReleaseCovers(w.kb, held, r.event.key);
      }
    }
  }

  // Every run of paired events keeps the report covered by the held keys, each
  // release resolving to the action of its press; with nothing held the report
  // is empty.
  lemma {:induction false} NoStuckKeys(km: Keymap, w: World, held: map<KeyPos, Held>, run: seq<Input>)
    requires Tracked(km, w, held) && Covered(w.kb, held) && NO_KEY !in w.kb.keys
    requires PairedRun(km, w, held, run)
    ensures var w', held' := RunAll(km, w, run), HeldAtEnd(km, w, held, run);
      && Tracked(km, w', held') && Covered(w'.kb, held')
      && (held' == map[] ==> w'.kb.keys == [] && w'.kb.weakMods == 0 && w'.kb.realMods == 0)
    decreases run
  {
    hide Tracked, Covered, Next, HeldAfter, Paired;
    if run != [] {
      StepTracks(km, w, held, run[0]);
      StepCovers(km, w, held, run[0]);
      NoStuckKeys(km, Next(km, w, run[0]), HeldAfter(km, w, held, run[0]), run[1..]);
    } else if held == map[] {
      EmptyReport(w.kb);
    }
  }

  lemma EmptyReport(kb: Kbd)
    requires Covered(kb, map[])
    ensures kb.keys == [] && kb.weakMods == 0 && kb.realMods == 0
  {
    NothingHeld(WeakOf(map[]), kb.weakMods);
    NothingHeld(RealOf(map[]), kb.realMods);
    NoKeyHeld(KeysOf(map[]), kb.keys);
  }

  // No two held keys ever share a key or modifier, and a slot is always free.
  predicate FitsRun(km: Keymap, w: World, held: map<KeyPos, Held>, run: seq<Input>)
    requires PairedRun(km, w, held, run)
    decreases run
  {
    run != [] ==>
      && (run[0].Key? && run[0].r.event.pressed ==> Fits(w.kb, ShareOf(Entry(km, w, held, run[0].r))))
      && FitsRun(km, Next(km, w, run[0]), HeldAfter(km, w, held, run[0]), run[1..])
  }

  lemma StepExact(km: Keymap, w: World, held: map<KeyPos, Held>, i: Input)
    requires Tracked(km, w, held) && Exact(w.kb, held) && Paired(km, w, held, i)
    requires i.Key? && i.r.event.pressed ==> Fits(w.kb, ShareOf(Entry(km, w, held, i.r)))
    ensures Exact(Next(km, w, i).kb, HeldAfter(km, w, held, i))
  {
    hide Perform, Pressed, Released, ShareOf, Releases, CountsAsTap, CurrentLayer, Active, Tracked;
    hide KeysOf, WeakOf, RealOf, ExactKeys, ExactBits, Fits;
    if i.Key? {
      var r := i.r;
      KeyEffects(km, w, held, r);
      if r.event.pressed {
        PressExact(w.kb, held, r.event.key, Entry(km, w, held, r));
      } else {
        ReleaseExact(w.kb, held, r.event.key);
      }
    }
  }

  // When held keys never overlap, the report is exactly their shares: every
  // held key shows and nothing else does.
  lemma {:induction false} HeldKeysShow(km: Keymap, w: World, held: map<KeyPos, Held>, run: seq<Input>)
    requires Tracked(km, w, held) && Exact(w.kb, held)
    requires PairedRun(km, w, held, run) && FitsRun(km, w, held, run)
    ensures Exact(RunAll(km, w, run).kb, HeldAtEnd(km, w, held, run))
    decreases run
  {
    hide Tracked, Exact, Next, HeldAfter, Paired, Fits, Entry;
    if run != [] {
      StepTracks(km, w, held, run[0]);
      StepExact(km, w, held, run[0]);
      HeldKeysShow(km, Next(km, w, run[0]), HeldAfter(km, w, held, run[0]), run[1..]);
    }
  }

  // The share is in the report.
  predicate Shows(kb: Kbd, s: Share) {
    (s.key != NO_KEY ==> s.key in kb.keys) && Inside(s.weak, kb.weakMods) && Inside(s.mods, kb.realMods)
  }

  predicate Disjoint(s: Share, t: Share) {
    (s.key != NO_KEY ==> s.key != t.key) && Apart(s.weak, t.weak) && Apart(s.mods, t.mods)
  }

  lemma ReleasedShowsIff(kb: Kbd, s: Share, t: Share)
    requires Shows(kb, s)
    ensures Shows(Released(kb, t), s) <==> Disjoint(s, t)
  {
    hide Inside, Without, Apart;
    DelMembers(kb.keys, t.key);
    InsideWithoutIff(s.weak, kb.weakMods, t.weak);
    InsideWithoutIff(s.mods, kb.realMods, t.mods);
  }

  // A key that is still held keeps its share through another key's release
  // exactly if the two shares have nothing in common.
  lemma ReleaseKeepsIff(km: Keymap, w: World, held: map<KeyPos, Held>, r: Record, q: KeyPos)
    requires Tracked(km, w, held) && Paired(km, w, held, Key(r)) && !r.event.pressed
    requires q in held && q != r.event.key && Shows(w.kb, ShareOf(held[q]))
    ensures Shows(Next(km, w, Key(r)).kb, ShareOf(held[q])) <==>
            Disjoint(ShareOf(held[q]), ShareOf(held[r.event.key]))
  {
    hide Next, Tracked, ShareOf, Released, Disjoint;
    KeyEffects(km, w, held, r);
    ReleasedShowsIff(w.kb, ShareOf(held[q]), ShareOf(held[r.event.key]));
  }

  // The power-on state satisfies both invariants.
  lemma InitialReport(km: Keymap, w: World)
    requires w.kb.cap > 0 && w.kb.keys == [] && w.kb.weakMods == 0 && w.kb.realMods == 0
    ensures Tracked(km, w, map[]) && Covered(w.kb, map[]) && Exact(w.kb, map[])
  {
    assert forall b :: !Has(0, b);
  }
}
