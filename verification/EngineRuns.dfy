// The tap/hold machine and the engine running together: when the slots of the
// report hold what the calls of the machine ask for, although an overflow
// leaves the keys it wipes on the report's count.
module EngineRuns {
  import opened KeyEvents
  import opened KeyList
  import opened ModBits
  import KeyboardState
  import opened KeyReport
  import opened Actions
  import opened ActionEngine
  import opened StuckKeys
  import opened Tapping
  import opened TappingLedger
  import opened TappingMachine
  import opened PairedRuns
  import opened Wired
  import opened HostReports
  import opened EndToEnd

  // ----- The count along a history of calls -----

  // What the count owes after a call, and when it is right for one.
  function Owes(w: World, d: nat, call: Call): nat {
    if call.Overflow? then (d + |w.kb.keys|) % 256 else d
  }

  predicate CountFits(w: World, d: nat, call: Call) {
    call.Process? ==> w.kb.keys == [] || |w.kb.keys| + d < 256
  }

  function Debt(km: Keymap, w: World, d: nat, log: seq<Call>): nat {
    if log == [] then d
    else
      var front, call := log[..|log| - 1], log[|log| - 1];
      Owes(Replay(km, w, front), Debt(km, w, d, front), call)
  }

  predicate LogCounted(km: Keymap, w: World, d: nat, log: seq<Call>) {
    log == [] ||
    var front, call := log[..|log| - 1], log[|log| - 1];
    LogCounted(km, w, d, front) && CountFits(Replay(km, w, front), Debt(km, w, d, front), call)
  }

  // The keys that overflows have wiped from the report.
  function Wiped(km: Keymap, w: World, log: seq<Call>): nat {
    if log == [] then 0
    else
      var front, call := log[..|log| - 1], log[|log| - 1];
      Wiped(km, w, front) + if call.Overflow? then |Replay(km, w, front).kb.keys| else 0
  }

  lemma DebtSnoc(km: Keymap, w: World, d: nat, log: seq<Call>, call: Call)
    ensures Debt(km, w, d, log + [call]) == Owes(Replay(km, w, log), Debt(km, w, d, log), call)
    ensures LogCounted(km, w, d, log + [call]) <==>
            LogCounted(km, w, d, log) && CountFits(Replay(km, w, log), Debt(km, w, d, log), call)
  {
    hide Owes, CountFits;
    assert (log + [call])[..|log|] == log;
  }

  lemma {:induction false} Concat(km: Keymap, w: World, d: nat, a: seq<Call>, b: seq<Call>)
    ensures var v, e := Replay(km, w, a), Debt(km, w, d, a);
      && Replay(km, w, a + b) == Replay(km, v, b) && Debt(km, w, d, a + b) == Debt(km, v, e, b)
      && (LogCounted(km, w, d, a + b) <==> LogCounted(km, w, d, a) && LogCounted(km, v, e, b))
    decreases |b|
  {
    hide After, Owes, CountFits;
    if b == [] {
      assert a + b == a;
    } else {
      var front, call := b[..|b| - 1], b[|b| - 1];
      assert a + b == (a + front) + [call] && b == front + [call];
      Concat(km, w, d, a, front);
      var v, e := Replay(km, w, a), Debt(km, w, d, a);
      ReplaySnoc(km, w, a + front, call);
      ReplaySnoc(km, v, front, call);
      DebtSnoc(km, w, d, a + front, call);
      DebtSnoc(km, v, e, front, call);
    }
  }

  // The list never has more keys than the report has slots.
  lemma {:induction false} ReplayFits(km: Keymap, w: World, log: seq<Call>)
    requires |w.kb.keys| <= w.kb.cap
    ensures |Replay(km, w, log).kb.keys| <= w.kb.cap == Replay(km, w, log).kb.cap
    decreases |log|
  {
    hide After;
    if log != [] {
      var front := log[..|log| - 1];
      ReplayFits(km, w, front);
      AfterFits(km, Replay(km, w, front), log[|log| - 1]);
    }
  }

  lemma AfterFits(km: Keymap, w: World, call: Call)
    requires |w.kb.keys| <= w.kb.cap
    ensures |After(km, w, call).kb.keys| <= w.kb.cap == After(km, w, call).kb.cap
  {
    hide Perform, CurrentLayer, Active;
    if call.Process? && Real(call.rec.event) {
      StaysLiveAll(km, w, call.rec);
    }
  }

  // The count is right throughout if the keys wiped and one full report fit it;
  // always, if nothing overflows.
  lemma {:induction false} FewWipesCounted(km: Keymap, w: World, d: nat, log: seq<Call>)
    requires |w.kb.keys| <= w.kb.cap && d + Wiped(km, w, log) + w.kb.cap <= 255
    ensures LogCounted(km, w, d, log) && Debt(km, w, d, log) == d + Wiped(km, w, log)
    decreases |log|
  {
    hide After;
    if log != [] {
      var front := log[..|log| - 1];
      FewWipesCounted(km, w, d, front);
      ReplayFits(km, w, front);
    }
  }

  // ----- The engine -----

  predicate CallIn(keys: set<KeyPos>, call: Call) {
    match call
    case Process(r, _, _) => EventIn(keys, r.event)
    case Lookup(e) => EventIn(keys, e)
    case Overflow(_) => true
  }

  predicate EventIn(keys: set<KeyPos>, e: Event) { Real(e) ==> e.key in keys }

  predicate LogIn(keys: set<KeyPos>, log: seq<Call>) {
    forall i :: 0 <= i < |log| ==> CallIn(keys, log[i])
  }

  predicate RecordsIn(keys: set<KeyPos>, buf: seq<Record>) {
    forall i :: 0 <= i < |buf| ==> EventIn(keys, buf[i].event)
  }

  function Grid(engine: Engine): set<KeyPos> {
    Where(engine.layerPressed.Length0, engine.layerPressed.Length1)
  }

  // One call of the machine, made on the engine.
  method Make(engine: Engine, call: Call)
    requires engine.Valid() && CallIn(Grid(engine), call) && CountFits(engine.World(), engine.kb.stale, call)
    modifies engine`layerState, engine`defaultLayerState, engine.kb, engine.kb.keys, engine.layerPressed
    ensures engine.Valid()
    ensures engine.World() == After(engine.km, old(engine.World()), call)
    ensures engine.kb.stale == Owes(old(engine.World()), old(engine.kb.stale), call)
  {
    hide KeyboardReport.Valid, KeyboardReport.State, KeyboardReport.Counting, KeyboardReport.Lands, Resolve, Perform,
      KeyOf, Where;
    match call
    case Process(r, _, _) =>
      CountedRight(engine, KeyOf(Resolve(engine.km, engine.World(), r.event).1, r), r.event.pressed);
      InGrid(engine, r.event);
      var _ := engine.ProcessAction(r);
    case Lookup(e) =>
      InGrid(engine, e);
      NoLookup(engine.km, engine.World(), e);
      var _ := engine.IsTapKey(e);
    case Overflow(_) =>
      engine.ClearKeyboard();
  }

  lemma InGrid(engine: Engine, e: Event)
    requires EventIn(Grid(engine), e)
    ensures Real(e) ==> engine.OnMatrix(e)
  {
  }

  lemma NoLookup(km: Keymap, w: World, e: Event)
    ensures NoEvent(e) ==> Resolve(km, w, e).0 == w
  {
  }

  lemma CountedRight(engine: Engine, code: Code, pressed: bool)
    requires engine.Valid()
    requires engine.World().kb.keys == [] || |engine.World().kb.keys| + engine.kb.stale < 256
    ensures engine.kb.Counting() && engine.Right(code, pressed)
  {
    hide KeyboardReport.Valid, KeyboardReport.Live;
    engine.kb.EmptyCount();
  }

  // The engine driven by the calls of the machine is in the state they replay to
  // as long as the count is right, and the count is off by what is owed.
  method Drive(engine: Engine, log: seq<Call>)
    requires engine.Valid() && LogIn(Grid(engine), log)
    requires LogCounted(engine.km, engine.World(), engine.kb.stale, log)
    modifies engine`layerState, engine`defaultLayerState, engine.kb, engine.kb.keys, engine.layerPressed
    ensures engine.Valid()
    ensures engine.World() == Replay(engine.km, old(engine.World()), log)
    ensures engine.kb.stale == Debt(engine.km, old(engine.World()), old(engine.kb.stale), log)
  {
    hide KeyboardReport.Valid, Engine.World, After, CallIn, Grid, LogCounted, CountFits, Owes, Replay, Debt;
    ghost var w, d := engine.World(), engine.kb.stale;
    NoCalls(engine.km, w, d);
    assert log[..0] == [];
    for n := 0 to |log|
      invariant engine.Valid() && engine.World() == Replay(engine.km, w, log[..n])
      invariant engine.kb.stale == Debt(engine.km, w, d, log[..n])
    {
      assert log[..n + 1] == log[..n] + [log[n]] && log == log[..n + 1] + log[n + 1..];
      Concat(engine.km, w, d, log[..n + 1], log[n + 1..]);
      DebtSnoc(engine.km, w, d, log[..n], log[n]);
      ReplaySnoc(engine.km, w, log[..n], log[n]);
      Make(engine, log[n]);
    }
    assert log[..|log|] == log;
  }

  lemma NoCalls(km: Keymap, w: World, d: nat)
    ensures Replay(km, w, []) == w && Debt(km, w, d, []) == d && LogCounted(km, w, d, [])
  {
  }

  // ----- The machine stays on the keys of the matrix -----

  predicate StateIn(keys: set<KeyPos>, s: State) {
    EventIn(keys, s.tk.event) && RecordsIn(keys, s.buf) && LogIn(keys, s.log)
  }

  predicate Grows(a: State, b: State) { a.log <= b.log }

  lemma ActIn(keys: set<KeyPos>, c: Setup, log: seq<Call>, r: Record)
    requires LogIn(keys, log) && EventIn(keys, r.event)
    ensures LogIn(keys, Act(c, log, r).0) && log <= Act(c, log, r).0
  {
  }

  lemma ScanIn(keys: set<KeyPos>, c: Setup, s: State)
    requires StateIn(keys, s)
    ensures StateIn(keys, ScanTap(c, s)) && Grows(s, ScanTap(c, s))
  {
    hide FindRelease, LogIn, Act;
    ActIn(keys, c, s.log, s.tk.(tap := s.tk.tap.(count := 1)));
  }

  lemma StartIn(keys: set<KeyPos>, c: Setup, s: State, k: Record, log: seq<Call>)
    requires StateIn(keys, s) && EventIn(keys, k.event) && LogIn(keys, log) && s.log <= log
    ensures StateIn(keys, ScanTap(c, State(k, s.buf, log))) && Grows(s, ScanTap(c, State(k, s.buf, log)))
  {
    hide ScanTap, LogIn, RecordsIn;
    ScanIn(keys, c, State(k, s.buf, log));
  }

  lemma LogSnocIn(keys: set<KeyPos>, log: seq<Call>, call: Call)
    requires LogIn(keys, log) && CallIn(keys, call)
    ensures LogIn(keys, log + [call]) && log <= log + [call]
  {
  }

  lemma WhileTappedIn(keys: set<KeyPos>, c: Setup, s: State, k: Record)
    requires StateIn(keys, s) && EventIn(keys, k.event) && Real(s.tk.event)
    ensures var o := WhileTapped(c, s, k); StateIn(keys, o.s) && Grows(s, o.s)
  {
    hide ScanTap, LogIn, RecordsIn, Act;
    var (log, isTap) := IsTapKey(c, s.log, k.event);
    LogSnocIn(keys, s.log, Lookup(k.event));
    LogSnocIn(keys, log, Invented(s.tk, k.event));
    StartIn(keys, c, s, k, log);
    StartIn(keys, c, s, k, log + [Invented(s.tk, k.event)]);
    ActIn(keys, c, log, k);
  }

  lemma UndecidedIn(keys: set<KeyPos>, c: Setup, s: State, k: Record)
    requires StateIn(keys, s) && EventIn(keys, k.event)
    ensures var o := Undecided(c, s, k); StateIn(keys, o.s) && Grows(s, o.s)
  {
    hide LogIn, RecordsIn, Act, Typed;
    ActIn(keys, c, s.log, s.tk.(tap := s.tk.tap.(count := 1)));
    ActIn(keys, c, s.log, s.tk);
    LogSnocIn(keys, s.log, Lookup(k.event));
    ActIn(keys, c, s.log + [Lookup(k.event)], k);
  }

  lemma ProcessIn(keys: set<KeyPos>, c: Setup, s: State, k: Record)
    requires StateIn(keys, s) && EventIn(keys, k.event)
    ensures var o := Tapping.ProcessTapping(c, s, k);
      StateIn(keys, o.s) && Grows(s, o.s) && o.rec.event == k.event
  {
    hide ScanTap, LogIn, RecordsIn, Act, Typed, Diff;
    if Real(s.tk.event) && s.tk.event.pressed {
      UndecidedIn(keys, c, s, k);
      WhileTappedIn(keys, c, s, k);
      ActIn(keys, c, s.log, k.(tap := s.tk.tap));
      ActIn(keys, c, s.log, s.tk);
    } else {
      var (log, isTap) := IsTapKey(c, s.log, k.event);
      LogSnocIn(keys, s.log, Lookup(k.event));
      StartIn(keys, c, s, k, log);
      StartIn(keys, c, s, k, s.log);
      ActIn(keys, c, s.log, k);
      ActIn(keys, c, log, k);
      var n := if s.tk.tap.count < MAX_TAPS then s.tk.tap.count + 1 else s.tk.tap.count;
      ActIn(keys, c, s.log, k.(tap := s.tk.tap.(count := n)));
    }
  }

  lemma EnqueueIn(keys: set<KeyPos>, s: State, r: Record)
    requires StateIn(keys, s) && EventIn(keys, r.event)
    ensures StateIn(keys, Enqueue(s, r)) && Grows(s, Enqueue(s, r))
  {
    hide LogIn, Pending;
    LogSnocIn(keys, s.log, Overflow(Pending(s) + Events(s.buf) + [r.event]));
  }

  lemma {:induction false} DrainIn(keys: set<KeyPos>, c: Setup, s: State)
    requires StateIn(keys, s)
    ensures StateIn(keys, Drain(c, s)) && Grows(s, Drain(c, s))
    decreases |s.buf|
  {
    hide Tapping.ProcessTapping, LogIn;
    if s.buf != [] {
      var o := Tapping.ProcessTapping(c, s, s.buf[0]);
      ProcessIn(keys, c, s, s.buf[0]);
      KeepsLength(c, s, s.buf[0]);
      if o.done {
        DrainIn(keys, c, o.s.(buf := o.s.buf[1..]));
      }
    }
  }

  lemma StepIn(keys: set<KeyPos>, c: Setup, s: State, e: Event)
    requires StateIn(keys, s) && EventIn(keys, e)
    ensures StateIn(keys, Step(c, s, e)) && Grows(s, Step(c, s, e))
  {
    hide Tapping.ProcessTapping, LogIn, RecordsIn, Drain, Enqueue;
    var o := Tapping.ProcessTapping(c, s, Fresh(e));
    ProcessIn(keys, c, s, Fresh(e));
    if o.done {
      DrainIn(keys, c, o.s);
    } else {
      EnqueueIn(keys, o.s, o.rec);
      DrainIn(keys, c, Enqueue(o.s, o.rec));
    }
  }

  // Every call of a run is about keys of the matrix, and calls are only added.
  lemma {:induction false} RunIn(keys: set<KeyPos>, c: Setup, s: State, es: seq<Event>)
    requires StateIn(keys, s) && forall i :: 0 <= i < |es| ==> EventIn(keys, es[i])
    ensures StateIn(keys, Run(c, s, es)) && Grows(s, Run(c, s, es))
    decreases |es|
  {
    hide StateIn, EventIn, Step;
    if es != [] {
      StepIn(keys, c, s, es[0]);
      RunIn(keys, c, Step(c, s, es[0]), es[1..]);
    }
  }

  // ----- Machine and engine together -----

  // Both are where the calls made since world w and debt d have taken them.
  ghost predicate Together(w: World, d: nat, machine: Machine, engine: Engine)
    reads machine, machine.waiting, engine, engine.kb, engine.kb.keys, engine.layerPressed
  {
    && {machine as object, machine.waiting} !! {engine as object, engine.kb, engine.kb.keys, engine.layerPressed}
    && machine.Valid() && engine.Valid() && StateIn(Grid(engine), machine.Value())
    && machine.c == Wire(engine.km, w, machine.c.term)
    && engine.World() == Replay(engine.km, w, machine.log)
    && engine.kb.stale == Debt(engine.km, w, d, machine.log)
  }

  method PowerUp(km: Keymap, slots: nat, rows: nat, cols: nat, term: nat) returns (machine: Machine, engine: Engine)
    requires 2 <= slots <= 127
    ensures fresh(machine) && fresh(machine.waiting)
    ensures fresh(engine) && fresh(engine.kb) && fresh(engine.kb.keys) && fresh(engine.layerPressed)
    ensures Together(PowerOn(slots, rows, cols), 0, machine, engine) && machine.Value() == IDLE
    ensures engine.km == km && machine.c.term == term && Grid(engine) == Where(rows, cols)
    ensures engine.kb.keys.Length == slots
  {
    hide KeyboardReport.Valid, Where, Replay, Debt;
    engine := new Engine(km, slots, rows, cols);
    machine := new Machine(Wire(km, PowerOn(slots, rows, cols), term));
    NoCalls(km, PowerOn(slots, rows, cols), 0);
  }

  // Events go to the machine, and the calls it makes to the engine.
  method Feed(machine: Machine, engine: Engine, ghost w: World, ghost d: nat, e: Event)
    requires Together(w, d, machine, engine) && EventIn(Grid(engine), e)
    requires LogCounted(engine.km, w, d, Step(machine.c, machine.Value(), e).log)
    modifies machine, machine.waiting
    modifies engine`layerState, engine`defaultLayerState, engine.kb, engine.kb.keys, engine.layerPressed
    ensures Together(w, d, machine, engine)
    ensures machine.Value() == Step(machine.c, old(machine.Value()), e)
  {
    hide KeyboardReport.Valid, Engine.World, Step, Replay, Debt, LogCounted, Wire, EventIn, Grid, Machine.Queue, LogIn,
      RecordsIn;
    StepIn(Grid(engine), machine.c, machine.Value(), e);
    var n := |machine.log|;
    machine.ActionTappingProcess(e);
    assert machine.log == old(machine.log) + machine.log[n..];
    Concat(engine.km, w, d, old(machine.log), machine.log[n..]);
    RestIn(Grid(engine), machine.log, n);
    Drive(engine, machine.log[n..]);
  }

  lemma RestIn(keys: set<KeyPos>, log: seq<Call>, n: nat)
    requires LogIn(keys, log) && n <= |log|
    ensures LogIn(keys, log[n..])
  {
  }

  lemma PrefixCounted(km: Keymap, w: World, d: nat, a: seq<Call>, b: seq<Call>)
    requires a <= b && LogCounted(km, w, d, b)
    ensures LogCounted(km, w, d, a)
  {
    hide LogCounted;
    Concat(km, w, d, a, b[|a|..]);
    assert b == a + b[|a|..];
  }

  method FeedAll(machine: Machine, engine: Engine, ghost w: World, ghost d: nat, es: seq<Event>)
    requires Together(w, d, machine, engine) && forall i :: 0 <= i < |es| ==> EventIn(Grid(engine), es[i])
    requires LogCounted(engine.km, w, d, Run(machine.c, machine.Value(), es).log)
    modifies machine, machine.waiting
    modifies engine`layerState, engine`defaultLayerState, engine.kb, engine.kb.keys, engine.layerPressed
    ensures Together(w, d, machine, engine)
    ensures machine.Value() == Run(machine.c, old(machine.Value()), es)
  {
    hide KeyboardReport.Valid, Engine.World, Step, Run, Replay, Debt, LogCounted, Wire, EventIn, Grid, Machine.Queue,
      StateIn;
    ghost var s := machine.Value();
    assert es[..0] == [] && es[0..] == es;
    NoEvents(machine.c, s);
    for n := 0 to |es|
      invariant Together(w, d, machine, engine)
      invariant Run(machine.c, machine.Value(), es[n..]) == Run(machine.c, s, es)
    {
      RunUnfold(machine.c, machine.Value(), es[n..]);
      assert es[n..][1..] == es[n + 1..];
      ghost var next := Step(machine.c, machine.Value(), es[n]);
      StepIn(Grid(engine), machine.c, machine.Value(), es[n]);
      RunIn(Grid(engine), machine.c, next, es[n + 1..]);
      PrefixCounted(engine.km, w, d, next.log, Run(machine.c, s, es).log);
      Feed(machine, engine, w, d, es[n]);
    }
    assert es[|es|..] == [];
    NoEvents(machine.c, machine.Value());
  }

  lemma NoEvents(c: Setup, s: State)
    ensures Run(c, s, []) == s
  {
  }

  lemma RunUnfold(c: Setup, s: State, es: seq<Event>)
    requires es != []
    ensures Run(c, s, es) == Run(c, Step(c, s, es[0]), es[1..])
  {
  }

  // No stuck keys, from key events to the slots: after every smooth run of
  // alternating keys from power-on in which cancelled taps are handed over and
  // the count is right at every call, the report is covered by the keys left
  // down and the last report sent shows just that; when all are released and
  // nothing waits, every slot is free and the last report sent is empty.
  method KeysComeOut(km: Keymap, slots: nat, rows: nat, cols: nat, term: nat, es: seq<Event>)
    returns (machine: Machine, engine: Engine)
    requires 2 <= slots <= 127 && Undoes(km) && forall i :: 0 <= i < |es| ==> EventIn(Where(rows, cols), es[i])
    requires var w := PowerOn(slots, rows, cols); var c := Wire(km, w, term); var log := Run(c, IDLE, es).log;
      && Inputs(es) && KeysAlternate(es) && Smooth(c, IDLE, es) && AllHandedOver(km, w, log)
      && LogCounted(km, w, 0, log)
    ensures var w := PowerOn(slots, rows, cols); var s := Run(Wire(km, w, term), IDLE, es);
      && Together(w, 0, machine, engine) && machine.Value() == s && engine.kb.keys.Length == slots
      && Covered(engine.kb.State(), HeldBy(km, w, s.log))
      && (forall key :: key in HeldBy(km, w, s.log) && key != KeyPos(255, 255) ==> EndsDown(s, key))
      && (AllReleased(es) && s.buf == [] && Pending(s) == [] ==>
            && (forall k :: 0 <= k < slots ==> engine.kb.keys[k] == NO_KEY)
            && engine.kb.realMods == 0 && engine.kb.weakMods == 0
            && engine.kb.State().LastReport() == KeyboardState.Report(0, []))
    ensures var kb := engine.kb.State();
      kb.LastReport() == KeyboardState.Report(Join(kb.realMods, kb.weakMods), kb.keys)
  {
    hide KeyboardReport.Valid, Step, Run, Replay, Debt, LogCounted, Wiped, Wire, EventIn, Grid, Machine.Queue, StateIn,
      Where, Undoes, Inputs, KeysAlternate, Smooth, AllHandedOver, AllReleased, Covered, HeldBy, EndsDown,
      KeyboardReport.Live;
    ghost var w := PowerOn(slots, rows, cols);
    machine, engine := PowerUp(km, slots, rows, cols, term);
    FirstInformed(w.kb);
    NoKeyStaysDown(km, w, term, es);
    FeedAll(machine, engine, w, 0, es);
    engine.kb.ReportKeys();
    assert forall k :: 0 <= k < slots ==> engine.kb.keys[k] in engine.kb.keys[..];
  }
}
