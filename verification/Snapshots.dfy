// From matrix snapshots to the report: the events keyboard_task submits, scan by
// scan with their times and ticks, are what the theorem about stuck keys needs.
module Snapshots {
  import opened KeyEvents
  import opened MatrixBits
  import opened MatrixEvents
  import opened KeyList
  import KeyboardState
  import opened ModBits
  import opened Actions
  import opened ActionEngine
  import StuckKeys
  import opened Tapping
  import opened TappingLedger
  import opened TappingMachine
  import opened KeyOrder
  import opened KeyPairs
  import opened PairedRuns
  import opened Wired
  import opened EndToEnd
  import opened EngineRuns

  // The presses and releases among the events submitted, without their times.
  function Changes(es: seq<Event>): seq<Change> {
    if es == [] then [] else Changes(es[..|es| - 1]) + Change1(es[|es| - 1])
  }

  function Change1(e: Event): seq<Change> {
    if e.key == KeyPos(255, 255) then [] else [Change(e.key, e.pressed)]
  }

  lemma {:induction false} ChangesConcat(a: seq<Event>, b: seq<Event>)
    ensures Changes(a + b) == Changes(a) + Changes(b)
    decreases |b|
  {
    if b == [] {
      assert a + b == a;
    } else {
      assert (a + b)[..|a + b| - 1] == a + b[..|b| - 1];
      ChangesConcat(a, b[..|b| - 1]);
    }
  }

  function Downs(es: seq<Event>): (s: seq<bool>)
    ensures |s| == |es| && forall i :: 0 <= i < |s| ==> s[i] == es[i].pressed
  {
    seq(|es|, i requires 0 <= i < |es| => es[i].pressed)
  }

  lemma DownsConcat(a: seq<Event>, b: seq<Event>)
    ensures Downs(a + b) == Downs(a) + Downs(b)
  {
  }

  lemma StreamSnoc(log: seq<Change>, e: Event, key: KeyPos)
    requires key != KeyPos(255, 255)
    ensures Stream(log + Change1(e), key) == Stream(log, key) + Downs(One(e, key))
  {
    if e.key == KeyPos(255, 255) {
      assert log + [] == log;
    } else {
      assert (log + Change1(e))[..|log|] == log;
    }
  }

  lemma {:induction false} StreamIs(es: seq<Event>, key: KeyPos)
    requires key != KeyPos(255, 255)
    ensures Stream(Changes(es), key) == Downs(Of(es, key))
    decreases |es|
  {
    hide Stream, Downs, One, Change1;
    if es == [] {
      NoStream(key);
    } else {
      var front, e := es[..|es| - 1], es[|es| - 1];
      StreamIs(front, key);
      StreamSnoc(Changes(front), e, key);
      DownsConcat(Of(front, key), One(e, key));
    }
  }

  lemma NoStream(key: KeyPos)
    ensures Stream([], key) == Downs([])
  {
  }

  ghost predicate NoneDown(log: seq<Change>) {
    forall key :: key != KeyPos(255, 255) ==> !MatrixEvents.Held(log, key)
  }

  // Events that change the state of their key each alternate key by key, and all
  // keys are released exactly if none is down after them.
  lemma EventsAlternate(es: seq<Event>)
    requires Alternating(Changes(es))
    ensures KeysAlternate(es)
    ensures AllReleased(es) <==> NoneDown(Changes(es))
  {
    hide Of, MatrixEvents.Held, Alternating, Changes, Alternates;
    forall key | key != KeyPos(255, 255)
      ensures Alternates(Of(es, key))
    {
      KeyAlternates(es, key);
    }
    if AllReleased(es) {
      forall key | key != KeyPos(255, 255)
        ensures !MatrixEvents.Held(Changes(es), key)
      {
        KeyAlternates(es, key);
      }
    }
    if NoneDown(Changes(es)) {
      forall key | key != KeyPos(255, 255)
        ensures |Of(es, key)| % 2 == 0
      {
        KeyAlternates(es, key);
      }
    }
  }

  lemma KeyAlternates(es: seq<Event>, key: KeyPos)
    requires Alternating(Changes(es)) && key != KeyPos(255, 255)
    ensures Alternates(Of(es, key)) && MatrixEvents.Held(Changes(es), key) == (|Of(es, key)| % 2 == 1)
  {
    hide Of, MatrixEvents.Held, Alternating, Stream, Changes;
    StreamAlternates(Changes(es), key);
    StreamIs(es, key);
  }

  // ----- Scans -----

  // matrix_prev after a snapshot.
  ghost function Seen(detect: bool, prev: seq<Row>, rows: seq<Row>): (next: seq<Row>)
    requires |prev| == |rows|
    ensures |next| == |rows|
    ensures forall r :: 0 <= r < |rows| ==> next[r] == if HeldBack(detect, rows, r) then prev[r] else rows[r]
  {
    seq(|rows|, r requires 0 <= r < |rows| => if HeldBack(detect, rows, r) then prev[r] else rows[r])
  }

  function Blank(n: nat): (rows: seq<Row>)
    ensures |rows| == n && forall r :: 0 <= r < n ==> rows[r] == 0
  {
    seq(n, _ => 0)
  }

  // Snapshots of a matrix of n rows, each with the time of its scan.
  predicate Shots(n: nat, cols: nat, snaps: seq<seq<Row>>, times: seq<nat>) {
    && |times| == |snaps| && cols <= WIDTH
    && (forall i :: 0 <= i < |snaps| ==> |snaps[i]| == n && times[i] > 0)
    && (forall i, r :: 0 <= i < |snaps| && 0 <= r < n ==> Narrow(snaps[i][r], cols))
  }

  ghost function SeenAll(detect: bool, n: nat, snaps: seq<seq<Row>>): (prev: seq<Row>)
    requires forall i :: 0 <= i < |snaps| ==> |snaps[i]| == n
    ensures |prev| == n
  {
    if snaps == [] then Blank(n)
    else Seen(detect, SeenAll(detect, n, snaps[..|snaps| - 1]), snaps[|snaps| - 1])
  }

  function Stamp(log: seq<Change>, now: nat): (es: seq<Event>)
    ensures |es| == |log|
    ensures forall i :: 0 <= i < |es| ==> es[i] == Event(log[i].key, log[i].pressed, now)
  {
    seq(|log|, i requires 0 <= i < |log| => Event(log[i].key, log[i].pressed, now))
  }

  // What the scans submit: the changes of each with its time, and a tick.
  ghost function Submitted(detect: bool, n: nat, cols: nat, snaps: seq<seq<Row>>, times: seq<nat>): seq<Event>
    requires Shots(n, cols, snaps, times)
  {
    if snaps == [] then []
    else
      var k := |snaps| - 1;
      Submitted(detect, n, cols, snaps[..k], times[..k])
      + Stamp(MatrixChanges(detect, cols, SeenAll(detect, n, snaps[..k]), snaps[k], n), times[k]) + [Tick(times[k])]
  }

  lemma StampChanges(log: seq<Change>, now: nat)
    requires forall i :: 0 <= i < |log| ==> log[i].key != KeyPos(255, 255)
    ensures Changes(Stamp(log, now)) == log
    decreases |log|
  {
    if log != [] {
      hide Stamp;
      var front, e := log[..|log| - 1], log[|log| - 1];
      StampChanges(front, now);
      StampFront(log, now);
      assert Change1(Event(e.key, e.pressed, now)) == [e];
      assert log == front + [e];
    }
  }

  lemma StampFront(log: seq<Change>, now: nat)
    requires log != []
    ensures Stamp(log, now)[..|log| - 1] == Stamp(log[..|log| - 1], now)
  {
  }

  lemma ScanChanges(es: seq<Event>, log: seq<Change>, now: nat)
    requires forall i :: 0 <= i < |log| ==> log[i].key != KeyPos(255, 255)
    ensures Changes(es + Stamp(log, now) + [Tick(now)]) == Changes(es) + log
  {
    hide Changes;
    ChangesConcat(es + Stamp(log, now), [Tick(now)]);
    ChangesConcat(es, Stamp(log, now));
    StampChanges(log, now);
    assert Changes([Tick(now)]) == [] by { TickChanges(now); }
  }

  lemma TickChanges(now: nat)
    ensures Changes([Tick(now)]) == []
  {
    assert [Tick(now)][..0] == [];
  }

  // The keys of a matrix.
  predicate OnGrid(n: nat, cols: nat, log: seq<Change>) {
    forall i :: 0 <= i < |log| ==> log[i].key.row < n && log[i].key.col < cols
  }

  lemma {:induction false} RowOnGrid(x: Row, y: Row, r: nat, c: nat, n: nat, cols: nat)
    requires c <= cols <= WIDTH && r < n
    ensures OnGrid(n, cols, RowChanges(x, y, r, c))
    decreases c
  {
    hide MatrixBits.Down;
    if c > 0 {
      RowOnGrid(x, y, r, c - 1, n, cols);
    }
  }

  lemma {:induction false} ScanOnGrid(detect: bool, cols: nat, prev: seq<Row>, rows: seq<Row>, k: nat)
    requires k <= |rows| == |prev| && cols <= WIDTH
    ensures OnGrid(|rows|, cols, MatrixChanges(detect, cols, prev, rows, k))
    decreases k
  {
    hide RowChanges, HeldBack;
    if k > 0 {
      ScanOnGrid(detect, cols, prev, rows, k - 1);
      RowOnGrid(prev[k - 1], rows[k - 1], k - 1, cols, |rows|, cols);
    }
  }

  // keyboard_task for one snapshot: each change as an event, then a tick.
  method Scan(keyboard: Keyboard, rows: seq<Row>, now: nat) returns (es: seq<Event>)
    requires keyboard.Valid() && |rows| == keyboard.matrixPrev.Length && now > 0
    requires forall r :: 0 <= r < |rows| ==> Narrow(rows[r], keyboard.cols)
    modifies keyboard`log, keyboard.matrixPrev, keyboard.matrixGhost
    ensures keyboard.Valid()
    ensures keyboard.matrixPrev[..] == Seen(keyboard.detectGhosts, old(keyboard.matrixPrev[..]), rows)
    ensures var log := MatrixChanges(keyboard.detectGhosts, keyboard.cols, old(keyboard.matrixPrev[..]), rows, |rows|);
      keyboard.log == old(keyboard.log) + log && es == Stamp(log, now) + [Tick(now)]
  {
    hide Keyboard.Valid, HeldBack, MatrixChanges;
    keyboard.ValidWidth();
    var n := |keyboard.log|;
    keyboard.Task(rows);
    es := Stamp(keyboard.log[n..], now) + [Tick(now)];
  }

  // Every event is a tick or of a key of the matrix, at a time other than 0.
  predicate Proper(n: nat, cols: nat, es: seq<Event>) {
    Inputs(es) && forall i :: 0 <= i < |es| ==> EventIn(Where(n, cols), es[i])
  }

  lemma ScanProper(n: nat, cols: nat, es: seq<Event>, log: seq<Change>, now: nat)
    requires Proper(n, cols, es) && OnGrid(n, cols, log) && now > 0 && cols <= WIDTH
    ensures Proper(n, cols, es + Stamp(log, now) + [Tick(now)])
    ensures forall i :: 0 <= i < |log| ==> log[i].key != KeyPos(255, 255)
  {
    forall i | 0 <= i < |log|
      ensures EventIn(Where(n, cols), Stamp(log, now)[i]) && Input(Stamp(log, now)[i])
    {
    }
  }

  lemma ShotsFront(n: nat, cols: nat, snaps: seq<seq<Row>>, times: seq<nat>, k: nat)
    requires Shots(n, cols, snaps, times) && k < |snaps|
    ensures Shots(n, cols, snaps[..k + 1], times[..k + 1])
    ensures snaps[..k + 1][..k] == snaps[..k] && times[..k + 1][..k] == times[..k]
  {
  }

  // The main loop's keyboard part from power-on: what it submits and what it has
  // seen.
  method Submit(keyboard: Keyboard, snaps: seq<seq<Row>>, times: seq<nat>) returns (es: seq<Event>)
    requires keyboard.Valid() && keyboard.log == []
    requires keyboard.matrixPrev[..] == Blank(keyboard.matrixPrev.Length)
    requires Shots(keyboard.matrixPrev.Length, keyboard.cols, snaps, times)
    modifies keyboard`log, keyboard.matrixPrev, keyboard.matrixGhost
    ensures keyboard.Valid() && keyboard.log == Changes(es)
    ensures es == Submitted(keyboard.detectGhosts, keyboard.matrixPrev.Length, keyboard.cols, snaps, times)
    ensures keyboard.matrixPrev[..] == SeenAll(keyboard.detectGhosts, keyboard.matrixPrev.Length, snaps)
    ensures Proper(keyboard.matrixPrev.Length, keyboard.cols, es)
    ensures OnGrid(keyboard.matrixPrev.Length, keyboard.cols, keyboard.log) && KeysAlternate(es)
  {
    hide Keyboard.Valid, HeldBack, MatrixChanges, Stamp, Changes, Proper, KeysAlternate, Seen;
    ghost var n := keyboard.matrixPrev.Length;
    es := [];
    assert Changes([]) == [] && Proper(n, keyboard.cols, []) by { Nothing(n, keyboard.cols); }
    for k := 0 to |snaps|
      invariant keyboard.Valid() && keyboard.log == Changes(es)
      invariant Shots(n, keyboard.cols, snaps[..k], times[..k])
      invariant es == Submitted(keyboard.detectGhosts, n, keyboard.cols, snaps[..k], times[..k])
      invariant keyboard.matrixPrev[..] == SeenAll(keyboard.detectGhosts, n, snaps[..k])
      invariant Proper(n, keyboard.cols, es) && OnGrid(n, keyboard.cols, keyboard.log)
    {
      ShotsFront(n, keyboard.cols, snaps, times, k);
      ghost var log := MatrixChanges(keyboard.detectGhosts, keyboard.cols, keyboard.matrixPrev[..], snaps[k], n);
      ScanOnGrid(keyboard.detectGhosts, keyboard.cols, keyboard.matrixPrev[..], snaps[k], n);
      ScanProper(n, keyboard.cols, es, log, times[k]);
      ScanChanges(es, log, times[k]);
      var more := Scan(keyboard, snaps[k], times[k]);
      assert es + more == es + Stamp(log, times[k]) + [Tick(times[k])];
      es := es + more;
    }
    assert snaps[..|snaps|] == snaps && times[..|snaps|] == times;
    ValidAlternates(keyboard);
    EventsAlternate(es);
  }

  lemma Nothing(n: nat, cols: nat)
    ensures Changes([]) == [] && Proper(n, cols, [])
  {
  }

  lemma ValidAlternates(keyboard: Keyboard)
    requires keyboard.Valid()
    ensures Alternating(keyboard.log)
  {
  }

  lemma {:induction false} NeverHeld(log: seq<Change>, key: KeyPos)
    requires forall i :: 0 <= i < |log| ==> log[i].key != key
    ensures !MatrixEvents.Held(log, key)
    decreases |log|
  {
    if log != [] {
      NeverHeld(log[..|log| - 1], key);
    }
  }

  // An empty matrix is never held back.
  lemma BlankSeen(detect: bool, n: nat, prev: seq<Row>)
    requires |prev| == n
    ensures Seen(detect, prev, Blank(n)) == Blank(n)
  {
    Keyboard.NothingDown();
    assert forall r :: 0 <= r < n ==> !HeldBack(detect, Blank(n), r);
  }

  lemma BlankNoneDown(keyboard: Keyboard)
    requires keyboard.Valid() && keyboard.matrixPrev[..] == Blank(keyboard.matrixPrev.Length)
    requires OnGrid(keyboard.matrixPrev.Length, keyboard.cols, keyboard.log)
    ensures NoneDown(keyboard.log)
  {
    hide MatrixEvents.Held, MatrixBits.Down;
    Keyboard.NothingDown();
    forall key | key != KeyPos(255, 255)
      ensures !MatrixEvents.Held(keyboard.log, key)
    {
      if key.row < keyboard.matrixPrev.Length && key.col < WIDTH {
        assert MatrixBits.Down(keyboard.matrixPrev[..][key.row], key.col) ==
               MatrixEvents.Held(keyboard.log, KeyPos(key.row, key.col));
      } else {
        NeverHeld(keyboard.log, key);
      }
    }
  }

  // From power-on through any snapshots: if the events they give make a smooth
  // run in which cancelled taps are handed over and the count is right, the
  // report is covered by the keys left down and the host is told it, and once the
  // last snapshot is empty and the machine has nothing pending or waiting every
  // slot is free and the last report sent is empty.
  method SnapshotsToReport(km: Keymap, slots: nat, rows: nat, cols: nat, detect: bool, term: nat,
                           snaps: seq<seq<Row>>, times: seq<nat>)
    returns (keyboard: Keyboard, machine: Machine, engine: Engine)
    requires 2 <= slots <= 127 && Undoes(km) && Shots(rows, cols, snaps, times)
    requires var w := PowerOn(slots, rows, cols); var c := Wire(km, w, term);
      var es := Submitted(detect, rows, cols, snaps, times); var log := Run(c, IDLE, es).log;
      Smooth(c, IDLE, es) && AllHandedOver(km, w, log) && LogCounted(km, w, 0, log)
    ensures keyboard.Valid() && keyboard.matrixPrev[..] == SeenAll(detect, rows, snaps)
    ensures var w := PowerOn(slots, rows, cols);
      var s := Run(Wire(km, w, term), IDLE, Submitted(detect, rows, cols, snaps, times));
      && Together(w, 0, machine, engine) && machine.Value() == s && engine.kb.keys.Length == slots
      && StuckKeys.Covered(engine.kb.State(), HeldBy(km, w, s.log))
      && (snaps != [] && snaps[|snaps| - 1] == Blank(rows) && s.buf == [] && Pending(s) == [] ==>
            && (forall k :: 0 <= k < slots ==> engine.kb.keys[k] == NO_KEY)
            && engine.kb.realMods == 0 && engine.kb.weakMods == 0
            && engine.kb.State().LastReport() == KeyboardState.Report(0, []))
    ensures var kb := engine.kb.State();
      kb.LastReport() == KeyboardState.Report(Join(kb.realMods, kb.weakMods), kb.keys)
  {
    hide Keyboard.Valid, Run, Wire, Smooth, AllHandedOver, LogCounted, Submitted, SeenAll, KeysAlternate, AllReleased,
      Changes, NoneDown, Together, Machine.Value, HeldBy, Undoes;
    keyboard := new Keyboard(rows, cols, detect);
    assert keyboard.matrixPrev[..] == Blank(rows);
    var es := Submit(keyboard, snaps, times);
    ValidAlternates(keyboard);
    EventsAlternate(es);
    if snaps != [] && snaps[|snaps| - 1] == Blank(rows) {
      LastSeen(detect, rows, snaps);
      BlankNoneDown(keyboard);
    }
    machine, engine := KeysComeOut(km, slots, rows, cols, term, es);
  }

  lemma LastSeen(detect: bool, n: nat, snaps: seq<seq<Row>>)
    requires (forall i :: 0 <= i < |snaps| ==> |snaps[i]| == n) && snaps != [] && snaps[|snaps| - 1] == Blank(n)
    ensures SeenAll(detect, n, snaps) == Blank(n)
  {
    hide Seen;
    BlankSeen(detect, n, SeenAll(detect, n, snaps[..|snaps| - 1]));
  }
}
