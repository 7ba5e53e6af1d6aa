// What the action layer can rely on: the calls of a run in which no event
// clashes with a waiting one of its key are paired key by key, a release
// carrying a tap count exactly if its press was a tap.
module KeyPairs {
  import opened KeyEvents
  import opened Tapping
  import opened TappingLedger
  import opened KeyOrder

  // What the action layer last did for a key.  A cancelled tap will be
  // processed again.
  datatype Mode = Up | Down(tapped: bool, again: bool)

  function ModeOf(log: seq<Call>, key: KeyPos): Mode {
    if log == [] then Up
    else ModeAfter(ModeOf(log[..|log| - 1], key), log[|log| - 1], key)
  }

  function ModeAfter(m: Mode, call: Call, key: KeyPos): Mode {
    match call
    case Process(r, _, cancelled) =>
      if r.event.key != key then m
      else if r.event.pressed then Down(r.tap.count > 0 && !cancelled, cancelled)
      else Up
    case Lookup(_) => m
    case Overflow(_) => Up
  }

  // The action layer turns this interrupted tap into a hold.
  predicate Cancels(c: Setup, log: seq<Call>, r: Record) {
    r.event.pressed && r.tap.count > 0 && r.tap.interrupted && c.cancels(log, r)
  }

  predicate Allowed(c: Setup, log: seq<Call>, call: Call) {
    match call
    case Process(r, invented, cancelled) =>
      var m := ModeOf(log, r.event.key);
      && Real(r.event) && cancelled == Cancels(c, log, r)
      && (if r.event.pressed then !invented && (m.Up? || (m.again && (r.tap.count == 0 || r.tap.interrupted)))
          else m.Up? || (!m.again && m.tapped == (r.tap.count > 0)))
    case Lookup(e) => Real(e) && (e.pressed ==> ModeOf(log, e.key).Up?)
    case Overflow(_) => true
  }

  // Every call is allowed after those before it.
  predicate Orderly(c: Setup, log: seq<Call>) {
    log == [] || (Orderly(c, log[..|log| - 1]) && Allowed(c, log[..|log| - 1], log[|log| - 1]))
  }

  lemma Snoc(c: Setup, log: seq<Call>, call: Call, key: KeyPos)
    ensures ModeOf(log + [call], key) == ModeAfter(ModeOf(log, key), call, key)
    ensures Orderly(c, log + [call]) <==> Orderly(c, log) && Allowed(c, log, call)
  {
    hide ModeAfter, Allowed;
    assert (log + [call])[..|log|] == log;
  }

  // A key that is down for good has a press as its last settled event.
  lemma {:induction false} LastIsPress(c: Setup, log: seq<Call>, key: KeyPos)
    requires Orderly(c, log) && ModeOf(log, key).Down? && !ModeOf(log, key).again
    ensures var s := SettledOf(log, key); s != [] && s[|s| - 1].pressed
    decreases |log|
  {
    hide Of;
    var front, call := log[..|log| - 1], log[|log| - 1];
    if !(call.Process? && call.rec.event.key == key) {
      LastIsPress(c, front, key);
    }
  }

  // The waiting records of one key.
  function RecsOf(buf: seq<Record>, key: KeyPos): seq<Record> {
    if buf == [] then [] else RecsOf(buf[..|buf| - 1], key) + OneRec(buf[|buf| - 1], key)
  }

  function OneRec(r: Record, key: KeyPos): seq<Record> { if r.event.key == key then [r] else [] }

  lemma {:induction false} RecsConcat(a: seq<Record>, b: seq<Record>, key: KeyPos)
    ensures RecsOf(a + b, key) == RecsOf(a, key) + RecsOf(b, key)
    decreases |b|
  {
    if b == [] {
      assert a + b == a;
    } else {
      assert (a + b)[..|a + b| - 1] == a + b[..|b| - 1];
      RecsConcat(a, b[..|b| - 1], key);
    }
  }

  lemma RecsOne(r: Record, key: KeyPos)
    ensures RecsOf([r], key) == OneRec(r, key)
  {
    assert [r][..0] == [] && RecsOf([], key) == [];
  }

  lemma RecsCons(buf: seq<Record>, key: KeyPos)
    requires buf != []
    ensures RecsOf(buf, key) == OneRec(buf[0], key) + RecsOf(buf[1..], key)
  {
    hide RecsOf;
    assert buf == [buf[0]] + buf[1..];
    RecsConcat([buf[0]], buf[1..], key);
    RecsOne(buf[0], key);
  }

  lemma {:induction false} RecsEvents(buf: seq<Record>, key: KeyPos)
    ensures Of(Events(buf), key) == Events(RecsOf(buf, key))
    decreases |buf|
  {
    if buf != [] {
      var front := buf[..|buf| - 1];
      RecsEvents(front, key);
      assert Events(buf)[..|buf| - 1] == Events(front);
      assert Events(RecsOf(front, key) + OneRec(buf[|buf| - 1], key)) ==
             Events(RecsOf(front, key)) + Events(OneRec(buf[|buf| - 1], key));
      assert Events(OneRec(buf[|buf| - 1], key)) == One(buf[|buf| - 1].event, key);
    }
  }

  lemma NoneRec(key: KeyPos)
    ensures RecsOf([], key) == []
  {
  }

  // The position of a key's first waiting record.
  lemma {:induction false} FirstRec(buf: seq<Record>, key: KeyPos) returns (j: nat)
    requires RecsOf(buf, key) != []
    ensures j < |buf| && buf[j] == RecsOf(buf, key)[0] && buf[j].event.key == key
    ensures forall i :: 0 <= i < j ==> buf[i].event.key != key
    ensures RecsOf(buf[..j], key) == []
    decreases |buf|
  {
    hide RecsOf;
    NoneRec(key);
    RecsCons(buf, key);
    if buf[0].event.key == key {
      j := 0;
      assert buf[..0] == [];
    } else {
      var k := FirstRec(buf[1..], key);
      j := k + 1;
      forall i | 0 <= i < j
        ensures buf[i].event.key != key
      {
        if i > 0 { assert buf[i] == buf[1..][i - 1]; }
      }
      assert buf[..j][1..] == buf[1..][..k];
      RecsCons(buf[..j], key);
    }
  }

  lemma {:induction false} NoRecs(buf: seq<Record>, key: KeyPos)
    requires RecsOf(buf, key) == []
    ensures forall i :: 0 <= i < |buf| ==> buf[i].event.key != key
    decreases |buf|
  {
    if buf != [] {
      RecsCons(buf, key);
      NoRecs(buf[1..], key);
    }
  }

  predicate Taps(tk: Record, key: KeyPos) {
    Real(tk.event) && tk.event.pressed && tk.event.key == key && tk.tap.count > 0
  }

  predicate Pends(tk: Record, key: KeyPos) {
    Real(tk.event) && tk.event.pressed && tk.event.key == key && tk.tap.count == 0
  }

  // How the tap counts of a key's waiting records v go with what the action
  // layer last did for it.
  predicate KeyOk(tk: Record, m: Mode, v: seq<Record>, key: KeyPos) {
    && (Taps(tk, key) ==> m == Down(true, false)
                          && (tk.tap.count == 1 ==> v != [] && v[0].tap.count > 0)
                          && (tk.tap.count > 1 ==> Untagged(v)))
    && (m.Down? && m.tapped ==> Taps(tk, key) || (v != [] && v[0].tap.count > 0))
    && (forall i :: 0 <= i < |v| && v[i].tap.count > 0 ==> i == 0 && m == Down(true, false))
    && (m.Down? && m.again ==> !m.tapped && Pends(tk, key) && tk.tap.interrupted)
  }

  predicate Untagged(v: seq<Record>) { forall i :: 0 <= i < |v| ==> v[i].tap.count == 0 }

  predicate Alternates(es: seq<Event>) {
    forall i :: 0 <= i < |es| ==> es[i].pressed == (i % 2 == 0)
  }

  // q is what the key has pending and waiting: presses and releases alternate,
  // and a press comes first only if the key is up.
  predicate Turn(m: Mode, q: seq<Event>) {
    && (q != [] && q[0].pressed ==> m.Up? || m.again)
    && (forall i :: 0 < i < |q| ==> q[i].pressed != q[i - 1].pressed)
  }

  lemma AlternatesSplit(a: seq<Event>, q: seq<Event>)
    requires Alternates(a + q)
    ensures q != [] && q[0].pressed && a != [] ==> !a[|a| - 1].pressed
    ensures forall i :: 0 < i < |q| ==> q[i].pressed != q[i - 1].pressed
  {
    var s := a + q;
    forall i | 0 < i < |q|
      ensures q[i].pressed != q[i - 1].pressed
    {
      assert q[i] == s[|a| + i] && q[i - 1] == s[|a| + i - 1];
    }
    if q != [] && a != [] {
      assert q[0] == s[|a|] && a[|a| - 1] == s[|a| - 1];
    }
  }

  lemma TurnFrom(c: Setup, log: seq<Call>, key: KeyPos, q: seq<Event>)
    requires Orderly(c, log) && Alternates(SettledOf(log, key) + q)
    ensures Turn(ModeOf(log, key), q)
  {
    hide Orderly, ModeOf, SettledOf, Alternates;
    AlternatesSplit(SettledOf(log, key), q);
    if ModeOf(log, key).Down? && !ModeOf(log, key).again {
      LastIsPress(c, log, key);
    }
  }

  // ----- process_action -----

  function Canceled(c: Setup, log: seq<Call>, r: Record): Record {
    if Cancels(c, log, r) then r.(tap := r.tap.(count := 0)) else r
  }

  lemma ActIs(c: Setup, log: seq<Call>, r: Record, key: KeyPos)
    requires Real(r.event)
    ensures var call := Process(r, false, Cancels(c, log, r));
      && Act(c, log, r) == (log + [call], Canceled(c, log, r))
      && ModeOf(log + [call], key) == ModeAfter(ModeOf(log, key), call, key)
      && (Orderly(c, log + [call]) <==> Orderly(c, log) && Allowed(c, log, call))
  {
    hide ModeOf, Orderly, Allowed, ModeAfter;
    Snoc(c, log, Process(r, false, Cancels(c, log, r)), key);
  }

  lemma LookupIs(c: Setup, log: seq<Call>, e: Event, key: KeyPos)
    ensures ModeOf(log + [Lookup(e)], key) == ModeOf(log, key)
    ensures Orderly(c, log) && Real(e) && (e.pressed ==> ModeOf(log, e.key).Up?) ==> Orderly(c, log + [Lookup(e)])
  {
    hide ModeOf, Orderly;
    Snoc(c, log, Lookup(e), key);
  }

  // What one call needs of the key it is for.
  lemma GiveAllowed(c: Setup, tk: Record, log: seq<Call>, k: Record, w: seq<Record>)
    requires Orderly(c, log) && Real(k.event) && (k.event.pressed ==> k.tap == NO_TAP)
    requires KeyOk(tk, ModeOf(log, k.event.key), w, k.event.key) && w != [] && w[0] == k
    requires !Taps(tk, k.event.key) && !Pends(tk, k.event.key)
    requires k.event.pressed ==> ModeOf(log, k.event.key).Up? || ModeOf(log, k.event.key).again
    ensures Orderly(c, Act(c, log, k).0)
  {
    hide ModeOf, Orderly;
    ActIs(c, log, k, k.event.key);
  }

  // A record given to the action layer leaves its key and every other in order.
  lemma GiveKeeps(c: Setup, tk: Record, log: seq<Call>, k: Record, key: KeyPos, v: seq<Record>)
    requires Real(k.event) && (k.event.pressed ==> k.tap == NO_TAP)
    requires KeyOk(tk, ModeOf(log, key), v, key)
    requires k.event.key == key ==>
               && v != [] && v[0] == k && !Taps(tk, key) && !Pends(tk, key)
               && (k.event.pressed ==> ModeOf(log, key).Up? || ModeOf(log, key).again)
    ensures KeyOk(tk, ModeOf(Act(c, log, k).0, key), if k.event.key == key then v[1..] else v, key)
    ensures Act(c, log, k).1 == k
  {
    hide ModeOf, Orderly;
    ActIs(c, log, k, key);
  }

  // ----- waiting_buffer_scan_tap -----

  function TagFirst(v: seq<Record>): seq<Record> {
    if v == [] then [] else [v[0].(tap := v[0].tap.(count := 1))] + v[1..]
  }

  // Waiting events come in clock order after e, less than a turn of the clock.
  predicate ClockFrom(t: nat, buf: seq<Record>) {
    forall i, j :: 0 <= i < j < |buf| ==> Diff(buf[i].event.time, t) <= Diff(buf[j].event.time, t)
  }

  // The settling release the scan finds is the first waiting event of the key.
  lemma ScanFinds(c: Setup, k: Record, buf: seq<Record>)
    requires Real(k.event) && k.event.pressed && ClockFrom(k.event.time, buf)
    requires RecsOf(buf, k.event.key) != [] ==> !RecsOf(buf, k.event.key)[0].event.pressed
    ensures var i := FindRelease(c, k, buf);
      i < |buf| ==> RecsOf(buf[..i], k.event.key) == [] && RecsOf(buf, k.event.key) != []
  {
    hide RecsOf, Diff;
    var i, key := FindRelease(c, k, buf), k.event.key;
    if i < |buf| {
      if RecsOf(buf, key) == [] {
        NoRecs(buf, key);
        assert false;
      }
      var j := FirstRec(buf, key);
    }
  }

  lemma RecsSet(buf: seq<Record>, i: nat, r: Record, key: KeyPos)
    requires i < |buf| && r.event == buf[i].event
    ensures RecsOf(buf[i := r], key) == RecsOf(buf[..i], key) + OneRec(r, key) + RecsOf(buf[i + 1..], key)
  {
    hide RecsOf;
    var a, b := buf[..i], buf[i + 1..];
    assert buf[i := r] == a + [r] + b;
    RecsConcat(a + [r], b, key);
    RecsConcat(a, [r], key);
    RecsOne(r, key);
  }

  lemma TagRecs(buf: seq<Record>, i: nat, key: KeyPos)
    requires i < |buf|
    ensures var buf' := buf[i := buf[i].(tap := buf[i].tap.(count := 1))];
      && (buf[i].event.key != key ==> RecsOf(buf', key) == RecsOf(buf, key))
      && (buf[i].event.key == key && RecsOf(buf[..i], key) == [] ==> RecsOf(buf', key) == TagFirst(RecsOf(buf, key)))
  {
    hide RecsOf;
    var r := buf[i].(tap := buf[i].tap.(count := 1));
    RecsSet(buf, i, r, key);
    RecsSet(buf, i, buf[i], key);
    assert buf[i := buf[i]] == buf;
  }

  // A key that starts tapping is pending, or a tap with its release tagged.
  lemma ScanOk(c: Setup, log: seq<Call>, k: Record, buf: seq<Record>, key: KeyPos)
    requires Orderly(c, log) && Waitable(k) && k.event.pressed
    requires ModeOf(log, k.event.key).Up? && ClockFrom(k.event.time, buf)
    requires RecsOf(buf, k.event.key) != [] ==> !RecsOf(buf, k.event.key)[0].event.pressed
    requires KeyOk(k, ModeOf(log, key), RecsOf(buf, key), key)
    ensures var s := ScanTap(c, State(k, buf, log));
      Orderly(c, s.log) && KeyOk(s.tk, ModeOf(s.log, key), RecsOf(s.buf, key), key)
  {
    hide RecsOf, ModeOf, Orderly, FindRelease;
    var i := FindRelease(c, k, buf);
    ScanFinds(c, k, buf);
    if i < |buf| {
      var r := k.(tap := k.tap.(count := 1));
      ActIs(c, log, r, key);
      TagRecs(buf, i, key);
    }
  }

  lemma ScanFront(c: Setup, k: Record, first: Record, rest: seq<Record>, log: seq<Call>)
    requires first.event.pressed
    ensures var s, t := ScanTap(c, State(k, [first] + rest, log)), ScanTap(c, State(k, rest, log));
      s.tk == t.tk && s.log == t.log && s.buf == [first] + t.buf
  {
    hide Settles, Act;
    assert ([first] + rest)[1..] == rest;
    var i := FindRelease(c, k, rest);
    assert !Settles(c, k, first) by { SettlesIsRelease(c, k, first); }
    assert FindRelease(c, k, [first] + rest) == 1 + i;
    if i < |rest| {
      var r := rest[i].(tap := rest[i].tap.(count := 1));
      assert ([first] + rest)[1 + i := r] == [first] + rest[i := r];
    }
  }

  lemma SettlesIsRelease(c: Setup, tk: Record, r: Record)
    ensures Settles(c, tk, r) ==> !r.event.pressed
  {
  }

  // ----- A record that is consumed -----

  // The record comes from the front of the queue (d == 1), or directly with no
  // record of its key waiting (d == 0).
  predicate AtFront(s: State, k: Record, d: nat) {
    && d <= 1
    && (d == 1 ==> s.buf != [] && s.buf[0] == k && ClockFrom(k.event.time, s.buf[1..]))
    && (d == 0 ==> k.tap == NO_TAP && (Real(k.event) ==> RecsOf(s.buf, k.event.key) == []))
  }

  function Front(s: State, k: Record, d: nat, key: KeyPos): seq<Record>
    requires d <= |s.buf|
  {
    (if Real(k.event) then OneRec(k, key) else []) + RecsOf(s.buf[d..], key)
  }

  // What is known of a key before a transition.
  predicate Fact(s: State, v: seq<Record>, key: KeyPos) {
    KeyOk(s.tk, ModeOf(s.log, key), v, key)
    && Turn(ModeOf(s.log, key), Of(Pending(s), key) + Events(v))
  }

  // ... and after one that consumes the record.
  predicate Left(s: State, d: nat, key: KeyPos)
    requires d <= |s.buf|
  {
    KeyOk(s.tk, ModeOf(s.log, key), RecsOf(s.buf[d..], key), key)
  }

  lemma PendingIs(s: State, key: KeyPos)
    ensures Of(Pending(s), key) == if Pends(s.tk, key) then [s.tk.event] else []
  {
    OfPending(s, key);
  }

  lemma FrontIs(s: State, k: Record, d: nat)
    requires AtFront(s, k, d) && Real(k.event)
    ensures Front(s, k, d, k.event.key) == [k] + RecsOf(s.buf[d..], k.event.key)
    ensures forall key :: key != k.event.key ==> Front(s, k, d, key) == RecsOf(s.buf[d..], key)
    ensures d == 1 ==> s.buf == [k] + s.buf[1..]
  {
    hide RecsOf;
  }

  lemma StartOk(c: Setup, s: State, log: seq<Call>, k: Record, d: nat, key: KeyPos)
    requires Orderly(c, log) && Waitable(k) && k.event.pressed && AtFront(s, k, d)
    requires ModeOf(log, k.event.key).Up?
    requires forall i :: 0 < i < |Events(Front(s, k, d, k.event.key))| ==>
               Events(Front(s, k, d, k.event.key))[i].pressed != Events(Front(s, k, d, k.event.key))[i - 1].pressed
    requires KeyOk(k, ModeOf(log, key), RecsOf(s.buf[d..], key), key)
    ensures var s' := ScanTap(c, State(k, s.buf, log));
      |s'.buf| == |s.buf| && Orderly(c, s'.log) && Left(s', d, key)
  {
    hide RecsOf, ModeOf, Orderly, ScanTap, KeyOk;
    FrontIs(s, k, d);
    var rest := s.buf[d..];
    var v := RecsOf(rest, k.event.key);
    if v != [] {
      assert Events([k] + v)[1] == v[0].event && Events([k] + v)[0] == k.event;
    }
    if d == 1 {
      ScanFront(c, k, k, rest, log);
      ScanOk(c, log, k, rest, key);
      var t := ScanTap(c, State(k, rest, log));
      assert ([k] + t.buf)[1..] == t.buf;
      ScanLength(c, State(k, rest, log));
    } else {
      assert s.buf[0..] == s.buf;
      ScanNone(c, k, s.buf, log);
      ScanOkNone(c, log, k, s.buf, key);
    }
  }

  lemma ScanLength(c: Setup, s: State)
    ensures |ScanTap(c, s).buf| == |s.buf|
  {
  }

  // No waiting event of the key: the scan changes nothing.
  lemma ScanNone(c: Setup, k: Record, buf: seq<Record>, log: seq<Call>)
    requires Real(k.event) && RecsOf(buf, k.event.key) == []
    ensures ScanTap(c, State(k, buf, log)) == State(k, buf, log)
  {
    hide RecsOf;
    NoRecs(buf, k.event.key);
  }

  lemma ScanOkNone(c: Setup, log: seq<Call>, k: Record, buf: seq<Record>, key: KeyPos)
    requires KeyOk(k, ModeOf(log, key), RecsOf(buf, key), key)
    requires ScanTap(c, State(k, buf, log)) == State(k, buf, log)
    ensures Left(ScanTap(c, State(k, buf, log)), 0, key)
  {
    hide RecsOf, ModeOf, KeyOk, ScanTap;
    assert buf[0..] == buf;
  }

  // All that is known before a transition with record k at the front.
  ghost predicate Before(c: Setup, s: State, k: Record, d: nat) {
    && Inv(s) && CanEnter(k) && Orderly(c, s.log) && AtFront(s, k, d) && d <= |s.buf|
    && forall key :: key != KeyPos(255, 255) ==> Fact(s, Front(s, k, d, key), key)
  }

  lemma FactOf(c: Setup, s: State, k: Record, d: nat, key: KeyPos)
    requires Before(c, s, k, d) && key != KeyPos(255, 255)
    ensures KeyOk(s.tk, ModeOf(s.log, key), Front(s, k, d, key), key)
    ensures Turn(ModeOf(s.log, key), (if Pends(s.tk, key) then [s.tk.event] else []) + Events(Front(s, k, d, key)))
  {
    hide KeyOk, ModeOf, Front, Turn, Inv, Orderly;
    PendingIs(s, key);
  }

  // What FactOf says of the record's own key, if nothing of it is pending.
  lemma FrontFact(c: Setup, s: State, k: Record, d: nat)
    requires Before(c, s, k, d) && Real(k.event) && !Pends(s.tk, k.event.key)
    ensures k.event.pressed ==> ModeOf(s.log, k.event.key).Up?
    ensures ModeOf(s.log, k.event.key).Down? ==> !ModeOf(s.log, k.event.key).again
    ensures k.event.pressed ==> !Taps(s.tk, k.event.key)
    ensures forall i :: 0 < i < |Events(Front(s, k, d, k.event.key))| ==>
               Events(Front(s, k, d, k.event.key))[i].pressed != Events(Front(s, k, d, k.event.key))[i - 1].pressed
  {
    hide ModeOf, RecsOf, Orderly;
    var v := Front(s, k, d, k.event.key);
    FrontIs(s, k, d);
    FactOf(c, s, k, d, k.event.key);
    assert [] + Events(v) == Events(v) && Events(v)[0] == k.event;
  }

  // Behind the front record of a key nothing is tagged.
  lemma RestUntagged(tk: Record, m: Mode, k: Record, r: seq<Record>, key: KeyPos)
    requires KeyOk(tk, m, [k] + r, key)
    ensures Untagged(r)
  {
    assert forall i :: 0 <= i < |r| ==> r[i] == ([k] + r)[i + 1];
  }

  // process_action on the record, after a lookup or not.
  lemma GiveFront(c: Setup, s: State, k: Record, d: nat, tk: Record, log: seq<Call>, key: KeyPos)
    requires Before(c, s, k, d) && Real(k.event) && key != KeyPos(255, 255)
    requires !Pends(s.tk, k.event.key) && !Taps(s.tk, k.event.key)
    requires log == s.log || log == s.log + [Lookup(k.event)]
    requires tk == s.tk || tk == s.tk.(tap := s.tk.tap.(interrupted := true))
    ensures var (log', k') := Act(c, log, k);
      k' == k && Orderly(c, log') && KeyOk(tk, ModeOf(log', key), RecsOf(s.buf[d..], key), key)
  {
    hide ModeOf, RecsOf, Orderly;
    FrontFact(c, s, k, d);
    FrontIs(s, k, d);
    FactOf(c, s, k, d, k.event.key);
    FactOf(c, s, k, d, key);
    LookupIs(c, s.log, k.event, k.event.key);
    LookupIs(c, s.log, k.event, key);
    assert KeyOk(tk, ModeOf(log, key), Front(s, k, d, key), key);
    assert KeyOk(tk, ModeOf(log, k.event.key), Front(s, k, d, k.event.key), k.event.key);
    GiveAllowed(c, tk, log, k, Front(s, k, d, k.event.key));
    GiveKeeps(c, tk, log, k, key, Front(s, k, d, key));
    assert ([k] + RecsOf(s.buf[d..], k.event.key))[1..] == RecsOf(s.buf[d..], k.event.key);
  }

  // A press that becomes the pending key takes the place of one that is up.
  lemma NewPending(tk: Record, k: Record, m: Mode, v: seq<Record>, key: KeyPos)
    requires !(Real(tk.event) && tk.event.pressed) && Waitable(k) && k.event.pressed
    requires KeyOk(tk, m, if key == k.event.key then [k] + v else v, key) && (key == k.event.key ==> m.Up?)
    ensures KeyOk(k, m, v, key)
  {
    if key == k.event.key {
      RestUntagged(tk, m, k, v, key);
    }
  }

  // No key is pending: the front record starts to tap after its lookup.
  lemma StartFront(c: Setup, s: State, k: Record, d: nat, key: KeyPos)
    requires Before(c, s, k, d) && Real(k.event) && k.event.pressed && key != KeyPos(255, 255)
    requires !TkPressed(s)
    ensures var s' := ScanTap(c, State(k, s.buf, s.log + [Lookup(k.event)]));
      |s'.buf| == |s.buf| && Orderly(c, s'.log) && Left(s', d, key)
  {
    hide ModeOf, RecsOf, Orderly, ScanTap, KeyOk, Front, Turn, Taps;
    FrontFact(c, s, k, d);
    FrontIs(s, k, d);
    FactOf(c, s, k, d, key);
    LookupIs(c, s.log, k.event, k.event.key);
    LookupIs(c, s.log, k.event, key);
    NewPending(s.tk, k, ModeOf(s.log, key), RecsOf(s.buf[d..], key), key);
    StartOk(c, s, s.log + [Lookup(k.event)], k, d, key);
  }

  lemma IdleLeaves(c: Setup, s: State, k: Record, d: nat, key: KeyPos)
    requires Before(c, s, k, d) && s.tk == NO_RECORD && key != KeyPos(255, 255)
    ensures var o := ProcessTapping(c, s, k);
      |o.s.buf| == |s.buf| && Orderly(c, o.s.log) && Left(o.s, d, key)
  {
    hide ModeOf, RecsOf, Orderly, ScanTap, KeyOk, Act, Front;
    if NoEvent(k.event) {
      NothingLeaves(c, s, k, d, key);
    } else {
      GiveFront(c, s, k, d, s.tk, s.log, key);
      GiveFront(c, s, k, d, s.tk, if k.event.pressed then s.log + [Lookup(k.event)] else s.log, key);
      if k.event.pressed {
        StartFront(c, s, k, d, key);
      }
    }
  }

  lemma NothingLeaves(c: Setup, s: State, k: Record, d: nat, key: KeyPos)
    requires Before(c, s, k, d) && NoEvent(k.event) && key != KeyPos(255, 255)
    ensures Left(s, d, key) && Act(c, s.log, k) == (s.log, k)
    ensures !k.event.pressed
  {
    hide ModeOf, RecsOf, Orderly, KeyOk;
    FactOf(c, s, k, d, key);
    assert [] + RecsOf(s.buf[d..], key) == RecsOf(s.buf[d..], key);
  }

  lemma ReleasedLeaves(c: Setup, s: State, k: Record, d: nat, key: KeyPos)
    requires Before(c, s, k, d) && Real(s.tk.event) && !s.tk.event.pressed && key != KeyPos(255, 255)
    requires ProcessTapping(c, s, k).done
    ensures var o := ProcessTapping(c, s, k);
      |o.s.buf| == |s.buf| && Orderly(c, o.s.log) && Left(o.s, d, key)
  {
    hide ModeOf, RecsOf, Orderly, ScanTap, KeyOk, Act, Front, Diff;
    if NoEvent(k.event) {
      NothingLeaves(c, s, k, d, key);
    } else if k.event.pressed && k.event.key == s.tk.event.key {
      TapAgain(c, s, k, d, key);
    } else {
      var tk := s.tk.(tap := s.tk.tap.(interrupted := true));
      GiveFront(c, s, k, d, if k.event.pressed then tk else s.tk,
                if k.event.pressed then s.log + [Lookup(k.event)] else s.log, key);
      if k.event.pressed {
        StartFront(c, s, k, d, key);
      }
    }
  }

  // A key that is not the tapping key before does not mind which one is after.
  lemma OtherKey(tk: Record, tk': Record, m: Mode, v: seq<Record>, key: KeyPos)
    requires KeyOk(tk, m, v, key)
    requires !Taps(tk, key) && !Pends(tk, key) && !Taps(tk', key)
    ensures KeyOk(tk', m, v, key)
  {
  }

  lemma NewTk(tk: Record, r: seq<Record>, key: KeyPos)
    requires Untagged(r)
    ensures !Taps(tk, key) ==> KeyOk(tk, Up, r, key)
    ensures Taps(tk, key) && tk.tap.count > 1 ==> KeyOk(tk, Down(true, false), r, key)
  {
  }

  // The released key goes down again: the next tap, or a new start.
  lemma TapAgain(c: Setup, s: State, k: Record, d: nat, key: KeyPos)
    requires Before(c, s, k, d) && Real(s.tk.event) && !s.tk.event.pressed && key != KeyPos(255, 255)
    requires k.event.pressed && k.event.key == s.tk.event.key && Within(c, k.event, s.tk) && Real(k.event)
    ensures var o := ProcessTapping(c, s, k);
      |o.s.buf| == |s.buf| && Orderly(c, o.s.log) && Left(o.s, d, key)
  {
    hide ModeOf, RecsOf, Orderly, KeyOk, Diff, Front, Turn, Untagged;
    FrontFact(c, s, k, d);
    FrontIs(s, k, d);
    FactOf(c, s, k, d, key);
    FactOf(c, s, k, d, k.event.key);
    RestUntagged(s.tk, ModeOf(s.log, k.event.key), k, RecsOf(s.buf[d..], k.event.key), k.event.key);
    var n := if s.tk.tap.count < MAX_TAPS then s.tk.tap.count + 1 else s.tk.tap.count;
    var r := k.(tap := s.tk.tap.(count := n));
    var tk := if s.tk.tap.interrupted then k else r;
    if !s.tk.tap.interrupted {
      ActIs(c, s.log, r, key);
      ActIs(c, s.log, r, k.event.key);
    }
    if key == k.event.key {
      NewTk(tk, RecsOf(s.buf[d..], key), key);
    } else {
      OtherKey(s.tk, tk, ModeOf(s.log, key), RecsOf(s.buf[d..], key), key);
    }
  }

  // A tap key goes down while the settled key is down, or an event passes by.
  lemma WhileTappedLeaves(c: Setup, s: State, k: Record, d: nat, key: KeyPos)
    requires Before(c, s, k, d) && TkPressed(s) && s.tk.tap.count > 0 && key != KeyPos(255, 255)
    requires k.event.key == s.tk.event.key ==> k.event.pressed
    ensures var o := WhileTapped(c, s, k);
      |o.s.buf| == |s.buf| && Orderly(c, o.s.log) && Left(o.s, d, key)
  {
    hide ModeOf, RecsOf, Orderly, ScanTap, KeyOk, Act, Front;
    if NoEvent(k.event) {
      NothingLeaves(c, s, k, d, key);
    } else {
      FrontFact(c, s, k, d);
      TappedIsOther(s, k);
      GiveFront(c, s, k, d, s.tk, s.log + [Lookup(k.event)], key);
      if k.event.pressed {
        StartTapped(c, s, k, d, key);
      }
    }
  }

  lemma TappedIsOther(s: State, k: Record)
    requires TkPressed(s) && s.tk.tap.count > 0 && Real(k.event)
    requires k.event.key == s.tk.event.key ==> k.event.pressed
    requires k.event.pressed ==> !Taps(s.tk, k.event.key)
    ensures k.event.key != s.tk.event.key && !Taps(s.tk, k.event.key) && !Pends(s.tk, k.event.key)
  {
  }

  lemma StartTapped(c: Setup, s: State, k: Record, d: nat, key: KeyPos)
    requires Before(c, s, k, d) && TkPressed(s) && s.tk.tap.count > 0 && key != KeyPos(255, 255)
    requires Real(k.event) && k.event.pressed && k.event.key != s.tk.event.key
    ensures var log := s.log + [Lookup(k.event)];
      var s' := ScanTap(c, State(k, s.buf, if s.tk.tap.count > 1 then log + [Invented(s.tk, k.event)] else log));
      |s'.buf| == |s.buf| && Orderly(c, s'.log) && Left(s', d, key)
  {
    hide ModeOf, RecsOf, Orderly, ScanTap, KeyOk, Turn, Front, Untagged;
    var tkKey := s.tk.event.key;
    FrontFact(c, s, k, d);
    FrontIs(s, k, d);
    FactOf(c, s, k, d, key);
    FactOf(c, s, k, d, tkKey);
    var log := s.log + [Lookup(k.event)];
    LookupIs(c, s.log, k.event, k.event.key);
    LookupIs(c, s.log, k.event, key);
    LookupIs(c, s.log, k.event, tkKey);
    TappedAllowed(s.tk, ModeOf(log, tkKey), Front(s, k, d, tkKey));
    Snoc(c, log, Invented(s.tk, k.event), key);
    Snoc(c, log, Invented(s.tk, k.event), k.event.key);
    if key == k.event.key {
      RestUntagged(s.tk, ModeOf(s.log, key), k, RecsOf(s.buf[d..], key), key);
      NewTk(k, RecsOf(s.buf[d..], key), key);
    } else {
      TapLeft(s.tk, k, ModeOf(s.log, key), RecsOf(s.buf[d..], key), key);
    }
    StartOk(c, s, if s.tk.tap.count > 1 then log + [Invented(s.tk, k.event)] else log, k, d, key);
  }

  // The tapping key may be given an invented release.
  lemma TappedAllowed(tk: Record, m: Mode, v: seq<Record>)
    requires KeyOk(tk, m, v, tk.event.key) && Taps(tk, tk.event.key)
    ensures m == Down(true, false)
  {
  }

  // The tapping key gives way to k: after its invented release, or with its own
  // release waiting.
  lemma TapLeft(tk: Record, k: Record, m: Mode, v: seq<Record>, key: KeyPos)
    requires KeyOk(tk, m, v, key) && Real(tk.event) && tk.event.pressed && tk.tap.count > 0
    requires k.event.key != key
    ensures KeyOk(k, if tk.tap.count > 1 && key == tk.event.key then Up else m, v, key)
  {
  }

  // The settled key is released.
  lemma TapEnds(c: Setup, s: State, k: Record, d: nat, key: KeyPos, tk: Record)
    requires Before(c, s, k, d) && TkPressed(s) && s.tk.tap.count > 0 && key != KeyPos(255, 255)
    requires k.event.key == s.tk.event.key && !k.event.pressed && Real(k.event)
    requires Real(tk.event) ==> !tk.event.pressed
    ensures var (log, k') := Act(c, s.log, k.(tap := s.tk.tap));
      k' == k.(tap := s.tk.tap) && Orderly(c, log) && KeyOk(tk, ModeOf(log, key), RecsOf(s.buf[d..], key), key)
  {
    hide ModeOf, RecsOf, Orderly;
    FrontIs(s, k, d);
    FactOf(c, s, k, d, key);
    FactOf(c, s, k, d, k.event.key);
    ActIs(c, s.log, k.(tap := s.tk.tap), key);
    ActIs(c, s.log, k.(tap := s.tk.tap), k.event.key);
    RestUntagged(s.tk, ModeOf(s.log, k.event.key), k, RecsOf(s.buf[d..], k.event.key), k.event.key);
  }

  lemma PressedLeaves(c: Setup, s: State, k: Record, d: nat, key: KeyPos)
    requires Before(c, s, k, d) && TkPressed(s) && key != KeyPos(255, 255)
    requires ProcessTapping(c, s, k).done
    ensures var o := ProcessTapping(c, s, k);
      |o.s.buf| == |s.buf| && Orderly(c, o.s.log) && Left(o.s, d, key)
  {
    hide ModeOf, RecsOf, Orderly, KeyOk, Act, Front, Diff, WhileTapped, Typed;
    if s.tk.tap.count == 0 {
      GiveFront(c, s, k, d, s.tk, s.log + [Lookup(k.event)], key);
    } else if k.event.key == s.tk.event.key && !k.event.pressed {
      TapEnds(c, s, k, d, key, k.(tap := s.tk.tap));
      TapEnds(c, s, k, d, key, NO_RECORD);
    } else {
      WhileTappedLeaves(c, s, k, d, key);
    }
  }

  // A transition that consumes the front record keeps the log orderly and every
  // key's tap counts in step with it.
  lemma ProcessLeaves(c: Setup, s: State, k: Record, d: nat, key: KeyPos)
    requires Before(c, s, k, d) && ProcessTapping(c, s, k).done && key != KeyPos(255, 255)
    ensures var o := ProcessTapping(c, s, k);
      |o.s.buf| == |s.buf| && Orderly(c, o.s.log) && Left(o.s, d, key)
  {
    hide ProcessTapping, Left, Orderly, Before;
    assert Inv(s) by { InvOf(c, s, k, d); }
    if TkPressed(s) {
      PressedLeaves(c, s, k, d, key);
    } else if Real(s.tk.event) {
      ReleasedLeaves(c, s, k, d, key);
    } else {
      IdleLeaves(c, s, k, d, key);
    }
  }

  lemma InvOf(c: Setup, s: State, k: Record, d: nat)
    requires Before(c, s, k, d)
    ensures Inv(s)
  {
  }

  // ----- A record that has to wait -----

  // The release of the undecided key within its term.
  predicate FirstTap(c: Setup, s: State, e: Event) {
    TkPressed(s) && s.tk.tap.count == 0 && Within(c, e, s.tk) && e.key == s.tk.event.key && !e.pressed
  }

  // The pending key is processed, as a hold (n == 0) or as a tap.
  lemma SettlePending(c: Setup, s: State, n: nat, key: KeyPos, v: seq<Record>)
    requires Orderly(c, s.log) && TkPressed(s) && s.tk.tap.count == 0 && n <= 1
    requires KeyOk(s.tk, ModeOf(s.log, key), v, key)
    requires key == s.tk.event.key ==> ModeOf(s.log, key).Up? || ModeOf(s.log, key).again
    ensures var r := s.tk.(tap := s.tk.tap.(count := n)); var (log, tk) := Act(c, s.log, r);
      && tk == Canceled(c, s.log, r)
      && (n == 0 ==> KeyOk(NO_RECORD, ModeOf(log, key), v, key))
      && (n == 1 && (tk.tap.count == 0 || key != s.tk.event.key) ==> KeyOk(tk, ModeOf(log, key), v, key))
      && (n == 1 && tk.tap.count == 1 && key == s.tk.event.key ==> ModeOf(log, key) == Down(true, false))
  {
    hide ModeOf, Orderly;
    var r := s.tk.(tap := s.tk.tap.(count := n));
    ActIs(c, s.log, r, key);
  }

  lemma SettleAllowed(c: Setup, s: State, n: nat, v: seq<Record>)
    requires Orderly(c, s.log) && TkPressed(s) && s.tk.tap.count == 0 && n <= 1
    requires KeyOk(s.tk, ModeOf(s.log, s.tk.event.key), v, s.tk.event.key)
    requires ModeOf(s.log, s.tk.event.key).Up? || ModeOf(s.log, s.tk.event.key).again
    ensures Orderly(c, Act(c, s.log, s.tk.(tap := s.tk.tap.(count := n))).0) && Untagged(v)
  {
    hide ModeOf, Orderly;
    ActIs(c, s.log, s.tk.(tap := s.tk.tap.(count := n)), s.tk.event.key);
  }

  // What the wait leaves of a key's records: the record itself may come back
  // tagged.
  function Back(v: seq<Record>, j: nat, k: Record, r: Record, key: KeyPos): seq<Record>
    requires j < |v| || !(Real(k.event) && k.event.key == key)
  {
    if Real(k.event) && k.event.key == key then v[j := r] else v
  }

  // Before a transition after which record k, the j-th of its key, waits on.
  ghost predicate BeforeWait(c: Setup, s: State, k: Record, v: KeyPos -> seq<Record>, j: nat) {
    && Inv(s) && CanEnter(k) && Orderly(c, s.log)
    && (forall key :: key != KeyPos(255, 255) ==> Fact(s, v(key), key))
    && (Real(k.event) ==> j < |v(k.event.key)| && v(k.event.key)[j] == k)
    && (FirstTap(c, s, k.event) ==> j == 0 || Cancels(c, s.log, s.tk.(tap := s.tk.tap.(count := 1))))
  }

  lemma PendingFact(c: Setup, s: State, k: Record, v: KeyPos -> seq<Record>, j: nat, key: KeyPos)
    requires BeforeWait(c, s, k, v, j) && key != KeyPos(255, 255)
    ensures KeyOk(s.tk, ModeOf(s.log, key), v(key), key)
    ensures Pends(s.tk, key) ==> ModeOf(s.log, key).Up? || ModeOf(s.log, key).again
  {
    hide ModeOf, Orderly, KeyOk, FirstTap, Inv;
    PendingIs(s, key);
    assert Fact(s, v(key), key);
    if Pends(s.tk, key) {
      assert ([s.tk.event] + Events(v(key)))[0] == s.tk.event;
    }
  }

  // The first tap tags the record that completes it.
  lemma TagsBack(tk: Record, v: seq<Record>, j: nat, r: Record, key: KeyPos)
    requires Untagged(v) && j < |v|
    ensures j == 0 && r.tap.count > 0 && tk.tap.count == 1 && Taps(tk, key) ==>
              KeyOk(tk, Down(true, false), v[j := r], key)
    ensures r.tap.count == 0 ==> Untagged(v[j := r])
  {
  }

  // Without tags the waiting records do not matter.
  lemma UntaggedSame(tk: Record, m: Mode, v: seq<Record>, w: seq<Record>, key: KeyPos)
    requires KeyOk(tk, m, v, key) && Untagged(v) && Untagged(w)
    ensures KeyOk(tk, m, w, key)
  {
  }

  lemma FirstTapWaits(c: Setup, s: State, k: Record, v: KeyPos -> seq<Record>, j: nat, key: KeyPos)
    requires BeforeWait(c, s, k, v, j) && key != KeyPos(255, 255) && FirstTap(c, s, k.event)
    ensures var (log, tk) := Act(c, s.log, s.tk.(tap := s.tk.tap.(count := 1)));
      && Real(k.event) && Orderly(c, log)
      && KeyOk(tk, ModeOf(log, key), Back(v(key), j, k, k.(tap := tk.tap), key), key)
  {
    hide ModeOf, Orderly, KeyOk, Untagged, Diff, Fact;
    PendingFact(c, s, k, v, j, key);
    PendingFact(c, s, k, v, j, k.event.key);
    SettlePending(c, s, 1, key, v(key));
    SettleAllowed(c, s, 1, v(k.event.key));
    var (log, tk) := Act(c, s.log, s.tk.(tap := s.tk.tap.(count := 1)));
    if key == k.event.key {
      TagsBack(tk, v(key), j, k.(tap := tk.tap), key);
      if tk.tap.count == 0 {
        UntaggedSame(tk, ModeOf(log, key), v(key), v(key)[j := k.(tap := tk.tap)], key);
      }
    }
  }

  lemma SameBack(c: Setup, s: State, k: Record, v: KeyPos -> seq<Record>, j: nat, key: KeyPos)
    requires BeforeWait(c, s, k, v, j)
    ensures Back(v(key), j, k, k, key) == v(key)
  {
  }

  lemma UndecidedWaits(c: Setup, s: State, k: Record, v: KeyPos -> seq<Record>, j: nat, key: KeyPos)
    requires BeforeWait(c, s, k, v, j) && key != KeyPos(255, 255)
    requires TkPressed(s) && s.tk.tap.count == 0 && !Undecided(c, s, k).done && Within(c, k.event, s.tk)
    ensures var o := Undecided(c, s, k);
      && o.s.buf == s.buf && o.rec.event == k.event && Orderly(c, o.s.log)
      && KeyOk(o.s.tk, ModeOf(o.s.log, key), Back(v(key), j, k, o.rec, key), key)
  {
    hide ModeOf, Orderly, Diff, Typed, KeyOk, Act, Back, Fact;
    PendingFact(c, s, k, v, j, key);
    PendingFact(c, s, k, v, j, s.tk.event.key);
    SameBack(c, s, k, v, j, key);
    if FirstTap(c, s, k.event) {
      FirstTapWaits(c, s, k, v, j, key);
    } else {
      SettlePending(c, s, 0, key, v(key));
      SettleAllowed(c, s, 0, v(s.tk.event.key));
      assert s.tk.(tap := s.tk.tap.(count := 0)) == s.tk;
      LookupIs(c, s.log, k.event, key);
      LookupIs(c, s.log, k.event, k.event.key);
      Interrupts(s.tk, ModeOf(s.log, key), v(key), key);
    }
  }

  lemma Interrupts(tk: Record, m: Mode, v: seq<Record>, key: KeyPos)
    requires KeyOk(tk, m, v, key)
    ensures KeyOk(tk.(tap := tk.tap.(interrupted := true)), m, v, key)
  {
  }

  // A transition after which the record waits on keeps the log orderly and
  // every key's tap counts in step with it.
  lemma ProcessWaits(c: Setup, s: State, k: Record, v: KeyPos -> seq<Record>, j: nat, key: KeyPos)
    requires BeforeWait(c, s, k, v, j) && !ProcessTapping(c, s, k).done && key != KeyPos(255, 255)
    ensures var o := ProcessTapping(c, s, k);
      && o.s.buf == s.buf && o.rec.event == k.event && Orderly(c, o.s.log)
      && KeyOk(o.s.tk, ModeOf(o.s.log, key), Back(v(key), j, k, o.rec, key), key)
  {
    hide ModeOf, Orderly, Diff, KeyOk, Act, Back, Fact, Undecided, WhileTapped, FirstTap;
    PendingFact(c, s, k, v, j, key);
    SameBack(c, s, k, v, j, key);
    if TkPressed(s) {
      if Within(c, k.event, s.tk) && s.tk.tap.count == 0 {
        UndecidedWaits(c, s, k, v, j, key);
      } else if s.tk.tap.count == 0 {
        PendingFact(c, s, k, v, j, s.tk.event.key);
        SettlePending(c, s, 0, key, v(key));
        SettleAllowed(c, s, 0, v(s.tk.event.key));
        assert s.tk.(tap := s.tk.tap.(count := 0)) == s.tk;
      } else {
        WhileTappedDone(c, s, k);
      }
    } else if Real(s.tk.event) {
      ReleasedOver(s.tk, ModeOf(s.log, key), v(key), key);
    }
  }

  lemma WhileTappedDone(c: Setup, s: State, k: Record)
    ensures WhileTapped(c, s, k).done
  {
  }

  lemma ReleasedOver(tk: Record, m: Mode, v: seq<Record>, key: KeyPos)
    requires KeyOk(tk, m, v, key) && !tk.event.pressed
    ensures KeyOk(NO_RECORD, m, v, key)
  {
  }
}
