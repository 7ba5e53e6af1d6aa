// The releases the tap/hold machine makes up.
module TappingInvented {
  import opened KeyEvents
  import opened Tapping
  import opened TappingLedger

  ghost predicate PressedBefore(log: seq<Call>, r: Record) {
    exists p :: Process(p, false, false) in log
             && p.event.pressed && p.event.key == r.event.key && p.tap == r.tap
  }

  // Each invented record is the release, tagged alike, of a press of the same
  // key that has been processed.
  ghost predicate Grounded(log: seq<Call>) {
    forall i :: 0 <= i < |log| && log[i].Process? && log[i].invented ==>
      !log[i].rec.event.pressed && log[i].rec.tap.count > 1 && PressedBefore(log[..i], log[i].rec)
  }

  // A key tapped more than once and still down has been processed as such.
  ghost predicate Known(s: State) {
    TkPressed(s) && s.tk.tap.count > 1 ==> Process(s.tk, false, false) in s.log
  }

  predicate Sound(call: Call) { call.Process? ==> !call.invented }

  // log' continues log with calls that are not invented.
  ghost predicate Extends(log: seq<Call>, log': seq<Call>) {
    |log| <= |log'| && log'[..|log|] == log && forall i :: |log| <= i < |log'| ==> Sound(log'[i])
  }

  lemma ExtendsKeeps(log: seq<Call>, log': seq<Call>)
    requires Grounded(log) && Extends(log, log')
    ensures Grounded(log')
    ensures forall call :: call in log ==> call in log'
  {
    assert forall i :: 0 <= i < |log| ==> log'[..i] == log[..i] && log'[i] == log[i];
    forall call | call in log
      ensures call in log'
    {
      var i :| 0 <= i < |log| && log[i] == call;
      assert log'[i] == call;
    }
  }

  lemma ActExtends(c: Setup, log: seq<Call>, r: Record)
    ensures Extends(log, Act(c, log, r).0)
  {
  }

  lemma LookupExtends(c: Setup, log: seq<Call>, e: Event)
    ensures Extends(log, IsTapKey(c, log, e).0)
  {
  }

  lemma ExtendsTrans(a: seq<Call>, b: seq<Call>, d: seq<Call>)
    requires Extends(a, b) && Extends(b, d)
    ensures Extends(a, d)
  {
    assert d[..|a|] == b[..|a|];
  }

  lemma InventedGrounded(s: State, e: Event)
    requires Grounded(s.log) && Known(s) && TkPressed(s) && s.tk.tap.count > 1
    ensures Grounded(s.log + [Invented(s.tk, e)])
  {
    var log := s.log + [Invented(s.tk, e)];
    assert log[..|s.log|] == s.log;
    assert PressedBefore(s.log, Invented(s.tk, e).rec);
    assert forall i :: 0 <= i < |s.log| ==> log[..i] == s.log[..i];
  }

  lemma ScanExtends(c: Setup, s: State)
    ensures Extends(s.log, ScanTap(c, s).log)
    ensures s.tk.tap.count <= 1 ==> ScanTap(c, s).tk.tap.count <= 1
  {
    hide FindRelease;
  }

  // Outside WhileTapped every call appended is a genuine one, and a key that
  // becomes the tapping key with a count above one was processed with it.
  lemma ProcessExtends(c: Setup, s: State, k: Record)
    requires Inv(s) && CanEnter(k) && Known(s)
    requires !(TkPressed(s) && s.tk.tap.count > 0)
    ensures var o := ProcessTapping(c, s, k); Extends(s.log, o.s.log) && Known(o.s)
  {
    hide Extends, ScanTap, Typed, Diff;
    var (log, _) := IsTapKey(c, s.log, k.event);
    LookupExtends(c, s.log, k.event);
    ActExtends(c, log, k);
    ExtendsTrans(s.log, log, Act(c, log, k).0);
    ActExtends(c, s.log, k);
    ActExtends(c, s.log, s.tk);
    ActExtends(c, s.log, s.tk.(tap := s.tk.tap.(count := 1)));
    LookupOnly(s.log, k.event);
    ExtendsTrans(s.log, s.log, s.log);
    ActExtends(c, s.log + [Lookup(k.event)], k);
    ExtendsTrans(s.log, s.log + [Lookup(k.event)], Act(c, s.log + [Lookup(k.event)], k).0);
    ScanExtends(c, State(k, s.buf, log));
    ExtendsTrans(s.log, log, ScanTap(c, State(k, s.buf, log)).log);
    var n := if s.tk.tap.count < MAX_TAPS then s.tk.tap.count + 1 else s.tk.tap.count;
    ActExtends(c, s.log, k.(tap := s.tk.tap.(count := n)));
  }

  lemma LookupOnly(log: seq<Call>, e: Event)
    ensures Extends(log, log + [Lookup(e)]) && Extends(log, log)
  {
  }

  lemma WhileTappedGrounded(c: Setup, s: State, k: Record)
    requires Inv(s) && CanEnter(k) && Known(s) && Grounded(s.log) && TkPressed(s) && s.tk.tap.count > 0
    ensures var o := WhileTapped(c, s, k); Grounded(o.s.log) && Known(o.s)
  {
    hide Extends, ScanTap, Grounded;
    var (log, isTap) := IsTapKey(c, s.log, k.event);
    LookupExtends(c, s.log, k.event);
    ExtendsKeeps(s.log, log);
    if isTap && k.event.pressed {
      var log' := if s.tk.tap.count > 1 then log + [Invented(s.tk, k.event)] else log;
      if s.tk.tap.count > 1 {
        InventedGrounded(s.(log := log), k.event);
      }
      ScanExtends(c, State(k, s.buf, log'));
      ExtendsKeeps(log', ScanTap(c, State(k, s.buf, log')).log);
    } else {
      ActExtends(c, log, k);
      ExtendsKeeps(log, Act(c, log, k).0);
    }
  }

  lemma ProcessGrounded(c: Setup, s: State, k: Record)
    requires Inv(s) && CanEnter(k) && Known(s) && Grounded(s.log)
    ensures var o := ProcessTapping(c, s, k); Grounded(o.s.log) && Known(o.s)
  {
    hide Extends, ScanTap, Grounded, WhileTapped, Undecided, Diff;
    if TkPressed(s) && s.tk.tap.count > 0 {
      WhileTappedGrounded(c, s, k);
      ActExtends(c, s.log, k.(tap := s.tk.tap));
      ExtendsKeeps(s.log, Act(c, s.log, k.(tap := s.tk.tap)).0);
    } else {
      ProcessExtends(c, s, k);
      ExtendsKeeps(s.log, ProcessTapping(c, s, k).s.log);
    }
  }

  lemma {:induction false} DrainGrounded(c: Setup, s: State)
    requires Inv(s) && Known(s) && Grounded(s.log)
    ensures Grounded(Drain(c, s).log) && Known(Drain(c, s))
    decreases |s.buf|
  {
    hide Grounded, ProcessTapping;
    if s.buf != [] {
      var o := ProcessTapping(c, s, s.buf[0]);
      ProcessKeepsInv(c, s, s.buf[0]);
      ProcessGrounded(c, s, s.buf[0]);
      if o.done {
        DrainGrounded(c, o.s.(buf := o.s.buf[1..]));
      }
    }
  }

  lemma EnqueueGrounded(s: State, r: Record)
    requires Known(s) && Grounded(s.log)
    ensures Grounded(Enqueue(s, r).log) && Known(Enqueue(s, r))
  {
    hide Grounded, Events;
    var lost := Pending(s) + Events(s.buf) + [r.event];
    ExtendsKeeps(s.log, s.log + [Overflow(lost)]);
  }

  // Over every run the machine invents nothing but releases of keys it has
  // processed a press of, with that press's tap count.
  lemma {:induction false} OnlyReleasesInvented(c: Setup, s: State, es: seq<Event>)
    requires Inv(s) && Inputs(es) && Known(s) && Grounded(s.log)
    ensures Grounded(Run(c, s, es).log) && Known(Run(c, s, es))
    decreases |es|
  {
    hide Grounded, Known, ProcessTapping, Drain, Enqueue;
    if es != [] {
      var o := ProcessTapping(c, s, Fresh(es[0]));
      ProcessKeepsInv(c, s, Fresh(es[0]));
      ProcessGrounded(c, s, Fresh(es[0]));
      EnqueueGrounded(o.s, o.rec);
      StepAccounts(c, s, es[0], es[0]);
      if o.done {
        DrainGrounded(c, o.s);
      } else {
        EnqueueAccounts(o.s, o.rec, es[0]);
        DrainGrounded(c, Enqueue(o.s, o.rec));
      }
      OnlyReleasesInvented(c, Step(c, s, es[0]), es[1..]);
    }
  }
}
