// action_tapping.c as written: a tapping_key updated in place, an eight-slot
// circular waiting buffer, and records processed through a pointer that may
// point into that buffer.
module TappingMachine {
  import opened KeyEvents
  import opened Tapping

  const WAITING_BUFFER_SIZE: nat := 8

  function Next(i: nat): nat { (i + 1) % WAITING_BUFFER_SIZE }

  // The slots of a ring from tail up to head.
  function Slice(s: seq<Record>, tail: nat, head: nat): (q: seq<Record>)
    requires |s| == WAITING_BUFFER_SIZE && tail < |s| && head < |s|
    ensures |q| == if tail <= head then head - tail else head + |s| - tail
    ensures forall k :: 0 <= k < |q| ==> q[k] == s[(tail + k) % WAITING_BUFFER_SIZE]
  {
    if tail <= head then s[tail..head] else s[tail..] + s[..head]
  }

  lemma SliceSet(s: seq<Record>, tail: nat, head: nat, k: nat, r: Record)
    requires |s| == WAITING_BUFFER_SIZE && tail < |s| && head < |s|
    requires k < |Slice(s, tail, head)|
    ensures Slice(s[(tail + k) % WAITING_BUFFER_SIZE := r], tail, head) == Slice(s, tail, head)[k := r]
  {
  }

  lemma SlicePush(s: seq<Record>, tail: nat, head: nat, r: Record)
    requires |s| == WAITING_BUFFER_SIZE && tail < |s| && head < |s| && Next(head) != tail
    ensures Slice(s[head := r], tail, Next(head)) == Slice(s, tail, head) + [r]
  {
  }

  lemma SlicePop(s: seq<Record>, tail: nat, head: nat)
    requires |s| == WAITING_BUFFER_SIZE && tail < |s| && head < |s| && head != tail
    ensures Slice(s, Next(tail), head) == Slice(s, tail, head)[1..]
  {
  }

  class Machine {
    const c: Setup
    const waiting: array<Record>
    var tappingKey: Record
    var head: nat
    var tail: nat
    // Every call made to the action layer, which answers by c.
    var log: seq<Call>

    predicate Valid()
      reads this`head, this`tail
    {
      waiting.Length == WAITING_BUFFER_SIZE && head < waiting.Length && tail < waiting.Length
    }

    function Queue(): seq<Record>
      requires Valid()
      reads this`head, this`tail, waiting
    {
      Slice(waiting[..], tail, head)
    }

    function Value(): State
      requires Valid()
      reads this, waiting
    {
      State(tappingKey, Queue(), log)
    }

    constructor (c: Setup)
      ensures Valid() && fresh(waiting) && this.c == c && Value() == IDLE
    {
      this.c := c;
      waiting := new Record[8](_ => NO_RECORD);
      tappingKey, head, tail, log := NO_RECORD, 0, 0, [];
    }

    method ProcessAction(r: Record) returns (r': Record)
      modifies this`log
      ensures (log, r') == Act(c, old(log), r)
    {
      r' := r;
      if NoEvent(r.event) { return; }
      var cancelled := r.event.pressed && r.tap.count > 0 && r.tap.interrupted && c.cancels(log, r);
      log := log + [Process(r, false, cancelled)];
      if cancelled {
        r' := r.(tap := r.tap.(count := 0));
      }
    }

    method IsTapKeyEvent(e: Event) returns (b: bool)
      modifies this`log
      ensures (log, b) == IsTapKey(c, old(log), e)
    {
      if NoEvent(e) { return false; }
      b := c.isTap(log, e);
      log := log + [Lookup(e)];
    }

    method WaitingBufferTyped(e: Event) returns (b: bool)
      requires Valid()
      ensures b == Typed(Queue(), e)
    {
      hide Slice;
      ghost var q := Queue();
      var i := tail;
      ghost var k := 0;
      while i != head
        invariant 0 <= k <= |q| && i == (tail + k) % WAITING_BUFFER_SIZE
        invariant forall j :: 0 <= j < k ==> !(q[j].event.key == e.key && q[j].event.pressed != e.pressed)
        decreases |q| - k
      {
        assert waiting[i] == q[k];
        if e.key == waiting[i].event.key && e.pressed != waiting[i].event.pressed {
          return true;
        }
        i := Next(i);
        k := k + 1;
      }
      return false;
    }

    method WaitingBufferScanTap()
      requires Valid()
      modifies this`tappingKey, this`log, waiting
      ensures Valid() && Value() == ScanTap(c, old(Value()))
    {
      hide FindRelease, Slice, Diff, Act;
      if tappingKey.tap.count > 0 { return; }
      if !tappingKey.event.pressed { return; }
      ghost var q := Queue();
      var i := tail;
      ghost var k := 0;
      while i != head
        invariant 0 <= k <= |q| && i == (tail + k) % WAITING_BUFFER_SIZE
        invariant forall j :: 0 <= j < k ==> !Settles(c, tappingKey, q[j])
        decreases |q| - k
      {
        assert waiting[i] == q[k];
        if Real(tappingKey.event) && tappingKey.event.key == waiting[i].event.key
           && !waiting[i].event.pressed && Within(c, waiting[i].event, tappingKey) {
          FirstRelease(c, tappingKey, q, k);
          TagTap(i, k);
          return;
        }
        i := Next(i);
        k := k + 1;
      }
      FirstRelease(c, tappingKey, q, k);
    }

    // The tapping key and the release waiting in slot i, the k-th of the queue,
    // become a tap.
    method TagTap(i: nat, ghost k: nat)
      requires Valid() && k < |Queue()| && i == (tail + k) % WAITING_BUFFER_SIZE
      requires tappingKey.tap.count == 0 && tappingKey.event.pressed && k == FindRelease(c, tappingKey, Queue())
      modifies this`tappingKey, this`log, waiting
      ensures Valid() && Value() == ScanTap(c, old(Value()))
    {
      hide FindRelease, Slice, Act;
      assert waiting[i] == Queue()[k];
      tappingKey := tappingKey.(tap := tappingKey.tap.(count := 1));
      SliceSet(waiting[..], tail, head, k, waiting[i].(tap := waiting[i].tap.(count := 1)));
      waiting[i] := waiting[i].(tap := waiting[i].tap.(count := 1));
      tappingKey := ProcessAction(tappingKey);
    }

    // WaitingBufferScanTap leaves a waiting press alone.
    lemma ScanKeepsPresses(s: State)
      ensures |ScanTap(c, s).buf| == |s.buf|
      ensures forall i :: 0 <= i < |s.buf| && s.buf[i].event.pressed ==> ScanTap(c, s).buf[i] == s.buf[i]
    {
    }

    // keyp is &a[i]: a local record, or the front of the waiting buffer.
    ghost predicate Points(a: array<Record>, i: nat)
      requires Valid()
      reads this`head, this`tail
    {
      i < a.Length && (a == waiting ==> i == tail && head != tail)
    }

    // The state when keyp points into the buffer, given the outcome.
    ghost function After(a: array<Record>, o: Outcome): State
      requires a == waiting ==> o.s.buf != []
    {
      if a == waiting then o.s.(buf := o.s.buf[0 := o.rec]) else o.s
    }

    // `*keyp = ProcessAction(*keyp)`
    method ProcessKey(a: array<Record>, i: nat)
      requires Valid() && Points(a, i)
      modifies this`log, a
      ensures Valid() && a[i] == Act(c, old(log), old(a[i])).1
      ensures Value() == After(a, Outcome(true, old(Value()).(log := Act(c, old(log), old(a[i])).0), a[i]))
    {
      var r := ProcessAction(a[i]);
      if a == waiting { SliceSet(waiting[..], tail, head, 0, r); }
      a[i] := r;
    }

    // The start of a new tap by keyp, which is a press.
    method StartTapping(a: array<Record>, i: nat)
      requires Valid() && Points(a, i) && a[i].event.pressed
      modifies this`tappingKey, this`log, waiting
      ensures Valid() && a[i] == old(a[i])
      ensures Value() == ScanTap(c, old(Value()).(tk := old(a[i])))
      ensures a == waiting ==> Value().buf != [] && Value().buf[0] == a[i]
    {
      hide ScanTap, Slice;
      tappingKey := a[i];
      ScanKeepsPresses(Value());
      assert a == waiting ==> Queue()[0] == a[i];
      WaitingBufferScanTap();
      assert a == waiting ==> Queue()[0] == a[i];
    }

    method ProcessTapping(a: array<Record>, i: nat) returns (done: bool)
      requires Valid() && Points(a, i)
      modifies this`tappingKey, this`log, waiting, a
      ensures Valid()
      ensures var o := Tapping.ProcessTapping(c, old(Value()), old(a[i]));
        |o.s.buf| == |old(Queue())| && done == o.done && a[i] == o.rec && Value() == After(a, o)
    {
      hide ScanTap, Slice, Act, Undecided, WhileTapped, Diff;
      var event := a[i].event;
      if Real(tappingKey.event) && tappingKey.event.pressed {
        if Within(c, event, tappingKey) {
          if tappingKey.tap.count == 0 {
            done := ProcessUndecided(a, i);
          } else if event.key == tappingKey.event.key && !event.pressed {
            ProcessTagged(a, i, tappingKey.tap);
            tappingKey := a[i];
            return true;
          } else {
            done := ProcessWhileTapped(a, i);
          }
        } else if tappingKey.tap.count == 0 {
          tappingKey := ProcessAction(tappingKey);
          tappingKey := NO_RECORD;
          return false;
        } else if event.key == tappingKey.event.key && !event.pressed {
          ProcessTagged(a, i, tappingKey.tap);
          tappingKey := NO_RECORD;
          return true;
        } else {
          done := ProcessWhileTapped(a, i);
        }
      } else if Real(tappingKey.event) {
        done := ProcessReleased(a, i);
      } else {
        var isTap := false;
        if event.pressed {
          isTap := IsTapKeyEvent(event);
        }
        if isTap {
          StartTapping(a, i);
        } else {
          ProcessKey(a, i);
        }
        return true;
      }
    }

    method SetTap(a: array<Record>, i: nat, tap: Tap)
      requires Valid() && Points(a, i)
      modifies a
      ensures Valid() && a[i] == old(a[i]).(tap := tap)
      ensures Value() == After(a, Outcome(true, old(Value()), a[i]))
    {
      if a == waiting { SliceSet(waiting[..], tail, head, 0, a[i].(tap := tap)); }
      a[i] := a[i].(tap := tap);
    }

    method ProcessTagged(a: array<Record>, i: nat, tap: Tap)
      requires Valid() && Points(a, i)
      modifies this`log, a
      ensures Valid()
      ensures var (log', r) := Act(c, old(log), old(a[i]).(tap := tap));
        log == log' && a[i] == r && Value() == After(a, Outcome(true, old(Value()).(log := log'), r))
    {
      hide Act, Slice;
      SetTap(a, i, tap);
      ProcessKey(a, i);
    }

    method ProcessUndecided(a: array<Record>, i: nat) returns (done: bool)
      requires Valid() && Points(a, i)
      modifies this`tappingKey, this`log, a
      ensures Valid()
      ensures var o := Undecided(c, old(Value()), old(a[i]));
        |o.s.buf| == |old(Queue())| && done == o.done && a[i] == o.rec && Value() == After(a, o)
    {
      hide Slice, Act, Typed, Diff;
      var event := a[i].event;
      if event.key == tappingKey.event.key && !event.pressed {
        tappingKey := tappingKey.(tap := tappingKey.tap.(count := 1));
        tappingKey := ProcessAction(tappingKey);
        SetTap(a, i, tappingKey.tap);
        return false;
      }
      var typed := WaitingBufferTyped(event);
      if c.term >= 500 && Real(event) && !event.pressed && typed {
        tappingKey := ProcessAction(tappingKey);
        tappingKey := NO_RECORD;
        return false;
      } else if Real(event) && !event.pressed && !typed {
        var keeps := c.keepsMods(log, a[i]);
        log := log + [Lookup(event)];
        if keeps { return false; }
        ProcessKey(a, i);
        return true;
      } else {
        if event.pressed {
          tappingKey := tappingKey.(tap := tappingKey.tap.(interrupted := true));
        }
        return false;
      }
    }

    method ProcessWhileTapped(a: array<Record>, i: nat) returns (done: bool)
      requires Valid() && Points(a, i)
      modifies this`tappingKey, this`log, waiting, a
      ensures Valid()
      ensures var o := WhileTapped(c, old(Value()), old(a[i]));
        |o.s.buf| == |old(Queue())| && done == o.done && a[i] == o.rec && Value() == After(a, o)
    {
      hide ScanTap, Slice, Act, Diff;
      var event := a[i].event;
      var isTap := IsTapKeyEvent(event);
      if isTap && event.pressed {
        if tappingKey.tap.count > 1 {
          log := log + [Invented(tappingKey, event)];
        }
        StartTapping(a, i);
      } else {
        ProcessKey(a, i);
      }
      return true;
    }

    method ProcessReleased(a: array<Record>, i: nat) returns (done: bool)
      requires Valid() && Points(a, i)
      requires Real(tappingKey.event) && !tappingKey.event.pressed
      modifies this`tappingKey, this`log, waiting, a
      ensures Valid()
      ensures var o := Tapping.ProcessTapping(c, old(Value()), old(a[i]));
        |o.s.buf| == |old(Queue())| && done == o.done && a[i] == o.rec && Value() == After(a, o)
    {
      hide ScanTap, Slice, Act, Undecided, WhileTapped, Diff;
      var event := a[i].event;
      if !Within(c, event, tappingKey) {
        tappingKey := NO_RECORD;
        return false;
      }
      if event.pressed {
        if event.key == tappingKey.event.key {
          if !tappingKey.tap.interrupted && tappingKey.tap.count > 0 {
            var n := tappingKey.tap.count;
            if n < MAX_TAPS { n := n + 1; }
            ProcessTagged(a, i, tappingKey.tap.(count := n));
            tappingKey := a[i];
          } else {
            tappingKey := a[i];
          }
        } else {
          var isTap := IsTapKeyEvent(event);
          if isTap {
            StartTapping(a, i);
          } else {
            tappingKey := tappingKey.(tap := tappingKey.tap.(interrupted := true));
            ProcessKey(a, i);
          }
        }
      } else {
        ProcessKey(a, i);
      }
      return true;
    }

    method WaitingBufferEnq(r: Record) returns (ok: bool)
      requires Valid()
      modifies this`head, waiting
      ensures Valid()
      ensures ok <==> NoEvent(r.event) || |old(Queue())| < CAPACITY
      ensures Value() == if ok then Enqueue(old(Value()), r) else old(Value())
    {
      if NoEvent(r.event) { return true; }
      if Next(head) == tail { return false; }
      SlicePush(waiting[..], tail, head, r);
      waiting[head] := r;
      head := Next(head);
      return true;
    }

    // Processes waiting records from the front until one has to wait.
    method DrainWaiting()
      requires Valid()
      modifies this`tappingKey, this`log, this`tail, waiting
      ensures Valid() && Value() == Drain(c, old(Value()))
    {
      hide Tapping.ProcessTapping, Slice, Drain;
      ghost var start := Value();
      while tail != head
        invariant Valid() && Drain(c, Value()) == Drain(c, start)
        decreases |Queue()|
      {
        DrainStep(c, Value());
        var done := ProcessTapping(waiting, tail);
        if !done { break; }
        SlicePop(waiting[..], tail, head);
        tail := Next(tail);
      }
      DrainStep(c, Value());
    }

    // action_tapping_process
    method ActionTappingProcess(event: Event)
      requires Valid()
      modifies this, waiting
      ensures Valid() && Value() == Step(c, old(Value()), event)
    {
      hide Tapping.ProcessTapping, Slice, Drain;
      var record := new Record[1](_ => Fresh(event));
      var done := ProcessTapping(record, 0);
      if !done {
        var dropped := Pending(Value()) + Events(Queue()) + [record[0].event];
        var ok := WaitingBufferEnq(record[0]);
        if !ok {
          log := log + [Overflow(dropped)];
          head, tail := 0, 0;
          tappingKey := NO_RECORD;
        }
      }
      DrainWaiting();
    }
  }

  lemma DrainStep(c: Setup, s: State)
    ensures s.buf == [] ==> Drain(c, s) == s
    ensures s.buf != [] ==> var o := Tapping.ProcessTapping(c, s, s.buf[0]);
      |o.s.buf| == |s.buf| && Drain(c, s) == if o.done then Drain(c, o.s.(buf := o.s.buf[1..]))
                                             else o.s.(buf := o.s.buf[0 := o.rec])
  {
    hide Tapping.ProcessTapping;
    if s.buf != [] {
      KeepsLength(c, s, s.buf[0]);
    }
  }

  lemma {:induction false} FirstRelease(c: Setup, tk: Record, q: seq<Record>, k: nat)
    requires k <= |q| && (forall j :: 0 <= j < k ==> !Settles(c, tk, q[j]))
    requires k < |q| ==> Settles(c, tk, q[k])
    ensures FindRelease(c, tk, q) == k
  {
  }
}
