// What the keyboard report state means: an ordered key list and three
// modifier bytes, with the reports sent so far.  The array-and-ring
// implementation in KeyReport is proved against the operations given here.
module KeyboardState {
  import opened KeyList
  import opened ModBits

  datatype Report = Report(mods: bv8, keys: seq<Code>)

  datatype Kbd = Kbd(cap: nat, keys: seq<Code>, realMods: bv8, weakMods: bv8, oneshotMods: bv8, sent: seq<Report>) {
    ghost predicate Ok() {
      0 < cap && |keys| <= cap && Distinct(keys) && NO_KEY !in keys
    }

    function AddKey(c: Code): Kbd {
      this.(keys := if cap == 0 then keys else Add(keys, c, cap))
    }

    function DelKey(c: Code): Kbd { this.(keys := Del(keys, c)) }

    function ClearKeys(): Kbd { this.(keys := []) }

    function AddMods(m: bv8): Kbd { this.(realMods := Join(realMods, m)) }

    function DelMods(m: bv8): Kbd { this.(realMods := Without(realMods, m)) }

    function AddWeakMods(m: bv8): Kbd { this.(weakMods := Join(weakMods, m)) }

    function DelWeakMods(m: bv8): Kbd { this.(weakMods := Without(weakMods, m)) }

    function Mods(): bv8 { realMods | weakMods | oneshotMods }

    // One report goes out; a pending one-shot modifier rides along and is
    // consumed by the first report that carries a key.
    function Send(): Kbd {
      this.(sent := sent + [Report(Mods(), keys)],
            oneshotMods := if keys != [] then 0 else oneshotMods)
    }

    // What the host has last been told: nothing is down at first.
    function LastReport(): Report {
      if sent == [] then Report(0, []) else sent[|sent| - 1]
    }

    // Everything but the one-shot modifier.
    function Plain(): Kbd { this.(oneshotMods := 0) }
  }

  // The host knows the keys and the modifiers, with a one-shot modifier o.
  predicate Told(k: Kbd, o: bv8) {
    k.LastReport() == Report(Join(Join(k.realMods, k.weakMods), o), k.keys)
  }

  // Whatever has changed between k and k' the host has been told, with the
  // one-shot modifier that was pending or with none.
  predicate Tells(k: Kbd, k': Kbd) {
    || Told(k', k.oneshotMods) || Told(k', 0)
    || (k'.sent == k.sent && k'.keys == k.keys && k'.realMods == k.realMods && k'.weakMods == k.weakMods)
  }

  predicate OneshotKept(k: Kbd, k': Kbd) { k'.oneshotMods == k.oneshotMods || k'.oneshotMods == 0 }

  lemma SendTells(k: Kbd)
    ensures Told(k.Send(), k.oneshotMods) && OneshotKept(k, k.Send())
  {
  }

  lemma TellsOn(k: Kbd, k1: Kbd, k2: Kbd)
    requires Tells(k, k1) && OneshotKept(k, k1) && Tells(k1, k2)
    ensures Tells(k, k2)
    ensures OneshotKept(k1, k2) ==> OneshotKept(k, k2)
  {
    hide Join;
  }

  // The updates the rest of the firmware makes between setting a one-shot
  // modifier and the next set or clear.
  datatype Op =
    | PressKey(c: Code)
    | ReleaseKey(c: Code)
    | DropKeys
    | SetReal(m: bv8)
    | SetWeak(m: bv8)
    | SendReport

  function Apply(k: Kbd, op: Op): Kbd {
    match op
    case PressKey(c) => k.AddKey(c)
    case ReleaseKey(c) => k.DelKey(c)
    case DropKeys => k.ClearKeys()
    case SetReal(m) => k.(realMods := m)
    case SetWeak(m) => k.(weakMods := m)
    case SendReport => k.Send()
  }

  function Run(k: Kbd, ops: seq<Op>): Kbd
    decreases ops
  {
    if ops == [] then k else Run(Apply(k, ops[0]), ops[1..])
  }

  // The reports a run sends.
  function Sent(k: Kbd, ops: seq<Op>): seq<Report>
    decreases ops
  {
    if ops == [] then []
    else (if ops[0] == SendReport then [Report(k.Mods(), k.keys)] else [])
         + Sent(Apply(k, ops[0]), ops[1..])
  }

  lemma {:induction false} RunSends(k: Kbd, ops: seq<Op>)
    ensures Run(k, ops).sent == k.sent + Sent(k, ops)
    decreases ops
  {
    hide Apply, Kbd.Mods;
    if ops != [] {
      ApplySent(k, ops[0]);
      RunSends(Apply(k, ops[0]), ops[1..]);
    }
  }

  lemma ApplySent(k: Kbd, op: Op)
    ensures op == SendReport ==> Apply(k, op).sent == k.sent + [Report(k.Mods(), k.keys)]
    ensures op != SendReport ==> Apply(k, op).sent == k.sent
  {
    hide Add, Del, Kbd.Mods;
  }

  lemma {:induction false} RunSnoc(k: Kbd, ops: seq<Op>, op: Op)
    ensures Run(k, ops + [op]) == Apply(Run(k, ops), op)
    decreases ops
  {
    if ops == [] {
      assert [op][1..] == [];
    } else {
      assert (ops + [op])[1..] == ops[1..] + [op];
      RunSnoc(Apply(k, ops[0]), ops[1..], op);
    }
  }

  // Reports `with` a pending modifier m against the same reports `without` it:
  // m is added up to and including the first report that carries a key and
  // nothing differs after that one.
  predicate Rides(with: seq<Report>, without: seq<Report>, m: bv8) {
    if with == [] || without == [] then with == without
    else
      && with[0] == Report(Join(without[0].mods, m), without[0].keys)
      && if with[0].keys != [] then with[1..] == without[1..]
         else Rides(with[1..], without[1..], m)
  }

  predicate SameButLog(a: Kbd, b: Kbd) {
    a.(sent := []) == b.(sent := [])
  }

  // A pending one-shot modifier rides on every report up to the first that
  // carries a key, contributes to none after it, and leaves no other trace.
  lemma {:induction false} OneShot(k: Kbd, ops: seq<Op>)
    ensures Rides(Sent(k, ops), Sent(k.Plain(), ops), k.oneshotMods)
    ensures SameButLog(Run(k, ops).Plain(), Run(k.Plain(), ops))
    decreases ops
  {
    hide Apply, Kbd.Mods, Rides, Join;
    RidesNil(k.oneshotMods);
    if ops != [] {
      var k', p' := Apply(k, ops[0]), Apply(k.Plain(), ops[0]);
      OneShot(k', ops[1..]);
      ApplyPlain(k, ops[0]);
      SentIgnoresLog(k'.Plain(), p', ops[1..]);
      if ops[0] == SendReport {
        PlainMods(k);
        RidesCons(Report(k.Mods(), k.keys), Report(k.Plain().Mods(), k.keys),
                  Sent(k', ops[1..]), Sent(p', ops[1..]), k.oneshotMods);
      } else {
        assert Sent(k, ops) == Sent(k', ops[1..]);
        assert Sent(k.Plain(), ops) == Sent(p', ops[1..]);
      }
    }
  }

  lemma RidesNil(m: bv8)
    ensures Rides([], [], m)
  {
  }

  lemma RidesCons(r: Report, r0: Report, rest: seq<Report>, rest0: seq<Report>, m: bv8)
    requires r == Report(Join(r0.mods, m), r0.keys)
    requires if r.keys != [] then rest == rest0 else Rides(rest, rest0, m)
    ensures Rides([r] + rest, [r0] + rest0, m)
  {
    hide Join;
    assert ([r] + rest)[1..] == rest && ([r0] + rest0)[1..] == rest0;
  }

  lemma ApplyPlain(k: Kbd, op: Op)
    ensures SameButLog(Apply(k, op).Plain(), Apply(k.Plain(), op))
    ensures Apply(k, op).oneshotMods == if op == SendReport && k.keys != [] then 0 else k.oneshotMods
  {
    hide Add, Del, Kbd.Mods;
  }

  lemma PlainMods(k: Kbd)
    ensures k.Mods() == Join(k.Plain().Mods(), k.oneshotMods)
  {
  }

  // Rides, read position by position.
  lemma {:induction false} RidesAt(with: seq<Report>, without: seq<Report>, m: bv8, i: nat)
    requires Rides(with, without, m) && i < |with|
    ensures |with| == |without| && with[i].keys == without[i].keys
    ensures with[i].mods == if exists j :: 0 <= j < i && with[j].keys != [] then without[i].mods
                            else Join(without[i].mods, m)
  {
    hide Join;
    if with[0].keys == [] && |with| > 1 {
      RidesAt(with[1..], without[1..], m, if i > 0 then i - 1 else 0);
      assert forall j :: 0 < j < |with| ==> with[j] == with[1..][j - 1];
      assert forall j :: 0 < j < |without| ==> without[j] == without[1..][j - 1];
    } else if i > 0 {
      assert with[i] == with[1..][i - 1] && without[i] == without[1..][i - 1];
    }
  }

  // What has been sent before has no influence on a run.
  lemma {:induction false} SentIgnoresLog(a: Kbd, b: Kbd, ops: seq<Op>)
    requires SameButLog(a, b)
    ensures Sent(a, ops) == Sent(b, ops)
    ensures SameButLog(Run(a, ops), Run(b, ops))
    decreases ops
  {
    hide Apply, Kbd.Mods;
    if ops != [] {
      ModsIgnoreLog(a, b);
      ApplyIgnoresLog(a, b, ops[0]);
      SentIgnoresLog(Apply(a, ops[0]), Apply(b, ops[0]), ops[1..]);
    }
  }

  lemma ApplyIgnoresLog(a: Kbd, b: Kbd, op: Op)
    requires SameButLog(a, b)
    ensures SameButLog(Apply(a, op), Apply(b, op))
  {
    hide Add, Del, Kbd.Mods;
    match op
    case SendReport =>
    case _ =>
  }

  lemma ModsIgnoreLog(a: Kbd, b: Kbd)
    requires SameButLog(a, b)
    ensures a.Mods() == b.Mods()
  {
  }

  // Every run keeps the key list within its bounds.
  lemma {:induction false} RunKeepsOk(k: Kbd, ops: seq<Op>)
    requires k.Ok()
    requires forall i :: 0 <= i < |ops| && ops[i].PressKey? ==> ops[i].c != NO_KEY
    ensures Run(k, ops).Ok() && Run(k, ops).cap == k.cap
    decreases ops
  {
    hide Apply, Kbd.Ok;
    if ops != [] {
      ApplyKeepsOk(k, ops[0]);
      RunKeepsOk(Apply(k, ops[0]), ops[1..]);
    }
  }

  lemma ApplyKeepsOk(k: Kbd, op: Op)
    requires k.Ok() && (op.PressKey? ==> op.c != NO_KEY)
    ensures Apply(k, op).Ok() && Apply(k, op).cap == k.cap
  {
    match op
    case PressKey(c) => AddKeepsDistinct(k.keys, c, k.cap);
    case ReleaseKey(c) =>
      DelKeepsDistinct(k.keys, c);
      DelMembers(k.keys, c);
    case _ =>
  }
}
