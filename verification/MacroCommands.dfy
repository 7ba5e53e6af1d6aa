// Laws of the macro commands that Macros does not meet through programs of
// typed keys: the short forms, stored modifiers, the reports and the pauses.
module MacroCommands {
  import opened KeyList
  import opened KeyboardState
  import opened ModBits
  import opened Actions
  import opened HostReports
  import opened Macros

  // ----- The one-byte forms -----

  function Long(c: Command): Command {
    match c
    case ShortDown(code) => Down(code)
    case ShortUp(code) => Up(code)
    case _ => c
  }

  function AllLong(cs: seq<Command>): seq<Command> { seq(|cs|, i requires 0 <= i < |cs| => Long(cs[i])) }

  lemma LongDoesTheSame(m: Player, c: Command)
    requires Encodable(c)
    ensures Exec(m, Long(c)) == Exec(m, c)
  {
    hide RegisterCode, UnregisterCode, Player.Then;
  }

  lemma {:induction false} ExecLong(m: Player, cs: seq<Command>)
    requires AllEncodable(cs)
    ensures ExecAll(m, AllLong(cs)) == ExecAll(m, cs)
    decreases |cs|
  {
    hide Exec, Long;
    if cs != [] {
      LongDoesTheSame(m, cs[0]);
      ExecLong(Exec(m, cs[0]), cs[1..]);
      assert AllLong(cs)[1..] == AllLong(cs[1..]);
    }
  }

  // A macro plays the same when its one-byte key codes are written out as
  // two-byte commands.
  lemma {:induction false} ShortFormsPlay(cs: seq<Command>, after: seq<Byte>, m: Player)
    requires AllEncodable(cs)
    ensures Play(Assemble(cs) + [END] + after, 0, m) == Play(Assemble(AllLong(cs)) + [END] + after, 0, m)
  {
    hide Exec, Play, Encode;
    ExecLong(m, cs);
    PlaysProgram(cs, [], after, m);
    PlaysProgram(AllLong(cs), [], after, m);
    assert [] + Assemble(cs) == Assemble(cs) && [] + Assemble(AllLong(cs)) == Assemble(AllLong(cs));
  }

  // Any byte that begins no command ends the macro, not only END.
  lemma OthersStop(bytes: seq<Byte>, p: nat, m: Player)
    requires p < |bytes|
    requires var b := bytes[p]; b == 0x00 || b == 0x03 || 0x79 <= b <= 0x83 || b >= 0xF4
    ensures Play(bytes, p, m) == m
    ensures forall c: Command :: Encodable(c) ==> Encode(c)[0] != bytes[p]
  {
    hide Exec;
    forall c: Command | Encodable(c)
      ensures Encode(c)[0] != bytes[p]
    {
      if c.ShortUp? {
        ShortUpByte(c.code);
      }
    }
  }

  // ----- Stored modifiers -----

  lemma {:induction false} KeepsStored(m: Player, cs: seq<Command>)
    requires Store !in cs
    ensures ExecAll(m, cs).stored == m.stored
    decreases |cs|
  {
    hide RegisterCode, UnregisterCode, ModBit;
    if cs != [] {
      KeepsStored(Exec(m, cs[0]), cs[1..]);
    }
  }

  lemma KeepsReal(m: Player, c: Command)
    requires Encodable(c) && c != Restore && c != Clear
    ensures Exec(m, c).kb.realMods == m.kb.realMods
  {
    hide Add, Del, Join, Without, ModBit, Kbd.Mods;
    if c.ShortDown? || c.ShortUp? {
      assert !IsMod(c.code);
    }
  }

  lemma {:induction false} AllKeepReal(m: Player, cs: seq<Command>)
    requires AllEncodable(cs) && Restore !in cs && Clear !in cs
    ensures ExecAll(m, cs).kb.realMods == m.kb.realMods
    decreases |cs|
  {
    hide Exec;
    if cs != [] {
      KeepsReal(m, cs[0]);
      AllKeepReal(Exec(m, cs[0]), cs[1..]);
    }
  }

  // ----- What the host sees -----

  // Every command that changes keys or modifiers is followed by a report that
  // shows the change.
  lemma ExecTells(m: Player, c: Command)
    ensures Tells(m.kb, Exec(m, c).kb) && OneshotKept(m.kb, Exec(m, c).kb)
    ensures c == Restore || c == Clear ==> Told(Exec(m, c).kb, m.kb.oneshotMods)
  {
    hide RegisterCode, UnregisterCode, ModBit, Told, Kbd.Send, Kbd.AddWeakMods, Kbd.DelWeakMods, IsMod, Kbd.LastReport;
    match c {
      case Down(code) =>
        WeakModsTell(m.kb, ModBit(code));
        RegisterTells(m.kb, code);
      case Up(code) =>
        WeakModsTell(m.kb, ModBit(code));
        UnregisterTells(m.kb, code);
      case ShortDown(code) => RegisterTells(m.kb, code);
      case ShortUp(code) => UnregisterTells(m.kb, code);
      case Restore => SendTells(m.kb.(realMods := m.stored));
      case Clear => SendTells(m.kb.(realMods := 0));
      case _ =>
    }
  }

  // Whatever bytes are played, the host knows the keys and modifiers after
  // them if it knew them before.
  lemma {:induction false} PlayInforms(bytes: seq<Byte>, p: nat, m: Player, os: set<bv8>)
    requires p <= |bytes| && Informed(m.kb, os)
    ensures Informed(Play(bytes, p, m).kb, os)
    decreases |bytes| - p
  {
    hide Informed, Exec;
    if p < |bytes| {
      var b := bytes[p];
      if b == KEY_DOWN || b == KEY_UP || b == WAIT || b == INTERVAL {
        if p + 1 < |bytes| {
          var arg := bytes[p + 1];
          var c := if b == KEY_DOWN then Down(arg) else if b == KEY_UP then Up(arg)
                   else if b == WAIT then Wait(arg) else Interval(arg);
          ExecInforms(m, c, os);
          PlayInforms(bytes, p + 2, Exec(m, c), os);
        }
      } else if b == MOD_STORE || b == MOD_RESTORE || b == MOD_CLEAR || 0x04 <= b <= 0x73 || 0x84 <= b <= 0xF3 {
        var c := if b == MOD_STORE then Store else if b == MOD_RESTORE then Restore else if b == MOD_CLEAR then Clear
                 else if b <= 0x73 then ShortDown(b) else ShortUp(b & 0x7F);
        ExecInforms(m, c, os);
        PlayInforms(bytes, p + 1, Exec(m, c), os);
      }
    }
  }

  lemma ExecInforms(m: Player, c: Command, os: set<bv8>)
    requires Informed(m.kb, os)
    ensures Informed(Exec(m, c).kb, os)
  {
    hide Exec, Tells, Told;
    ExecTells(m, c);
    InformedOn(m.kb, Exec(m, c).kb, os);
  }

  lemma {:induction false} ExecAllInforms(m: Player, cs: seq<Command>, os: set<bv8>)
    requires Informed(m.kb, os)
    ensures Informed(ExecAll(m, cs).kb, os)
    decreases |cs|
  {
    hide Informed, Exec;
    if cs != [] {
      ExecInforms(m, cs[0], os);
      ExecAllInforms(Exec(m, cs[0]), cs[1..], os);
    }
  }

  // ----- Modifiers put aside -----

  // Between STORE, CLEAR and RESTORE the real modifiers are off, for the host
  // too; RESTORE brings them back.
  lemma AsideThenBack(m: Player, cs: seq<Command>)
    requires AllEncodable(cs) && Store !in cs && Restore !in cs && Clear !in cs && Informed(m.kb, {})
    ensures var k := ExecAll(m, [Store, Clear] + cs).kb;
      k.realMods == 0 && k.LastReport() == Report(k.weakMods, k.keys)
    ensures var k := ExecAll(m, [Store, Clear] + cs + [Restore]).kb;
      k.realMods == m.kb.realMods && k.LastReport() == Report(Join(m.kb.realMods, k.weakMods), k.keys)
  {
    hide Informed, Join;
    var cleared := Exec(Exec(m, Store), Clear);
    var done := ExecAll(cleared, cs);
    AsideRuns(m, cs);
    ExecAllInforms(m, [Store, Clear] + cs, {});
    ExecAllInforms(m, [Store, Clear] + cs + [Restore], {});
    AllKeepReal(cleared, cs);
    KeepsStored(cleared, cs);
    InformedExactly(done.kb);
    InformedExactly(Exec(done, Restore).kb);
    NothingJoined(done.kb.weakMods);
  }

  lemma NothingJoined(x: bv8)
    ensures Join(0, x) == x
  {
  }

  lemma AsideRuns(m: Player, cs: seq<Command>)
    ensures var done := ExecAll(Exec(Exec(m, Store), Clear), cs);
      ExecAll(m, [Store, Clear] + cs) == done && ExecAll(m, [Store, Clear] + cs + [Restore]) == Exec(done, Restore)
  {
    hide Exec;
    ExecConcat(m, [Store, Clear], cs);
    ExecConcat(m, [Store, Clear] + cs, [Restore]);
    assert [Store, Clear][1..] == [Clear] && [Clear][1..] == [] && [Restore][1..] == [];
    assert ExecAll(m, [Store, Clear]) == ExecAll(Exec(m, Store), [Clear]) == Exec(Exec(m, Store), Clear);
  }

  // The last RESTORE counts whatever came in between, a further STORE aside.
  lemma StoredComeBack(m: Player, cs: seq<Command>, after: seq<Byte>)
    requires AllEncodable(cs) && Store !in cs
    ensures var k := Play(Assemble([Store] + cs + [Restore]) + [END] + after, 0, m).kb;
      k.realMods == m.kb.realMods && Shown(k)
  {
    hide Exec, Play, Encode, Shown, Told;
    var program := [Store] + cs + [Restore];
    EncodableConcat([Store], cs);
    EncodableConcat([Store] + cs, [Restore]);
    PlaysProgram(program, [], after, m);
    assert [] + Assemble(program) == Assemble(program);
    var done := ExecAll(Exec(m, Store), cs);
    assert [Store][1..] == [] && [Restore][1..] == [];
    ExecConcat(m, [Store], cs);
    ExecConcat(m, [Store] + cs, [Restore]);
    assert ExecAll(m, program) == Exec(done, Restore);
    KeepsStored(Exec(m, Store), cs);
    RestoreSets(done);
    assert Exec(m, Store).stored == m.kb.realMods by { StoreNotes(m); }
    ExecTells(done, Restore);
    ToldShows(Exec(done, Restore).kb, done.kb.oneshotMods);
  }

  lemma RestoreSets(m: Player)
    ensures Exec(m, Restore).kb.realMods == m.stored
  {
    hide Kbd.Mods;
  }

  lemma StoreNotes(m: Player)
    ensures Exec(m, Store).stored == m.kb.realMods
  {
  }

  // ----- Pauses -----

  function Total(waits: seq<Byte>): nat {
    if waits == [] then 0 else Total(waits[..|waits| - 1]) + waits[|waits| - 1] as nat
  }

  function Pause(c: Command): nat {
    if c.Wait? || c.Interval? then c.ms as nat else if c == Store then 0 else 7
  }

  function Pauses(cs: seq<Command>): nat {
    if cs == [] then 0 else Pause(cs[0]) + Pauses(cs[1..])
  }

  // Seven milliseconds after every command that reports, and the waits asked for.
  lemma {:induction false} TotalPause(m: Player, cs: seq<Command>)
    ensures Total(ExecAll(m, cs).waits) == Total(m.waits) + Pauses(cs)
    decreases |cs|
  {
    hide RegisterCode, UnregisterCode, Kbd.Send, ModBit, IsMod;
    if cs != [] {
      OnePause(m, cs[0]);
      TotalPause(Exec(m, cs[0]), cs[1..]);
    }
  }

  lemma OnePause(m: Player, c: Command)
    ensures Total(Exec(m, c).waits) == Total(m.waits) + Pause(c)
  {
    hide RegisterCode, UnregisterCode, Kbd.Send, ModBit, IsMod, Total;
    assert DELAY_TIME as nat == 7;
    TotalSnoc(m.waits, DELAY_TIME);
    if c.Wait? || c.Interval? {
      TotalSnoc(m.waits, c.ms);
    }
  }

  lemma TotalSnoc(waits: seq<Byte>, b: Byte)
    ensures Total(waits + [b]) == Total(waits) + b as nat
  {
    assert (waits + [b])[..|waits|] == waits;
  }
}
