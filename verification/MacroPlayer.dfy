// action_macro_play of action_macro.c as written: a loop over the macro's bytes
// that updates the report of the running engine.
module MacroPlayer {
  import opened KeyList
  import opened KeyReport
  import opened ModBits
  import opened ActionEngine
  import Actions
  import opened Macros

  class MacroRun {
    const engine: Engine
    var modStorage: bv8
    var waits: seq<Byte>

    // The report is in order and its count has room for a full report.
    ghost predicate Valid()
      reads this, engine.kb, engine.kb.keys
    {
      engine.Valid() && engine.kb.stale + engine.kb.keys.Length <= 255
    }

    ghost function State(): Player
      requires engine.kb.head < engine.kb.keys.Length
      reads this, engine.kb, engine.kb.keys
    {
      Player(engine.kb.State(), modStorage, waits)
    }

    constructor (engine: Engine)
      requires engine.Valid() && engine.kb.stale + engine.kb.keys.Length <= 255
      ensures Valid() && this.engine == engine
      ensures State() == Player(engine.kb.State(), 0, [])
    {
      hide KeyboardReport.Valid, KeyboardReport.State;
      this.engine := engine;
      modStorage, waits := 0, [];
    }

    method WaitMs(ms: Byte)
      requires Valid()
      modifies this`waits
      ensures Valid() && State() == old(State()).(waits := old(waits) + [ms])
      ensures State() == Exec(old(State()), Wait(ms)) == Exec(old(State()), Interval(ms))
    {
      hide KeyboardReport.Valid, KeyboardReport.State;
      waits := waits + [ms];
    }

    method SendAndWait()
      requires Valid()
      modifies this`waits, engine.kb, engine.kb.keys
      ensures Valid() && State() == old(State()).Then(old(engine.kb.State()).Send())
    {
      hide KeyboardReport.Valid, KeyboardReport.State;
      engine.kb.ValidIsBounded();
      engine.kb.SendKeyboardReport();
      WaitMs(DELAY_TIME);
    }

    method KeyDown(code: Code)
      requires Valid()
      modifies this`waits, engine.kb, engine.kb.keys
      ensures Valid() && State() == Exec(old(State()), Down(code))
    {
      hide KeyboardReport.Valid, KeyboardReport.State, Actions.RegisterCode, Join, Actions.ModBit, Actions.IsMod;
      if Actions.IsMod(code) {
        engine.kb.AddWeakMods(Actions.ModBit(code));
        SendAndWait();
      } else {
        engine.kb.RoomCounts();
        engine.RegisterCode(code);
        WaitMs(DELAY_TIME);
      }
    }

    method KeyUp(code: Code)
      requires Valid()
      modifies this`waits, engine.kb, engine.kb.keys
      ensures Valid() && State() == Exec(old(State()), Up(code))
    {
      hide KeyboardReport.Valid, KeyboardReport.State, Actions.UnregisterCode, Without, Actions.ModBit,
        Actions.IsMod;
      if Actions.IsMod(code) {
        engine.kb.DelWeakMods(Actions.ModBit(code));
        SendAndWait();
      } else {
        engine.kb.RoomCounts();
        engine.UnregisterCode(code);
        WaitMs(DELAY_TIME);
      }
    }

    method StoreMods()
      requires Valid()
      modifies this`modStorage
      ensures Valid() && State() == Exec(old(State()), Store)
    {
      hide KeyboardReport.Valid;
      modStorage := engine.kb.realMods;
    }

    // The other commands without an argument.
    method Short(c: Command)
      requires Valid() && (c.ShortDown? || c.ShortUp? || c.Restore? || c.Clear?)
      modifies this`waits, engine.kb, engine.kb.keys
      ensures Valid() && State() == Exec(old(State()), c)
    {
      hide KeyboardReport.Valid, KeyboardReport.State, Actions.UnregisterCode, Actions.RegisterCode;
      match c {
        case ShortDown(code) =>
          engine.kb.RoomCounts();
          engine.RegisterCode(code);
          WaitMs(DELAY_TIME);
        case ShortUp(code) =>
          engine.kb.RoomCounts();
          engine.UnregisterCode(code);
          WaitMs(DELAY_TIME);
        case Restore =>
          engine.kb.SetMods(modStorage);
          SendAndWait();
        case Clear =>
          engine.kb.SetMods(0);
          SendAndWait();
      }
    }

    method ActionMacroPlay(macro: seq<Byte>)
      requires Valid()
      modifies this, engine.kb, engine.kb.keys
      ensures Valid() && State() == Play(macro, 0, Player(old(engine.kb.State()), 0, old(waits)))
    {
      hide KeyboardReport.Valid, KeyboardReport.State, Exec;
      modStorage := 0;
      var p := 0;
      while p < |macro|
        invariant p <= |macro| && Valid()
        invariant Play(macro, p, State()) == Play(macro, 0, Player(old(engine.kb.State()), 0, old(waits)))
      {
        var b := macro[p];
        p := p + 1;
        if b == KEY_DOWN || b == KEY_UP || b == WAIT || b == INTERVAL {
          if p == |macro| { return; }
          var arg := macro[p];
          p := p + 1;
          if b == KEY_DOWN {
            KeyDown(arg);
          } else if b == KEY_UP {
            KeyUp(arg);
          } else {
            WaitMs(arg);
          }
        } else if b == MOD_STORE {
          StoreMods();
        } else if b == MOD_RESTORE {
          Short(Restore);
        } else if b == MOD_CLEAR {
          Short(Clear);
        } else if 0x04 <= b <= 0x73 {
          Short(ShortDown(b));
        } else if 0x84 <= b <= 0xF3 {
          Short(ShortUp(b & 0x7F));
        } else {
          return;
        }
      }
    }
  }
}
