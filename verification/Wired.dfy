// The tap/hold machine and the action layer together: the machine's questions
// answered by the action layer, and the action layer driven by the machine.
module Wired {
  import opened KeyEvents
  import opened KeyboardState
  import opened Actions
  import opened Tapping

  // clear_keyboard
  function ClearKeyboard(kb: Kbd): Kbd {
    kb.(realMods := 0, weakMods := 0, keys := []).Send()
  }

  // The action layer after one call.
  function After(km: Keymap, w: World, call: Call): World {
    match call
    case Process(r, _, _) => ProcessAction(km, w, r).0
    case Lookup(e) => Resolve(km, w, e).0
    case Overflow(_) => w.(kb := ClearKeyboard(w.kb))
  }

  // The action layer after a history of calls, starting from w.
  function Replay(km: Keymap, w: World, log: seq<Call>): World {
    if log == [] then w else After(km, Replay(km, w, log[..|log| - 1]), log[|log| - 1])
  }

  // The tap/hold machine's questions, answered by the action layer.
  function Wire(km: Keymap, w: World, term: nat): Setup {
    Setup(term,
          (log, e) => IsTapAction(Resolve(km, Replay(km, w, log), e).1),
          (log, r: Record) => KeepsMods(Resolve(km, Replay(km, w, log), r.event).1, r),
          (log, r: Record) => ProcessAction(km, Replay(km, w, log), r).1 != r)
  }

  // Both sides agree on when process_action resets the tap count.
  lemma WireCancels(km: Keymap, w: World, term: nat, log: seq<Call>, r: Record)
    requires Real(r.event)
    ensures var c := Wire(km, w, term);
      Act(c, log, r).1 == ProcessAction(km, Replay(km, w, log), r).1
  {
    hide Perform, Resolve, Replay;
  }

  lemma ReplaySnoc(km: Keymap, w: World, log: seq<Call>, call: Call)
    ensures Replay(km, w, log + [call]) == After(km, Replay(km, w, log), call)
  {
    hide After;
    assert (log + [call])[..|log|] == log;
  }
}
