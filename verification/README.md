# Verification of the keyboard firmware core

This project models the path of a key press through the firmware: from raw
matrix readings over debouncing and change detection, through the tap/hold
machine and the action interpreter, to the keyboard report.  It also models
the USB control endpoint, the serial port, macro byte code and the keymap
store.

Each part that changes state in the C code is a class whose methods follow the
C functions statement by statement and are proved against functions on
values; the properties of the firmware are lemmas about those functions.

| part | on values | in place |
|---|---|---|
| six-key report with one-shot modifiers | `KeyList`, `KeyboardState` | `KeyReport` |
| tap/hold machine | `Tapping` and the theorems in `TappingLedger`, `TappingOrder`, `TappingInvented`, `TapTrains`, `TapGaps`, `TapRules`, `KeyOrder`, `KeyPairs`, `PairedRuns`, `Overtaking` | `TappingMachine` |
| action codes, actions, layers | `ActionCode`, `Actions`, `ActionMeanings`, `LayerSearch`, `HeldKeys`, `StuckKeys` | `ActionEngine` |
| tap/hold machine wired to actions | `Wired`, `HostReports`, `TapToggle`, `ModifierTaps`, `OneShotKeys`, `EndToEnd`, `StuckRelease`, `CancelledHold` | `EngineRuns`, `WipedKeys` |
| debouncing, change detection | `MatrixBits` | `Debounce`, `MatrixEvents` |
| from matrix snapshots to the report | | `Snapshots` |
| USB endpoint 0 | `UsbControl`, `UsbTransfers`, `UsbRequests` | `UsbDevice` |
| serial port under interrupts | `RingIndex` | `Uart` |
| macros | `Macros`, `MacroCommands` | `MacroPlayer` |
| keymap store | `KeymapBytes` | `KeymapStore`, `KeymapImage` |

Parameters: matrix size, debounce count, tapping term, TAPPING_TOGGLE (1 to 14,
what a tap count can pass) and the number of key slots (2 to 127, what an
`int8_t` index can hold).  The tap/hold machine asks the action layer three
questions: is this a tap key, does this release wait for a modifier, does this
action cancel a tap.  Its theorems hold for every
way of answering them, also one that depends on everything asked before;
`Wired.Wire` plugs in the answers of the action interpreter.

What the proofs show about the code:

- `clear_keys` empties the slots but leaves their number on the 8-bit
  `cb_count`.  The report refines an ordered list as long as the count has not
  wrapped to 0 with a key in the report.  `AddKey`, `DelKey`, `RegisterCode`,
  `UnregisterCode` and `ProcessAction` say exactly when a press or release
  still comes out right there.
- Events do not always reach the action layer in the order they came in.  The
  drain loop can stop with the queue non-empty and the machine idle, and the
  next event then goes first: of two ordinary keys pressed in one scan the later
  one (`LaterKeyFirst`), and of one key its release before its press
  (`ReleaseFirst`), so that the key stays in the report with every key up and
  nothing waiting (`OvertakenKeySticks`).  `OvertakesIff` says, on the state
  before the call, exactly when an event overtakes one of its own key.
- An event that is next in turn keeps its key's presses and releases paired
  exactly if it does not overtake (`PairsBreakIff`).  If no event of a run acts
  while another of its key waits, each key's events reach the action layer in
  order and paired (`SmoothRun`), and no key sticks in the key list those calls
  describe (`NoKeyStaysDown`).
- The slots of the report are that list exactly as far as the count is right.
  An overflow of the waiting buffer clears the keyboard and the keys it wipes
  stay on the count.  Machine and engine together leave no key in the slots as
  long as the count is right at each call (`KeysComeOut`), which it is while the
  keys wiped and the number of slots make at most 255, so without an overflow
  always (`FewWipesCounted`).  It does not hold beyond that:
  after 255 overflows with a key down, in an input of alternating, fully
  released keys that is smooth throughout, the next key pressed and released
  stays in its slot while the list is empty (`WipingInputIsSmooth`,
  `KeySticksByCount`).
- The host is told everything: the last report sent has the keys of the list
  and all modifiers, after every history of calls (`ReplayShown`), and in a
  keymap without one-shot keys nothing else (`ReplayInforms`,
  `InformedExactly`).  So an empty list with no modifiers means that the host
  sees nothing down, and a key that sticks in the list sticks for the host.
- `SnapshotsToReport` puts `keyboard_task` in front: from power-on through any
  matrix snapshots, once the matrix is empty and the machine idle every slot is
  free, under the same conditions on the events the snapshots give.
- A tap of a modifier-tap key that is interrupted is cancelled and processed a
  second time when its tapping term runs out.  Its modifiers come out with the
  release exactly if the action the key resolves to the second time holds them
  (`SecondTimeIff`), and `NoKeyStaysDown` asks just that of each such call.  If
  the layer has changed in between they can stick (`CancelledTapSticks`); in a
  keymap in which a modifier-tap key is the same on every layer they never do
  (`SameTapsHandOver`).
- The tags of a tap sequence count up through events of ordinary keys and start
  over at 1 behind every gap in which such a key was pressed; a press behind
  such a gap that is held is a hold (`NextTapIff`, `MixedTaps`, `HoldAfterGap`).
- One tap of a one-shot key puts its modifier into the report that brings the next
  key and into no later one (`OneShotTypesOnce`).
- A layer counts as on in the search if either word, layers or defaults, has its
  bit (`SearchFinds`).
- The 8-bit length variable of the control endpoint cuts descriptor sizes off
  at 256 (`WholeDescriptorIff`).  All descriptors of the firmware are smaller
  and arrive whole (`ShippedArriveWhole`).  The request code alone, without its type,
  decides whether the address register is written (`VendorRequestMovesAddress`).
- Three answers of the control endpoint differ from what USB and HID ask for: the
  status of an interface is 0x81, 0 in place of 0, 0 (`InterfaceStatus`); the
  answer to GET_PROTOCOL, whose code is that of SET_FEATURE, is repeated for every
  IN token (`ProtocolComesBack`); and it and GET_IDLE send as many bytes as are
  asked for (`ClassAnswerLength`).
- The comment at TMK/action_macro.h:45 says INTERVAL sets the interval between
  commands; the interpreter waits once (TMK/action_macro.c:75-77) and the model
  does the same.
- The first key stored in an empty keymap store makes every other key answer
  with its stored code, 0, in place of the compiled-in one (`SetKeyAnswers`).
- Packet numbers of a keymap upload are one byte: images of more than 15360
  bytes cannot be stored (`UploadStoresIff`).

## Model

| member | source | states |
|---|---|---|
| KeyList.AddDelRestores | TMK/action_util.c:192-292 | pressing a new key and releasing it gives back the key list, less the oldest key if all slots were taken |
| KeyList.AddKeepsDistinct | TMK/action_util.c:192-256 | a press keeps the keys of the list distinct and their number within the slots |
| RingIndex.IndexArithmetic | TMK/action_util.c:39-42 | the model's index steps are the modular ones of the source, for every slot and distance |
| KeyList.DelMembers | TMK/action_util.c:258-292 | a release takes out that key and no other |
| KeyboardState.OneShot | TMK/action_util.c:60-78 | over any updates and reports, a pending one-shot modifier is in every report up to and including the first that carries a key, in none after it, and leaves no other trace |
| KeyboardState.RidesAt | TMK/action_util.c:128-141 | the same read report by report: the i-th report has the modifier exactly if no earlier report carried a key, and its keys are those it would have anyway |
| KeyboardState.RunKeepsOk | TMK/action_util.c:147-187 | over every run of updates the key list has at most as many keys as slots, distinct and not 0 |
| KeyReport.KeyboardReport.constructor | TMK/action_util.c:43-50 | the empty report stands for the empty list and no modifiers |
| KeyReport.KeyboardReport.AddKey | TMK/action_util.c:192-256 | from any valid ring with holes, wrapped or full, the live keys in ring order become: unchanged if the key is there, else the key at the end, the oldest dropped if all slots are live; slots outside the arc stay free, the last slot of the arc live, the count right. With the count wrapped to 0 and keys live the list comes out right exactly if the key is new and the arc has room, or the slot at tail has it already |
| KeyReport.FirstSlot | TMK/action_util.c:235-238 | overwriting the oldest slot of a full turn is the right update exactly if the slot has the key already |
| KeyReport.KeyboardReport.Compact | TMK/action_util.c:215-231 | compaction ends, keeps the keys and their order, and leaves tail right behind the last key |
| KeyReport.KeyboardReport.PopAndAppend | TMK/action_util.c:210-214 | with every slot live the oldest key gives way to the new one at the end |
| KeyReport.KeyboardReport.DelKey | TMK/action_util.c:258-292 | the key leaves the list exactly if it was not live or the count did not read 0; the ring stays valid either way |
| KeyReport.KeyboardReport.TrimTail | TMK/action_util.c:271-279 | tail moves back over free slots to the last live one, or to head |
| KeyReport.KeyboardReport.ClearKeys | TMK/action_util.c:103-109 | no key is left, the ring stays valid, and the cleared keys remain on the count |
| KeyReport.KeyboardReport.GetFirstKey | TMK/action_util.c:165-187 | the head of the key list, or 0 if it is empty |
| KeyReport.KeyboardReport.HasAnykey | TMK/action_util.c:150-158 | the length of the key list |
| KeyReport.KeyboardReport.SendKeyboardReport | TMK/action_util.c:60-78 | one report with all three modifier sources and the key list goes out; the one-shot modifier is cleared exactly if it carried a key |
| KeyReport.KeyboardReport.EmptyCount | TMK/action_util.c:43-45 | the count reads 0 exactly if live and cleared keys together are 0 or 256; without clears it is the number of live keys |
| KeyReport.KeyboardReport.ReportKeys | TMK/action_util.c:165-187 | the key bytes on the wire are the keys of the list and zeros |
| KeyReport.KeyboardReport.Execute | TMK/action_util.c:60-292 | a whole run on the ring is the run on the list, up to the first press or release that finds the count wrapped to 0; to the end, if none does |
| KeyReport.NoDropsCounted | TMK/action_util.c:192-292 | the count is right throughout every run without clear_keys |
| KeyReport.LosesRelease | TMK/action_util.c:103-109 | after 255 clears with a key down, the next key pressed and released is still in the report |
| KeyReport.EraseSlot | TMK/action_util.c:263-270 | zeroing a slot removes exactly its key from the ring-order list |
| KeyReport.MoveSlot | TMK/action_util.c:219-224 | moving a key down to the first hole keeps the ring-order list |
| KeyReport.AppendSlot | TMK/action_util.c:235-238 | filling the slot behind the last key appends to the ring-order list |
| KeyReport.PackDone | TMK/action_util.c:215-231 | once all slots have been looked at, the keys are in front, in order, and the holes behind |
| TappingLedger.ProcessKeepsInv | TMK/action_tapping.c:78-286 | every transition keeps: tapping_key is empty or real, a released one has a count of 1 to 15, only releases wait with a count |
| TappingLedger.ProcessSettles | TMK/action_tapping.c:78-286 | every transition settles the record it consumes exactly once and settles or keeps whatever was pending |
| TappingLedger.NothingLost | TMK/action_tapping.c:38-69 | over every run each event is processed, pending as tapping_key, waiting, or named as dropped by an overflow, exactly as often as it was submitted; the state invariant holds throughout |
| TappingOrder.WaitingIsFifo | TMK/action_tapping.c:54-65 | what waits after a call is the tail end of what waited before, the new event last: deferred events leave the queue in insertion order |
| TappingOrder.OnlyStrayReleasesOvertake | TMK/action_tapping.c:83-144 | while a tap key is undecided, the only record processed ahead of the queue is a release with no opposite event waiting |
| TappingOrder.LateTickShrinks | TMK/action_tapping.c:183-223 | a tick past the tapping term takes at least one record off a non-empty queue, and with an empty one leaves no press pending |
| TappingOrder.LateTicksSettle | TMK/action_tapping.c:263-285 | as many late ticks as records wait empty the queue, one more leaves nothing undecided |
| TappingOrder.GoesAheadIff | TMK/action_tapping.c:78-286 | a new event is processed at once, ahead of waiting ones, exactly if the machine is idle, settled on a key that is down or was released in time, or undecided with a stray release |
| KeyOrder.ProcessGives | TMK/action_tapping.c:78-286 | a transition gives the action layer the record it consumes after everything it was given of the same key, and nothing else |
| KeyOrder.DrainPresents | TMK/action_tapping.c:58-65 | draining never changes the order in which any key's events are presented |
| KeyOrder.OvertakesIff | TMK/action_tapping.c:38-69 | a call keeps the order of every other key, and of the event's own key exactly if not: it is taken at once while a different event of its key waits |
| KeyOrder.KeysKeepOrder | TMK/action_tapping.c:38-69 | over every run in which no event overtakes, each key's events are presented in the order submitted: settled, then pending, then waiting |
| Overtaking.LaterKeyFirst | TMK/action_tapping.c:183-190 | order across keys is not kept: after two tap keys of one scan have been held for their term, the later of two ordinary keys going down in one scan is processed first |
| Overtaking.ReleaseFirst | TMK/action_tapping.c:273-284 | nor is the order of one key: after three such tap keys the release of an ordinary key finds its press waiting, overtakes it and is processed first |
| KeyPairs.ScanFinds | TMK/action_tapping.c:334-345 | the settling release the scan finds is the first waiting event of the key |
| KeyPairs.ProcessLeaves | TMK/action_tapping.c:78-286 | a transition that consumes its record makes only calls that pair with those before, and leaves every key's waiting tap counts in step with what was last done for it |
| KeyPairs.ProcessWaits | TMK/action_tapping.c:183-190 | so does a transition after which the record waits on |
| KeyPairs.LastIsPress | TMK/action_tapping.c:156-164 | a key left down for good has a press as its last settled event |
| PairedRuns.StepReady | TMK/action_tapping.c:38-69 | one call with an event that does not clash keeps every key in step |
| PairedRuns.PairsBreakIff | TMK/action_tapping.c:38-69 | an event next in turn leaves its key's presses and releases alternating exactly if it does not overtake |
| PairedRuns.SmoothRun | TMK/action_tapping.c:38-69 | over every smooth run of alternating presses and releases the calls are paired key by key, a release carrying a tap count exactly if its press was a tap, and each key's events come in order |
| TappingInvented.OnlyReleasesInvented | TMK/action_tapping.c:156-164 | the machine invents nothing but releases of keys whose press it processed, with the tap count of that press |
| TapTrains.TapTrain | TMK/action_tapping.c:226-238 | from an idle machine, n timely taps with any timely ticks between deliver exactly n press/release pairs, tagged 1, 2, ... up to 15 |
| TapTrains.MoreTaps | TMK/action_tapping.c:146-153 | the same continuing from any tag |
| TapTrains.Hold | TMK/action_tapping.c:183-190 | a key down at a tick past the term delivers one pair tagged 0 |
| TapGaps.NextTapIff | TMK/action_tapping.c:228-261 | after a tap key's n-th timely release and any timely events of ordinary keys, its next timely press is delivered tagged n + 1, at most 15, exactly if none of those events is a press; if one is, nothing is delivered for it yet |
| TapGaps.MixedTaps | TMK/action_tapping.c:228-261 | any sequence of taps with ordinary keys typed in between: every call is given, the tags counting up and starting over at 1 behind each gap with a press |
| TapGaps.TapsAmongKeys | TMK/action_tapping.c:273-284 | the same from an idle machine, beginning with a first tap |
| TapGaps.HoldAfterGap | TMK/action_tapping.c:239-257 | a press behind a gap with a press, held past its term, is delivered untagged |
| TapRules.OthersPassTap | TMK/action_tapping.c:173-179 | while a tapped key is down, in its term or after, other keys' events are handed on as they come and it keeps its tag |
| TapRules.LateRelease | TMK/action_tapping.c:192-198 | the release of a tapped key past its term has the tag of its press and ends the sequence |
| TapRules.TakenOver | TMK/action_tapping.c:155-172 | another tap key going down takes over from a tapped key, which is released first exactly from its second tap on, with the tag of its press |
| TapRules.NextTapKey | TMK/action_tapping.c:244-250 | a tap key pressed in time after another one's tap starts a sequence of its own |
| TapRules.Forgotten | TMK/action_tapping.c:263-284 | once the term after a tap is over, any event is taken as on an idle machine |
| TapRules.TypedThrough | TMK/action_tapping.c:98-111 | an ordinary key typed in an undecided key's term makes it a hold at once exactly if the term is 500 or more; otherwise press and release wait |
| TapRules.ModifierKept | TMK/action_tapping.c:116-130 | a modifier's release in an undecided key's term comes after that key's hold |
| TapRules.WaitingTap | TMK/action_tapping.c:327-347 | a tap key whose press and timely release both wait is delivered as a tap at once when its turn comes, ahead of what waits between |
| TapRules.WaitingTapNext | TMK/action_tapping.c:244-250 | so it is when its turn comes after another key's tap or while that key is still down; that key is released first exactly from its second tap on |
| TappingMachine.Machine.WaitingBufferTyped | TMK/action_tapping.c:316-324 | the scan of the wrapped ring finds an opposite event of the key exactly if one waits |
| TappingMachine.Machine.WaitingBufferScanTap | TMK/action_tapping.c:327-347 | the first waiting release in time, in queue order, turns the new key into a tap, and both get the count 1 |
| TappingMachine.Machine.WaitingBufferEnq | TMK/action_tapping.c:292-308 | fails exactly if a real event meets seven waiting ones; else the event is last in the queue |
| TappingMachine.Machine.ProcessTapping | TMK/action_tapping.c:78-286 | the in-place transition, with the record possibly inside the waiting buffer, is the transition on values, for the machine and for the record; what that delivers is in TapTrains, TapGaps and TapRules |
| TappingMachine.Machine.ActionTappingProcess | TMK/action_tapping.c:38-69 | one call, with its overflow branch and drain loop, is one step on values; the loop ends |
| ActionCode.OnDecodes | TMK/action_code.h:257-286 | the 16-bit code of ACTION_LAYER_ON decodes to an operation that sets that layer bit of any state and no other |
| ActionCode.OffDecodes | TMK/action_code.h:257-286 | ACTION_LAYER_OFF decodes to clearing that one bit |
| ActionCode.InvertDecodes | TMK/action_code.h:257-286 | ACTION_LAYER_INVERT decodes to flipping that one bit |
| ActionCode.SetDecodes | TMK/action_code.h:257-286 | ACTION_LAYER_SET decodes to that layer alone |
| Actions.LayerOnMeans | TMK/action.c:246-260 | encoding, decoding and performing ACTION_LAYER_ON on its event sets the layer bit; on the other event nothing happens |
| Actions.LayerOffMeans | TMK/action.c:246-260 | the same for ACTION_LAYER_OFF and clearing the bit |
| Actions.LayerInvertMeans | TMK/action.c:246-260 | the same for ACTION_LAYER_INVERT and flipping the bit |
| Actions.LayerSetMeans | TMK/action.c:246-260 | the same for ACTION_LAYER_SET: the layer alone is on |
| Actions.LayerClearMeans | TMK/action.c:246-260 | the same for ACTION_LAYER_CLEAR: no layer is on |
| Actions.DefaultLayerSetMeans | TMK/action.c:233-245 | ACTION_DEFAULT_LAYER_SET makes the layer the only default, on release only |
| Actions.DefaultLayerToggleMeans | TMK/action.c:233-245 | ACTION_DEFAULT_LAYER_TOGGLE flips that default layer bit, on release only |
| ActionMeanings.OneBitEach | TMK/action_code.h:201-221 | each of the eight modifiers is its bit of the report byte, left or right, as a key code, in a key with modifiers, in a modifier tap and in a layer with modifiers |
| ActionMeanings.TapKeysAre | TMK/action.c:552-586 | modifier taps tap and keys with modifiers do not; a layer tap taps for a key or modifier code and the toggle, and not for a switch or modifiers |
| ActionMeanings.FunctionKeysTap | TMK/action.c:580-583 | a macro or function key taps exactly if its code says so |
| ActionMeanings.KeptReleases | TMK/action_tapping.c:116-130 | the releases that wait for an undecided key: those of modifiers, of modifiers alone, and of modifier taps exactly if held; not those of keys, keys with modifiers, or layer taps |
| ActionMeanings.LayerKeySwitches | TMK/action.c:263-332 | what held layer keys and the switching codes do to the layer word on press and release; nothing else changes |
| ActionMeanings.LayerKeyTaps | TMK/action.c:304-330 | tapped, a layer key is the ordinary key |
| ActionMeanings.LayerWithModsHolds | TMK/action.c:266-279 | a layer with modifiers switches that layer and adds or removes exactly that modifier, with a report |
| ActionMeanings.CancelledTaps | TMK/action.c:161-169 | an interrupted tap is cancelled exactly for codes other than one-shot and toggle |
| ActionMeanings.ModsTapIs | TMK/action.c:161-193 | a modifier tap is the plain key if tapped, and its modifier key if held or on a cancelled press |
| ActionMeanings.PlainIs | TMK/action.c:391-507 | a plain key or modifier key enters the report on its press and leaves it on its release, with one report |
| ActionMeanings.KeyWithModsIs | TMK/action.c:87-106 | the modifier of a key with modifiers is a weak one while the key is down; the real ones are not touched |
| ActionMeanings.KeyComesWithMods | TMK/action.c:92-98 | no report sent by the press of a key with modifiers has the key without them |
| ActionMeanings.KeyGoesFirst | TMK/action.c:98-104 | on its release one report without the key still has the modifiers |
| LayerSearch.SearchFinds | TMK/action_layer.c:124-143 | the layer found for a key is l exactly if l is the highest whose bit is on in the layer word or the default word and whose action is not transparent, or 0 if none is |
| LayerSearch.PressResolves | TMK/action_layer.c:150-166 | a press gets the action of that layer and notes it |
| LayerSearch.SwitchesOne | TMK/action_layer.c:87-90 | switching a layer on changes that layer and no other |
| LayerSearch.SwitchesOff | TMK/action_layer.c:92-100 | nor does switching it off or over |
| LayerSearch.DefaultSetResolves | TMK/action.c:233-245 | after the release of ACTION_DEFAULT_LAYER_SET(n) with no layer on, every key not transparent on layer n is that of layer n, the others those of layer 0 |
| LayerSearch.LayerOnCovers | TMK/action_layer.c:124-143 | a layer switched on covers exactly the layers below it, where it is not transparent |
| ActionEngine.Engine.CurrentLayerForKey | TMK/action_layer.c:124-143 | the downward search finds the highest layer whose bit is on in the layer word or in the default word and that is not transparent for the key, else layer 0 |
| ActionEngine.Engine.LayerSwitchGetAction | TMK/action_layer.c:150-166 | a press records and uses its layer, a release uses the recorded one |
| ActionEngine.Engine.constructor | TMK/action_util.c:30-50 | power-on: an empty report that owes nothing on its count, no layer on, no layer recorded for any key |
| ActionEngine.Engine.RegisterCode | TMK/action.c:391-458 | the key or modifier enters the report, which goes out: the last report sent has the keys and modifiers there now are; the ring is right after it exactly if the count is right for that key |
| ActionEngine.Engine.UnregisterCode | TMK/action.c:460-507 | the key or modifier leaves the report exactly if the count is right or the key is not in it, otherwise the keys stay as they are; either way a report with the keys and modifiers there now are goes out |
| ActionEngine.Engine.ModsTap | TMK/action.c:108-196 | one-shot, toggle and plain modifier-tap actions by tap count, with the tap count reset to 0 exactly for an interrupted press; right exactly if the report's count is right for the key typed, if any |
| ActionEngine.Engine.LayerTap | TMK/action.c:263-332 | all layer-tap variants by tap count, on report and layers; right exactly if the report's count is right for the key typed, if any |
| ActionEngine.Engine.ProcessAction | TMK/action.c:66-383 | the in-place interpreter is the one on values in report, both layer words, recorded layers and the record, exactly if the report's count is right for the key the action types, if any; with the count wrapped to 0 a release takes no key out; whatever keys and modifiers it changed have been reported |
| ActionEngine.Engine.ClearKeyboard | TMK/action.c:531-550 | an empty report goes out and all keys and modifiers are gone |
| ActionEngine.Engine.IsTapKey | TMK/action.c:552-586 | tap keys are told apart by their resolved action, the lookup recording the layer of a press |
| StuckKeys.PerformEffect | TMK/action.c:85-196 | a press adds the share of its action to the report and a release takes the same share out |
| StuckKeys.KeyEffects | TMK/action_layer.c:150-166 | the release resolves to the action of its press, whatever layers did in between, and takes out exactly what the press put in |
| StuckKeys.InitialReport | TMK/action_util.c:30-50 | the state at power-on satisfies the invariants both theorems below start from |
| StuckKeys.NoStuckKeys | TMK/action.c:66-106 | over every run of paired events with arbitrary layer changes, all report keys and modifiers come from keys still held; with nothing held the report is empty |
| StuckKeys.ReleaseKeepsIff | TMK/action.c:98-104 | a key still held keeps its share of the report through another key's release exactly if the two shares have nothing in common |
| StuckKeys.HeldKeysShow | TMK/action.c:391-529 | if held keys never overlap and fit the slots, the report is exactly their shares |
| HeldKeys.ReleaseCoversKeys | TMK/action_util.c:258-292 | taking a held key's code out leaves only codes of the other held keys |
| HeldKeys.ReleaseExactBits | TMK/action_util.c:112-124 | taking a held key's modifiers out leaves exactly those of the other held keys |
| Wired.WireCancels | TMK/action.c:161-169 | machine and interpreter agree on which presses have their tap count reset |
| HostReports.PerformTells | TMK/action.c:85-332 | after every action that changes keys or modifiers the last report sent has them as they are, joined with the one-shot modifier that was pending or with none |
| HostReports.ReplayInforms | TMK/action.c:66-383 | over every history of calls the last report sent has exactly the keys of the list, and the real and weak modifiers joined with one of the keymap's one-shot modifiers or none |
| HostReports.InformedExactly | TMK/action_util.c:60-78 | without one-shot keys it has exactly the keys and modifiers |
| HostReports.ReplayShown | TMK/action.c:66-383 | in every keymap it has exactly the keys of the list and at least the modifiers |
| HostReports.ClearInforms | TMK/action.c:531-550 | clear_keyboard keeps the host informed |
| EndToEnd.CancelIs | TMK/action.c:161-169 | what the machine records as a cancelled tap is what the action layer cancels, for any keymap |
| EndToEnd.SecondTimeIff | TMK/action_tapping.c:183-190 | modifiers already in the report come out with the release of a key pressed a second time exactly if the action it resolves to then holds them |
| EndToEnd.ReplayCovers | TMK/action.c:66-383 | after every history of calls paired key by key in which cancelled taps are handed over, the key list and modifiers hold nothing but shares of the keys left down |
| EndToEnd.SameTapsHandOver | TMK/action.c:161-169 | in a keymap with each modifier-tap key the same on all layers, every paired history hands its cancelled taps over |
| EndToEnd.NoKeyStaysDown | TMK/action.c:66-106 | no stuck keys, from key events through the tap/hold machine to the key list: after every smooth run of alternating keys that hands cancelled taps over, list and modifiers come from keys last given to the action layer as pressed, and are empty when all are released and nothing waits; the last report sent has exactly that list and those modifiers, so then it is empty |
| EngineRuns.FewWipesCounted | TMK/action_util.c:103-109 | the count is right throughout a history, and off by the keys wiped, if those and one full report are at most 255 |
| EngineRuns.Drive | TMK/action.c:66-383 | the engine driven by the machine's calls is in the state they replay to as long as the count is right for each, and owes the keys that overflows have wiped |
| EngineRuns.RunIn | TMK/action_tapping.c:38-69 | a run only adds calls, all about keys of the events submitted |
| EngineRuns.FeedAll | TMK/action.c:47-65 | machine and engine together, event by event, are where the run on values and the replay of its calls take them |
| EngineRuns.KeysComeOut | TMK/action.c:47-106 | no stuck keys in the slots: from power-on, after every smooth run of alternating keys that hands cancelled taps over and keeps the count right, the report is covered by the keys left down; the last report sent has exactly the keys in the slots and the modifiers; with all released and nothing waiting every slot is free, no modifier set and the last report empty |
| WipedKeys.TypedStep | TMK/action_tapping.c:44-52 | events of an ordinary key within an undecided key's term wait, and the eighth overflows the buffer |
| WipedKeys.RoundRuns | TMK/action_tapping.c:38-69 | a round that ends in an overflow with an ordinary key down is smooth and leaves the machine idle |
| WipedKeys.RoundReplays | TMK/action_util.c:103-109 | each round leaves the key list empty and one more key on the count |
| WipedKeys.WipingInputIsSmooth | TMK/action_tapping.c:44-52 | 255 rounds and one more stroke: alternating, fully released keys, smooth, cancelled taps handed over; only the count is wrong at the end |
| WipedKeys.KeySticksByCount | TMK/action_util.c:258-292 | on that input machine and engine end idle, with the key list empty and the key in the slots and in the last report sent |
| StuckRelease.OvertakenKeySticks | TMK/action_tapping.c:273-284 | wired to an action layer, the run in which a release overtakes its press ends with all keys released, the machine idle, and the key in the report |
| StuckRelease.InputIsBalanced | TMK/keyboard.c:135-156 | that run is of alternating, fully released keys: what it lacks is smoothness |
| CancelledHold.CancelledTapSticks | TMK/action.c:164-168 | with a modifier tap on one layer only, an interrupted tap that outlives its layer leaves its modifiers in the report with all keys released |
| TapToggle.ToggleTap | TMK/action.c:280-291 | what the n-th tap of a toggle key does to the layer bit |
| TapToggle.TapTrainToggles | TMK/action.c:280-291 | from key events to layers: n taps of a layer-toggle key flip its bit exactly if n is at least TAPPING_TOGGLE; no other layer bit, default layer or report field changes |
| TapToggle.HoldRestores | TMK/action_layer.c:97-100 | holding the toggle key leaves every layer bit as it was |
| ModifierTaps.TapsToggleMods | TMK/action.c:143-160 | from key events to modifiers: n taps of a toggling modifier key leave its modifiers on exactly if n is at least TAPPING_TOGGLE (flipped, if that is 1); no other modifier, key or layer changes |
| ModifierTaps.OneShotTapped | TMK/action.c:115-141 | a one-shot key tapped once sends nothing and leaves its modifiers pending |
| ModifierTaps.OneShotHeld | TMK/action.c:115-141 | held or tapped again its modifiers are on while it is down, reported both times, and a pending one is given up |
| ModifierTaps.NextKeyHasIt | TMK/action_util.c:60-78 | a pending one-shot modifier is in the report that brings the next key and not in the one that takes it out |
| OneShotKeys.OneShotTypesOnce | TMK/action.c:115-141 | from key events to reports: after one timely tap of a one-shot key, the next plain key typed in time comes in a report with the modifier and goes in one without it, and nothing of it is left |
| Debounce.RunIsStable | DRIVERS/keyboard_matrix.c:137-145 | the run length at the end of a history is at least d exactly if the last d readings agree |
| Debounce.PublishedIsLastStable | DRIVERS/keyboard_matrix.c:145-155 | the published matrix is the most recent whole reading seen in d consecutive scans, all off if none |
| Debounce.Extend | DRIVERS/keyboard_matrix.c:137-155 | how one more scan changes run length and published matrix |
| Debounce.Matrix.Scan | DRIVERS/keyboard_matrix.c:130-156 | after any number of scans the matrix array is the published matrix of the whole history and the counter is what is left of d after the current run |
| MatrixBits.TwoDown | TMK/keyboard.c:56-57 | the bit trick is non-zero exactly if two keys of the row are down |
| MatrixBits.SameRow | TMK/keyboard.c:117-118 | rows with the same columns down are equal |
| MatrixEvents.CommonShares | TMK/keyboard.c:61-62 | two row words have a common bit exactly if the rows share a column in which both have a key down |
| MatrixEvents.HasGhostInRow | TMK/keyboard.c:52-65 | true exactly if at least two keys of the row are down and another row shares a column with it |
| MatrixEvents.StreamAlternates | TMK/keyboard.c:135-156 | the events of each key alternate, starting with a press, and their number tells whether it is down |
| MatrixEvents.ChangesOrdered | TMK/keyboard.c:114-156 | the events of a snapshot come in row and column order, so at most one for each key |
| MatrixEvents.Keyboard.RowEvents | TMK/keyboard.c:133-156 | a row gives one event for each column that differs, with its new state, and becomes the new row |
| MatrixEvents.Keyboard.Task | TMK/keyboard.c:106-160 | after each snapshot matrix_prev is the snapshot on rows without ghosts and unchanged on the others; the events are the changes of those rows, each changes the state of its key, and all so far replayed give matrix_prev |
| Snapshots.EventsAlternate | TMK/keyboard.c:135-156 | whatever their times, events that each change the state of their key alternate key by key, and all keys are released exactly if none is down after them |
| Snapshots.Submit | TMK/keyboard.c:106-160 | over any snapshots the changes with their scan times and a tick per scan are submitted, all of keys of the matrix and alternating |
| Snapshots.SnapshotsToReport | TMK/keyboard.c:106-160 | no stuck keys from snapshots to slots: if the events they give make a smooth run that hands cancelled taps over and keeps the count right, the last report sent has exactly the keys in the slots and the modifiers, and an empty last snapshot and an idle machine mean that every slot is free and that report empty |
| UsbTransfers.PacketsConcat | DRIVERS/USB/usbuser1.c:60-71 | the packets carry the descriptor bytes in order without gap or overlap |
| UsbTransfers.PacketShape | DRIVERS/USB/usbuser1.c:60-71 | packets are at most 64 bytes, full until the data ends, then one short one, empty after an exact multiple; toggles alternate from DATA1 |
| UsbTransfers.ControlRead | DRIVERS/USB/usbuser1.c:217-286 | from any state, a GET_DESCRIPTOR whose wValue and wIndex name a descriptor (1 device, 2 configuration, 0x22 report 0 to 2, 3 string 0 to 2) and n IN tokens put exactly the packets of that descriptor on the bus, the whole carried length once n is large enough |
| UsbTransfers.WholeDescriptorIff | DRIVERS/USB/usbuser1.c:280-285 | the carried length is the smaller of wLength and descriptor size exactly if the size is below 256 or wLength is at most the size modulo 256 |
| UsbTransfers.ShippedArriveWhole | DRIVERS/USB/usbdesc.c:43-215 | each descriptor of the firmware, named by wValue and wIndex and by its size, arrives whole or up to wLength |
| UsbTransfers.LongDescriptorCut | DRIVERS/USB/usbuser1.c:280-285 | a larger one asked for in full, larger than any in the firmware, would arrive as its size modulo 256 |
| UsbRequests.RequestNames | DRIVERS/USB/usbuser1.c:217-279 | which descriptor wValue and wIndex name, and that any other type or string index names none |
| UsbRequests.DeviceDescriptorFirst | DRIVERS/USB/usbuser1.c:221-226 | the first request of an enumeration, GET_DESCRIPTOR with wValue 0x0100, puts the bytes at the device descriptor's address on the bus, 18 or up to wLength |
| UsbRequests.UnknownStalled | DRIVERS/USB/usbuser1.c:271-279 | a descriptor type or string index the firmware does not have is stalled and no IN token answered |
| UsbRequests.UnknownRequestStalled | DRIVERS/USB/usbuser1.c:213-301 | so is any other standard request |
| UsbRequests.StaleReport | DRIVERS/USB/usbuser1.c:252-285 | a report index from 3 on is answered with 255 bytes, or up to wLength, from wherever the last read stopped |
| UsbRequests.ClassStalledIff | DRIVERS/USB/usbuser1.c:183-211 | a HID class request is stalled exactly if its code is none of five |
| UsbRequests.FeatureStalledIff | DRIVERS/USB/usbuser1.c:302-387 | SET_FEATURE and CLEAR_FEATURE are stalled exactly for an interface or an endpoint other than 1 to 3; only the former looks at the high byte of wIndex |
| UsbRequests.TogglesReset | DRIVERS/USB/usbuser1.c:302-387 | both start that endpoint direction over at DATA0; cleared, it has nothing to send or accepts |
| UsbRequests.ResetFrees | DRIVERS/USB/usbuser1.c:493-501 | after a bus reset the address is 0 and no endpoint reports a halt |
| UsbRequests.InterfaceStatus | DRIVERS/USB/usbuser1.c:398-465 | GET_STATUS of an interface answers its own type byte 0x81 and 0, not two zeros |
| UsbRequests.StatusStage | DRIVERS/USB/usbuser1.c:60-86 | an accepted request without data puts one empty packet on the bus however many IN tokens come, SET_FEATURE one for each |
| UsbRequests.AddressTaken | DRIVERS/USB/usbuser1.c:72-75 | SET_ADDRESS takes effect with the IN token that completes it, in the low seven bits of the register |
| UsbRequests.ConfigComesBack | DRIVERS/USB/usbuser1.c:292-300 | GET_CONFIGURATION answers once what SET_CONFIGURATION put |
| UsbRequests.IdleComesBack | DRIVERS/USB/usbuser1.c:185-201 | GET_IDLE, asked for one byte, answers the duration SET_IDLE gave |
| UsbRequests.ClassAnswerLength | DRIVERS/USB/usbuser1.c:198-206 | GET_IDLE and GET_PROTOCOL answer as many bytes as are asked for, up to 64 |
| UsbRequests.ProtocolComesBack | DRIVERS/USB/usbuser1.c:194-206 | GET_PROTOCOL answers the protocol SET_PROTOCOL gave, and again to every further IN token |
| UsbRequests.InterfaceIsZero | DRIVERS/USB/usbuser1.c:389-396 | GET_INTERFACE answers 0 and SET_INTERFACE is accepted |
| UsbRequests.WakeupComesBack | DRIVERS/USB/usbuser1.c:331-387 | the device status tells whether remote wakeup was last set or cleared |
| UsbTransfers.SetupAgrees | DRIVERS/USB/usbuser1.c:288-290 | a SETUP leaves the device with the address changes the host expects exactly if it is not a non-standard request coded like SET_ADDRESS |
| UsbTransfers.AddressAsExpected | DRIVERS/USB/usbuser1.c:72-75 | over any run of SETUP, IN and reset the address changes only at the IN that completes a SET_ADDRESS, to its value, or at a reset, to 0 |
| UsbTransfers.VendorRequestMovesAddress | DRIVERS/USB/usbuser1.c:175-182 | every vendor request coded 5 moves the address to its wLength |
| UsbTransfers.SetFeatureHalts | DRIVERS/USB/usbuser1.c:345-387 | SET_FEATURE halts that endpoint direction and touches no other |
| UsbTransfers.ClearFeatureUnhalts | DRIVERS/USB/usbuser1.c:302-343 | CLEAR_FEATURE frees that endpoint direction and touches no other |
| UsbTransfers.GetStatusReports | DRIVERS/USB/usbuser1.c:398-465 | GET_STATUS answers two bytes, the first 1 exactly if that endpoint direction is halted |
| UsbTransfers.HaltRoundTrip | DRIVERS/USB/usbuser1.c:302-465 | GET_STATUS answers 1 straight after SET_FEATURE and 0 straight after CLEAR_FEATURE for every endpoint 1-3 and direction |
| UsbDevice.Usb.Setup | DRIVERS/USB/usbuser1.c:166-491 | the in-place handler of a SETUP is the one on values |
| UsbDevice.Usb.In | DRIVERS/USB/usbuser1.c:60-86 | the in-place handler of a completed IN is the one on values |
| UsbDevice.Usb.Reset | DRIVERS/USB/usbuser1.c:493-501 | the in-place handler of a bus reset is the one on values |
| Uart.WaitingPush | TMK/uart.c:64-69 | publishing the slot after head appends its byte to the waiting bytes |
| Uart.WaitingPop | TMK/uart.c:109-112 | moving tail takes the oldest waiting byte |
| Uart.Port.PutStep | TMK/uart.c:60-72 | each shared access of uart_putchar keeps the protocol invariant: it waits exactly while the ring is full, puts the byte exactly when head is published, and ends with the interrupt on |
| Uart.Port.GetStep | TMK/uart.c:75-98 | uart_getchar waits exactly while nothing is there and returns the oldest waiting byte; uart_available returns the number of bytes that waited when it began, never more than wait when it ends |
| Uart.Port.TransmitInterrupt | TMK/uart.c:101-114 | the oldest waiting byte goes to the data register; with none waiting the interrupt is turned off |
| Uart.Port.ReceiveInterrupt | TMK/uart.c:117-128 | the byte is appended, or dropped exactly if the ring is one short of its size |
| Uart.Port.Interleave | TMK/uart.c:60-128 | under any interleaving, bytes sent are a prefix of bytes put with the ring holding the rest, bytes returned are a prefix of bytes taken, and waiting bytes keep the transmit interrupt on |
| Macros.PlayOne | TMK/action_macro.c:39-103 | the bytes of one command, anywhere in a macro, do what the command means |
| Macros.PlaysProgram | TMK/action_macro.c:31-104 | playing the assembled bytes of any command list performs exactly that list and stops at END, whatever follows |
| Macros.ProgramEffect | TMK/action_macro.h:84-121 | programs of typed keys in nested modifier wrappers leave the real modifiers alone, the weak ones without those used, and the key list as after typing the keys |
| Macros.TypingRestoresIff | TMK/action_macro.h:86 | typing keys gives back the key list exactly if none was down and a slot was free |
| Macros.MacroRestoresIff | TMK/action_macro.h:93-121 | such a macro, played from its bytes, gives back the key list exactly if none of its keys was down and a slot was free, and the weak modifiers exactly if it used none that was set |
| MacroCommands.ShortFormsPlay | TMK/action_macro.c:91-98 | a macro plays the same with its one-byte key codes written out as two-byte commands |
| MacroCommands.OthersStop | TMK/action_macro.c:99-102 | any byte that begins no command ends the macro |
| MacroCommands.PlayInforms | TMK/action_macro.c:39-103 | whatever bytes are played, the host knows the keys and modifiers after them if it did before |
| MacroCommands.AsideThenBack | TMK/action_macro.c:78-90 | between STORE, CLEAR and RESTORE the real modifiers are off, also in the last report; RESTORE brings them back, also there |
| MacroCommands.StoredComeBack | TMK/action_macro.c:78-85 | played from bytes, RESTORE brings back the modifiers of the STORE before it whatever came between |
| MacroCommands.TotalPause | TMK/action_macro.c:39-103 | the waits of a program add up to those asked for and 7 ms for each command that reports |
| MacroPlayer.MacroRun.ActionMacroPlay | TMK/action_macro.c:31-104 | the interpreter loop on the running report is the one on values: keys, modifiers, reports and waits |
| KeymapBytes.CodeRoundTrip | DRIVERS/z_util.h:7-19 | splitting a code into two bytes and reading it back gives the code |
| KeymapBytes.KeysApart | DRIVERS/USB/hid_configuration.c:251 | the packed index is injective: no two keys share a byte |
| KeymapBytes.RowFits | DRIVERS/eeprom/eeprom.c:44 | the packed index of every key of the matrix lies in the block |
| KeymapBytes.SomeByteIffSomeKey | DRIVERS/eeprom/eeprom.c:19-29 | some byte is set exactly if some key has a code: every byte belongs to a key |
| KeymapBytes.SetKeyStores | DRIVERS/USB/hid_configuration.c:248-257 | storing a key gives it that code and leaves every other stored code alone |
| KeymapBytes.SomeByteAfter | DRIVERS/eeprom/eeprom.c:129-149 | storing a key leaves the keymap valid exactly if its code or another key's is not 0 |
| KeymapBytes.SetKeyAnswers | DRIVERS/eeprom/eeprom.c:34-52 | from code and block before the write: exactly when action_for_key will answer the new code, and exactly when another key keeps its answer |
| KeymapBytes.UploadStoresIff | DRIVERS/USB/hid_configuration.c:282-289 | uploading an image in 60-byte packets replaces every block by it exactly if the image has at most 256 packets |
| KeymapBytes.UploadDownload | DRIVERS/USB/hid_configuration.c:156-159 | reading back by offset returns the uploaded image, whatever was stored before |
| KeymapImage.IndexIs | DRIVERS/eeprom/eeprom.c:44 | the packed index is two bytes a key in row-major order |
| KeymapImage.ImageMeans | DRIVERS/eeprom/eeprom.c:34-52 | with an image stored that has some byte set, the answer for a key of the matrix is image[o] + 256 * image[o + 1] with o == 2 * ((l * rows + r) * cols + c), or 0 if the guard turns the layer away |
| KeymapImage.UploadedMeans | DRIVERS/USB/hid_configuration.c:282-289 | the same after uploading the image in packets |
| KeymapImage.UploadAndLookUp | DRIVERS/eeprom/eeprom.c:34-52 | the same on the store itself: set_all_keys for every packet, then action_for_key |
| KeymapImage.SetKeyBytes | DRIVERS/USB/hid_configuration.c:248-257 | set_single_key writes the low byte of the code, then the high one, at that place and nothing else |
| KeymapStore.Store.CheckKeymap | DRIVERS/eeprom/eeprom.c:19-29 | keymap_valid becomes true exactly if some byte of the keymap is set |
| KeymapStore.Store.ActionForKey | DRIVERS/eeprom/eeprom.c:34-52 | no action outside the matrix, the stored code if the keymap is valid, else the compiled-in one |
| KeymapStore.Store.GetSingleKey | DRIVERS/USB/hid_configuration.c:107-121 | answers the two bytes of what action_for_key says |
| KeymapStore.Store.StorageReadData | DRIVERS/eeprom/eeprom.c:112-125 | the bytes from offset on, cut off at the end of the area; nothing for an unsupported area |
| KeymapStore.Store.StorageWriteData | DRIVERS/eeprom/eeprom.c:129-149 | the area has the data at offset, cut off at its end, and is otherwise unchanged, like the other areas; keymap_valid follows |
| KeymapStore.Store.SetStorage | DRIVERS/USB/hid_configuration.c:232-238 | success exactly if all of the data fitted, else overflow |
| KeymapStore.Store.SetSingleKey | DRIVERS/USB/hid_configuration.c:248-257 | inside the matrix always a success that changes the two bytes of that key only |
| KeymapStore.Store.SetAllKeys | DRIVERS/USB/hid_configuration.c:282-289 | the packet lands at its number times 60, with an overflow answer exactly if it did not fit |
| KeymapStore.Store.GetAllKeys | DRIVERS/USB/hid_configuration.c:140-159 | answers up to 60 bytes of the keymap from the offset on |

## Left out

- KeyReport.KeyboardReport.AddKey: after a press with the count wrapped to 0 and keys live only the key list is described, not the ring. Key code 0 never gets there (TMK/action.c:393).
- ActionEngine.Engine.RegisterCode: after a press of a key with the count wrapped to 0 it says whether the list is right, not what the ring is if not.
- ActionEngine.Engine.ModsTap: the same for the key it types.
- ActionEngine.Engine.LayerTap: the same for the key it types.
- ActionEngine.Engine.ProcessAction: the same for the key its action types.
- EngineRuns.KeysComeOut: asks that the count be right at each call; beyond the first call at which it is not, nothing is said of the run.
- MacroPlayer.MacroRun.ActionMacroPlay: requires room on the report's count for a full report, so that it cannot wrap within the macro.
- ActionEngine.Engine.ClearKeyboard: the mouse, system and consumer reports it also sends are not modelled.
- TappingOrder.WaitingIsFifo: an order of leaving the queue only; for the order in which events reach the action layer see KeyOrder.KeysKeepOrder.
- StuckKeys.NoStuckKeys: stated for records as process_action gets them, paired by key; from key events see EndToEnd.NoKeyStaysDown.
- EndToEnd.NoKeyStaysDown: about the key list that the calls describe; for the slots see EngineRuns.KeysComeOut. One-shot and toggling modifiers, which outlive their key by design, are excluded. A run is smooth if no event is taken, or taken as the end of the undecided key's tap, while another of its key waits, and none waits for a whole turn of the 16-bit clock; the end of a tap that is cancelled may come then.
- Snapshots.SnapshotsToReport: starts from debounced snapshots; Debounce.PublishedIsLastStable says which those are. All events of one scan carry one time.
- Actions.LayerOnMeans: the event bits range over press, release and both; code 0 there means a default-layer operation.
- UsbTransfers.ControlRead: memory is a total function of addresses; a report index of 3 or more is not part of the statement but of UsbRequests.StaleReport.
- KeymapStore.Store.ActionForKey: requires a layer below MAX_LAYER or one the guard turns away; the guard compares with the layer size in bytes and lets others through to bytes past the block.
- KeymapStore.Store.StorageWriteData: requires offset at most the size of the area, as the subtraction at DRIVERS/eeprom/eeprom.c:138 does.
- KeymapStore.Store.SetAllKeys: the dispatcher hid_on_recv is not modelled; it passes the full length for SET_ALL_KEYS and one less for SET_ALL_MACRO (DRIVERS/USB/hid_configuration.c:466-482).
- System and consumer usages, mouse keys, macro, function, backlight and command actions in process_action; they are separate reports or user functions.
- Locking-key support, the command console and NKRO, taken as off; the one-shot timeout, taken as 0; hooks, taken to do nothing; process_record_kb, whose body has no return, taken to answer true.
- Times: events carry arbitrary 16-bit times other than 0, wait times are only logged by macros.
- A null macro pointer, a macro that runs off its end without END, and action_tapmacro_play.
- DRIVERS/USB/usbuser2.c, the same machine on the second controller; endpoints 1-4 data transfer.
- Raw pin access, storage_read and storage_write to the flash, the encoder area, and the radio, display, light and sensor drivers.
- HID_CMD information, macro, config and Fn commands other than through the storage functions.
