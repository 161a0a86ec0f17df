# Keymasq, modelled in Dafny

Keymasq is an input remapper: a daemon, `keymasqd`, reads keyboards and mice, recognises combos and
superkey gestures, plays and records macros, and talks to its clients over a socket. This project
models the parts of it that are state machines or algorithms over streams and numbers, and proves
what they keep over every input, every run and every interleaving.

`dafny verify dfyconfig.toml` checks everything.

| file | what it models |
|---|---|
| `ComboModel.dfy` | the combo recogniser as a function from state and event to state and decision, without indexes |
| `ComboLaws.dfy` | its invariant, and the grammar of the transitions one event emits |
| `ComboRuns.dfy` | whole runs; predicting whether a wheel pulse is consumed |
| `ComboFiring.dfy` | exactly when a key press fires a combo |
| `ComboDecisions.dfy` | exactly when a key press is consumed or passed on |
| `ComboOutcome.dfy` | what a press leaves of every combo, and what it reports |
| `ComboRecall.dfy` | exactly which keys are taken back |
| `ComboRelease.dfy` | releases, whole events, timeouts, lost devices, reloads |
| `ComboTiming.dfy` | deadlines, press order, recall order |
| `ComboMatching.dfy` | when giving keys to bindings one by one finds an assignment |
| `ComboWitness.dfy` | runs after which the pulse prediction is wrong |
| `BindingOrder.dfy` | the order of the keys held at start |
| `HeldIndex.dfy` | the four dictionaries of held keys |
| `ComboEngine.dfy` | the engine itself: dictionaries and indexes updated in place, refining `ComboModel` |
| `Rapidfire.dfy` | planning and expanding rapidfire blocks of a macro |
| `Superkey.dfy`, `SuperkeyOutput.dfy`, `SuperkeyMachine.dfy` | the gesture machine as steps, what the steps put out, and the object that takes them |
| `RecordingSpool.dfy` | the bounded event buffer that spills to a file |
| `RecordingManager.dfy` | finished recordings: pending, claimed, cleaned |
| `MacroScan.dfy`, `MacroReads.dfy` | scanning typed-text macros, and what the tokenizer makes of every piece of a text |
| `MacroCompile.dfy`, `MacroMeaning.dfy` | compiling the tokens to key events, and what those events do and when |
| `Wrappers.dfy` | the option and result types |
| `Ipc.dfy` | the length-prefixed command stream and the server's read loop |
| `Sleep.dfy` | pausing input and restoring hardware around system sleep |
| `MaskingLatch.dfy` | admission of input grabs across emergency stops |
| `Rollover.dfy` | layering, parsing and trimming rollover groups |

The pattern is the same throughout. A step of the system is a function of its state. The objects of
the daemon are classes whose methods update fields in place and are proved to take exactly that
step and to keep the invariant. The theorems are about sequences of steps.

Where Python leaves something open, the model does too. Taking some member of a set is a parameter
`pick`, and results hold for every `pick`; the insertion order of a dictionary that is iterated is an
explicit list. What the system asks of its callers is written down once, in `ComboRuns.Allowed`:
event values are 0, 1 or 2, combo ids are distinct, and a combo whose candidate is preserved over a
reload keeps its steps.

Some expectations hold only in part. Each comes with an input at which it fails and the exact extent
to which it holds:

- `would_consume_pulse` is not always what happens. A pulse is consumed if and only if the prediction holds once the candidates that are late,
  and the waiting ones that the pulse contradicts, are gone (`ComboRuns.PulseConsumedIff`). A fresh
  prediction never promises too much (`ComboRuns.PredictionSound`), but it does not look at the clock, so
  a promise can be stale (`ComboWitness.PredictionStale`); and it can promise too little, when a wheel
  notch drops the waiting candidate of a combo and starts that combo anew
  (`ComboWitness.PredictionIncomplete`).
- Keys are given to the bindings of a step one by one, so a wildcard can take the key that a later
  binding needs (`ComboMatching.WildcardTakesKey`). A step always finds keys when its bindings can be
  given different ones if and only if, of any two bindings that can compete for a key, the narrower one
  stands first (`ComboMatching.AlwaysMatchedIff`, with the failing input in
  `ComboMatching.OutOfOrderFails`).
- The spool keeps every accepted event in order if and only if no write of a chunk was cut short
  (`RecordingSpoolModel.EveryInterleaving`). Other failures lose nothing; a write cut short does
  (`RecordingSpoolModel.CutLosesEvents`).
- How the byte stream is cut into reads does not matter, whatever the bytes, unless a frame is oversized
  (`Ipc.CutsDoNotMatter`). For an oversized frame the server drops what the read that completes the
  header brings and takes the rest of the payload for a fresh stream (`Ipc.OversizedFrame`), so two cuts
  of the same bytes can differ in the commands handled (`Ipc.OversizedDependsOnCut`).
- A press of exactly the hold threshold may count as held or as released
  (`Superkey.ThresholdEitherWay`). Which slots presses of given lengths can fire, with punctual timers, is
  characterised exactly (`Superkey.SlotsExact`).

## Model

| member | source | states |
|---|---|---|
| `ComboRuns.ReachableInv` | keymasq/keymasqd/combo_engine.py:263-585 | After any sequence of events, timeouts, lost devices, reloads and resets, every candidate is either completing (releasing, some key pressed, no deadline) or waiting (a step after the first, action inactive, deadline set exactly while none of its keys is pressed); its pressed keys are held and belong to its step; press orders are distinct and below the counter |
| `ComboRuns.RunGrammar` | keymasq/keymasqd/combo_engine.py:306-404 | In every run the transitions of each combo id read (press release, or pulse) repeated: no second press, no release without a press; an open press ends only with its release, with the report of the device drop that removed it, or with a reload or reset; what is open is exactly what is active |
| `ComboRuns.ApplyKeeps` | keymasq/keymasqd/combo_engine.py:128-239 | Each operation keeps the invariant, and what it tells its caller accounts for every press it opens or closes |
| `ComboRuns.DropScopeKeeps` | keymasq/keymasqd/combo_engine.py:178-216 | Losing a device returns exactly the ids whose open press it removed |
| `ComboRuns.NoOpenPressWhenReleased` | keymasq/keymasqd/combo_engine.py:441-520 | Once no key is held, no combo has an open press |
| `ComboRuns.QuietMeansEmpty` | keymasq/keymasqd/combo_engine.py:228-239 | Once no key is held and all deadlines have passed, expiry leaves no candidate |
| `ComboLaws.HandleEventKeeps` | keymasq/keymasqd/combo_engine.py:263-291 | One event keeps the invariant, and its transitions are exactly the presses it opened and closed; expiry and mismatching keys never drop an open press |
| `ComboLaws.PressWaitingKeeps` | keymasq/keymasqd/combo_engine.py:306-404 | Advancing and dropping waiting candidates adds none, touches no held key, and emits a transition exactly when an action becomes active |
| `ComboLaws.ReleasePhases` | keymasq/keymasqd/combo_engine.py:441-520 | Releasing a key closes exactly the presses whose candidate had that key pressed and was active |
| `ComboLaws.FirstStepIdsAreScan` | keymasq/keymasqd/combo_engine.py:767-790 | Looking a key up under its own and the wildcard keys gives, without duplicates, exactly the combos with a matching first-step binding |
| `ComboLaws.FirstStepAssignment` | keymasq/keymasqd/combo_engine.py:792-819 | A matched first step gives every binding its own key: the new key for one of them, held keys for the others |
| `ComboMatching.MatchedIffPossible` | keymasq/keymasqd/combo_engine.py:792-819 | With narrower bindings first, a first step is matched if and only if its bindings can be given different keys that are held or just pressed, whatever order the sets have |
| `ComboMatching.AlwaysMatchedIff` | keymasq/keymasqd/combo_engine.py:792-819 | A step of any number of bindings is always matched when its bindings can be given different keys, if and only if no two bindings that can compete for a key stand in the wrong order |
| `ComboMatching.OutOfOrderFails` | keymasq/keymasqd/combo_engine.py:792-819 | For any step with two bindings in the wrong order: a pressed key, held keys, an assignment of them and an order of the sets for which the step is not matched |
| `ComboMatching.WildcardTakesKey` | keymasq/keymasqd/combo_engine.py:792-819 | A step of a wildcard and a narrower binding, with a key down for each, that is not matched because the wildcard takes the narrower binding's key |
| `ComboFiring.PressFiresIff` | keymasq/keymasqd/combo_engine.py:293-404 | Pressing a key fires a combo if and only if the key is the last one that the last step of its candidate lacks, or completes the only step of a combo without a candidate |
| `ComboDecisions.PressConsumedIff` | keymasq/keymasqd/combo_engine.py:293-404 | A key press is consumed if and only if the key is the last one an awaited step lacks, or is down already and no awaited step can use it, or starts a combo that has no candidate once contradicted and fired ones are gone, or is down in the candidate of a combo whose first step it matches |
| `ComboDecisions.PressPassedIff` | keymasq/keymasqd/combo_engine.py:293-404 | A press that is not consumed is passed on as part of a combo if and only if the key is of use to an awaited step, contradicts one, or occurs in some first step |
| `ComboDecisions.FiringConsumes` | keymasq/keymasqd/combo_engine.py:638-650 | A press that runs an action is consumed and not passed on |
| `ComboDecisions.WaitingFlags` | keymasq/keymasqd/combo_engine.py:306-404 | The candidates that wait consume a key exactly if it completes one or only repeats one, and pass it on exactly if it helps or contradicts one without completing any |
| `ComboDecisions.AwaitedKeys` | keymasq/keymasqd/combo_engine.py:705-737 | When an awaited step can use a key, and when the key contradicts it, from the hardware ids, sources and names of its bindings |
| `ComboOutcome.PressOutcome` | keymasq/keymasqd/combo_engine.py:293-404 | What a press leaves of every combo: started, completed (the next step awaited with its own timeout, or the keys to be released), one key further, dropped because contradicted, or untouched |
| `ComboOutcome.PressReports` | keymasq/keymasqd/combo_engine.py:587-659 | Every report of a press is the action of a combo whose last step the key completes, with the keys of that step in press order, or of a combo of one step that it starts; none is reported twice |
| `ComboRecall.PressTakesBackIff` | keymasq/keymasqd/combo_engine.py:661-675 | A press takes back exactly the keys of the steps that it completes or starts, except modifiers, wheel notches and the key that fires the action |
| `ComboRelease.ReleaseOutcome` | keymasq/keymasqd/combo_engine.py:441-520 | What a release leaves of every candidate: an awaited step is abandoned with the first of its keys; a completed one ends with its last key, and the next step is awaited or nothing is left |
| `ComboRelease.ReleaseDecidesIff` | keymasq/keymasqd/combo_engine.py:406-439 | A release is consumed if and only if the key is down in a completed step; it is passed on if and only if it is not consumed and abandons an awaited step, whose keys were passed on too; the caller is told to start afresh exactly when that leaves no candidate |
| `ComboRelease.ReleaseEndsActions` | keymasq/keymasqd/combo_engine.py:441-520 | The reports of a release are exactly those of the active combos whose last step the key was part of, once each |
| `ComboRelease.EventPressIff` | keymasq/keymasqd/combo_engine.py:263-291 | A press event as a whole, after late candidates are gone and the key counts as held: consumed, passed on or left alone; never an action without consuming the key |
| `ComboRelease.EventReleaseIff` | keymasq/keymasqd/combo_engine.py:263-291 | A release event as a whole, and a repeat, which never consumes, passes on, takes back or reports |
| `ComboRelease.EventResetIff` | keymasq/keymasqd/combo_engine.py:263-291 | An event tells the caller to start afresh exactly if it cleared all candidates and one was late or the key was consumed or passed on, or if the key contradicted all of them |
| `ComboRelease.EventHeld` | keymasq/keymasqd/combo_engine.py:739-753 | A press adds its key behind all held ones, a release removes it, and nothing else changes the held keys |
| `ComboRelease.ExpireIff` | keymasq/keymasqd/combo_engine.py:228-239 | Exactly the candidates whose deadline has come go; the others are untouched |
| `ComboRelease.DropScopeIff` | keymasq/keymasqd/combo_engine.py:178-216 | A lost device takes with it exactly the candidates that have one of its keys down, tracked or as final key, and exactly its held keys; the combos reported are those that were active |
| `ComboRelease.ReloadIff` | keymasq/keymasqd/combo_engine.py:128-159 | A reload keeps exactly the preserved candidates whose id still exists, unchanged but for the new combo; without a list it forgets everything |
| `ComboRelease.PrimeHeldIff` | keymasq/keymasqd/combo_engine.py:171-176 | Keys held at start stand in the given order behind those held already |
| `ComboRelease.NotchAlone` | keymasq/keymasqd/combo_engine.py:683-693 | A wheel notch with no key held starts a combo only if that combo is nothing but the notch |
| `ComboTiming.EventLeavesNoneExpired` | keymasq/keymasqd/combo_engine.py:943-946 | No event leaves a candidate whose deadline is due: late ones go first, and every new deadline lies strictly ahead (by how much, `ComboOutcome.PressOutcome` and `ComboRelease.ReleaseOutcome` say) |
| `ComboTiming.ByPressOrderSorted` | keymasq/keymasqd/combo_engine.py:587-650 | The keys of a first step are tracked once each, from the oldest press to the newest |
| `ComboTiming.FirstStepTriggers` | keymasq/keymasqd/combo_engine.py:652-659 | A combo that starts and fires at once reports exactly its assigned keys, the new one among them, in press order |
| `ComboTiming.TrackAllPressed` | keymasq/keymasqd/combo_engine.py:525-545 | The keys a new candidate waits to see released are exactly its keys that are no pulses |
| `ComboTiming.RecallNewestFirst` | keymasq/keymasqd/combo_engine.py:661-675 | The output taken back is that of every tracked key other than the firing key, modifiers and pulses, newest first |
| `ComboRuns.PulseConsumedIff` | keymasq/keymasqd/combo_engine.py:263-404 | In any state, a pulse is consumed if and only if the prediction holds once late candidates, and the waiting ones it contradicts, are gone |
| `ComboRuns.PredictionSound` | keymasq/keymasqd/combo_engine.py:241-261 | A pulse that is predicted to be consumed is consumed if the prediction still holds after late candidates are dropped, and in particular if none is late |
| `ComboWitness.PredictionIncomplete` | keymasq/keymasqd/combo_engine.py:241-261 | A run (load a combo, press Ctrl, turn the wheel, release Ctrl, press it again) after which the next notch is consumed although the prediction denies it |
| `ComboWitness.PredictionStale` | keymasq/keymasqd/combo_engine.py:228-265 | A run (load "A, then wheel", press and release A) after which a notch is promised, and one second later is not consumed |
| `HeldIndex.AddKeyKeeps` | keymasq/keymasqd/combo_engine.py:834-847 | Adding a key to the four indexes gives the indexes a scan of all held keys would build, with no empty bucket |
| `HeldIndex.TakeKeyKeeps` | keymasq/keymasqd/combo_engine.py:849-884 | Removing a key does too, dropping buckets that become empty |
| `HeldIndex.FindIsScan` | keymasq/keymasqd/combo_engine.py:821-832 | One dictionary access finds exactly the held keys that match an expected binding |
| `ComboEngineModule.ComboEngine.HandleEvent` | keymasq/keymasqd/combo_engine.py:263-291 | The engine with its indexes makes the decision, and reaches the state, of the recogniser that scans, and keeps its indexes right; what that decision and state are, for all inputs, is `ComboRelease.EventPressIff` and the lemmas beside it |
| `ComboEngineModule.ComboEngine.HandleWaitingCandidatePress` | keymasq/keymasqd/combo_engine.py:306-404 | A press while candidates wait drops, advances and completes candidates, in combo order, exactly as the recogniser that keeps no order by hand |
| `ComboEngineModule.ComboEngine.ActivateSatisfiedFirstSteps` | keymasq/keymasqd/combo_engine.py:587-650 | Starting combos through the first-step and held-key indexes gives the state and decision that scanning all combos and held keys gives; a key that starts or fires one is consumed (`ComboDecisions.PressConsumedIff`) |
| `ComboEngineModule.ComboEngine.HandleReleaseEvent` | keymasq/keymasqd/combo_engine.py:406-520 | A release gives the state and decision of the recogniser: candidates kept, advanced and abandoned, releases emitted, key consumed or passed on |
| `ComboEngineModule.ComboEngine.WouldConsumePulse` | keymasq/keymasqd/combo_engine.py:241-261 | The prediction computed through the indexes is the prediction defined by scanning |
| `ComboEngineModule.ComboEngine.SetCombos` | keymasq/keymasqd/combo_engine.py:128-159 | A reload keeps exactly the preserved candidates whose combo still exists, or resets, and rebuilds the combo map and the first-step index for the new combos |
| `ComboEngineModule.ComboEngine.Reset` | keymasq/keymasqd/combo_engine.py:161-169 | Everything but the combos is forgotten and the indexes are empty |
| `ComboEngineModule.ComboEngine.PrimeHeldBindings` | keymasq/keymasqd/combo_engine.py:171-176 | Of the keys held at start, those not held yet are recorded in the order of hardware id, source and name, each once, and the invariant is kept |
| `BindingOrder.Sort` | keymasq/keymasqd/combo_engine.py:171-176 | The keys of a set are listed once each, in the order of hardware id, source and name |
| `ComboEngineModule.ComboEngine.DropCandidatesForBindingScope` | keymasq/keymasqd/combo_engine.py:178-216 | Candidates and held keys of a lost device go, indexes are rebuilt, and the lost actions are returned |
| `ComboEngineModule.ComboEngine.NextDeadline` | keymasq/keymasqd/combo_engine.py:218-226 | The result is the deadline of some candidate and no candidate has an earlier one; none if there is no deadline |
| `ComboEngineModule.ComboEngine.ExpireTimeouts` | keymasq/keymasqd/combo_engine.py:228-239 | Exactly the expired candidates go, and the result says whether there was one |
| `ComboEngineModule.ComboEngine.CandidateFirstStepComboIds` | keymasq/keymasqd/combo_engine.py:767-790 | The index gives the ids that the scan defines, in the same order |
| `ComboEngineModule.ComboEngine.HeldBindingsForStep` | keymasq/keymasqd/combo_engine.py:792-819 | The indexes give the key assignment that a scan of the held keys gives |
| `ComboEngineModule.ComboEngine.RecordHeldPress` | keymasq/keymasqd/combo_engine.py:739-745 | A newly held key gets the next press order and is in all four indexes; a key already held changes nothing |
| `ComboEngineModule.ComboEngine.RemoveHeldBinding` | keymasq/keymasqd/combo_engine.py:747-753 | A released key is in no table any more |
| `ComboEngineModule.BuildFirstStepIndex` | keymasq/keymasqd/combo_engine.py:137-143 | Under every key the index lists, in combo order, the combos that use it in their first step |
| `ComboEngineModule.SortedByPressOrder` | keymasq/keymasqd/combo_engine.py:587-650 | Press orders differ, so there is one way to sort by them |
| `Rapidfire.CountIsBest` | keymasq/common/macro_rapidfire.py:38-55 | Of all counts from 2 to the maximum, the chosen one has the wait closest to the wanted wait, and is the smallest of the closest, though only two neighbours are compared |
| `Rapidfire.BestCount` | keymasq/common/macro_rapidfire.py:38-55 | In the terms of the block: if two presses fit with a millisecond between them, the plan has, of all the counts that fit, the one whose wait is closest to the wanted one, and the smallest of those; hold time and duration are those of the block, negative ones counting as none |
| `Rapidfire.PulsesAreHeld` | keymasq/common/macro_rapidfire.py:29-35 | Every pulse is held for the hold time, and a single press for the whole block |
| `Rapidfire.PlanFits` | keymasq/common/macro_rapidfire.py:38-55 | Every plan leaves room for the minimum waits, and has two presses or more exactly when two presses and one minimum wait fit |
| `Rapidfire.PulsesKeepTheWait` | keymasq/common/macro_rapidfire.py:29-35 | Every release is at least the minimum wait before the next press |
| `Rapidfire.PulsesSpanTheBlock` | keymasq/common/macro_rapidfire.py:29-35 | The first press is at 0 and the last release exactly at the end of the block |
| `Rapidfire.PressIsRounded` | keymasq/common/macro_rapidfire.py:29-35 | Every press is within half a microsecond of its exact place, so errors do not add up |
| `Rapidfire.Expand` | keymasq/common/macro_rapidfire.py:58-83 | Expansion fails exactly for targets that are no buttons; otherwise the events are the press and the release of each pulse of the plan, for the target of the block, never go back in time, and start and end with the block |
| `Superkey.ReachableInv` | keymasq/keymasqd/superkey_state.py:273-420 | In every run the hold timer is pending only in the two down-wait phases and the double-tap timer only between the presses; held actions are those of the slot being held, up to its first emergency reset, and none otherwise; slots fired fit the phase |
| `Superkey.OneSlotPerGesture` | keymasq/keymasqd/superkey_state.py:289-420 | At most one slot fires between two visits to idle; exactly one if the first press was a tap, a tap action is configured and the machine was not stopped |
| `Superkey.IdleReleasesEverything` | keymasq/keymasqd/superkey_state.py:511-546 | Every action that went down went up again, in reverse order, whenever the key is idle, also after a stop |
| `Superkey.LogicKeeps` | keymasq/keymasqd/superkey_state.py:289-412 | Every handler and timer keeps timers, fired slots and recorded gesture consistent with the phase |
| `Superkey.HeldKeeps` | keymasq/keymasqd/superkey_state.py:511-546 | Every handler and timer keeps the open actions of the output equal to the held actions of the slot |
| `SuperkeyOutput.OutputKeeps` | keymasq/keymasqd/superkey_state.py:422-546 | What every step puts out: a tap or double tap that fires presses the actions configured for that slot, up to and including its first emergency reset, and releases them in reverse; a hold slot presses them; releasing and stopping let go of what is held; anything else puts out nothing |
| `SuperkeyOutput.RunsOneWay` | keymasq/keymasqd/superkey_state.py:511-538 | How many actions of a list run is determined |
| `SuperkeyOutput.RecordsKeep` | keymasq/keymasqd/superkey_state.py:289-361 | The recorded times of a gesture are those at which the key went down and up |
| `Superkey.RetiresWhenIdle` | keymasq/keymasqd/superkey_state.py:256-271 | A configuration to be retired is dropped as soon as the key is idle and not before; nothing else drops it |
| `Superkey.NoneRetiresIdle` | keymasq/keymasqd/superkey_state.py:256-271 | In every run, a key that waits to be retired is not idle |
| `Superkey.ClosedForm` | keymasq/keymasqd/superkey_state.py:341-412 | What the machine makes of a finished gesture is what the lengths of its presses allow |
| `Superkey.SlotByLengths` | keymasq/keymasqd/superkey_state.py:312-412 | With punctual timers and no stop, a finished gesture fired slots that the lengths of its presses allow, at the threshold too; a second press belongs to it if it came within the window, and without one the window has passed |
| `Superkey.OneAnswer` | keymasq/keymasqd/superkey_state.py:312-412 | Away from the hold threshold the lengths allow one answer only |
| `Superkey.SlotsExact` | keymasq/keymasqd/superkey_state.py:312-412 | Presses of given lengths can fire given slots in some punctual run if and only if the closed form allows it |
| `Superkey.ThresholdEitherWay` | keymasq/keymasqd/superkey_state.py:312-361 | With a press of exactly the hold threshold, one run fires the hold slot and another one does not |
| `SuperkeyMachineModule.SuperkeyMachine.OnDown` | keymasq/keymasqd/superkey_state.py:289-310 | Going down keeps the machine valid, emits and fires nothing, leaves no double-tap timer, and a hold timer only if holding can matter |
| `SuperkeyMachineModule.SuperkeyMachine.OnUp` | keymasq/keymasqd/superkey_state.py:295-303 | Going up keeps the machine valid and ends the gesture, unless a second press may follow; when it ends nothing is left pressed. If it fires a tap, the new output is that of the tap actions, and if a double tap, that of the double-tap actions: down in order up to the first emergency reset, then up in reverse |
| `SuperkeyMachineModule.SuperkeyMachine.HoldTimeout` | keymasq/keymasqd/superkey_state.py:312-339 | The hold timer takes its step, keeps the machine valid, and presses the actions of the slot that it fires |
| `SuperkeyMachineModule.SuperkeyMachine.DoubleTapTimeout` | keymasq/keymasqd/superkey_state.py:363-376 | The double-tap timer takes its step and keeps the machine valid; if it fires a tap, the new output is that of the tap actions |
| `SuperkeyMachineModule.SuperkeyMachine.StopMachine` | keymasq/keymasqd/superkey_state.py:273-287 | Stopping in any phase leaves the key idle, no timer pending and nothing pressed, and the machine valid |
| `SuperkeyMachineModule.SuperkeyMachine.RetireAfterGesture` | keymasq/keymasqd/superkey_state.py:256-271 | Retiring does not disturb the gesture that is going on: phase, timers, output and actions to release stay, and the configuration is dropped exactly when the key is idle |
| `SuperkeyMachineModule.SuperkeyMachine.ExecuteRepeatSlot` | keymasq/keymasqd/superkey_state.py:486-505 | Repeating a slot taps its actions, changes nothing else and keeps the machine valid |
| `SuperkeyMachineModule.SuperkeyMachine.ExecuteActionsDown` | keymasq/keymasqd/superkey_state.py:530-538 | Presses and holds the actions up to and including the first emergency reset, in order |
| `SuperkeyMachineModule.SuperkeyMachine.ExecuteHeldActionsUp` | keymasq/keymasqd/superkey_state.py:540-546 | Releases everything held, in reverse order |
| `SuperkeyMachineModule.SuperkeyMachine.ExecuteActionsTap` | keymasq/keymasqd/superkey_state.py:511-528 | Presses the same actions and releases them in reverse, leaving what was held |
| `RecordingSpoolModel.EveryInterleaving` | keymasq/keymasqd/recording_spool.py:115-225 | For every interleaving of appends and writer steps, failed or not: file, in-flight chunk, queued chunks and memory are together the accepted events in order if and only if no write was cut short; otherwise one stretch is missing and the spool has failed; the event count is right; events not yet in the file never exceed (pending chunks + 2) chunks |
| `RecordingSpoolModel.FailureAloneLosesNothing` | keymasq/keymasqd/recording_spool.py:184-203 | A writer that falls behind, or a missing event loop, fails the spool and loses nothing |
| `RecordingSpoolModel.FailedIff` | keymasq/keymasqd/recording_spool.py:184-225 | In every run the spool has failed if and only if some write failed, or some event filled the memory while the queue was full, or while the writer had to be started and there was no event loop |
| `RecordingSpoolModel.StepFails` | keymasq/keymasqd/recording_spool.py:115-132 | A step fails the spool exactly in those cases, by the event count and the byte limit |
| `RecordingSpoolModel.AppendMoves` | keymasq/keymasqd/recording_spool.py:115-132 | The memory is queued as one chunk exactly when an event fills it and the queue has room; otherwise the event is added and nothing else moves |
| `RecordingSpoolModel.DurationFacts` | keymasq/keymasqd/recording_spool.py:115-132 | The duration is the time of the latest event in whole milliseconds, and never negative |
| `RecordingSpoolModel.CutLosesEvents` | keymasq/keymasqd/recording_spool.py:205-225 | A run whose write fails after one of two events: the other one is lost |
| `RecordingSpoolModel.StepKeeps` | keymasq/keymasqd/recording_spool.py:184-225 | Each step keeps the contents in order unless it cuts a write short, after which the writer has stopped for good; chunk sizes stay bounded, queued chunks attended by a writer, and the summary exact |
| `RecordingSpoolModel.UnspilledBound` | keymasq/keymasqd/recording_spool.py:184-193 | The bound on events not yet in the file |
| `RecordingSpoolModel.IterEvents` | keymasq/keymasqd/recording_spool.py:31-35 | Iterating a snapshot yields the file's events and then those in memory |
| `RecordingSpoolModel.RecordingSpool.Append` | keymasq/keymasqd/recording_spool.py:115-132 | An append takes the model's step; unless the spool has failed the event counts as accepted |
| `RecordingSpoolModel.RecordingSpool.QueueMemoryChunk` | keymasq/keymasqd/recording_spool.py:184-203 | Queueing loses and reorders nothing, even when it fails the spool; the queue stays within its limit; unless it fails, the memory is free and a writer runs |
| `RecordingSpoolModel.RecordingSpool.AwaitWriter` | keymasq/keymasqd/recording_spool.py:205-218 | The writer ends, with an empty queue unless it failed; it fails if and only if one of its writes does; nothing is lost or reordered unless a write is cut short, and then one stretch is missing and the spool has failed |
| `RecordingSpoolModel.RecordingSpool.Finish` | keymasq/keymasqd/recording_spool.py:134-170 | Fails if and only if the spool had failed or a write of the disk fails now, and then keeps nothing; otherwise returns a snapshot with exactly the accepted events in order, and their count, duration and device types |
| `RecordingSpoolModel.RecordingSpool.Discard` | keymasq/keymasqd/recording_spool.py:172-182 | No event, chunk or file is left |
| `RecordingManagerModel.StepKeeps` | keymasq/keymasqd/recording.py:661-757 | Every operation keeps the time maps aligned with the recordings, discard requests within the claimed, at most one current recording and one metadata owner per slot; it cleans only live recordings, and never a metadata file another one still owns |
| `RecordingManagerModel.EveryRecordingAccountedFor` | keymasq/keymasqd/recording.py:661-757 | In every run each registered recording is in exactly one of pending, claimed and cleaned |
| `RecordingManagerModel.CleanedOnce` | keymasq/keymasqd/recording.py:672-757 | No recording is cleaned twice |
| `RecordingManagerModel.RegisterSlots` | keymasq/keymasqd/recording.py:610-637 | A new recording of a slot takes over the slot and its metadata file from all older ones |
| `RecordingManagerModel.CleansExactly` | keymasq/keymasqd/recording.py:610-757 | What each operation cleans: registering, the pending recordings of the slot; releasing a claim, the recording if it was saved or is doomed; discarding, a pending one; discarding all, the pending ones without a slot; expiry, those old enough that have no slot or are doomed |
| `RecordingManagerModel.PendsExactly` | keymasq/keymasqd/recording.py:610-757 | What is pending after each operation |
| `RecordingManagerModel.ClaimsExactly` | keymasq/keymasqd/recording.py:661-757 | What is claimed after each operation |
| `RecordingManagerModel.DoomsExactly` | keymasq/keymasqd/recording.py:610-757 | What is doomed after each operation |
| `RecordingManagerModel.TimesExactly` | keymasq/keymasqd/recording.py:661-695 | A recording counts from its registration and a claim from when it was made; one that is given back keeps the time of its claim |
| `RecordingManagerModel.SlotsExactly` | keymasq/keymasqd/recording.py:349-364 | A new recording has its slot, if that is 1 to 4, and owns its metadata file; the others keep slot and file unless they lose the slot |
| `RecordingManagerModel.RecordingManager.RegisterRecording` | keymasq/keymasqd/recording.py:349-364 | Registers the recording, cleaning or dooming older ones of the slot |
| `RecordingManagerModel.RecordingManager.DiscardExistingSlotRecordings` | keymasq/keymasqd/recording.py:610-637 | Removes exactly the pending ones of the slot, and marks exactly its claimed ones; all lose the metadata file |
| `RecordingManagerModel.RecordingManager.ClaimRecording` | keymasq/keymasqd/recording.py:661-670 | Moves a pending recording to claimed, or reports that there is none |
| `RecordingManagerModel.RecordingManager.ReleaseRecordingClaim` | keymasq/keymasqd/recording.py:672-695 | A saved or doomed recording is cleaned, any other goes back to pending with its time |
| `RecordingManagerModel.RecordingManager.DiscardRecording` | keymasq/keymasqd/recording.py:697-708 | A pending recording is cleaned, a claimed one doomed |
| `RecordingManagerModel.RecordingManager.DiscardAllRecordings` | keymasq/keymasqd/recording.py:710-799 | A recording of a slot stays exactly as it was; one without a slot is cleaned if it was pending and doomed if it was claimed; the invariant is kept |
| `RecordingManagerModel.RecordingManager.DiscardExpiredRecordings` | keymasq/keymasqd/recording.py:715-757 | Exactly the recordings past their time are cleaned, except those of a slot that are not doomed |
| `MacroScan.ScannersAgree` | keymasq/common/macro_compile.py:127-144 | On every text the tokenizer accepts, the split parts concatenate to the text, and the parts marked as calls are, in order and one to one, the stretches that the tokenizer's macro tokens were read from, with the same names |
| `MacroScan.SameCallsFrom` | keymasq/common/macro_compile.py:228-257 | From any position that does not follow a backslash, on any text, the splitter marks exactly the calls that the tokenizer comes across, in the same places, through escapes, unterminated tags and nested '<' |
| `MacroScan.ReadCallsArePlaced` | keymasq/common/macro_compile.py:228-257 | The calls that the tokenizer comes across are its macro tokens, with the stretches they were read from |
| `MacroReads.TextIsRead` | keymasq/common/macro_compile.py:228-257 | An accepted text is tiled by pieces, and the tokens are theirs: one character stands for itself, an escaped "<" for "<", a closed tag for its macro call, the tokens of its control, or its own characters |
| `MacroReads.OneReading` | keymasq/common/macro_compile.py:228-257 | A text has one such reading |
| `MacroReads.TextIsRejected` | keymasq/common/macro_compile.py:228-257 | A rejected text has a malformed tag, behind pieces that can be read |
| `MacroReads.PlainText` | keymasq/common/macro_compile.py:228-257 | A text without "<" gives one token per character, unchanged and in order |
| `MacroScan.ListedParts` | keymasq/common/macro_compile.py:127-144 | The list of parts says what the recursive parts say |
| `MacroScan.SplitText` | keymasq/common/macro_compile.py:127-144 | Splitting loses no character, on any text |
| `MacroScan.SplitTypeMacroCalls` | keymasq/common/macro_compile.py:127-144 | The loop yields the parts that the recursive definition gives: together they are the text, and those marked as calls are the calls of `MacroScan.SameCallsFrom` |
| `MacroScan.TypeMacroTokens` | keymasq/common/macro_compile.py:228-257 | The loop yields the tokens that the recursive definition gives, or the error; what they are for every text is `MacroReads.TextIsRead` and `MacroReads.TextIsRejected` |
| `MacroCompile.CompiledIsSegment` | keymasq/common/macro_compile.py:147-225 | Whatever compiles, its events form a well-nested press and release word, leave nothing pressed and never go back in time |
| `MacroCompile.ChordSegment` | keymasq/common/macro_compile.py:522-542 | One chord with any modifiers is well nested, leaves nothing pressed and stays within its time |
| `MacroCompile.DurationIsLastEvent` | keymasq/common/macro_compile.py:453-472 | The duration of a compiled macro is the time of its last event |
| `MacroCompile.BuildTypeMacroEvents` | keymasq/common/macro_compile.py:147-225 | The compiler's loop yields the specified events or the error; no key is left pressed and times never decrease |
| `MacroCompile.AppendToken` | keymasq/common/macro_compile.py:169-221 | Each kind of token appends its events and advances the time |
| `MacroCompile.AppendChordEvents` | keymasq/common/macro_compile.py:522-542 | The two loops over the modifiers build the nested chord |
| `MacroCompile.AppendDirectKeyEvents` | keymasq/common/macro_compile.py:493-507 | Dead keys first, then the key, settled in between |
| `MacroCompile.AppendUnicodeCharEvents` | keymasq/common/macro_compile.py:651-687 | Ctrl+Shift+U, digits and space, or the error |
| `MacroCompile.AppendMouseClickEvents` | keymasq/common/macro_compile.py:597-616 | A click appended to events that leave nothing pressed leaves nothing pressed, and times stay in order |
| `MacroCompile.DurationOf` | keymasq/common/macro_compile.py:453-472 | The latest time of any event |
| `MacroMeaning.CompiledMeans` | keymasq/common/macro_compile.py:147-225 | Compilation succeeds exactly when every token can be typed; read back, the events are the keystrokes (each with the modifiers held around it) and actions that the tokens ask for, in order, each at its time: keys held for the given time, the given pause between tokens but not next to a wait, a millisecond around modifiers and between strokes |
| `MacroMeaning.ChordReads` | keymasq/common/macro_compile.py:522-542 | A chord reads back as one stroke of its key with its modifiers held in order, a millisecond each, and the key held for the given time |
| `MacroMeaning.HexRoundTrip` | keymasq/common/macro_compile.py:668-675 | The hexadecimal digits typed for a character spell its code point |
| `MacroMeaning.CompiledCallsAreSplitCalls` | keymasq/common/macro_compile.py:120-225 | From text to events, at any hold time and pause: the macros that the compiled events call are, in order, the calls that the splitter marks in the text, and the stretches it keeps from being normalised are exactly those the calls were read from |
| `Ipc.FrameRoundTrip` | keymasq/common/ipc.py:100-130 | Decoding an encoded payload gives it back and leaves the bytes behind it alone |
| `Ipc.HeaderIsBigEndian` | keymasq/common/ipc.py:100-113 | A header is the length in four bytes, the first one counting most, both ways |
| `Ipc.CommandRoundTrip` | keymasq/common/ipc.py:133-155 | A command survives encoding and decoding |
| `Ipc.DrainArrived` | keymasq/common/ipc.py:106-130 | Of a stream that has partly arrived, the commands of the complete frames are handled and the incomplete frame stays buffered |
| `Ipc.AnyChunking` | keymasq/keymasqd/socket_server.py:371-398 | However the bytes so far were cut into reads, the server has handled the commands of the frames that have arrived |
| `Ipc.StreamHandled` | keymasq/keymasqd/socket_server.py:371-398 | However a stream of frames within the size limit is cut, exactly the valid commands are handled in order; a malformed payload costs only its own frame |
| `Ipc.CutsDoNotMatter` | keymasq/keymasqd/socket_server.py:371-398 | For any bytes in which no frame is oversized, malformed ones included, the server has handled and kept what one read of all of them would give, however they were cut |
| `Ipc.OversizedFrame` | keymasq/common/ipc.py:110-113 | For any cut of a stream with an oversized frame: the valid commands in front of it are handled, what the read that completes its header brings of the payload is dropped, and the rest is read as a fresh stream |
| `Ipc.DrainOversized` | keymasq/common/ipc.py:110-113 | The header of an oversized frame throws away everything buffered behind it |
| `Ipc.OversizedDependsOnCut` | keymasq/keymasqd/socket_server.py:371-398 | Two cuts of the same bytes into reads of at most 4096 bytes, one of which handles a command that the other does not |
| `Ipc.Connection.OnRead` | keymasq/keymasqd/socket_server.py:377-398 | One read and the loop behind it, which ends because the buffer shrinks |
| `SleepModel.EveryInterleaving` | keymasq/keymasqd/sleep.py:124-177 | Across every interleaving of signals and worker steps the invariant holds: counter, pause, queue and hardware fit together |
| `SleepModel.StepKeeps` | keymasq/keymasqd/sleep.py:124-177 | Each signal and worker step keeps counter, pause, queue order and hardware state consistent |
| `SleepModel.PausedIff` | keymasq/keymasqd/sleep.py:124-139 | The counter is the number of suspends queued or in progress, and input is paused exactly while sleep is requested or one is outstanding |
| `SleepModel.NoResumeDuringSuspend` | keymasq/keymasqd/sleep.py:164-172 | Hardware is resumed only when no sleep is requested, queued or in progress, and input is then running |
| `SleepModel.SettledHardware` | keymasq/keymasqd/sleep.py:141-177 | With the queue drained and the worker idle, the last hardware step was a resume if and only if sleep is not requested |
| `SleepModel.SleepCoordinator.OnPrepareForSleep` | keymasq/keymasqd/sleep.py:124-131 | A signal keeps the coordinator valid; input is paused before the handler returns if sleep is coming, and paused exactly while sleep is requested or a suspend outstanding; hardware is not touched |
| `SleepModel.SleepCoordinator.WorkerLoop` | keymasq/keymasqd/sleep.py:141-177 | Taking an event keeps the coordinator valid; hardware is resumed only with no sleep requested, queued or in progress and input running; an outdated wake-up changes nothing; settled hardware is as the last signal asked |
| `SleepModel.SleepCoordinator.AfterPrepare` | keymasq/keymasqd/sleep.py:151-157 | Finishing a neutralisation leaves one suspend fewer outstanding, never resumes hardware, and lets input go on exactly if nothing keeps it paused |
| `MaskingLatch.StopHolds` | keymasq/keymasqd/hardware_masking.py:579-597 | After an emergency stop began, remapping is suspended unless a later step lifted it: an unsuspended answer to a startup, mask or global resume request issued after the stop began, with no stop beginning or ending in between |
| `MaskingLatch.OnlyALiftResumes` | keymasq/keymasqd/hardware_masking.py:360-367 | Nothing but such an answer, to the latest request with its id, turns a suspended machine unsuspended |
| `MaskingLatch.ObserverNeverLifts` | keymasq/keymasqd/hardware_masking.py:495-504 | The answer to a poll, a restore, an inventory or the resume of a single mask never is one, even when its id was used before |
| `MaskingLatch.AnyAnswerMayPause` | keymasq/keymasqd/hardware_masking.py:354-367 | Any answer that reports a pause suspends, whatever it answers |
| `MaskingLatch.LiftResumes` | keymasq/keymasqd/hardware_masking.py:354-367 | An unsuspended answer to a startup, a mask or a global resume that has seen no stop since it was issued admits grabs again, whatever was latched or observed |
| `MaskingLatch.RunInv` | keymasq/keymasqd/hardware_masking.py:354-367 | Suspension is the latch or the observed pause, the generation counts stops begun and ended, and every request remembers the count at its issue |
| `MaskingLatch.HardwareMasking.Apply` | keymasq/keymasqd/hardware_masking.py:360-367 | After a status grabs are admitted if and only if it reports no pause, and they were admitted before or it answers an up-to-date transition request |
| `MaskingLatch.HardwareMasking.IssueRequest` | keymasq/keymasqd/hardware_masking.py:409-416 | A request remembers the number of stops begun and ended so far; admission stays as it is, and every past stop holds or was lifted |
| `MaskingLatch.HardwareMasking.OnResponse` | keymasq/keymasqd/hardware_masking.py:463-504 | After a response every past stop still holds or was lifted; a response that admits grabs again answers a startup, a mask or a global resume and is such a lift; the answer to a poll never admits them |
| `MaskingLatch.HardwareMasking.OnFailure` | keymasq/keymasqd/hardware_masking.py:409-416 | A request that fails admits nothing: admission stays as it is and every past stop holds or was lifted |
| `MaskingLatch.HardwareMasking.BeginRestore` | keymasq/keymasqd/hardware_masking.py:579-585 | A stop suspends at once, and no request under way can lift it |
| `MaskingLatch.HardwareMasking.EndRestore` | keymasq/keymasqd/hardware_masking.py:592-597 | The end of a stop changes no admission, and no request issued while it ran can lift it |
| `Rollover.LayerIsSurvivors` | keymasq/common/rollover.py:175-196 | Layering returns, in order, exactly the groups with two distinct members or more that share none with a later such group |
| `Rollover.LayerSettles` | keymasq/common/rollover.py:175-196 | The result has no shared members |
| `Rollover.LayerIdentity` | keymasq/common/rollover.py:175-196 | Layering changes nothing if and only if the groups are big enough and disjoint; it is idempotent |
| `Rollover.LayerRolloverGroups` | keymasq/common/rollover.py:175-196 | The loop returns those survivors |
| `Rollover.GroupsFromToml` | keymasq/common/rollover.py:99-163 | Parsing succeeds if and only if every group is well typed, has two members or more, none twice, and no member is in two groups; then it returns the groups as written: names trimmed, the newest member winning and the previous one restored unless the table says otherwise |
| `Rollover.AcceptedIsSettled` | keymasq/common/rollover.py:99-163 | Layering changes neither an accepted list nor what is left of it when members are dropped |
| `Rollover.DropFacts` | keymasq/common/rollover.py:261-278 | Dropping members keeps groups disjoint and big enough |
| `Rollover.DropExactly` | keymasq/common/rollover.py:261-278 | Exactly the groups with two members left or more are kept, in order, with those members and otherwise as they were |
| `Rollover.KeepExactly` | keymasq/common/rollover.py:261-278 | Exactly the members that are not dropped are kept, in order |
| `Rollover.DropRolloverMembers` | keymasq/common/rollover.py:261-278 | The loop keeps the other members in order and drops groups that become too small |

## Left out

- Devices, uinput, udev, systemd, D-Bus, file permissions, the socket's peer checks, the GUI, the CLI and the GNOME extension: input and output, not logic that can be decided here.
- Normalising evdev names: a binding carries the reported name and the token it stands for; the table of names is not modelled.
- What a combo's action is: an action is an opaque number.
- Pairing a consumed press with its release, and what callers do with `reset`: decided by the runtime around the engine.
- Later steps of a combo count pressed keys, as the code does; an assignment of keys to bindings is claimed for first steps only.
- Candidates are values in a map that is reassigned, not objects shared by reference; no code of the engine keeps a candidate outside its dictionary.
- Tracked presses are kept in the order they were tracked; the code sorts them by their order number, which is the same order by the invariant.
- Times are reals; the rounding of floating-point clocks is not modelled.
- Coercion of stored macro events and the default rapidfire settings: blocks arrive with integer fields.
- Superkey sequences that run detached, awaits inside action execution and cancellation in the middle of one: each handler is one step.
- What the retire callback does, and the source action that is dropped with it.
- Reading superkey slots as nested mapping actions: an action is a name and whether it is an emergency reset.
- Cancelling the writer task. How the disk takes each write is a parameter: it succeeds or fails after any part of its chunk. Event sizes and the text form of events are given.
- `RecordingSpoolModel.RecordingSpool.Finish`: assumes no append while it runs, as its caller ensures.
- Loading slot recordings from disk at start, and removing stale files.
- The creation time of a claimed recording that has none: the tables always have one, so the fallback to the current time is never taken.
- Persisting a slot's metadata file and registering its recording are one step.
- Unicode normalisation (NFKC) and its fixpoint loop: it depends on library tables; the splitter that guards it is modelled.
- Stripping white space, reading numbers, names and shortcuts, and keyboard layouts: parameters of the scanners and the compiler. The one thing asked of them is that no tag but a macro call yields a macro token, which the tag parser ensures.
- The options of a natural mouse move other than `stop_on_failure` are constants and are not part of the model's action.
- Texts of error messages: an error is one outcome per operation.
- JSON: the meaning of a payload is a parameter, and an encoder is only asked to be inverted by it.
- JSON nested so deeply that the parser gives up: it raises an error the decoder does not catch and the client is dropped; here every payload has a meaning or is malformed.
- Reads that hold a whole oversized frame: a read returns 4096 bytes at most.
- Stopping the sleep coordinator, exceptions from its callbacks, and the inhibitor lock.
- The coordinator process behind hardware masking: its responses are arbitrary.
- Rollover data from sources other than profile files, and the helpers that edit or name groups.
