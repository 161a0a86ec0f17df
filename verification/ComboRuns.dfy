/**
  Whole runs of the combo recogniser: any sequence of input events, timeouts, lost devices and
  reloads, starting from an empty recogniser.
*/
module ComboRuns {
  import opened Wrappers
  import opened ComboModel
  import opened ComboLaws

  datatype Op =
    | Event(b: Binding, value: int, now: real, pick: Pick)
    | ExpireAt(now: real)
    | DropDevice(hardwareId: string, source: Option<string>)
    | Prime(keys: seq<Binding>)
    | Reload(combos: seq<Combo>, preserve: Option<set<Id>>)
    | ResetAll

  /** What callers promise: key events have value 0, 1 or 2, combo ids are distinct, and a combo
      whose candidate is preserved keeps its steps. */
  ghost predicate Allowed(s: State, op: Op) {
    match op
    case Event(_, value, _, pick) => 0 <= value <= 2 && GoodPick(pick)
    case Reload(combos, preserve) =>
      && DistinctIds(combos)
      && (preserve.Some? ==> forall id | id in preserve.value && id in s.cands && ComboById(combos, id).Some? ::
            ComboById(combos, id).value.steps == s.cands[id].combo.steps)
    case _ => true
  }

  ghost function Apply(s: State, op: Op): State {
    match op
    case Event(b, value, now, pick) => HandleEvent(s, b, value, now, pick).s
    case ExpireAt(now) => Expire(s, now)
    case DropDevice(hardwareId, source) => DropScope(s, hardwareId, source)
    case Prime(keys) => PrimeHeld(s, keys)
    case Reload(combos, preserve) => SetCombos(s, combos, preserve)
    case ResetAll => Reset(s)
  }

  /** What a run tells its caller: the transitions of each event, the ids returned when a device is
      dropped, and the candidates a reload or reset forgot. */
  datatype Entry =
    | Emitted(ts: seq<Transition>)
    | Reported(ids: set<Id>)
    | Forgotten(ids: set<Id>)

  ghost function EntryOf(s: State, op: Op): Entry {
    match op
    case Event(b, value, now, pick) => Emitted(HandleEvent(s, b, value, now, pick).d.transitions)
    case DropDevice(hardwareId, source) => Reported(DroppedActive(s, hardwareId, source))
    case Reload(_, _) => Forgotten(s.cands.Keys - Apply(s, op).cands.Keys)
    case ResetAll => Forgotten(s.cands.Keys)
    case _ => Emitted([])
  }

  /** A reported id must have an open press, which the report closes; a forgotten one is closed. */
  function LogPhase(phase: Phase, entry: Entry, id: Id): Phase {
    match entry
    case Emitted(ts) => PhaseAfter(phase, ts, id)
    case Reported(ids) => if id !in ids then phase else if phase == Open then Closed else Broken
    case Forgotten(ids) => if id !in ids || phase == Broken then phase else Closed
  }

  ghost function RunState(ops: seq<Op>): State {
    if ops == [] then Init() else Apply(RunState(ops[..|ops| - 1]), ops[|ops| - 1])
  }

  ghost predicate AllowedRun(ops: seq<Op>) {
    ops == [] || (AllowedRun(ops[..|ops| - 1]) && Allowed(RunState(ops[..|ops| - 1]), ops[|ops| - 1]))
  }

  ghost function RunPhase(ops: seq<Op>, id: Id): Phase {
    if ops == [] then Closed
    else
      var front := ops[..|ops| - 1];
      LogPhase(RunPhase(front, id), EntryOf(RunState(front), ops[|ops| - 1]), id)
  }

  // ---- Every operation keeps the invariant ----

  lemma DropScopeState(s: State, hardwareId: string, source: Option<string>)
    requires Inv(s)
    ensures var cands := map id | id in s.cands && !TouchesScope(s.cands[id], hardwareId, source) :: s.cands[id];
            var held := map b | b in s.held && !InScope(b, hardwareId, source) :: s.held[b];
            Inv(WithCands(s, cands).(held := held))
  {
    var cands := map id | id in s.cands && !TouchesScope(s.cands[id], hardwareId, source) :: s.cands[id];
    var held := map b | b in s.held && !InScope(b, hardwareId, source) :: s.held[b];
    RestrictOrders(s.ids, cands.Keys);
    forall id | id in cands ensures CandOK(cands[id], held.Keys, s.counter) {
      assert CandOK(s.cands[id], s.held.Keys, s.counter);
    }
  }

  lemma DropScopeKeeps(s: State, hardwareId: string, source: Option<string>)
    requires Inv(s)
    ensures Inv(DropScope(s, hardwareId, source))
    ensures forall id: Id :: LogPhase(PhaseOf(s, id), Reported(DroppedActive(s, hardwareId, source)), id)
                             == PhaseOf(DropScope(s, hardwareId, source), id)
  {
    if hardwareId != "" {
      DropScopeState(s, hardwareId, source);
    }
  }

  lemma {:induction false} PrimeHeldKeeps(s: State, keys: seq<Binding>)
    requires Inv(s)
    ensures Inv(PrimeHeld(s, keys)) && PrimeHeld(s, keys).cands == s.cands
  {
    if keys != [] {
      PrimeHeldKeeps(s, keys[..|keys| - 1]);
      RecordHeldKeeps(PrimeHeld(s, keys[..|keys| - 1]), keys[|keys| - 1]);
    }
  }

  lemma PreserveKeeps(s: State, combos: seq<Combo>, keep: set<Id>)
    requires Inv(s) && Allowed(s, Reload(combos, Some(keep)))
    ensures Inv(PreserveCandidates(s, combos, keep))
    ensures forall id | id in PreserveCandidates(s, combos, keep).cands ::
              id in s.cands && PreserveCandidates(s, combos, keep).cands[id].active == s.cands[id].active
  {
    var s' := PreserveCandidates(s, combos, keep);
    RestrictOrders(s.ids, s'.cands.Keys);
    forall id | id in s'.cands
      ensures s'.cands[id].combo.id == id && s'.cands[id].combo in combos
      ensures CandOK(s'.cands[id], s.held.Keys, s.counter)
    {
      ComboByIdFacts(combos, id);
      assert CurrentStep(s'.cands[id]) == CurrentStep(s.cands[id]);
    }
  }

  lemma ApplyKeeps(s: State, op: Op)
    requires Inv(s) && Allowed(s, op)
    ensures Inv(Apply(s, op))
    ensures forall id: Id :: LogPhase(PhaseOf(s, id), EntryOf(s, op), id) == PhaseOf(Apply(s, op), id)
  {
    match op
    case Event(b, value, now, pick) => HandleEventKeeps(s, b, value, now, pick);
    case ExpireAt(now) => ExpireKeeps(s, now);
    case DropDevice(hardwareId, source) => DropScopeKeeps(s, hardwareId, source);
    case Prime(keys) => PrimeHeldKeeps(s, keys);
    case Reload(combos, preserve) => if preserve.Some? { PreserveKeeps(s, combos, preserve.value); }
    case ResetAll =>
  }

  // ---- Theorems about runs ----

  /** In every reachable state each candidate is completing or waiting, its pressed keys are held
      and belong to its step, and tracked presses are in press order. */
  lemma {:induction false} ReachableInv(ops: seq<Op>)
    requires AllowedRun(ops)
    ensures Inv(RunState(ops))
  {
    if ops != [] {
      ReachableInv(ops[..|ops| - 1]);
      ApplyKeeps(RunState(ops[..|ops| - 1]), ops[|ops| - 1]);
    }
  }

  /** In every run the transitions of each combo read (press release | pulse)*: no second press, no
      release without a press, and an open press ends only with its release, with a report from the
      device drop that removed it, or with a reload or reset. What is open at the end is exactly
      what the recogniser still tracks as active. */
  lemma {:induction false} RunGrammar(ops: seq<Op>, id: Id)
    requires AllowedRun(ops)
    ensures RunPhase(ops, id) == PhaseOf(RunState(ops), id)
    ensures RunPhase(ops, id) != Broken
  {
    if ops != [] {
      var front := ops[..|ops| - 1];
      RunGrammar(front, id);
      ReachableInv(front);
      ApplyKeeps(RunState(front), ops[|ops| - 1]);
    }
  }

  /** Once every key is up, no press is left open. */
  lemma NoOpenPressWhenReleased(ops: seq<Op>, id: Id)
    requires AllowedRun(ops)
    ensures RunState(ops).held == map[] ==> RunPhase(ops, id) == Closed
  {
    RunGrammar(ops, id);
    ReachableInv(ops);
    var s := RunState(ops);
    if s.held == map[] && id in s.cands {
      assert CandOK(s.cands[id], {}, s.counter);
    }
  }

  ghost predicate AllDue(s: State, now: real) {
    forall id | id in s.cands && s.cands[id].deadline.Some? :: s.cands[id].deadline.value <= now
  }

  /** Once every key is up and every deadline has passed, no candidate is left. */
  lemma QuietMeansEmpty(ops: seq<Op>, now: real)
    requires AllowedRun(ops)
    ensures RunState(ops).held == map[] && AllDue(RunState(ops), now) ==> Expire(RunState(ops), now).cands == map[]
  {
    ReachableInv(ops);
    var s := RunState(ops);
    if s.held == map[] && AllDue(s, now) {
      forall id | id in s.cands ensures Expired(s.cands[id], now) {
        assert CandOK(s.cands[id], {}, s.counter);
      }
    }
  }

  // ---- Predicting whether a pulse is consumed ----

  lemma {:induction false} PressAllHit(s: State, ids: seq<Id>, b: Binding, now: real)
    requires IsPulse(b) && forall id | id in ids :: id in s.cands
    ensures PressAll(s, ids, b, now).hit <==> exists id | id in ids :: LacksOne(s.cands[id])
    ensures !PressAll(s, ids, b, now).hit ==> PressAll(s, ids, b, now).s == s
  {
    if ids != [] {
      PressAllHit(s, ids[..|ids| - 1], b, now);
      assert ids == ids[..|ids| - 1] + [ids[|ids| - 1]];
    }
  }

  ghost predicate SomeStart(s: State, ids: seq<Id>, b: Binding, pick: Pick) {
    exists id | id in ids :: CanStartId(s, id, b, pick)
  }

  lemma SomeStartNext(s: State, ids: seq<Id>, i: nat, b: Binding, pick: Pick)
    requires i < |ids|
    ensures SomeStart(s, ids[..i + 1], b, pick) <==> SomeStart(s, ids[..i], b, pick) || CanStartId(s, ids[i], b, pick)
    ensures CanStartId(s, ids[i], b, pick) ==> SomeStart(s, ids, b, pick)
  {
    assert ids[..i + 1] == ids[..i] + [ids[i]];
  }

  lemma StartOneHit(p: Progress, id: Id, b: Binding, now: real, pick: Pick)
    requires !p.hit && id in p.s.cands ==> b !in p.s.cands[id].pressed
    requires !p.hit && ComboById(p.s.combos, id).Some? ==> ComboById(p.s.combos, id).value.id == id
    ensures StartOne(p, id, b, now, pick).hit <==> p.hit || CanStartId(p.s, id, b, pick)
    ensures !StartOne(p, id, b, now, pick).hit ==> StartOne(p, id, b, now, pick).s == p.s
  {
  }

  lemma {:induction false} StartAllHit(s: State, ids: seq<Id>, b: Binding, now: real, pick: Pick)
    requires forall id | id in s.cands :: b !in s.cands[id].pressed
    requires forall id | id in ids && ComboById(s.combos, id).Some? :: ComboById(s.combos, id).value.id == id
    ensures StartAll(s, ids, b, now, pick).hit <==> SomeStart(s, ids, b, pick)
    ensures !StartAll(s, ids, b, now, pick).hit ==> StartAll(s, ids, b, now, pick).s == s
  {
    if ids != [] {
      var front, last := ids[..|ids| - 1], ids[|ids| - 1];
      StartAllHit(s, front, b, now, pick);
      SomeStartNext(s, ids, |ids| - 1, b, pick);
      assert ids[..|ids|] == ids;
      StartOneHit(StartAll(s, front, b, now, pick), last, b, now, pick);
    }
  }

  ghost predicate SomeLacksOne(s: State, b: Binding) {
    exists id | id in s.cands ::
      !s.cands[id].releasing && StepMatches(CurrentStep(s.cands[id]), b) && LacksOne(s.cands[id])
  }

  lemma MatchingHit(s: State, b: Binding, now: real)
    requires Inv(s) && IsPulse(b)
    ensures var s' := Drop(s, MismatchIds(s, b));
            var p := PressAll(s', InComboOrder(s.combos, MatchingIds(s, b)), b, now);
            (p.hit <==> SomeLacksOne(s', b)) && (!p.hit ==> p.s == s')
  {
    var s' := Drop(s, MismatchIds(s, b));
    var order := InComboOrder(s.combos, MatchingIds(s, b));
    MatchingOrder(s, b);
    PressAllHit(s', order, b, now);
    InComboOrderFacts(s.combos, MatchingIds(s, b));
    forall id | id in s.cands && Matching(s.cands[id], b) ensures id in order {
      assert s.cands[id].combo in s.combos && s.cands[id].combo.id in MatchingIds(s, b);
    }
  }

  lemma NoMatchNoHit(s: State, b: Binding)
    requires MatchingIds(s, b) == {} && forall id | id in s.cands :: b !in s.cands[id].pressed
    ensures !SomeLacksOne(Drop(s, MismatchIds(s, b)), b)
    ensures MismatchIds(s, b) == {} ==> Drop(s, MismatchIds(s, b)).cands == s.cands
  {
    var s' := Drop(s, MismatchIds(s, b));
    forall id | id in s'.cands ensures s'.cands[id].releasing || !StepMatches(CurrentStep(s'.cands[id]), b) {
      assert id !in MatchingIds(s, b);
    }
  }

  /** What the waiting candidates make of a pulse. */
  lemma PulseWaiting(s: State, b: Binding, now: real)
    requires Inv(s) && IsPulse(b)
    ensures var w := PressWaiting(s, b, now);
            var s' := Drop(s, MismatchIds(s, b));
            (w.d.consume <==> SomeLacksOne(s', b)) && (!w.d.consume ==> w.s.cands == s'.cands)
  {
    assert RepeatedIds(s, b) == {};
    if MatchingIds(s, b) != {} {
      MatchingHit(s, b, now);
    } else {
      NoMatchNoHit(s, b);
    }
  }

  lemma FirstStepHit(s: State, b: Binding, now: real, pick: Pick)
    requires Inv(s) && IsPulse(b)
    ensures PressFirstSteps(s, b, now, pick).d.consume <==> SomeStart(s, FirstStepIds(s.combos, b), b, pick)
  {
    forall id | id in FirstStepIds(s.combos, b) { ComboByIdFacts(s.combos, id); }
    StartAllHit(s, FirstStepIds(s.combos, b), b, now, pick);
  }

  lemma PulsePressIff(s: State, b: Binding, now: real, pick: Pick)
    requires Inv(s) && IsPulse(b)
    ensures PressEvent(s, b, now, pick).d.consume <==> WouldConsumePulse(Drop(s, MismatchIds(s, b)), b, pick)
  {
    var s' := Drop(s, MismatchIds(s, b));
    PulseWaiting(s, b, now);
    PressWaitingKeeps(s, b, now);
    var w := PressWaiting(s, b, now);
    FirstStepHit(w.s, b, now, pick);
    if !w.d.consume {
      SomeStartFrame(w.s, s', FirstStepIds(s.combos, b), b, pick);
    }
    assert WouldConsumePulse(s', b, pick) <==>
      (SomeLacksOne(s', b) || SomeStart(s', FirstStepIds(s.combos, b), b, pick));
  }

  /** Handling a pulse consumes it exactly when the prediction holds once the candidates that are
      late, and the waiting ones that the pulse contradicts, are gone. */
  lemma PulseConsumedIff(s: State, b: Binding, now: real, pick: Pick)
    requires Inv(s) && IsPulse(b)
    ensures var t := Expire(s, now);
            HandleEvent(s, b, 1, now, pick).d.consume <==> WouldConsumePulse(Drop(t, MismatchIds(t, b)), b, pick)
  {
    ExpireKeeps(s, now);
    PulsePressIff(Expire(s, now), b, now, pick);
  }

  lemma SomeStartFrame(s: State, t: State, ids: seq<Id>, b: Binding, pick: Pick)
    requires s.combos == t.combos && s.held == t.held && s.cands.Keys <= t.cands.Keys
    ensures SomeStart(t, ids, b, pick) ==> SomeStart(s, ids, b, pick)
    ensures s.cands.Keys == t.cands.Keys && SomeStart(s, ids, b, pick) ==> SomeStart(t, ids, b, pick)
  {
  }

  /** The prediction is sound as long as it is fresh: a pulse it claims is consumed if the prediction
      still holds once late candidates are gone, and so in particular if none is late. */
  lemma PredictionSound(s: State, b: Binding, now: real, pick: Pick)
    requires Inv(s)
    ensures WouldConsumePulse(Expire(s, now), b, pick) ==> HandleEvent(s, b, 1, now, pick).d.consume
    ensures WouldConsumePulse(s, b, pick) && !AnyExpired(s, now) ==> HandleEvent(s, b, 1, now, pick).d.consume
  {
    var t := Expire(s, now);
    ExpireKeeps(s, now);
    if !AnyExpired(s, now) { NothingExpired(s, now); }
    if WouldConsumePulse(t, b, pick) {
      PulseConsumedIff(s, b, now, pick);
      SurvivesDrop(t, b, pick);
    }
  }

  lemma SurvivesDrop(s: State, b: Binding, pick: Pick)
    requires WouldConsumePulse(s, b, pick)
    requires forall id | id in s.cands :: b !in s.cands[id].pressed
    ensures WouldConsumePulse(Drop(s, MismatchIds(s, b)), b, pick)
  {
    var s' := Drop(s, MismatchIds(s, b));
    SomeStartFrame(s', s, FirstStepIds(s.combos, b), b, pick);
    if id :| id in s.cands && !s.cands[id].releasing
             && StepMatches(CurrentStep(s.cands[id]), b) && LacksOne(s.cands[id]) {
      assert s'.cands[id] == s.cands[id];
    } else {
      assert SomeStart(s, FirstStepIds(s.combos, b), b, pick);
    }
  }

  lemma OnlyComboStarts(combo: Combo, b: Binding)
    requires b in FirstBindings(combo)
    ensures combo.id in FirstStepIds([combo], b) && forall id | id in FirstStepIds([combo], b) :: id == combo.id
    ensures ComboById([combo], combo.id) == Some(combo)
  {
    FirstStepIdsAreScan([combo], b);
    assert combo in [combo];
    ComboByIdFacts([combo], combo.id);
  }

  /** A combo that has a candidate is not predicted to start again. */
  lemma RunningNotPredicted(s: State, combo: Combo, b: Binding, pick: Pick)
    requires s.combos == [combo] && s.cands.Keys == {combo.id} && ScopedMismatch(s.cands[combo.id], b)
    requires b in FirstBindings(combo)
    ensures !WouldConsumePulse(s, b, pick)
  {
    OnlyComboStarts(combo, b);
    forall id | id in FirstStepIds(s.combos, b) ensures !CanStartId(s, id, b, pick) {
      assert id == combo.id;
    }
  }

  /** A wheel notch that drops the waiting candidate of a combo and starts that combo anew is
      consumed, and the prediction misses it. */
  lemma RestartMissed(s: State, combo: Combo, b: Binding, pick: Pick)
    requires Inv(s) && !AnyExpired(s, 0.0) && IsPulse(b)
    requires s.combos == [combo] && s.cands.Keys == {combo.id} && ScopedMismatch(s.cands[combo.id], b)
    requires b in FirstBindings(combo) && MatchFirstStep(combo, b, s.held.Keys, pick).Some?
    requires PulseCanComplete(combo, b, MatchFirstStep(combo, b, s.held.Keys, pick).value)
    ensures !WouldConsumePulse(s, b, pick) && HandleEvent(s, b, 1, 0.0, pick).d.consume
  {
    RunningNotPredicted(s, combo, b, pick);
    OnlyComboStarts(combo, b);
    NothingExpired(s, 0.0);
    PulseConsumedIff(s, b, 0.0, pick);
    assert CanStartId(Drop(s, MismatchIds(s, b)), combo.id, b, pick);
  }
}
