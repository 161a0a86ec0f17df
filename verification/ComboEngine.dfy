/**
  The combo engine as the daemon runs it: candidates, held keys, the press counter and five lookup
  structures, all updated in place. Every method is proved to do what `ComboModel` says, where the
  held keys are scanned linearly and nothing is indexed.
*/
module ComboEngineModule {
  import opened Wrappers
  import opened ComboModel
  import opened ComboLaws
  import opened HeldIndex
  import opened BindingOrder
  import M = ComboModel
  import Runs = ComboRuns

  class ComboEngine {
    var combos: seq<Combo>
    var comboMap: map<Id, Combo>
    var firstStepIndex: map<FullKey, seq<Id>>
    var candidates: map<Id, Candidate>
    var candidateIds: seq<Id>
    var pressCounter: nat
    var heldBindings: set<Binding>
    var heldPressOrder: map<Binding, nat>
    var heldIndexes: Indexes

    /** The state of the reference recogniser that this engine is in. */
    ghost function Abs(): State
      reads this
    {
      State(combos, candidates, candidateIds, heldPressOrder, pressCounter)
    }

    ghost predicate HeldCoupled()
      reads this
    {
      heldPressOrder.Keys == heldBindings && heldIndexes == IndexesOf(heldBindings)
    }

    ghost predicate CombosCoupled()
      reads this
    {
      MapOf(comboMap, combos) && FirstIndexOf(firstStepIndex, combos)
    }

    ghost predicate Valid()
      reads this
    {
      HeldCoupled() && CombosCoupled() && Inv(Abs())
    }

    constructor ()
      ensures Abs() == Init()
      ensures Valid()
    {
      combos, comboMap, firstStepIndex := [], map[], map[];
      candidates, candidateIds, pressCounter := map[], [], 0;
      heldBindings, heldPressOrder := {}, map[];
      heldIndexes := NO_INDEXES;
    }

    // ---- Loading combos ----

    method SetCombos(newCombos: seq<Combo>, preserve: Option<set<Id>>)
      requires Valid() && Runs.Allowed(Abs(), Runs.Reload(newCombos, preserve))
      modifies this
      ensures Abs() == M.SetCombos(old(Abs()), newCombos, preserve)
      ensures Valid()
    {
      Runs.ApplyKeeps(Abs(), Runs.Reload(newCombos, preserve));
      LoadCombos(newCombos, preserve);
    }

    method LoadCombos(newCombos: seq<Combo>, preserve: Option<set<Id>>)
      requires HeldCoupled() && Orders(candidateIds, candidates.Keys)
      modifies this
      ensures HeldCoupled() && CombosCoupled()
      ensures Abs() == M.SetCombos(old(Abs()), newCombos, preserve)
    {
      combos := newCombos;
      comboMap := BuildComboMap(newCombos);
      firstStepIndex := BuildFirstStepIndex(newCombos);
      match preserve {
        case Some(keep) => PreserveCandidates(keep);
        case None => Reset();
      }
    }

    method PreserveCandidates(keep: set<Id>)
      requires Orders(candidateIds, candidates.Keys) && MapOf(comboMap, combos)
      modifies this`candidates, this`candidateIds
      ensures Abs() == M.PreserveCandidates(old(Abs()), combos, keep)
    {
      candidates, candidateIds := KeepPreserved(candidateIds, candidates, keep, comboMap, combos, Abs());
    }

    method Reset()
      modifies this`candidates, this`candidateIds, this`pressCounter, this`heldBindings, this`heldPressOrder,
               this`heldIndexes
      ensures HeldCoupled() && Abs() == M.Reset(old(Abs()))
    {
      candidates, candidateIds, pressCounter := map[], [], 0;
      heldBindings, heldPressOrder := {}, map[];
      heldIndexes := NO_INDEXES;
    }

    // ---- Held keys ----

    method RecordHeldPress(b: Binding)
      requires HeldCoupled()
      modifies this`pressCounter, this`heldBindings, this`heldPressOrder, this`heldIndexes
      ensures HeldCoupled() && Abs() == RecordHeld(old(Abs()), b)
    {
      if b in heldBindings { return; }
      KeysWith(heldPressOrder, b, pressCounter + 1);
      heldIndexes := AddHeldIndexes(heldIndexes, heldBindings, b);
      heldBindings := heldBindings + {b};
      pressCounter := pressCounter + 1;
      heldPressOrder := heldPressOrder[b := pressCounter];
    }

    method RemoveHeldBinding(b: Binding)
      requires HeldCoupled()
      modifies this`heldBindings, this`heldPressOrder, this`heldIndexes
      ensures HeldCoupled() && Abs() == RemoveHeld(old(Abs()), b)
    {
      heldPressOrder := heldPressOrder - {b};
      if b !in heldBindings { return; }
      TakeKeyKeeps(heldBindings, b);
      heldBindings := heldBindings - {b};
      heldIndexes := TakeKey(heldIndexes, b);
    }

    method HeldBindingsForStep(bindings: seq<Binding>, current: Binding, pick: Pick) returns (r: Option<set<Binding>>)
      requires HeldCoupled()
      ensures r == MatchStep(bindings, current, heldBindings, pick, {}, false)
    {
      var matched: set<Binding> := {};
      var used := false;
      for i := 0 to |bindings|
        invariant MatchStep(bindings, current, heldBindings, pick, {}, false)
               == MatchStep(bindings[i..], current, heldBindings, pick, matched, used)
      {
        var expected := bindings[i];
        assert bindings[i..][1..] == bindings[i + 1..];
        if !used && BindingMatches(expected, current) {
          matched, used := matched + {current}, true;
        } else {
          FindIsScan(heldBindings, expected);
          var bucket := Find(heldIndexes, expected);
          if bucket - matched == {} { return None; }
          matched := matched + {pick(expected, bucket - matched)};
        }
      }
      r := Some(matched);
    }

    /** The keys held at start, in order of hardware id, source and name, each if not held yet. */
    method PrimeHeldBindings(bindings: set<Binding>) returns (ghost order: seq<Binding>)
      requires Valid()
      modifies this`pressCounter, this`heldBindings, this`heldPressOrder, this`heldIndexes
      ensures InOrder(order, bindings) && Abs() == PrimeHeld(old(Abs()), order)
      ensures Valid()
    {
      var keys := Sort(bindings);
      Runs.PrimeHeldKeeps(Abs(), keys);
      RecordAll(keys);
      order := keys;
    }

    method RecordAll(keys: seq<Binding>)
      requires HeldCoupled()
      modifies this`pressCounter, this`heldBindings, this`heldPressOrder, this`heldIndexes
      ensures HeldCoupled() && Abs() == PrimeHeld(old(Abs()), keys)
    {
      for i := 0 to |keys|
        invariant HeldCoupled() && Abs() == PrimeHeld(old(Abs()), keys[..i])
      {
        assert keys[..i + 1][..i] == keys[..i];
        RecordHeldPress(keys[i]);
      }
      assert keys[..|keys|] == keys;
    }

    // ---- The first-step index ----

    method CandidateFirstStepComboIds(b: Binding) returns (ids: seq<Id>)
      requires CombosCoupled()
      ensures ids == FirstStepIds(combos, b)
    {
      var keys := LookupKeys(b);
      ids := [];
      for i := 0 to |keys|
        invariant ids == Dedupe(IdsUnderKeys(combos, b.token, keys[..i]))
      {
        var key := (keys[i].0, b.token, keys[i].1);
        ids := AppendNew(ids, Lookup(firstStepIndex, key), IdsUnderKeys(combos, b.token, keys[..i]));
        assert keys[..i + 1][..i] == keys[..i];
      }
      assert keys[..|keys|] == keys;
    }

    // ---- Timeouts and lost devices ----

    method NextDeadline() returns (r: Option<real>)
      requires Orders(candidateIds, candidates.Keys)
      ensures r.None? ==> forall id | id in candidates :: candidates[id].deadline.None?
      ensures r.Some? ==>
                && (exists id | id in candidates :: candidates[id].deadline == r)
                && forall id | id in candidates && candidates[id].deadline.Some? ::
                     r.value <= candidates[id].deadline.value
    {
      r := None;
      for i := 0 to |candidateIds|
        invariant r.None? ==> forall id | id in candidateIds[..i] :: candidates[id].deadline.None?
        invariant r.Some? ==>
                    && (exists id | id in candidateIds[..i] :: candidates[id].deadline == r)
                    && forall id | id in candidateIds[..i] && candidates[id].deadline.Some? ::
                         r.value <= candidates[id].deadline.value
      {
        var id := candidateIds[i];
        assert candidateIds[..i + 1] == candidateIds[..i] + [id];
        var deadline := candidates[id].deadline;
        if deadline.Some? && (r.None? || deadline.value < r.value) {
          r := deadline;
        }
      }
    }

    method ExpireTimeouts(now: real) returns (any: bool)
      requires Valid()
      modifies this`candidates, this`candidateIds
      ensures Abs() == Expire(old(Abs()), now)
      ensures Valid()
      ensures any == AnyExpired(old(Abs()), now)
    {
      ExpireKeeps(Abs(), now);
      any := ExpireCandidates(now);
    }

    method ExpireCandidates(now: real) returns (any: bool)
      requires Orders(candidateIds, candidates.Keys)
      modifies this`candidates, this`candidateIds
      ensures Abs() == Expire(old(Abs()), now)
      ensures any == AnyExpired(old(Abs()), now)
    {
      any := AnyOf(candidateIds, candidates, (c: Candidate) => Expired(c, now));
      if any {
        var expired := Select(candidateIds, candidates, (c: Candidate) => Expired(c, now));
        DropExpired(Abs(), expired, now);
        DropIds(expired);
      } else {
        NothingExpired(Abs(), now);
      }
    }

    method DropCandidatesForBindingScope(hardwareId: string, source: Option<string>) returns (lost: set<Id>)
      requires Valid()
      modifies this
      ensures Abs() == DropScope(old(Abs()), hardwareId, source)
      ensures Valid()
      ensures lost == DroppedActive(old(Abs()), hardwareId, source)
    {
      Runs.DropScopeKeeps(Abs(), hardwareId, source);
      if hardwareId == "" { return {}; }
      lost := DropDevice(hardwareId, source);
    }

    method DropDevice(hardwareId: string, source: Option<string>) returns (lost: set<Id>)
      requires hardwareId != "" && HeldCoupled() && Orders(candidateIds, candidates.Keys)
      modifies this`candidates, this`candidateIds, this`pressCounter, this`heldBindings, this`heldPressOrder,
               this`heldIndexes
      ensures HeldCoupled() && Abs() == DropScope(old(Abs()), hardwareId, source)
      ensures lost == DroppedActive(old(Abs()), hardwareId, source)
    {
      var touched := Select(candidateIds, candidates, (c: Candidate) => TouchesScope(c, hardwareId, source));
      lost := Select(candidateIds, candidates, (c: Candidate) => TouchesScope(c, hardwareId, source) && c.active);
      DropTouched(Abs(), touched, hardwareId, source);
      DropIds(touched);
      DropHeldInScope(hardwareId, source);
      if candidates == map[] && heldBindings == {} {
        pressCounter := 0;
      }
    }

    /** Forget the held keys of a device and rebuild the indexes from the rest. */
    method DropHeldInScope(hardwareId: string, source: Option<string>)
      requires HeldCoupled()
      modifies this`heldBindings, this`heldPressOrder, this`heldIndexes
      ensures HeldCoupled()
      ensures heldPressOrder == map b | b in old(heldPressOrder) && !InScope(b, hardwareId, source) ::
                                  old(heldPressOrder)[b]
    {
      heldPressOrder := map b | b in heldPressOrder && !InScope(b, hardwareId, source) :: heldPressOrder[b];
      heldBindings := set b | b in heldBindings && !InScope(b, hardwareId, source);
      heldIndexes := BuildIndexes(heldBindings);
    }

    // ---- Prediction ----

    method WouldConsumePulse(b: Binding, pick: Pick) returns (r: bool)
      requires Valid()
      ensures r == M.WouldConsumePulse(Abs(), b, pick)
    {
      if !IsPulse(b) { return false; }
      var ready := AnyOf(candidateIds, candidates,
                          (c: Candidate) => !c.releasing && StepMatches(CurrentStep(c), b) && LacksOne(c));
      if ready { return true; }
      r := SomeFirstStepReady(b, pick);
    }

    method SomeFirstStepReady(b: Binding, pick: Pick) returns (r: bool)
      requires HeldCoupled() && CombosCoupled()
      ensures r == Runs.SomeStart(Abs(), FirstStepIds(combos, b), b, pick)
    {
      var ids := CandidateFirstStepComboIds(b);
      for i := 0 to |ids|
        invariant !Runs.SomeStart(Abs(), ids[..i], b, pick)
      {
        Runs.SomeStartNext(Abs(), ids, i, b, pick);
        var ready := FirstStepReady(ids[i], b, pick);
        if ready { return true; }
      }
      assert ids[..|ids|] == ids;
      r := false;
    }

    /** Would this key start this combo? */
    method FirstStepReady(id: Id, b: Binding, pick: Pick) returns (r: bool)
      requires HeldCoupled() && CombosCoupled()
      ensures r == CanStartId(Abs(), id, b, pick)
    {
      ComboByIdFacts(combos, id);
      if id !in comboMap || id in candidates { return false; }
      var keys := HeldBindingsForStep(FirstBindings(comboMap[id]), b, pick);
      r := keys.Some? && PulseCanComplete(comboMap[id], b, keys.value);
    }

    // ---- Pressing ----

    method SortedByComboOrder(ids: set<Id>) returns (order: seq<Id>)
      ensures order == InComboOrder(combos, ids)
    {
      order := [];
      for i := 0 to |combos|
        invariant order == InComboOrder(combos[..i], ids)
      {
        assert combos[..i + 1][..i] == combos[..i];
        if combos[i].id in ids { order := order + [combos[i].id]; }
      }
      assert combos[..|combos|] == combos;
    }

    method DropIds(dropped: set<Id>)
      requires Orders(candidateIds, candidates.Keys)
      modifies this`candidates, this`candidateIds
      ensures Abs() == Drop(old(Abs()), dropped)
    {
      var ids, cands, kept: map<Id, Candidate>, keptIds: seq<Id> := candidateIds, candidates, map[], [];
      ghost var target := Drop(Abs(), dropped).cands;
      for i := 0 to |ids|
        invariant Keeping(kept, keptIds, ids[..i], target)
      {
        KeepNext(kept, keptIds, ids, i, target);
        if ids[i] !in dropped {
          kept, keptIds := kept[ids[i] := cands[ids[i]]], keptIds + [ids[i]];
        }
      }
      KeepingDone(kept, keptIds, ids, target);
      candidates, candidateIds := kept, keptIds;
    }

    /** Put a candidate that completed a step back, or take it out when its pulse has fired. */
    method StoreCandidate(c: Candidate, b: Binding, counter: nat)
      requires Orders(candidateIds, candidates.Keys)
      modifies this`candidates, this`candidateIds, this`pressCounter
      ensures Abs() == Store(old(Abs()), c, b, counter)
    {
      var id := c.combo.id;
      pressCounter := counter;
      if c.active && IsPulse(b) {
        DropIds({id});
      } else {
        if id !in candidates { candidateIds := candidateIds + [id]; }
        candidates := candidates[id := c];
      }
    }

    method HandleWaitingCandidatePress(b: Binding, now: real) returns (d: Decision)
      requires Pressable(Abs(), b)
      modifies this`candidates, this`candidateIds, this`pressCounter
      ensures Abs() == PressWaiting(old(Abs()), b, now).s
      ensures d == PressWaiting(old(Abs()), b, now).d
    {
      ghost var s := Abs();
      var repeated := Select(candidateIds, candidates, (c: Candidate) => Repeated(c, b));
      var matching := Select(candidateIds, candidates, (c: Candidate) => Matching(c, b));
      var mismatched := Select(candidateIds, candidates, (c: Candidate) => ScopedMismatch(c, b));
      assert repeated == RepeatedIds(s, b);
      assert matching == MatchingIds(s, b);
      assert mismatched == MismatchIds(s, b);
      if matching == {} {
        if repeated != {} { return NOTHING.(consume := true); }
        if mismatched == {} { return NOTHING; }
        DropIds(mismatched);
        return NOTHING.(passthrough := true, reset := candidates == map[]);
      }
      DropIds(mismatched);
      var order := SortedByComboOrder(matching);
      MatchingOrder(s, b);
      MismatchDropKeeps(s, b);
      d := AdvanceCandidates(order, b, now);
    }

    method AdvanceCandidates(order: seq<Id>, b: Binding, now: real) returns (d: Decision)
      requires Pressable(Abs(), b) && Distinct(order)
      requires forall id | id in order :: id in candidates && Matching(candidates[id], b)
      modifies this`candidates, this`candidateIds, this`pressCounter
      ensures var p := PressAll(old(Abs()), order, b, now);
              Abs() == p.s && d == Decision(p.hit, p.partial && !p.hit, Dedupe(p.recall), p.transitions, false)
    {
      ghost var s := Abs();
      var transitions: seq<Transition>, recall: seq<Binding> := [], [];
      var partial, completed := false, false;
      for i := 0 to |order|
        invariant PressAll(s, order[..i], b, now) == Progress(Abs(), transitions, recall, partial, completed)
      {
        assert order[..i + 1][..i] == order[..i];
        PressAllKeeps(s, order[..i], b, now);
        assert order[i] !in order[..i];
        var hit, fired, recalled := AdvanceOne(order[i], b, now,
                                                 Progress(Abs(), transitions, recall, partial, completed));
        completed, partial := completed || hit, partial || !hit;
        transitions, recall := transitions + fired, recall + recalled;
      }
      assert order[..|order|] == order;
      recall := DedupeRecall(recall);
      d := Decision(completed, partial && !completed, recall, transitions, false);
    }

    /** Advance one candidate that the key matches. */
    method AdvanceOne(id: Id, b: Binding, now: real, ghost p: Progress)
      returns (hit: bool, fired: seq<Transition>, recalled: seq<Binding>)
      requires p.s == Abs() && Orders(candidateIds, candidates.Keys) && id in candidates
      modifies this`candidates, this`candidateIds, this`pressCounter
      ensures PressOne(p, id, b, now)
           == Progress(Abs(), p.transitions + fired, p.recall + recalled, p.partial || !hit, p.hit || hit)
    {
      var c := candidates[id];
      hit, fired, recalled := LacksOne(c), [], [];
      if hit {
        var (c', counter') := CompleteOne(c, b, now, pressCounter);
        fired, recalled := Fire(c', b), Recall(c');
        StoreCandidate(c', b, counter');
      } else if !IsPulse(b) {
        var (c', counter') := Track(c, b, true, pressCounter);
        candidates, pressCounter := candidates[id := c'], counter';
      }
    }

    method ActivateSatisfiedFirstSteps(b: Binding, now: real, pick: Pick) returns (d: Decision)
      requires HeldCoupled() && CombosCoupled() && Pressable(Abs(), b) && GoodPick(pick)
      modifies this`candidates, this`candidateIds, this`pressCounter
      ensures Abs() == PressFirstSteps(old(Abs()), b, now, pick).s
      ensures d == PressFirstSteps(old(Abs()), b, now, pick).d
    {
      var ids := CandidateFirstStepComboIds(b);
      StartAllSilent(Abs(), ids, b, now, pick);
      var hit, transitions, recall := ActivateAll(ids, b, now, pick);
      if !hit { return NOTHING; }
      recall := DedupeRecall(recall);
      d := Decision(true, false, recall, transitions, false);
    }

    method ActivateAll(ids: seq<Id>, b: Binding, now: real, pick: Pick)
      returns (hit: bool, transitions: seq<Transition>, recall: seq<Binding>)
      requires HeldCoupled() && CombosCoupled() && Pressable(Abs(), b) && GoodPick(pick)
      requires ids == FirstStepIds(combos, b)
      modifies this`candidates, this`candidateIds, this`pressCounter
      ensures StartAll(old(Abs()), ids, b, now, pick) == Progress(Abs(), transitions, recall, false, hit)
    {
      ghost var s := Abs();
      hit, transitions, recall := false, [], [];
      for i := 0 to |ids|
        invariant StartAll(s, ids[..i], b, now, pick) == Progress(Abs(), transitions, recall, false, hit)
      {
        StartAllTables(s, i, b, now, pick);
        var h, fired, recalled := ActivateOne(ids[i], b, now, pick, StartAll(s, ids[..i], b, now, pick));
        hit, transitions, recall := hit || h, transitions + fired, recall + recalled;
      }
      assert ids[..|ids|] == ids;
    }

    /** Start one combo if its first step is complete with the key just pressed. */
    method ActivateOne(id: Id, b: Binding, now: real, pick: Pick, ghost p: Progress)
      returns (hit: bool, fired: seq<Transition>, recalled: seq<Binding>)
      requires p.s == Abs() && HeldCoupled() && CombosCoupled() && GoodPick(pick)
      requires Orders(candidateIds, candidates.Keys) && HeldOK(heldPressOrder, pressCounter)
      modifies this`candidates, this`candidateIds, this`pressCounter
      ensures StartOne(p, id, b, now, pick)
           == Progress(Abs(), p.transitions + fired, p.recall + recalled, p.partial, p.hit || hit)
    {
      hit, fired, recalled := false, [], [];
      if id in candidates {
        hit := b in candidates[id].pressed;
      } else if id in comboMap {
        ComboByIdFacts(combos, id);
        var combo := comboMap[id];
        var keys := HeldBindingsForStep(FirstBindings(combo), b, pick);
        if keys.Some? && PulseCanComplete(combo, b, keys.value) {
          hit := true;
          var c := StartFrom(combo, keys.value, b, now, pick);
          fired, recalled := Fire(c, b), Recall(c);
        }
      }
    }

    /** Create the candidate for a first step matched by `keys`. */
    method StartFrom(combo: Combo, keys: set<Binding>, b: Binding, now: real, ghost pick: Pick) returns (c: Candidate)
      requires heldPressOrder.Keys == heldBindings && GoodPick(pick)
      requires Orders(candidateIds, candidates.Keys) && HeldOK(heldPressOrder, pressCounter)
      requires MatchFirstStep(combo, b, heldBindings, pick) == Some(keys)
      modifies this`candidates, this`candidateIds, this`pressCounter
      ensures c == StartCandidate(old(Abs()), combo, keys, b, now).0
      ensures Abs() == Store(old(Abs()), c, b, StartCandidate(old(Abs()), combo, keys, b, now).1)
    {
      ghost var _ := FirstStepAssignment(combo, b, heldBindings, pick);
      var order := SortedByPressOrder(State(combos, candidates, candidateIds, heldPressOrder, pressCounter), keys);
      var (c', counter') := TrackAll(NewCandidate(combo), order, b, pressCounter);
      var (c'', counter'') := CompleteOne(c', b, now, counter');
      c := c'';
      StoreCandidate(c, b, counter'');
    }

    method HandlePressEvent(b: Binding, now: real, pick: Pick) returns (d: Decision)
      requires HeldCoupled() && CombosCoupled() && Pressable(Abs(), b) && GoodPick(pick)
      modifies this`candidates, this`candidateIds, this`pressCounter
      ensures Abs() == PressEvent(old(Abs()), b, now, pick).s
      ensures d == PressEvent(old(Abs()), b, now, pick).d
    {
      PressWaitingKeeps(Abs(), b, now);
      var waiting := HandleWaitingCandidatePress(b, now);
      var started := ActivateSatisfiedFirstSteps(b, now, pick);
      d := Merge(waiting, started);
      if !d.consume && !d.passthrough {
        var ids := CandidateFirstStepComboIds(b);
        if ids != [] { d := d.(passthrough := true); }
      }
    }

    // ---- Releasing ----

    method HandleReleaseEvent(b: Binding, now: real) returns (d: Decision)
      requires Orders(candidateIds, candidates.Keys)
      modifies this`candidates, this`candidateIds
      ensures Abs() == ReleaseEvent(old(Abs()), b, now).s
      ensures d == ReleaseEvent(old(Abs()), b, now).d
    {
      var kept, keptIds, transitions := ReleaseCandidates(candidateIds, candidates, b, now, Abs());
      d := ReleaseDecision(candidateIds, candidates, b, now, kept == map[], transitions, Abs());
      candidates, candidateIds := kept, keptIds;
    }

    // ---- One input event ----

    method HandleEvent(b: Binding, value: int, now: real, pick: Pick) returns (d: Decision)
      requires Valid() && 0 <= value <= 2 && GoodPick(pick)
      modifies this
      ensures Abs() == M.HandleEvent(old(Abs()), b, value, now, pick).s
      ensures Valid()
      ensures d == M.HandleEvent(old(Abs()), b, value, now, pick).d
    {
      HandleEventKeeps(Abs(), b, value, now, pick);
      var expired := ExpireTimeouts(now);
      if value == 2 {
        return NOTHING.(reset := expired && candidates == map[]);
      }
      var hadCandidates := candidates != map[];
      d := HandleKeyEvent(b, value, now, pick);
      if hadCandidates && candidates == map[] && (expired || d.consume || d.passthrough) {
        d := d.(reset := true);
      }
      if candidates == map[] && heldBindings == {} {
        pressCounter := 0;
      }
    }

    method HandleKeyEvent(b: Binding, value: int, now: real, pick: Pick) returns (d: Decision)
      requires HeldCoupled() && CombosCoupled() && Inv(Abs()) && 0 <= value <= 1 && GoodPick(pick)
      modifies this
      ensures HeldCoupled() && CombosCoupled() && Abs() == HandleKey(old(Abs()), b, value, now, pick).s
      ensures d == HandleKey(old(Abs()), b, value, now, pick).d
    {
      if value == 1 {
        d := PressKeyDown(b, now, pick);
      } else {
        d := HandleReleaseEvent(b, now);
        RemoveHeldBinding(b);
      }
    }

    method PressKeyDown(b: Binding, now: real, pick: Pick) returns (d: Decision)
      requires HeldCoupled() && CombosCoupled() && Inv(Abs()) && GoodPick(pick)
      modifies this
      ensures HeldCoupled() && CombosCoupled() && Abs() == HandleKey(old(Abs()), b, 1, now, pick).s
      ensures d == HandleKey(old(Abs()), b, 1, now, pick).d
    {
      if !IsPulse(b) {
        RecordHeldKeeps(Abs(), b);
        RecordHeldPress(b);
      }
      d := HandlePressEvent(b, now, pick);
    }
  }

  // ---- Loops over a dictionary of candidates ----

  /** The ids of the candidates with a property. */
  method Select(ids: seq<Id>, cands: map<Id, Candidate>, p: Candidate -> bool) returns (r: set<Id>)
    requires Orders(ids, cands.Keys)
    ensures r == set id | id in cands && p(cands[id])
  {
    r := {};
    for i := 0 to |ids|
      invariant r == set id | id in ids[..i] && p(cands[id])
    {
      assert ids[..i + 1] == ids[..i] + [ids[i]];
      if p(cands[ids[i]]) { r := r + {ids[i]}; }
    }
  }

  method AnyOf(ids: seq<Id>, cands: map<Id, Candidate>, p: Candidate -> bool) returns (r: bool)
    requires Orders(ids, cands.Keys)
    ensures r <==> exists id | id in cands :: p(cands[id])
  {
    for i := 0 to |ids|
      invariant forall id | id in ids[..i] :: !p(cands[id])
    {
      assert ids[..i + 1] == ids[..i] + [ids[i]];
      if p(cands[ids[i]]) { return true; }
    }
    r := false;
  }

  lemma DropExpired(s: State, expired: set<Id>, now: real)
    requires expired == set id | id in s.cands && Expired(s.cands[id], now)
    ensures Drop(s, expired) == Expire(s, now)
  {
    assert (map id | id in s.cands && id !in expired :: s.cands[id])
        == (map id | id in s.cands && !Expired(s.cands[id], now) :: s.cands[id]);
  }

  lemma DropTouched(s: State, touched: set<Id>, hardwareId: string, source: Option<string>)
    requires touched == set id | id in s.cands && TouchesScope(s.cands[id], hardwareId, source)
    ensures Drop(s, touched)
         == WithCands(s, map id | id in s.cands && !TouchesScope(s.cands[id], hardwareId, source) :: s.cands[id])
  {
    assert (map id | id in s.cands && id !in touched :: s.cands[id])
        == (map id | id in s.cands && !TouchesScope(s.cands[id], hardwareId, source) :: s.cands[id]);
  }

  /** The candidates to preserve, with the combos they now belong to. */
  method KeepPreserved(ids: seq<Id>, cands: map<Id, Candidate>, keep: set<Id>, comboMap: map<Id, Combo>,
                       ghost combos: seq<Combo>, ghost s: State)
    returns (kept: map<Id, Candidate>, keptIds: seq<Id>)
    requires Orders(ids, cands.Keys) && MapOf(comboMap, combos) && s.cands == cands && s.ids == ids
    ensures kept == M.PreserveCandidates(s, combos, keep).cands && keptIds == M.PreserveCandidates(s, combos, keep).ids
  {
    kept, keptIds := map[], [];
    ghost var target := M.PreserveCandidates(s, combos, keep).cands;
    for i := 0 to |ids|
      invariant Keeping(kept, keptIds, ids[..i], target)
    {
      KeepNext(kept, keptIds, ids, i, target);
      if ids[i] in keep && ids[i] in comboMap {
        kept, keptIds := kept[ids[i] := cands[ids[i]].(combo := comboMap[ids[i]])], keptIds + [ids[i]];
      }
    }
    KeepingDone(kept, keptIds, ids, target);
  }

  method DedupeRecall(events: seq<Binding>) returns (r: seq<Binding>)
    ensures r == Dedupe(events)
  {
    r := AppendNew([], events, []);
    assert [] + events == events;
  }

  lemma KeysWith<K, V>(m: map<K, V>, k: K, v: V)
    ensures m[k := v].Keys == m.Keys + {k}
  {
  }

  /** Append the items not seen yet. */
  method AppendNew<T(==)>(start: seq<T>, items: seq<T>, ghost before: seq<T>) returns (r: seq<T>)
    requires start == Dedupe(before)
    ensures r == Dedupe(before + items)
  {
    r := start;
    var seen := set x | x in start;
    assert before + items[..0] == before;
    for i := 0 to |items|
      invariant r == Dedupe(before + items[..i]) && seen == set x | x in r
    {
      assert (before + items[..i + 1])[..|before| + i] == before + items[..i];
      if items[i] !in seen {
        seen, r := seen + {items[i]}, r + [items[i]];
      }
    }
    assert items[..|items|] == items;
  }

  /** What a dictionary keeps of the entries visited so far. */
  ghost function KeptOf(visited: seq<Id>, target: map<Id, Candidate>): map<Id, Candidate> {
    map id | id in visited && id in target :: target[id]
  }

  /** A dictionary rebuilt from the first entries of an old one holds what `target` keeps of them. */
  ghost predicate Keeping(kept: map<Id, Candidate>, keptIds: seq<Id>, visited: seq<Id>, target: map<Id, Candidate>) {
    kept == KeptOf(visited, target) && keptIds == Restrict(visited, target.Keys)
  }

  lemma KeepNext(kept: map<Id, Candidate>, keptIds: seq<Id>, ids: seq<Id>, i: nat, target: map<Id, Candidate>)
    requires i < |ids| && Keeping(kept, keptIds, ids[..i], target)
    ensures ids[i] in target ==> Keeping(kept[ids[i] := target[ids[i]]], keptIds + [ids[i]], ids[..i + 1], target)
    ensures ids[i] !in target ==> Keeping(kept, keptIds, ids[..i + 1], target)
  {
    assert ids[..i + 1][..i] == ids[..i];
    assert ids[..i + 1] == ids[..i] + [ids[i]];
  }

  lemma KeepingDone(kept: map<Id, Candidate>, keptIds: seq<Id>, ids: seq<Id>, target: map<Id, Candidate>)
    requires Keeping(kept, keptIds, ids[..|ids|], target) && forall id | id in target :: id in ids
    ensures kept == target && keptIds == Restrict(ids, target.Keys)
  {
    assert ids[..|ids|] == ids;
  }

  /** Release a key in every candidate, and collect the actions that end. */
  method ReleaseCandidates(ids: seq<Id>, cands: map<Id, Candidate>, b: Binding, now: real, ghost s: State)
    returns (kept: map<Id, Candidate>, keptIds: seq<Id>, transitions: seq<Transition>)
    requires Orders(ids, cands.Keys) && s.cands == cands && s.ids == ids
    ensures kept == ReleaseAll(s, b, now).cands && keptIds == ReleaseAll(s, b, now).ids
    ensures transitions == ReleaseTransitions(s, ids, b)
  {
    kept, keptIds, transitions := map[], [], [];
    ghost var target := ReleaseAll(s, b, now).cands;
    for i := 0 to |ids|
      invariant Keeping(kept, keptIds, ids[..i], target)
      invariant transitions == ReleaseTransitions(s, ids[..i], b)
    {
      var id, c := ids[i], cands[ids[i]];
      var left, fired := ReleaseOne(c, b, now);
      ReleaseNext(s, i, b, now, kept, keptIds);
      transitions := transitions + fired;
      if left.Some? {
        kept, keptIds := kept[id := left.value], keptIds + [id];
      }
    }
    assert ids[..|ids|] == ids;
    KeepingDone(kept, keptIds, ids, target);
  }

  /** What becomes of the released key itself. */
  method ReleaseDecision(ids: seq<Id>, cands: map<Id, Candidate>, b: Binding, now: real, emptied: bool,
                         transitions: seq<Transition>, ghost s: State)
    returns (d: Decision)
    requires Orders(ids, cands.Keys) && s.cands == cands && s.ids == ids
    requires emptied == (ReleaseAll(s, b, now).cands == map[]) && transitions == ReleaseTransitions(s, ids, b)
    ensures d == ReleaseEvent(s, b, now).d
  {
    var released := AnyOf(ids, cands, (c: Candidate) => ReleasesStep(c, b));
    var abandoned := AnyOf(ids, cands, (c: Candidate) => AbandonsStep(c, b));
    var passed := AnyOf(ids, cands, (c: Candidate) => AbandonsStep(c, b) && WasPassedThrough(c, b));
    var consume := released || (abandoned && !passed);
    d := Decision(consume, passed && !consume, [], transitions, (released || abandoned) && emptied);
  }

  /** One more candidate of the loop: what is kept of it and what it ends. */
  lemma ReleaseNext(s: State, i: nat, b: Binding, now: real, kept: map<Id, Candidate>, keptIds: seq<Id>)
    requires i < |s.ids| && s.ids[i] in s.cands && Keeping(kept, keptIds, s.ids[..i], ReleaseAll(s, b, now).cands)
    ensures var id := s.ids[i];
            var left := ReleaseCandidate(s.cands[id], b, now);
            if left.Some?
            then Keeping(kept[id := left.value], keptIds + [id], s.ids[..i + 1], ReleaseAll(s, b, now).cands)
            else Keeping(kept, keptIds, s.ids[..i + 1], ReleaseAll(s, b, now).cands)
    ensures ReleaseTransitions(s, s.ids[..i + 1], b)
         == ReleaseTransitions(s, s.ids[..i], b) + ReleaseTransition(s.cands[s.ids[i]], b)
  {
    KeepNext(kept, keptIds, s.ids, i, ReleaseAll(s, b, now).cands);
    assert s.ids[..i + 1][..i] == s.ids[..i];
  }

  method ReleaseOne(c: Candidate, b: Binding, now: real) returns (left: Option<Candidate>, fired: seq<Transition>)
    ensures left == ReleaseCandidate(c, b, now) && fired == ReleaseTransition(c, b)
  {
    fired := [];
    if !c.releasing {
      left := if b in c.pressed then None else Some(c);
    } else if !StepMatches(CurrentStep(c), b) || b !in c.pressed {
      left := Some(c);
    } else {
      if c.active {
        fired := [Transition(c.combo.id, c.combo.action, Release, b, [])];
      }
      var c' := c.(pressed := c.pressed - {b}, active := false);
      if c'.pressed != {} {
        left := if c.stepIndex == 0 && |c.combo.steps| == 1 then None else Some(c');
      } else {
        left := if IsLastStep(c) then None else Some(NextStep(c', now));
      }
    }
  }

  /** What the next activation relies on. */
  lemma StartAllTables(s: State, i: nat, b: Binding, now: real, pick: Pick)
    requires Pressable(s, b) && GoodPick(pick) && i < |FirstStepIds(s.combos, b)|
    ensures var t := StartAll(s, FirstStepIds(s.combos, b)[..i], b, now, pick).s;
            Orders(t.ids, t.cands.Keys) && HeldOK(t.held, t.counter)
    ensures StartAll(s, FirstStepIds(s.combos, b)[..i + 1], b, now, pick)
         == StartOne(StartAll(s, FirstStepIds(s.combos, b)[..i], b, now, pick),
                     FirstStepIds(s.combos, b)[i], b, now, pick)
  {
    assert FirstStepIds(s.combos, b)[..i + 1][..i] == FirstStepIds(s.combos, b)[..i];
    FirstStepIdsAreScan(s.combos, b);
    StartAllKeeps(s, FirstStepIds(s.combos, b)[..i], b, now, pick);
  }

  lemma ByPressOrderStep(s: State, keys: set<Binding>, b: Binding)
    requires HeldOK(s.held, s.counter) && b in keys
    requires forall x, y | x in keys && y in keys && x !in s.held && y !in s.held :: x == y
    requires forall x | x in keys :: PressKey(s, x) <= PressKey(s, b)
    ensures ByPressOrder(s, keys) == ByPressOrder(s, keys - {b}) + [b]
  {
    forall x | x in keys && x != b ensures PressKey(s, x) < PressKey(s, b) {
    }
  }

  /** Press orders are all different, so there is one way to sort by them. */
  method SortedByPressOrder(s: State, keys: set<Binding>) returns (order: seq<Binding>)
    requires HeldOK(s.held, s.counter)
    requires forall a, b | a in keys && b in keys && a !in s.held && b !in s.held :: a == b
    ensures order == ByPressOrder(s, keys)
  {
    order := [];
    var rest := keys;
    while rest != {}
      invariant rest <= keys && ByPressOrder(s, keys) == ByPressOrder(s, rest) + order
      decreases |rest|
    {
      LastPressedExists(s, rest);
      var b :| b in rest && forall x | x in rest :: PressKey(s, x) <= PressKey(s, b);
      ByPressOrderStep(s, rest, b);
      Assoc(ByPressOrder(s, rest - {b}), [b], order);
      rest, order := rest - {b}, [b] + order;
    }
  }

  // ---- Building the lookup structures ----

  method AddHeldIndexes(ix: Indexes, ghost held: set<Binding>, b: Binding) returns (r: Indexes)
    requires ix == IndexesOf(held)
    ensures r == IndexesOf(held + {b})
  {
    AddKeyKeeps(held, b);
    r := AddKey(ix, b);
  }

  method BuildIndexes(held: set<Binding>) returns (ix: Indexes)
    ensures ix == IndexesOf(held)
  {
    ix := NO_INDEXES;
    var todo, done := held, {};
    assert NO_INDEXES == IndexesOf({});
    while todo != {}
      invariant todo + done == held && ix == IndexesOf(done)
      decreases |todo|
    {
      var b :| b in todo;
      ix := AddHeldIndexes(ix, done, b);
      todo, done := todo - {b}, done + {b};
    }
    assert done == held;
  }

  ghost predicate MapOf(m: map<Id, Combo>, combos: seq<Combo>) {
    forall id :: ComboById(combos, id) == if id in m then Some(m[id]) else None
  }

  method BuildComboMap(combos: seq<Combo>) returns (m: map<Id, Combo>)
    ensures MapOf(m, combos)
  {
    m := map[];
    for i := 0 to |combos|
      invariant MapOf(m, combos[..i])
    {
      assert combos[..i + 1][..i] == combos[..i];
      m := m[combos[i].id := combos[i]];
    }
    assert combos[..|combos|] == combos;
  }

  function Lookup(index: map<FullKey, seq<Id>>, key: FullKey): seq<Id> {
    if key in index then index[key] else []
  }

  /** The first-step index lists, under every key, the combos that use it, in combo order. */
  ghost predicate FirstIndexOf(index: map<FullKey, seq<Id>>, combos: seq<Combo>) {
    forall key: FullKey {:trigger Lookup(index, key)} ::
      Lookup(index, key) == IdsUnderKey(combos, key.0, key.1, key.2)
  }

  method BuildFirstStepIndex(combos: seq<Combo>) returns (index: map<FullKey, seq<Id>>)
    ensures FirstIndexOf(index, combos)
  {
    index := map[];
    for i := 0 to |combos|
      invariant FirstIndexOf(index, combos[..i])
    {
      index := IndexCombo(index, combos, i);
    }
    assert combos[..|combos|] == combos;
  }

  lemma ListingStep(start: map<FullKey, seq<Id>>, index: map<FullKey, seq<Id>>, id: Id, bindings: seq<Binding>,
                    j: nat, k: FullKey)
    requires j < |bindings|
    requires Lookup(index, k) == Lookup(start, k) + Listings(id, bindings[..j], k.0, k.1, k.2)
    ensures var key := FullKeyOf(bindings[j]);
            Lookup(index[key := Lookup(index, key) + [id]], k)
            == Lookup(start, k) + Listings(id, bindings[..j + 1], k.0, k.1, k.2)
  {
    var listed := Listings(id, bindings[..j], k.0, k.1, k.2);
    assert bindings[..j + 1][..j] == bindings[..j];
    if FullKeyOf(bindings[j]) == k {
      assert Listings(id, bindings[..j + 1], k.0, k.1, k.2) == listed + [id];
      Assoc(Lookup(start, k), listed, [id]);
    } else {
      assert Listings(id, bindings[..j + 1], k.0, k.1, k.2) == listed + [];
      assert listed + [] == listed;
    }
  }

  method IndexCombo(start: map<FullKey, seq<Id>>, combos: seq<Combo>, i: nat) returns (index: map<FullKey, seq<Id>>)
    requires i < |combos| && FirstIndexOf(start, combos[..i])
    ensures FirstIndexOf(index, combos[..i + 1])
  {
    index := start;
    var id, bindings := combos[i].id, FirstBindings(combos[i]);
    for j := 0 to |bindings|
      invariant forall key: FullKey {:trigger Lookup(index, key)} ::
                  Lookup(index, key) == Lookup(start, key) + Listings(id, bindings[..j], key.0, key.1, key.2)
    {
      var key := FullKeyOf(bindings[j]);
      forall k: FullKey ensures Lookup(index[key := Lookup(index, key) + [id]], k)
                                == Lookup(start, k) + Listings(id, bindings[..j + 1], k.0, k.1, k.2) {
        ListingStep(start, index, id, bindings, j, k);
      }
      index := index[key := Lookup(index, key) + [id]];
    }
    assert bindings[..|bindings|] == bindings;
    assert combos[..i + 1][..i] == combos[..i];
  }
}
