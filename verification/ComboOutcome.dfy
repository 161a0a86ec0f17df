/**
  What a key press does to the candidates, which actions it runs with which keys, and which keys it
  takes back. Everything is said about the candidates before the event.
*/
module ComboOutcome {
  import opened Wrappers
  import opened ComboModel
  import opened ComboLaws
  import opened ComboFiring
  import opened ComboTiming
  import opened ComboDecisions

  // ---- Candidates that start ----

  ghost function FirstKeys(s: State, id: Id, b: Binding, pick: Pick): set<Binding>
    requires Filled(s, id, b, pick)
  {
    MatchFirstStep(ComboById(s.combos, id).value, b, s.held.Keys, pick).value
  }

  /** The first step of the combo is complete with these keys, and those of them that can be released
      are down. */
  ghost predicate FirstStepComplete(c: Candidate, combo: Combo, keys: set<Binding>, b: Binding) {
    && c.combo == combo && c.stepIndex == 0 && c.releasing && c.deadline.None?
    && (c.active <==> |combo.steps| == 1) && c.finalBinding == (if c.active then Some(b) else None)
    && c.pressed == (set k | k in keys && !IsPulse(k))
    && (forall x: Binding :: IsTracked(c, x) <==> x in keys)
  }

  /** What starts; None when a wheel notch has fired it at once. */
  ghost predicate StartsAs(s: State, id: Id, b: Binding, pick: Pick, left: Option<Candidate>)
    requires Filled(s, id, b, pick)
  {
    var combo := ComboById(s.combos, id).value;
    if IsPulse(b) && |combo.steps| == 1 then left.None?
    else left.Some? && FirstStepComplete(left.value, combo, FirstKeys(s, id, b, pick), b)
  }

  lemma TracksKeys(combo: Combo, keys: seq<Binding>, b: Binding, counter: nat)
    requires Distinct(keys)
    ensures var c := TrackAll(NewCandidate(combo), keys, b, counter).0;
            && c.combo == combo && c.stepIndex == 0 && TrackedBindings(c) == keys
            && c.pressed == (set k | k in keys && !IsPulse(k))
            && forall x: Binding :: IsTracked(c, x) <==> x in keys
  {
    TrackAllLists(combo, keys, b, counter);
    TrackAllPressed(combo, keys, b, counter);
    var c := TrackAll(NewCandidate(combo), keys, b, counter).0;
    forall x: Binding ensures IsTracked(c, x) <==> x in keys {
      if x in keys {
        var i :| 0 <= i < |keys| && keys[i] == x;
        assert TrackedBindings(c)[i] == c.tracked[i].binding;
      }
      if t :| t in c.tracked && t.binding == x {
        var i :| 0 <= i < |c.tracked| && c.tracked[i] == t;
        assert TrackedBindings(c)[i] == keys[i];
      }
    }
  }

  /** The step in front of completion, with its keys listed in press order. */
  lemma CompletesFirst(c: Candidate, combo: Combo, keys: set<Binding>, b: Binding, now: real, counter: nat)
    requires c.combo == combo && c.stepIndex == 0 && |combo.steps| >= 1 && b in keys
    requires c.pressed == (set k | k in keys && !IsPulse(k)) && forall x: Binding :: IsTracked(c, x) <==> x in keys
    requires |combo.steps| == 1 || exists k | k in keys :: !IsPulse(k)
    requires !(IsPulse(b) && |combo.steps| == 1)
    ensures FirstStepComplete(CompleteOne(c, b, now, counter).0, combo, keys, b)
  {
    CompleteSpec(c, b, now, counter);
    if |combo.steps| > 1 {
      var k :| k in keys && !IsPulse(k);
      assert k in c.pressed;
    }
    assert (if IsPulse(b) then c.pressed else c.pressed + {b}) == c.pressed;
  }

  lemma StartCandidateAs(s: State, combo: Combo, keys: set<Binding>, b: Binding, now: real)
    requires |combo.steps| >= 1 && b in keys && (|combo.steps| == 1 || exists k | k in keys :: !IsPulse(k))
    ensures var c := StartCandidate(s, combo, keys, b, now).0;
            && c.combo == combo && (c.active <==> |combo.steps| == 1)
            && ((IsPulse(b) && |combo.steps| == 1) || FirstStepComplete(c, combo, keys, b))
  {
    var order := ByPressOrder(s, keys);
    ByPressOrderSorted(s, keys);
    TracksKeys(combo, order, b, s.counter);
    var (c, counter) := TrackAll(NewCandidate(combo), order, b, s.counter);
    if IsPulse(b) && |combo.steps| == 1 {
      FiredAtOnce(c, b, now, counter);
    } else {
      CompletesFirst(c, combo, keys, b, now, counter);
    }
  }

  lemma StoreGet(s: State, c: Candidate, b: Binding, counter: nat)
    requires c.combo.id !in s.cands
    ensures Get(Store(s, c, b, counter), c.combo.id) == if c.active && IsPulse(b) then None else Some(c)
  {
  }

  lemma StartOneOutcome(p: Progress, id: Id, b: Binding, now: real, pick: Pick)
    requires Inv(p.s) && GoodPick(pick) && id !in p.s.cands && Filled(p.s, id, b, pick)
    ensures StartsAs(p.s, id, b, pick, Get(StartOne(p, id, b, now, pick).s, id))
  {
    FirstStepUses(p.s, id, b, pick);
    var combo := ComboById(p.s.combos, id).value;
    var keys := FirstKeys(p.s, id, b, pick);
    StartCandidateAs(p.s, combo, keys, b, now);
    var (c, counter) := StartCandidate(p.s, combo, keys, b, now);
    StoreGet(p.s, c, b, counter);
    assert StartOne(p, id, b, now, pick).s == Store(p.s, c, b, counter);
  }

  lemma FiredAtOnce(c: Candidate, b: Binding, now: real, counter: nat)
    requires |c.combo.steps| == 1 && c.stepIndex == 0
    ensures CompleteOne(c, b, now, counter).0.active && CompleteOne(c, b, now, counter).0.combo == c.combo
  {
  }

  /** The key just pressed is among the keys of a first step that it can use, and so is one that can be
      released, unless the combo is that step alone. */
  lemma FirstStepUses(s: State, id: Id, b: Binding, pick: Pick)
    requires DistinctIds(s.combos) && GoodPick(pick) && Filled(s, id, b, pick)
    ensures var combo := ComboById(s.combos, id).value;
            && combo.id == id && combo in s.combos && |combo.steps| >= 1 && b in FirstKeys(s, id, b, pick)
            && (|combo.steps| == 1 || exists k | k in FirstKeys(s, id, b, pick) :: !IsPulse(k))
  {
    ComboByIdFacts(s.combos, id);
    var combo := ComboById(s.combos, id).value;
    var given := FirstStepAssignment(combo, b, s.held.Keys, pick);
    assert b in Elements(given);
  }

  /** The turn of one combo in the loop over first steps. */
  lemma {:induction false} StartTurn(s: State, ids: seq<Id>, b: Binding, now: real, pick: Pick, x: Id)
    returns (p: Progress)
    requires Pressable(s, b) && GoodPick(pick) && Distinct(ids) && x in ids
    requires forall id | id in ids :: StartsWith(s.combos, id, b)
    ensures Pressable(p.s, b) && p.s.combos == s.combos && p.s.held == s.held && Get(p.s, x) == Get(s, x)
    ensures Get(StartAll(s, ids, b, now, pick).s, x) == Get(StartOne(p, x, b, now, pick).s, x)
  {
    var front, last := ids[..|ids| - 1], ids[|ids| - 1];
    assert ids == front + [last] && last !in front;
    var before := StartAll(s, front, b, now, pick);
    StartAllKeeps(s, front, b, now, pick);
    StartAllFlags(s, front, b, now, pick);
    ComboByIdFacts(s.combos, last);
    StartOneFrame(before, last, b, now, pick);
    if x == last {
      p := before;
    } else {
      p := StartTurn(s, front, b, now, pick, x);
    }
  }

  /** What a press leaves of every combo. */
  lemma PressOutcome(s: State, b: Binding, now: real, pick: Pick, id: Id)
    requires Pressable(s, b) && GoodPick(pick)
    ensures var left := Get(PressEvent(s, b, now, pick).s, id);
            if Starts(s, id, b, pick) then StartsAs(s, id, b, pick, left)
            else if id in s.cands && Matching(s.cands[id], b) then PressedAs(s.cands[id], b, now, left)
            else if Contradicted(s, id, b) then left.None?
            else left == Get(s, id)
  {
    var w := PressWaiting(s, b, now).s;
    PressWaitingKeeps(s, b, now);
    WaitingOutcome(s, b, now, id);
    WaitingVacant(s, b, now, id);
    FirstStepIdsAreScan(s.combos, b);
    StartsOrStays(w, FirstStepIds(s.combos, b), b, now, pick, id);
  }

  lemma StartsOrStays(s: State, ids: seq<Id>, b: Binding, now: real, pick: Pick, id: Id)
    requires Pressable(s, b) && GoodPick(pick) && Distinct(ids)
    requires forall x :: x in ids <==> StartsWith(s.combos, x, b)
    ensures var left := Get(StartAll(s, ids, b, now, pick).s, id);
            if id !in s.cands && Filled(s, id, b, pick) then StartsAs(s, id, b, pick, left) else left == Get(s, id)
  {
    StartAllFlags(s, ids, b, now, pick);
    if id in ids && id !in s.cands {
      ComboByIdFacts(s.combos, id);
      var p := StartTurn(s, ids, b, now, pick, id);
      if Filled(s, id, b, pick) {
        StartOneOutcome(p, id, b, now, pick);
      }
    }
  }

  // ---- The actions that run ----

  /** What a waiting combo reports when the key fires it: its action, the key, and the keys of its last
      step in the order they were pressed. */
  function FireOf(c: Candidate, b: Binding): Transition {
    Transition(c.combo.id, c.combo.action, if IsPulse(b) then Pulse else Press, b, TrackedBindings(c) + [b])
  }

  /** Keys that are held stand in the order they were pressed, and one that is not held comes last. */
  ghost predicate InPressOrder(s: State, keys: seq<Binding>) {
    forall i, j | 0 <= i < j < |keys| ::
      keys[i] in s.held && (keys[j] in s.held ==> s.held[keys[i]] < s.held[keys[j]])
  }

  /** What a combo of one step reports when the key fires it. */
  ghost predicate FiresAtOnce(s: State, b: Binding, pick: Pick, t: Transition) {
    && Filled(s, t.comboId, b, pick) && t.comboId !in s.cands
    && var combo := ComboById(s.combos, t.comboId).value;
       && |combo.steps| == 1 && t.action == combo.action && t.trigger == b
       && t.kind == (if IsPulse(b) then Pulse else Press)
       && Distinct(t.triggers) && InPressOrder(s, t.triggers)
       && Elements(t.triggers) == FirstKeys(s, t.comboId, b, pick)
  }

  /** Every combo is reported once at most. */
  ghost predicate OneEach(ts: seq<Transition>) {
    forall i, j | 0 <= i < j < |ts| :: ts[i].comboId != ts[j].comboId
  }

  lemma FireOfComplete(c: Candidate, b: Binding, now: real, counter: nat)
    requires !IsTracked(c, b)
    ensures Fire(CompleteOne(c, b, now, counter).0, b) == if IsLastStep(c) then [FireOf(c, b)] else []
  {
    var d := CompleteStep(c, b, IsLastStep(c), counter).0;
    assert d.tracked == c.tracked + [TrackedPress(b, counter + 1, false, IsPulse(b))];
    assert TrackedBindings(d) == TrackedBindings(c) + [b];
  }

  ghost predicate Reports(s: State, ids: seq<Id>, b: Binding, ts: seq<Transition>) {
    && OneEach(ts)
    && forall t | t in ts :: t.comboId in ids && LastKey(s, t.comboId) && t == FireOf(s.cands[t.comboId], b)
  }

  lemma ReportsNext(s: State, front: seq<Id>, last: Id, b: Binding, ts: seq<Transition>)
    requires Reports(s, front, b, ts) && last !in front && last in s.cands && s.cands[last].combo.id == last
    ensures Reports(s, front + [last], b, ts)
    ensures LastKey(s, last) ==> Reports(s, front + [last], b, ts + [FireOf(s.cands[last], b)])
  {
  }

  lemma StepReports(s: State, p: Progress, front: seq<Id>, last: Id, b: Binding, now: real)
    requires Reports(s, front, b, p.transitions) && last !in front && last in s.cands && s.cands[last].combo.id == last
    requires Get(p.s, last) == Get(s, last) && !IsTracked(s.cands[last], b)
    ensures Reports(s, front + [last], b, PressOne(p, last, b, now).transitions)
  {
    PressOneReports(p, last, b, now);
    ReportsNext(s, front, last, b, p.transitions);
    assert p.transitions + [] == p.transitions;
  }

  lemma {:induction false} PressAllReports(s: State, ids: seq<Id>, b: Binding, now: real)
    requires Pressable(s, b) && Distinct(ids)
    requires forall x | x in ids :: x in s.cands && Matching(s.cands[x], b)
    ensures Reports(s, ids, b, PressAll(s, ids, b, now).transitions)
  {
    if ids != [] {
      var front, last := ids[..|ids| - 1], ids[|ids| - 1];
      PressAllReports(s, front, b, now);
      assert ids == front + [last] && last !in front && last in ids;
      var _ := TurnOf(s, front, b, now, last);
      NotTracked(s, last, b);
      StepReports(s, PressAll(s, front, b, now), front, last, b, now);
    }
  }

  lemma NotTracked(s: State, id: Id, b: Binding)
    requires Inv(s) && id in s.cands && Matching(s.cands[id], b)
    ensures !IsTracked(s.cands[id], b) && Waiting(s.cands[id])
  {
    assert CandOK(s.cands[id], s.held.Keys, s.counter);
  }

  lemma PressOneReports(p: Progress, id: Id, b: Binding, now: real)
    requires id in p.s.cands && !IsTracked(p.s.cands[id], b)
    ensures PressOne(p, id, b, now).transitions
         == p.transitions + if LastKey(p.s, id) then [FireOf(p.s.cands[id], b)] else []
  {
    if LacksOne(p.s.cands[id]) { FireOfComplete(p.s.cands[id], b, now, p.s.counter); }
  }

  lemma FirstStepFires(c: Candidate, b: Binding, now: real, counter: nat)
    requires c.stepIndex == 0 && |c.combo.steps| >= 1 && IsTracked(c, b)
    ensures Fire(CompleteOne(c, b, now, counter).0, b)
         == if |c.combo.steps| > 1 then []
            else [Transition(c.combo.id, c.combo.action, if IsPulse(b) then Pulse else Press, b, TrackedBindings(c))]
  {
    TrackAgain(c, b, counter);
    var d := CompleteStep(c, b, IsLastStep(c), counter).0;
    assert TrackedBindings(d) == TrackedBindings(c);
  }

  lemma OrderFacts(s: State, keys: set<Binding>, b: Binding)
    requires HeldOK(s.held, s.counter) && forall k | k in keys :: k in s.held || k == b
    ensures var order := ByPressOrder(s, keys);
            Distinct(order) && Elements(order) == keys && InPressOrder(s, order)
  {
    ByPressOrderSorted(s, keys);
    OrderIsPressOrder(s, ByPressOrder(s, keys), b);
  }

  lemma OrderFires(combo: Combo, order: seq<Binding>, b: Binding, now: real, counter: nat)
    requires |combo.steps| >= 1 && Distinct(order) && b in order
    ensures var (c, counter') := TrackAll(NewCandidate(combo), order, b, counter);
            Fire(CompleteOne(c, b, now, counter').0, b)
            == if |combo.steps| > 1 then []
               else [Transition(combo.id, combo.action, if IsPulse(b) then Pulse else Press, b, order)]
  {
    TracksKeys(combo, order, b, counter);
    var (c, counter') := TrackAll(NewCandidate(combo), order, b, counter);
    FirstStepFires(c, b, now, counter');
  }

  lemma StartReports(s: State, combo: Combo, keys: set<Binding>, b: Binding, now: real) returns (order: seq<Binding>)
    requires |combo.steps| >= 1 && b in keys && HeldOK(s.held, s.counter)
    requires forall k | k in keys :: k in s.held || k == b
    ensures Distinct(order) && Elements(order) == keys && InPressOrder(s, order)
    ensures Fire(StartCandidate(s, combo, keys, b, now).0, b)
         == if |combo.steps| > 1 then []
            else [Transition(combo.id, combo.action, if IsPulse(b) then Pulse else Press, b, order)]
  {
    order := ByPressOrder(s, keys);
    OrderFacts(s, keys, b);
    OrderFires(combo, order, b, now, s.counter);
  }

  lemma TrackAgain(c: Candidate, b: Binding, counter: nat)
    requires IsTracked(c, b)
    ensures var d := CompleteStep(c, b, IsLastStep(c), counter).0;
            d.tracked == c.tracked && d.combo == c.combo && d.active == IsLastStep(c)
  {
  }

  lemma OrderIsPressOrder(s: State, order: seq<Binding>, b: Binding)
    requires HeldOK(s.held, s.counter) && Distinct(order) && forall k | k in order :: k in s.held || k == b
    requires forall i, j | 0 <= i < j < |order| :: PressKey(s, order[i]) <= PressKey(s, order[j])
    ensures InPressOrder(s, order)
  {
    forall i, j | 0 <= i < j < |order|
      ensures order[i] in s.held && (order[j] in s.held ==> s.held[order[i]] < s.held[order[j]])
    {
      assert order[i] in order && order[j] in order && order[i] != order[j];
    }
  }

  lemma SamePressOrder(s: State, t: State, keys: seq<Binding>)
    requires s.held == t.held && InPressOrder(t, keys)
    ensures InPressOrder(s, keys)
  {
  }

  lemma StartOneReports(p: Progress, id: Id, b: Binding, now: real, pick: Pick) returns (ts: seq<Transition>)
    requires Pressable(p.s, b) && GoodPick(pick) && StartsWith(p.s.combos, id, b)
    ensures StartOne(p, id, b, now, pick).transitions == p.transitions + ts && |ts| <= 1
    ensures forall t | t in ts :: t.comboId == id && FiresAtOnce(p.s, b, pick, t)
  {
    ComboByIdFacts(p.s.combos, id);
    ts := [];
    if CanStartId(p.s, id, b, pick) {
      assert Filled(p.s, id, b, pick);
      FirstStepUses(p.s, id, b, pick);
      var combo := ComboById(p.s.combos, id).value;
      var keys := FirstKeys(p.s, id, b, pick);
      var _ := FirstStepAssignment(combo, b, p.s.held.Keys, pick);
      var order := StartReports(p.s, combo, keys, b, now);
      ts := Fire(StartCandidate(p.s, combo, keys, b, now).0, b);
    }
  }

  lemma {:induction false} StartAllReports(s: State, ids: seq<Id>, b: Binding, now: real, pick: Pick)
    requires Pressable(s, b) && GoodPick(pick) && Distinct(ids)
    requires forall x | x in ids :: StartsWith(s.combos, x, b)
    ensures var ts := StartAll(s, ids, b, now, pick).transitions;
            OneEach(ts) && forall t | t in ts :: t.comboId in ids && FiresAtOnce(s, b, pick, t)
  {
    if ids != [] {
      var front, last := ids[..|ids| - 1], ids[|ids| - 1];
      StartAllReports(s, front, b, now, pick);
      StartAllKeeps(s, front, b, now, pick);
      StartAllFlags(s, front, b, now, pick);
      assert ids == front + [last] && last !in front;
      var p := StartAll(s, front, b, now, pick);
      var ts := StartOneReports(p, last, b, now, pick);
      assert Get(p.s, last) == Get(s, last);
      forall t | t in ts ensures FiresAtOnce(s, b, pick, t) {
        FiresSame(s, p.s, b, pick, t);
      }
    }
  }

  lemma FiresSame(s: State, t: State, b: Binding, pick: Pick, report: Transition)
    requires s.held == t.held && s.combos == t.combos && Get(s, report.comboId) == Get(t, report.comboId)
    requires FiresAtOnce(t, b, pick, report)
    ensures FiresAtOnce(s, b, pick, report)
  {
    SamePressOrder(s, t, report.triggers);
  }

  /** Every report of a press is that of a combo whose last step the key completes, or of a combo of one
      step that it starts, and no combo is reported twice. */
  lemma PressReports(s: State, b: Binding, now: real, pick: Pick)
    requires Pressable(s, b) && GoodPick(pick)
    ensures var ts := PressEvent(s, b, now, pick).d.transitions;
            && OneEach(ts)
            && forall t | t in ts ::
                 || (Completes(s, t.comboId, b) && IsLastStep(s.cands[t.comboId]) && t == FireOf(s.cands[t.comboId], b))
                 || FiresAtOnce(s, b, pick, t)
  {
    var w := PressWaiting(s, b, now);
    var ids := FirstStepIds(s.combos, b);
    WaitingReports(s, b, now);
    PressWaitingKeeps(s, b, now);
    FirstStepIdsAreScan(s.combos, b);
    StartAllReports(w.s, ids, b, now, pick);
    StartAllSilent(w.s, ids, b, now, pick);
    var us := StartAll(w.s, ids, b, now, pick).transitions;
    forall t | t in us ensures FiresAtOnce(s, b, pick, t) {
      StartedWasVacant(s, b, now, pick, t);
    }
    forall t, u | t in w.d.transitions && u in us ensures t.comboId != u.comboId {
      TwoSteps(s, t.comboId, b);
    }
  }

  lemma WaitingReports(s: State, b: Binding, now: real)
    requires Pressable(s, b)
    ensures var ts := PressWaiting(s, b, now).d.transitions;
            && OneEach(ts)
            && forall t | t in ts ::
                 Completes(s, t.comboId, b) && IsLastStep(s.cands[t.comboId]) && t == FireOf(s.cands[t.comboId], b)
  {
    if MatchingIds(s, b) != {} {
      var t := Drop(s, MismatchIds(s, b));
      MismatchDropKeeps(s, b);
      MatchingOrder(s, b);
      MatchingInOrder(s, b);
      PressAllReports(t, InComboOrder(s.combos, MatchingIds(s, b)), b, now);
    }
  }

  /** A combo that waits for a step has two at least. */
  lemma TwoSteps(s: State, id: Id, b: Binding)
    requires Inv(s) && id in s.cands && Matching(s.cands[id], b)
    ensures ComboById(s.combos, id) == Some(s.cands[id].combo) && |s.cands[id].combo.steps| >= 2
  {
    assert CandOK(s.cands[id], s.held.Keys, s.counter);
    ComboByIdFacts(s.combos, id);
  }

  /** A combo of one step is never dropped by the waiting phase. */
  lemma StartedWasVacant(s: State, b: Binding, now: real, pick: Pick, t: Transition)
    requires Pressable(s, b) && FiresAtOnce(PressWaiting(s, b, now).s, b, pick, t)
    ensures FiresAtOnce(s, b, pick, t)
  {
    var w := PressWaiting(s, b, now).s;
    PressWaitingKeeps(s, b, now);
    WaitingOutcome(s, b, now, t.comboId);
    if t.comboId in s.cands {
      assert CandOK(s.cands[t.comboId], s.held.Keys, s.counter);
      ComboByIdFacts(s.combos, t.comboId);
    }
    FiresSame(s, w, b, pick, t);
  }
}
