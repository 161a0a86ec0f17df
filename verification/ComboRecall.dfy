/**
  Which keys are taken back. Keys of an unfinished chord are passed on; once the chord is complete the
  daemon takes them back.
*/
module ComboRecall {
  import opened Wrappers
  import opened ComboModel
  import opened ComboLaws
  import opened ComboFiring
  import opened ComboTiming
  import opened ComboDecisions
  import opened ComboOutcome

  /** Modifiers and wheel notches are never taken back. */
  predicate Retractable(x: Binding) {
    && x.token !in {"ctrl", "shift", "alt", "meta"}
    && x.token !in {"wheel_up", "wheel_down", "wheel_left", "wheel_right"}
  }

  /** Completing the awaited step takes this key back: it was noted for the step, or it is the key just
      pressed, but not if that fires the action. */
  ghost predicate TakesBack(c: Candidate, b: Binding, x: Binding) {
    Retractable(x) && (IsTracked(c, x) || x == b) && !(IsLastStep(c) && x == b)
  }

  /** Starting a combo takes back the keys of its first step, but not the one that fires it. */
  ghost predicate TakesBackFirst(s: State, id: Id, b: Binding, pick: Pick, x: Binding)
    requires Filled(s, id, b, pick)
  {
    Retractable(x) && x in FirstKeys(s, id, b, pick) && !(|ComboById(s.combos, id).value.steps| == 1 && x == b)
  }

  ghost predicate FlagsFit(tracked: seq<TrackedPress>) { forall t | t in tracked :: t.isPulse == IsPulse(t.binding) }

  lemma RecallMembers(c: Candidate, x: Binding)
    requires FlagsFit(c.tracked)
    ensures x in Recall(c) <==> IsTracked(c, x) && Retractable(x) && Some(x) != c.finalBinding
  {
    var at := RecallNewestFirst(c, c.tracked);
    if x in Recall(c) {
      var i :| 0 <= i < |Recall(c)| && Recall(c)[i] == x;
      assert c.tracked[at[i]] in c.tracked;
    }
    if IsTracked(c, x) && Retractable(x) && Some(x) != c.finalBinding {
      var t :| t in c.tracked && t.binding == x;
      var k :| 0 <= k < |c.tracked| && c.tracked[k] == t;
      assert k in at;
      var i :| 0 <= i < |at| && at[i] == k;
      assert Recall(c)[i] == x;
    }
  }

  lemma CompleteFlags(c: Candidate, b: Binding, now: real, counter: nat)
    requires FlagsFit(c.tracked)
    ensures FlagsFit(CompleteOne(c, b, now, counter).0.tracked)
  {
  }

  lemma CompleteRecall(c: Candidate, b: Binding, now: real, counter: nat, x: Binding)
    requires Waiting(c) && FlagsFit(c.tracked) && b !in c.pressed
    requires forall k | k in c.pressed :: !IsPulse(k)
    ensures x in Recall(CompleteOne(c, b, now, counter).0) <==> TakesBack(c, b, x)
  {
    var d := CompleteOne(c, b, now, counter).0;
    CompleteFlags(c, b, now, counter);
    RecallMembers(d, x);
    assert !IsTracked(c, b);
    TrackNotes(c, b, false, counter);
    if IsPulse(b) && IsLastStep(c) {
      assert d.tracked == Track(c, b, false, counter).0.tracked && d.finalBinding == Some(b);
    } else {
      CompleteSpec(c, b, now, counter);
      if IsPulse(b) && c.pressed == {} && !IsLastStep(c) {
        assert !IsTracked(d, x);
        assert IsTracked(c, x) ==> x in c.pressed;
      }
    }
  }

  ghost predicate SomeTakesBack(s: State, ids: seq<Id>, b: Binding, x: Binding) {
    exists id | id in ids :: id in s.cands && LacksOne(s.cands[id]) && TakesBack(s.cands[id], b, x)
  }

  lemma SomeTakesBackNext(s: State, front: seq<Id>, last: Id, b: Binding, x: Binding)
    requires last in s.cands
    ensures SomeTakesBack(s, front + [last], b, x)
            <==> SomeTakesBack(s, front, b, x) || (LacksOne(s.cands[last]) && TakesBack(s.cands[last], b, x))
  {
    if id :| id in front && id in s.cands && LacksOne(s.cands[id]) && TakesBack(s.cands[id], b, x) {
      assert id in front + [last];
    }
    assert last in front + [last];
  }

  lemma PressOneRecall(p: Progress, id: Id, b: Binding, now: real, held: set<Binding>, counter: nat, x: Binding)
    requires id in p.s.cands && Matching(p.s.cands[id], b) && CandOK(p.s.cands[id], held, counter)
    ensures x in PressOne(p, id, b, now).recall
            <==> x in p.recall || (LacksOne(p.s.cands[id]) && TakesBack(p.s.cands[id], b, x))
  {
    var c := p.s.cands[id];
    if LacksOne(c) { CompleteRecall(c, b, now, p.s.counter, x); }
  }

  lemma {:induction false} PressAllRecall(s: State, ids: seq<Id>, b: Binding, now: real, x: Binding)
    requires Pressable(s, b) && Distinct(ids)
    requires forall id | id in ids :: id in s.cands && Matching(s.cands[id], b)
    ensures x in PressAll(s, ids, b, now).recall <==> SomeTakesBack(s, ids, b, x)
  {
    if ids != [] {
      var front, last := ids[..|ids| - 1], ids[|ids| - 1];
      PressAllRecall(s, front, b, now, x);
      assert ids == front + [last] && last !in front && last in ids;
      var _ := TurnOf(s, front, b, now, last);
      assert CandOK(s.cands[last], s.held.Keys, s.counter);
      PressOneRecall(PressAll(s, front, b, now), last, b, now, s.held.Keys, s.counter, x);
      SomeTakesBackNext(s, front, last, b, x);
    }
  }

  lemma WaitingRecall(s: State, b: Binding, now: real, x: Binding)
    requires Pressable(s, b)
    ensures x in PressWaiting(s, b, now).d.recall <==> exists id :: Completes(s, id, b) && TakesBack(s.cands[id], b, x)
  {
    NotOnlyRepeats(s, b);
    if MatchingIds(s, b) != {} {
      var t := Drop(s, MismatchIds(s, b));
      var order := InComboOrder(s.combos, MatchingIds(s, b));
      MismatchDropKeeps(s, b);
      MatchingOrder(s, b);
      MatchingInOrder(s, b);
      PressAllRecall(t, order, b, now, x);
      DedupeFacts(PressAll(t, order, b, now).recall);
      TakesBackInOrder(s, t, order, b, x);
    }
  }

  lemma TakesBackInOrder(s: State, t: State, order: seq<Id>, b: Binding, x: Binding)
    requires forall id :: id in order <==> id in s.cands && Matching(s.cands[id], b)
    requires forall id | id in order :: id in t.cands && t.cands[id] == s.cands[id]
    ensures SomeTakesBack(t, order, b, x) <==> exists id :: Completes(s, id, b) && TakesBack(s.cands[id], b, x)
  {
    if id :| Completes(s, id, b) && TakesBack(s.cands[id], b, x) { assert id in order; }
    if id :| id in order && id in t.cands && LacksOne(t.cands[id]) && TakesBack(t.cands[id], b, x) {
      assert Completes(s, id, b);
    }
  }

  // ---- First steps ----

  lemma {:induction false} TrackAllFlags(combo: Combo, keys: seq<Binding>, b: Binding, counter: nat)
    ensures FlagsFit(TrackAll(NewCandidate(combo), keys, b, counter).0.tracked)
  {
    if keys != [] { TrackAllFlags(combo, keys[..|keys| - 1], b, counter); }
  }

  lemma FirstRecall(s: State, combo: Combo, keys: set<Binding>, b: Binding, now: real, x: Binding)
    requires |combo.steps| >= 1 && b in keys && (|combo.steps| == 1 || exists k | k in keys :: !IsPulse(k))
    ensures x in Recall(StartCandidate(s, combo, keys, b, now).0)
            <==> Retractable(x) && x in keys && !(|combo.steps| == 1 && x == b)
  {
    var order := ByPressOrder(s, keys);
    ByPressOrderSorted(s, keys);
    TrackAllFlags(combo, order, b, s.counter);
    TracksKeys(combo, order, b, s.counter);
    var (c, counter) := TrackAll(NewCandidate(combo), order, b, s.counter);
    RecallOfFirst(c, combo, keys, b, now, counter, x);
  }

  lemma RecallOfFirst(c: Candidate, combo: Combo, keys: set<Binding>, b: Binding, now: real, counter: nat, x: Binding)
    requires c.combo == combo && c.stepIndex == 0 && |combo.steps| >= 1 && b in keys && FlagsFit(c.tracked)
    requires c.pressed == (set k | k in keys && !IsPulse(k)) && forall y: Binding :: IsTracked(c, y) <==> y in keys
    requires |combo.steps| == 1 || exists k | k in keys :: !IsPulse(k)
    ensures x in Recall(CompleteOne(c, b, now, counter).0)
            <==> Retractable(x) && x in keys && !(|combo.steps| == 1 && x == b)
  {
    CompleteFlags(c, b, now, counter);
    RecallMembers(CompleteOne(c, b, now, counter).0, x);
    if IsPulse(b) && |combo.steps| == 1 {
      TrackAgain(c, b, counter);
    } else {
      CompletesFirst(c, combo, keys, b, now, counter);
    }
  }

  lemma StartOneRecall(p: Progress, id: Id, b: Binding, now: real, pick: Pick, x: Binding)
    requires Pressable(p.s, b) && GoodPick(pick) && StartsWith(p.s.combos, id, b)
    ensures x in StartOne(p, id, b, now, pick).recall <==> x in p.recall || BeginsBack(p.s, id, b, pick, x)
  {
    ComboByIdFacts(p.s.combos, id);
    if id !in p.s.cands && Filled(p.s, id, b, pick) {
      FirstStepUses(p.s, id, b, pick);
      FirstRecall(p.s, ComboById(p.s.combos, id).value, FirstKeys(p.s, id, b, pick), b, now, x);
    }
  }

  /** A combo without a candidate starts and takes the key back. */
  ghost predicate BeginsBack(s: State, id: Id, b: Binding, pick: Pick, x: Binding) {
    id !in s.cands && Filled(s, id, b, pick) && TakesBackFirst(s, id, b, pick, x)
  }

  ghost predicate SomeBeginsBack(s: State, ids: seq<Id>, b: Binding, pick: Pick, x: Binding) {
    exists id | id in ids :: BeginsBack(s, id, b, pick, x)
  }

  lemma SomeBeginsBackNext(s: State, front: seq<Id>, last: Id, b: Binding, pick: Pick, x: Binding)
    ensures SomeBeginsBack(s, front + [last], b, pick, x)
            <==> SomeBeginsBack(s, front, b, pick, x) || BeginsBack(s, last, b, pick, x)
  {
    if id :| id in front && BeginsBack(s, id, b, pick, x) { assert id in front + [last]; }
    assert last in front + [last];
  }

  lemma {:induction false} StartAllRecall(s: State, ids: seq<Id>, b: Binding, now: real, pick: Pick, x: Binding)
    requires Pressable(s, b) && GoodPick(pick) && Distinct(ids)
    requires forall id | id in ids :: StartsWith(s.combos, id, b)
    ensures x in StartAll(s, ids, b, now, pick).recall <==> SomeBeginsBack(s, ids, b, pick, x)
  {
    if ids != [] {
      var front, last := ids[..|ids| - 1], ids[|ids| - 1];
      StartAllRecall(s, front, b, now, pick, x);
      StartAllKeeps(s, front, b, now, pick);
      StartAllFlags(s, front, b, now, pick);
      assert ids == front + [last] && last !in front;
      var p := StartAll(s, front, b, now, pick);
      StartOneRecall(p, last, b, now, pick, x);
      SomeBeginsBackNext(s, front, last, b, pick, x);
      BeginsBackSame(s, p.s, last, b, pick, x);
    }
  }

  lemma BeginsBackSame(s: State, t: State, id: Id, b: Binding, pick: Pick, x: Binding)
    requires s.held == t.held && s.combos == t.combos && Get(s, id) == Get(t, id)
    ensures BeginsBack(s, id, b, pick, x) <==> BeginsBack(t, id, b, pick, x)
  {
  }

  lemma FirstStepsRecall(s: State, b: Binding, now: real, pick: Pick, x: Binding)
    requires Pressable(s, b) && GoodPick(pick)
    ensures x in PressFirstSteps(s, b, now, pick).d.recall <==> exists id :: BeginsBack(s, id, b, pick, x)
  {
    var ids := FirstStepIds(s.combos, b);
    FirstStepIdsAreScan(s.combos, b);
    StartAllRecall(s, ids, b, now, pick, x);
    StartAllFlags(s, ids, b, now, pick);
    DedupeFacts(StartAll(s, ids, b, now, pick).recall);
    forall id | BeginsBack(s, id, b, pick, x) ensures id in ids && Hits(s, id, b, pick) {
      ComboByIdFacts(s.combos, id);
    }
  }

  lemma Merged(d: Decision, e: Decision, x: Binding)
    ensures x in Merge(d, e).recall <==> x in d.recall || x in e.recall
  {
    DedupeFacts(d.recall + e.recall);
  }

  lemma BeginsIsStarts(s: State, b: Binding, now: real, pick: Pick, id: Id, x: Binding)
    requires Pressable(s, b)
    ensures BeginsBack(PressWaiting(s, b, now).s, id, b, pick, x)
            <==> Starts(s, id, b, pick) && TakesBackFirst(s, id, b, pick, x)
  {
    PressWaitingKeeps(s, b, now);
    WaitingVacant(s, b, now, id);
  }

  /** A press takes back exactly the keys of the steps that it completes: those noted for an awaited step
      that it completes, and those of a first step that it starts; but no modifiers, no wheel notches,
      and not the key itself where it fires the action. */
  lemma PressTakesBackIff(s: State, b: Binding, now: real, pick: Pick, x: Binding)
    requires Pressable(s, b) && GoodPick(pick)
    ensures x in PressEvent(s, b, now, pick).d.recall
            <==> || (exists id :: Completes(s, id, b) && TakesBack(s.cands[id], b, x))
                 || (exists id :: Starts(s, id, b, pick) && TakesBackFirst(s, id, b, pick, x))
  {
    var w := PressWaiting(s, b, now);
    PressWaitingKeeps(s, b, now);
    WaitingRecall(s, b, now, x);
    FirstStepsRecall(w.s, b, now, pick, x);
    Merged(w.d, PressFirstSteps(w.s, b, now, pick).d, x);
    forall id ensures BeginsBack(w.s, id, b, pick, x)
                      <==> Starts(s, id, b, pick) && TakesBackFirst(s, id, b, pick, x) {
      BeginsIsStarts(s, b, now, pick, id, x);
    }
  }
}
