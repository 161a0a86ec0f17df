/**
  Exactly when pressing a key fires a combo.
*/
module ComboFiring {
  import opened ComboModel
  import opened ComboLaws

  ghost predicate Emits(ts: seq<Transition>, id: Id) {
    exists t | t in ts :: t.comboId == id
  }

  lemma EmitsConcat(ts: seq<Transition>, us: seq<Transition>, id: Id)
    ensures Emits(ts + us, id) <==> Emits(ts, id) || Emits(us, id)
  {
    if t :| t in ts && t.comboId == id { assert t in ts + us; }
    if t :| t in us && t.comboId == id { assert t in ts + us; }
  }

  lemma FireEmits(c: Candidate, b: Binding, now: real, counter: nat, id: Id)
    ensures Emits(Fire(CompleteOne(c, b, now, counter).0, b), id) <==> c.combo.id == id && IsLastStep(c)
  {
    var ts := Fire(CompleteOne(c, b, now, counter).0, b);
    if IsLastStep(c) { assert ts[0] in ts; }
  }

  lemma {:induction false} TrackAllCombo(c: Candidate, keys: seq<Binding>, b: Binding, counter: nat)
    ensures TrackAll(c, keys, b, counter).0.combo == c.combo
    ensures TrackAll(c, keys, b, counter).0.stepIndex == c.stepIndex
  {
    if keys != [] { TrackAllCombo(c, keys[..|keys| - 1], b, counter); }
  }

  /** The key is the last one that the last step of this combo still lacks. */
  ghost predicate LastKey(s: State, id: Id) {
    id in s.cands && LacksOne(s.cands[id]) && IsLastStep(s.cands[id])
  }

  lemma PressOneFires(p: Progress, x: Id, b: Binding, now: real, id: Id)
    requires x in p.s.cands && p.s.cands[x].combo.id == x
    ensures Emits(PressOne(p, x, b, now).transitions, id) <==> Emits(p.transitions, id) || (x == id && LastKey(p.s, x))
  {
    var c := p.s.cands[x];
    if LacksOne(c) {
      FireEmits(c, b, now, p.s.counter, id);
      EmitsConcat(p.transitions, Fire(CompleteOne(c, b, now, p.s.counter).0, b), id);
    }
  }

  lemma {:induction false} PressAllFires(s: State, ids: seq<Id>, b: Binding, now: real, id: Id)
    requires Pressable(s, b) && Distinct(ids)
    requires forall x | x in ids :: x in s.cands && Matching(s.cands[x], b)
    ensures Emits(PressAll(s, ids, b, now).transitions, id) <==> id in ids && LastKey(s, id)
  {
    if ids != [] {
      var front, last := ids[..|ids| - 1], ids[|ids| - 1];
      PressAllFires(s, front, b, now, id);
      PressAllKeeps(s, front, b, now);
      assert ids == front + [last];
      assert last !in front;
      PressOneFires(PressAll(s, front, b, now), last, b, now, id);
    }
  }

  /** The key completes the only step of a combo that has no candidate. */
  ghost predicate StartsAndFires(s: State, id: Id, b: Binding, pick: Pick) {
    && ComboById(s.combos, id).Some?
    && |ComboById(s.combos, id).value.steps| == 1
    && CanStart(s, ComboById(s.combos, id).value, b, pick)
  }

  lemma StartOneFires(p: Progress, x: Id, b: Binding, now: real, pick: Pick, id: Id)
    requires DistinctIds(p.s.combos) && StartsWith(p.s.combos, x, b)
    ensures Emits(StartOne(p, x, b, now, pick).transitions, id)
            <==> Emits(p.transitions, id) || (x == id && StartsAndFires(p.s, id, b, pick))
  {
    ComboByIdFacts(p.s.combos, x);
    var combo := ComboById(p.s.combos, x).value;
    if x !in p.s.cands && CanStart(p.s, combo, b, pick) {
      var keys := MatchFirstStep(combo, b, p.s.held.Keys, pick).value;
      var (c, counter) := TrackAll(NewCandidate(combo), ByPressOrder(p.s, keys), b, p.s.counter);
      TrackAllCombo(NewCandidate(combo), ByPressOrder(p.s, keys), b, p.s.counter);
      FireEmits(c, b, now, counter, id);
      EmitsConcat(p.transitions, Fire(CompleteOne(c, b, now, counter).0, b), id);
      assert combo.steps != [] by {
        var e :| e in FirstBindings(combo) && BindingMatches(e, b);
      }
    }
  }

  lemma {:induction false} StartAllFires(s: State, ids: seq<Id>, b: Binding, now: real, pick: Pick, id: Id)
    requires Pressable(s, b) && GoodPick(pick) && Distinct(ids)
    requires forall x | x in ids :: StartsWith(s.combos, x, b)
    ensures Emits(StartAll(s, ids, b, now, pick).transitions, id) <==> id in ids && StartsAndFires(s, id, b, pick)
  {
    if ids != [] {
      var front, last := ids[..|ids| - 1], ids[|ids| - 1];
      StartAllFires(s, front, b, now, pick, id);
      StartAllKeeps(s, front, b, now, pick);
      assert ids == front + [last];
      assert last !in front;
      var p := StartAll(s, front, b, now, pick);
      StartOneFires(p, last, b, now, pick, id);
      ComboByIdFacts(s.combos, last);
      assert StartsAndFires(p.s, last, b, pick) <==> StartsAndFires(s, last, b, pick);
    }
  }

  lemma WaitingFires(s: State, b: Binding, now: real, id: Id)
    requires Pressable(s, b)
    ensures Emits(PressWaiting(s, b, now).d.transitions, id)
            <==> id in s.cands && Matching(s.cands[id], b) && LastKey(s, id)
  {
    if MatchingIds(s, b) != {} {
      var s' := Drop(s, MismatchIds(s, b));
      var order := InComboOrder(s.combos, MatchingIds(s, b));
      MismatchDropKeeps(s, b);
      MatchingOrder(s, b);
      PressAllFires(s', order, b, now, id);
      InComboOrderFacts(s.combos, MatchingIds(s, b));
      if id in s.cands && Matching(s.cands[id], b) {
        assert s.cands[id].combo in s.combos && s.cands[id].combo.id in MatchingIds(s, b);
      }
    } else {
      assert id in s.cands && Matching(s.cands[id], b) ==> id in MatchingIds(s, b);
    }
  }

  /** A candidate that is not waiting for a step stays through the waiting phase. */
  lemma ReleasingSurvives(s: State, b: Binding, now: real, id: Id)
    requires Pressable(s, b) && id in s.cands && s.cands[id].releasing
    ensures id in PressWaiting(s, b, now).s.cands
  {
    var s' := Drop(s, MismatchIds(s, b));
    MismatchDropKeeps(s, b);
    if MatchingIds(s, b) != {} {
      var order := InComboOrder(s.combos, MatchingIds(s, b));
      MatchingOrder(s, b);
      PressAllKeeps(s', order, b, now);
      InComboOrderFacts(s.combos, MatchingIds(s, b));
      assert id !in MatchingIds(s, b);
    }
  }

  /** Pressing a key fires a combo exactly when the key completes the last step the combo is
      waiting for, or the only step of a combo that is not running yet. */
  lemma PressFiresIff(s: State, b: Binding, now: real, pick: Pick, id: Id)
    requires Pressable(s, b) && GoodPick(pick)
    ensures Emits(PressEvent(s, b, now, pick).d.transitions, id)
            <==> || (id in s.cands && Matching(s.cands[id], b) && LastKey(s, id))
                 || (StartsWith(s.combos, id, b) && StartsAndFires(s, id, b, pick))
  {
    var w := PressWaiting(s, b, now);
    var ids := FirstStepIds(s.combos, b);
    WaitingFires(s, b, now, id);
    PressWaitingKeeps(s, b, now);
    FirstStepIdsAreScan(s.combos, b);
    StartAllFires(w.s, ids, b, now, pick, id);
    StartAllSilent(w.s, ids, b, now, pick);
    var p := StartAll(w.s, ids, b, now, pick);
    EmitsConcat(w.d.transitions, p.transitions, id);
    SingleStepFrame(s, b, now, pick, id);
  }

  /** For a combo of one step the waiting phase makes no difference. */
  lemma SingleStepFrame(s: State, b: Binding, now: real, pick: Pick, id: Id)
    requires Pressable(s, b)
    ensures StartsAndFires(PressWaiting(s, b, now).s, id, b, pick) <==> StartsAndFires(s, id, b, pick)
  {
    PressWaitingKeeps(s, b, now);
    ComboByIdFacts(s.combos, id);
    if id in s.cands && ComboById(s.combos, id).Some? && |ComboById(s.combos, id).value.steps| == 1 {
      assert s.cands[id].combo == ComboById(s.combos, id).value;
      ReleasingSurvives(s, b, now, id);
    }
  }
}
