/**
  Times and orders in the combo recogniser: deadlines lie ahead of the clock, keys are listed from
  the oldest press to the newest, and output is taken back from the newest to the oldest.
*/
module ComboTiming {
  import opened ComboModel
  import opened ComboLaws

  // ---- Deadlines lie ahead ----

  ghost predicate NoneExpired(s: State, now: real) {
    forall id | id in s.cands :: !Expired(s.cands[id], now)
  }

  lemma NextStepAhead(c: Candidate, now: real)
    ensures !Expired(NextStep(c, now), now)
  {
  }

  lemma CompleteAhead(c: Candidate, b: Binding, now: real, counter: nat)
    ensures !Expired(CompleteOne(c, b, now, counter).0, now)
  {
    NextStepAhead(CompleteStep(c, b, IsLastStep(c), counter).0, now);
  }

  lemma StoreAhead(s: State, c: Candidate, b: Binding, counter: nat, now: real)
    requires NoneExpired(s, now) && !Expired(c, now)
    ensures NoneExpired(Store(s, c, b, counter), now)
  {
  }

  lemma PressOneAhead(p: Progress, id: Id, b: Binding, now: real)
    requires NoneExpired(p.s, now)
    ensures NoneExpired(PressOne(p, id, b, now).s, now)
  {
    if id in p.s.cands {
      var c := p.s.cands[id];
      if LacksOne(c) {
        CompleteAhead(c, b, now, p.s.counter);
        var (c', counter') := CompleteOne(c, b, now, p.s.counter);
        StoreAhead(p.s, c', b, counter', now);
      }
    }
  }

  lemma {:induction false} PressAllAhead(s: State, ids: seq<Id>, b: Binding, now: real)
    requires NoneExpired(s, now)
    ensures NoneExpired(PressAll(s, ids, b, now).s, now)
  {
    if ids != [] {
      PressAllAhead(s, ids[..|ids| - 1], b, now);
      PressOneAhead(PressAll(s, ids[..|ids| - 1], b, now), ids[|ids| - 1], b, now);
    }
  }

  lemma StartOneAhead(p: Progress, id: Id, b: Binding, now: real, pick: Pick)
    requires NoneExpired(p.s, now)
    ensures NoneExpired(StartOne(p, id, b, now, pick).s, now)
  {
    if id !in p.s.cands && CanStartId(p.s, id, b, pick) {
      var combo := ComboById(p.s.combos, id).value;
      var keys := MatchFirstStep(combo, b, p.s.held.Keys, pick).value;
      var (c, counter) := TrackAll(NewCandidate(combo), ByPressOrder(p.s, keys), b, p.s.counter);
      CompleteAhead(c, b, now, counter);
      var (c', counter') := CompleteOne(c, b, now, counter);
      StoreAhead(p.s, c', b, counter', now);
    }
  }

  lemma {:induction false} StartAllAhead(s: State, ids: seq<Id>, b: Binding, now: real, pick: Pick)
    requires NoneExpired(s, now)
    ensures NoneExpired(StartAll(s, ids, b, now, pick).s, now)
  {
    if ids != [] {
      StartAllAhead(s, ids[..|ids| - 1], b, now, pick);
      StartOneAhead(StartAll(s, ids[..|ids| - 1], b, now, pick), ids[|ids| - 1], b, now, pick);
    }
  }

  lemma PressEventAhead(s: State, b: Binding, now: real, pick: Pick)
    requires NoneExpired(s, now)
    ensures NoneExpired(PressEvent(s, b, now, pick).s, now)
  {
    PressAllAhead(Drop(s, MismatchIds(s, b)), InComboOrder(s.combos, MatchingIds(s, b)), b, now);
    var w := PressWaiting(s, b, now).s;
    assert NoneExpired(w, now);
    StartAllAhead(w, FirstStepIds(w.combos, b), b, now, pick);
  }

  lemma ReleaseAhead(s: State, b: Binding, now: real)
    requires NoneExpired(s, now)
    ensures NoneExpired(ReleaseAll(s, b, now), now)
  {
    forall id | id in s.cands && ReleaseCandidate(s.cands[id], b, now).Some?
      ensures !Expired(ReleaseCandidate(s.cands[id], b, now).value, now)
    {
      NextStepAhead(s.cands[id].(pressed := s.cands[id].pressed - {b}, active := false), now);
    }
  }

  /** Whatever the event, it leaves no candidate whose deadline is due: late candidates are gone
      before the key is looked at, and a new deadline lies strictly ahead. */
  lemma EventLeavesNoneExpired(s: State, b: Binding, value: int, now: real, pick: Pick)
    ensures NoneExpired(HandleEvent(s, b, value, now, pick).s, now)
  {
    var s1 := Expire(s, now);
    assert NoneExpired(s1, now);
    if value == 1 {
      PressEventAhead(if IsPulse(b) then s1 else RecordHeld(s1, b), b, now, pick);
    } else if value != 2 {
      ReleaseAhead(s1, b, now);
    }
  }

  // ---- Oldest first ----

  /** Keys are listed once each, and none was pressed after one that follows it. */
  lemma {:induction false} ByPressOrderSorted(s: State, keys: set<Binding>)
    ensures var r := ByPressOrder(s, keys);
            Distinct(r) && forall i, j | 0 <= i < j < |r| :: PressKey(s, r[i]) <= PressKey(s, r[j])
    decreases |keys|
  {
    if keys != {} {
      var r := ByPressOrder(s, keys);
      var last := r[|r| - 1];
      assert r == ByPressOrder(s, keys - {last}) + [last];
      ByPressOrderSorted(s, keys - {last});
      forall i | 0 <= i < |r| - 1 ensures PressKey(s, r[i]) <= PressKey(s, last) && r[i] != last {
        assert r[i] in keys - {last};
      }
    }
  }

  /** Tracking distinct keys lists exactly those keys, in the same order. */
  lemma {:induction false} TrackAllLists(combo: Combo, keys: seq<Binding>, b: Binding, counter: nat)
    requires Distinct(keys)
    ensures var c := TrackAll(NewCandidate(combo), keys, b, counter).0;
            TrackedBindings(c) == keys && c.combo == combo && c.stepIndex == 0
  {
    if keys != [] {
      var front, last := keys[..|keys| - 1], keys[|keys| - 1];
      TrackAllLists(combo, front, b, counter);
      var (c, counter') := TrackAll(NewCandidate(combo), front, b, counter);
      assert !IsTracked(c, last) by {
        forall t | t in c.tracked ensures t.binding != last {
          var i :| 0 <= i < |c.tracked| && c.tracked[i] == t;
          assert TrackedBindings(c)[i] == front[i] == keys[i];
        }
      }
      assert keys == front + [last];
      var c' := Track(c, last, last != b, counter').0;
      assert TrackedBindings(c') == TrackedBindings(c) + [last];
    }
  }

  /** The keys that must be released again are the tracked ones that are no pulses. */
  lemma {:induction false} TrackAllPressed(combo: Combo, keys: seq<Binding>, b: Binding, counter: nat)
    requires Distinct(keys)
    ensures TrackAll(NewCandidate(combo), keys, b, counter).0.pressed == set k | k in keys && !IsPulse(k)
  {
    if keys != [] {
      var front, last := keys[..|keys| - 1], keys[|keys| - 1];
      assert keys == front + [last] && last !in front;
      TrackAllPressed(combo, front, b, counter);
      TrackAllLists(combo, front, b, counter);
      var c := TrackAll(NewCandidate(combo), front, b, counter).0;
      assert !IsTracked(c, last) by {
        forall t | t in c.tracked ensures t.binding != last {
          var i :| 0 <= i < |c.tracked| && c.tracked[i] == t;
          assert TrackedBindings(c)[i] == front[i];
        }
      }
    }
  }

  /** A combo that a key press starts and fires at once reports the keys of its step: an assignment
      of a different held key to every binding, the new key among them, from the oldest press to the
      newest. */
  lemma FirstStepTriggers(s: State, combo: Combo, b: Binding, now: real, pick: Pick)
    requires GoodPick(pick) && |combo.steps| == 1 && CanStart(s, combo, b, pick)
    requires exists e | e in FirstBindings(combo) :: BindingMatches(e, b)
    ensures var keys := MatchFirstStep(combo, b, s.held.Keys, pick).value;
            var c := StartCandidate(s, combo, keys, b, now).0;
            && b in keys && Fire(c, b) == [Transition(combo.id, combo.action, KindOf(b), b, ByPressOrder(s, keys))]
  {
    var keys := MatchFirstStep(combo, b, s.held.Keys, pick).value;
    var given := FirstStepAssignment(combo, b, s.held.Keys, pick);
    assert b in Elements(given);
    var order := ByPressOrder(s, keys);
    ByPressOrderSorted(s, keys);
    TrackAllLists(combo, order, b, s.counter);
    var c := TrackAll(NewCandidate(combo), order, b, s.counter).0;
    assert IsTracked(c, b) by {
      var i :| 0 <= i < |order| && order[i] == b;
      assert TrackedBindings(c)[i] == c.tracked[i].binding;
    }
  }

  // ---- Newest first ----

  /** The keys to take back are all the tracked ones, apart from the key that fired, modifiers and
      pulses, and the newest comes first: `at` gives their places among the tracked presses. */
  lemma {:induction false} RecallNewestFirst(c: Candidate, tracked: seq<TrackedPress>) returns (at: seq<nat>)
    ensures |at| == |RecallFrom(c, tracked)|
    ensures forall i | 0 <= i < |at| ::
              at[i] < |tracked| && Recalled(c, tracked[at[i]]) && RecallFrom(c, tracked)[i] == tracked[at[i]].binding
    ensures forall i, j | 0 <= i < j < |at| :: at[i] > at[j]
    ensures forall k | 0 <= k < |tracked| && Recalled(c, tracked[k]) :: k in at
  {
    if tracked == [] {
      at := [];
    } else {
      var n := |tracked| - 1;
      var rest := RecallNewestFirst(c, tracked[..n]);
      at := (if Recalled(c, tracked[n]) then [n] else []) + rest;
    }
  }
}
