/**
  What the release of a key does, what an event as a whole does, and what timeouts, lost devices and
  reloads leave.
*/
module ComboRelease {
  import opened Wrappers
  import opened ComboModel
  import opened ComboLaws
  import opened ComboDecisions
  import opened ComboOutcome

  // ---- Releasing a key ----

  /** What a candidate becomes when the key goes up. A step that is awaited is abandoned with the first of
      its keys. A completed step ends when all its keys are up, or at once if it is the whole combo;
      then the next step is awaited, or nothing is left. */
  ghost predicate ReleasedAs(c: Candidate, b: Binding, now: real, left: Option<Candidate>) {
    if b !in c.pressed then left == Some(c)
    else if !c.releasing then left.None?
    else if c.pressed == {b} then
      if c.stepIndex + 1 >= |c.combo.steps| then left.None?
      else left.Some? && left.value.combo == c.combo && Awaits(left.value, c.stepIndex + 1, now)
    else if |c.combo.steps| == 1 then left.None?
    else
      && left.Some? && left.value.combo == c.combo && left.value.stepIndex == c.stepIndex
      && left.value.pressed == c.pressed - {b} && left.value.releasing && !left.value.active
      && left.value.deadline.None? && left.value.tracked == c.tracked && left.value.finalBinding == c.finalBinding
  }

  lemma ReleaseCandidateAs(c: Candidate, b: Binding, now: real, held: set<Binding>, counter: nat)
    requires CandOK(c, held, counter)
    ensures ReleasedAs(c, b, now, ReleaseCandidate(c, b, now))
  {
    if b in c.pressed {
      assert c.pressed == {b} <==> c.pressed - {b} == {};
      assert StepMatches(CurrentStep(c), b);
    }
  }

  lemma ReleaseOutcome(s: State, b: Binding, now: real, id: Id)
    requires Inv(s)
    ensures var left := Get(ReleaseEvent(s, b, now).s, id);
            if id in s.cands then ReleasedAs(s.cands[id], b, now, left) else left.None?
  {
    if id in s.cands { ReleaseCandidateAs(s.cands[id], b, now, s.held.Keys, s.counter); }
  }

  /** The key is down in a completed step of some combo. */
  ghost predicate EndsStep(s: State, b: Binding) {
    exists id | id in s.cands :: s.cands[id].releasing && b in s.cands[id].pressed
  }

  /** The key is down in a step that some combo still awaits. */
  ghost predicate Abandons(s: State, b: Binding) {
    exists id | id in s.cands :: !s.cands[id].releasing && b in s.cands[id].pressed
  }

  lemma EndsStepIs(s: State, b: Binding)
    requires Inv(s)
    ensures EndsStep(s, b) <==> exists id | id in s.cands :: ReleasesStep(s.cands[id], b)
  {
    if id :| id in s.cands && s.cands[id].releasing && b in s.cands[id].pressed {
      assert CandOK(s.cands[id], s.held.Keys, s.counter);
      assert ReleasesStep(s.cands[id], b);
    }
    if id :| id in s.cands && ReleasesStep(s.cands[id], b) { assert s.cands[id].releasing; }
  }

  /** The keys of an awaited step were passed on when they were pressed. */
  lemma WasPassed(c: Candidate, b: Binding)
    requires Waiting(c) && b in c.pressed
    ensures WasPassedThrough(c, b)
  {
    FirstPress(c.tracked, b);
    var i :| 0 <= i < |c.tracked| && c.tracked[i].binding == b && forall j | 0 <= j < i :: c.tracked[j].binding != b;
    assert c.tracked[i] in c.tracked;
  }

  lemma {:induction false} FirstPress(tracked: seq<TrackedPress>, b: Binding)
    requires exists t | t in tracked :: t.binding == b
    ensures exists i :: 0 <= i < |tracked| && tracked[i].binding == b
                        && forall j | 0 <= j < i :: tracked[j].binding != b
  {
    var front, last := tracked[..|tracked| - 1], tracked[|tracked| - 1];
    assert tracked == front + [last];
    if t :| t in front && t.binding == b {
      FirstPress(front, b);
      var i :| 0 <= i < |front| && front[i].binding == b && forall j | 0 <= j < i :: front[j].binding != b;
      assert tracked[i] == front[i] && forall j | 0 <= j < i :: tracked[j] == front[j];
    } else {
      assert forall j | 0 <= j < |front| :: front[j] in front;
      assert tracked[|tracked| - 1].binding == b;
    }
  }

  lemma AbandonsIs(s: State, b: Binding)
    requires Inv(s)
    ensures Abandons(s, b) <==> exists id | id in s.cands :: AbandonsStep(s.cands[id], b)
    ensures Abandons(s, b) <==>
            exists id | id in s.cands :: AbandonsStep(s.cands[id], b) && WasPassedThrough(s.cands[id], b)
  {
    if id :| id in s.cands && !s.cands[id].releasing && b in s.cands[id].pressed {
      assert CandOK(s.cands[id], s.held.Keys, s.counter);
      WasPassed(s.cands[id], b);
      assert AbandonsStep(s.cands[id], b);
    }
    if id :| id in s.cands && AbandonsStep(s.cands[id], b) { assert !s.cands[id].releasing; }
  }

  /** A release is consumed if and only if its key is down in a completed step. One that abandons an
      awaited step is passed on, just as the press was. */
  lemma ReleaseDecidesIff(s: State, b: Binding, now: real)
    requires Inv(s)
    ensures var d := ReleaseEvent(s, b, now).d;
            && (d.consume <==> EndsStep(s, b))
            && (d.passthrough <==> !EndsStep(s, b) && Abandons(s, b))
            && (d.reset <==> (EndsStep(s, b) || Abandons(s, b)) && ReleaseEvent(s, b, now).s.cands == map[])
            && d.recall == []
  {
    EndsStepIs(s, b);
    AbandonsIs(s, b);
  }

  /** What the release of an active combo reports. */
  function ReleaseOf(c: Candidate, b: Binding): Transition {
    Transition(c.combo.id, c.combo.action, Release, b, [])
  }

  lemma {:induction false} ReleaseReports(s: State, ids: seq<Id>, b: Binding)
    requires Inv(s) && Distinct(ids)
    ensures var ts := ReleaseTransitions(s, ids, b);
            && OneEach(ts)
            && forall t :: t in ts <==>
                 t.comboId in ids && EndsAction(s, t.comboId, b) && t == ReleaseOf(s.cands[t.comboId], b)
  {
    if ids != [] {
      var front, last := ids[..|ids| - 1], ids[|ids| - 1];
      ReleaseReports(s, front, b);
      assert ids == front + [last] && last !in front;
      if last in s.cands { EndedAction(s, last, b); }
    }
  }

  lemma EndedAction(s: State, id: Id, b: Binding)
    requires Inv(s) && id in s.cands
    ensures ReleaseTransition(s.cands[id], b) == if EndsAction(s, id, b) then [ReleaseOf(s.cands[id], b)] else []
    ensures s.cands[id].combo.id == id
  {
    assert CandOK(s.cands[id], s.held.Keys, s.counter);
  }

  /** A release ends exactly the actions that run and have the key down, each once. */
  lemma ReleaseEndsActions(s: State, b: Binding, now: real)
    requires Inv(s)
    ensures var ts := ReleaseEvent(s, b, now).d.transitions;
            && OneEach(ts)
            && forall t :: t in ts <==> EndsAction(s, t.comboId, b) && t == ReleaseOf(s.cands[t.comboId], b)
  {
    ReleaseReports(s, s.ids, b);
  }

  // ---- Whole events ----

  /** Late candidates are gone, and a key that goes down counts as held. */
  function Ready(s: State, b: Binding, now: real): State {
    var t := Expire(s, now);
    if IsPulse(b) then t else RecordHeld(t, b)
  }

  lemma ReadyPressable(s: State, b: Binding, now: real)
    requires Inv(s)
    ensures Pressable(Ready(s, b, now), b)
  {
    ExpireKeeps(s, now);
    RecordHeldKeeps(Expire(s, now), b);
  }

  /** An event that is a press does what the press does, apart from the word to start afresh. */
  lemma EventIsPress(s: State, b: Binding, now: real, pick: Pick)
    ensures var o, e := HandleEvent(s, b, 1, now, pick), PressEvent(Ready(s, b, now), b, now, pick);
            && o.d.(reset := e.d.reset) == e.d && o.s == Settle(e.s)
            && (o.d.reset <==> e.d.reset || (&& Expire(s, now).cands != map[] && e.s.cands == map[]
                                             && (AnyExpired(s, now) || e.d.consume || e.d.passthrough)))
  {
  }

  /** An event that is a release does what the release does, apart from the word to start afresh. */
  lemma EventIsRelease(s: State, b: Binding, now: real, pick: Pick)
    ensures var o, e := HandleEvent(s, b, 0, now, pick), ReleaseEvent(Expire(s, now), b, now);
            && o.d.(reset := e.d.reset) == e.d && o.s == Settle(RemoveHeld(e.s, b))
            && (o.d.reset <==> e.d.reset || (&& Expire(s, now).cands != map[] && e.s.cands == map[]
                                             && (AnyExpired(s, now) || e.d.consume || e.d.passthrough)))
  {
  }

  /** A press as a whole, whatever was late: consumed, passed on or left alone. */
  lemma EventPressIff(s: State, b: Binding, now: real, pick: Pick)
    requires Inv(s) && GoodPick(pick)
    ensures var t, d := Ready(s, b, now), HandleEvent(s, b, 1, now, pick).d;
            && (d.consume <==> IsTaken(t, b, pick))
            && (d.passthrough <==> !d.consume && Concerns(t, b))
            && (d.transitions != [] ==> d.consume && !d.passthrough)
  {
    var t := Ready(s, b, now);
    EventIsPress(s, b, now, pick);
    ReadyPressable(s, b, now);
    PressConsumedIff(t, b, now, pick);
    PressPassedIff(t, b, now, pick);
    if PressEvent(t, b, now, pick).d.transitions != [] { FiringConsumes(t, b, now, pick); }
  }

  /** A release as a whole, and the repeats of a held key, which never do more than let time pass. */
  lemma EventReleaseIff(s: State, b: Binding, value: int, now: real, pick: Pick)
    requires Inv(s) && (value == 0 || value == 2)
    ensures var t, d := Expire(s, now), HandleEvent(s, b, value, now, pick).d;
            && (d.consume <==> value == 0 && EndsStep(t, b))
            && (d.passthrough <==> value == 0 && !EndsStep(t, b) && Abandons(t, b))
            && d.recall == [] && (value == 2 ==> d.transitions == [])
  {
    ExpireKeeps(s, now);
    if value == 0 { ReleaseDecidesIff(Expire(s, now), b, now); }
  }

  /** The event leaves no candidate where there was one, and something came of it: a candidate was late,
      or the key was consumed or passed on. */
  ghost predicate Cleared(s: State, now: real, t: State, d: Decision) {
    Expire(s, now).cands != map[] && t.cands == map[] && (AnyExpired(s, now) || d.consume || d.passthrough)
  }

  /** There are candidates, and the key contradicts all of them. */
  ghost predicate AllContradicted(s: State, b: Binding) {
    s.cands != map[] && forall id | id in s.cands :: ScopedMismatch(s.cands[id], b)
  }

  /** The caller is told to start afresh exactly when the event cleared all candidates. A press that
      contradicts them all says so even if it then starts a combo. */
  lemma EventResetIff(s: State, b: Binding, value: int, now: real, pick: Pick)
    requires Inv(s) && GoodPick(pick) && 0 <= value <= 2
    ensures var t, o := Expire(s, now), HandleEvent(s, b, value, now, pick);
            o.d.reset <==> if value == 2 then AnyExpired(s, now) && t.cands == map[]
                           else Cleared(s, now, o.s, o.d) || (value == 1 && AllContradicted(t, b))
  {
    ExpireKeeps(s, now);
    if value == 0 {
      ResetOfRelease(s, b, now, pick);
    } else if value == 1 {
      ResetOfPress(s, b, now, pick);
    }
  }

  lemma ResetOfPress(s: State, b: Binding, now: real, pick: Pick)
    requires Inv(s) && GoodPick(pick)
    ensures var o := HandleEvent(s, b, 1, now, pick);
            o.d.reset <==> Cleared(s, now, o.s, o.d) || AllContradicted(Expire(s, now), b)
  {
    EventIsPress(s, b, now, pick);
    ReadyPressable(s, b, now);
    PressResetIff(Ready(s, b, now), b, now, pick);
  }

  lemma ResetOfRelease(s: State, b: Binding, now: real, pick: Pick)
    requires Inv(s) && Inv(Expire(s, now))
    ensures var o := HandleEvent(s, b, 0, now, pick); o.d.reset <==> Cleared(s, now, o.s, o.d)
  {
    var t := Expire(s, now);
    EventIsRelease(s, b, now, pick);
    ReleaseDecidesIff(t, b, now);
    SomethingReleased(t, b);
  }

  lemma SomethingReleased(s: State, b: Binding)
    ensures EndsStep(s, b) || Abandons(s, b) ==> s.cands != map[]
  {
    if id :| id in s.cands && b in s.cands[id].pressed { assert s.cands != map[]; }
  }

  lemma PressResetIff(s: State, b: Binding, now: real, pick: Pick)
    requires Pressable(s, b) && GoodPick(pick)
    ensures PressEvent(s, b, now, pick).d.reset <==> AllContradicted(s, b)
  {
    var t := Drop(s, MismatchIds(s, b));
    assert PressEvent(s, b, now, pick).d.reset <==> PressWaiting(s, b, now).d.reset;
    if AllContradicted(s, b) {
      NothingElse(s, b);
    } else if MatchingIds(s, b) == {} && RepeatedIds(s, b) == {} && MismatchIds(s, b) != {} {
      SomethingElse(s, b);
    }
  }

  lemma NothingElse(s: State, b: Binding)
    requires AllContradicted(s, b)
    ensures MatchingIds(s, b) == {} && RepeatedIds(s, b) == {} && MismatchIds(s, b) != {}
    ensures Drop(s, MismatchIds(s, b)).cands == map[]
  {
    var some :| some in s.cands;
    assert some in MismatchIds(s, b);
  }

  lemma SomethingElse(s: State, b: Binding)
    requires !AllContradicted(s, b) && MismatchIds(s, b) != {}
    ensures Drop(s, MismatchIds(s, b)).cands != map[]
  {
    var some :| some in MismatchIds(s, b);
    assert some in s.cands;
    var id :| id in s.cands && !ScopedMismatch(s.cands[id], b);
    assert id in Drop(s, MismatchIds(s, b)).cands;
  }

  /** How the held keys change: the key is added behind all others, taken away, or nothing changes. */
  ghost predicate HeldAfter(before: map<Binding, nat>, b: Binding, value: int, after: map<Binding, nat>) {
    && after.Keys == (if value == 1 && !IsPulse(b) then before.Keys + {b}
                      else if value == 0 then before.Keys - {b} else before.Keys)
    && (forall x | x in before && x in after :: after[x] == before[x])
    && (forall x | x in before && b !in before && b in after :: before[x] < after[b])
  }

  /** Keys that are held after an event: a press adds its key behind all others, a release removes it,
      and nothing else changes. */
  lemma EventHeld(s: State, b: Binding, value: int, now: real, pick: Pick)
    requires Inv(s) && GoodPick(pick) && 0 <= value <= 2
    ensures HeldAfter(s.held, b, value, HandleEvent(s, b, value, now, pick).s.held)
  {
    if value == 1 {
      PressHeld(s, b, now, pick);
    } else if value == 0 {
      EventIsRelease(s, b, now, pick);
      RemoveHeldAfter(s, b);
    }
  }

  lemma PressHeld(s: State, b: Binding, now: real, pick: Pick)
    requires Inv(s) && GoodPick(pick)
    ensures HeldAfter(s.held, b, 1, HandleEvent(s, b, 1, now, pick).s.held)
  {
    EventIsPress(s, b, now, pick);
    ReadyPressable(s, b, now);
    PressEventKeeps(Ready(s, b, now), b, now, pick);
    RecordHeldAfter(Expire(s, now), b);
  }

  /** Once no key is held and no combo is under way, the counting of presses starts over. */
  lemma CountsAnew(s: State, b: Binding, value: int, now: real, pick: Pick)
    requires 0 <= value <= 1
    ensures var t := HandleEvent(s, b, value, now, pick).s; t.cands == map[] && t.held == map[] ==> t.counter == 0
  {
  }

  lemma RemoveHeldAfter(s: State, b: Binding)
    ensures HeldAfter(s.held, b, 0, RemoveHeld(s, b).held)
  {
  }

  lemma RecordHeldAfter(s: State, b: Binding)
    requires HeldOK(s.held, s.counter)
    ensures HeldAfter(s.held, b, 1, if IsPulse(b) then s.held else RecordHeld(s, b).held)
  {
  }

  // ---- Timeouts, lost devices, reloads ----

  /** Exactly the candidates whose deadline has come are gone; the others are untouched. */
  lemma ExpireIff(s: State, now: real, id: Id)
    ensures Get(Expire(s, now), id)
         == if id in s.cands && s.cands[id].deadline.Some? && s.cands[id].deadline.value <= now then None
            else Get(s, id)
  {
  }

  /** The key belongs to the device, and to the source if one is named. */
  predicate OfDevice(b: Binding, hardwareId: string, source: Option<string>) {
    b.hardwareId == hardwareId && (source == None || source == Some(b.source))
  }

  ghost predicate Involves(c: Candidate, hardwareId: string, source: Option<string>) {
    exists b :: OfDevice(b, hardwareId, source) && (b in c.pressed || IsTracked(c, b) || c.finalBinding == Some(b))
  }

  lemma InvolvesIs(c: Candidate, hardwareId: string, source: Option<string>)
    ensures Involves(c, hardwareId, source) <==> TouchesScope(c, hardwareId, source)
  {
    if b :| b in c.pressed && InScope(b, hardwareId, source) { assert OfDevice(b, hardwareId, source); }
    if t :| t in c.tracked && InScope(t.binding, hardwareId, source) {
      assert OfDevice(t.binding, hardwareId, source) && IsTracked(c, t.binding);
    }
    if c.finalBinding.Some? && InScope(c.finalBinding.value, hardwareId, source) {
      assert OfDevice(c.finalBinding.value, hardwareId, source);
    }
  }

  /** When a device goes away, exactly the candidates that involve one of its keys are gone, and exactly
      its keys are not held any more; a device without an id is none. */
  lemma DropScopeIff(s: State, hardwareId: string, source: Option<string>, id: Id)
    ensures var t := DropScope(s, hardwareId, source);
            && Get(t, id) == (if hardwareId != "" && id in s.cands && Involves(s.cands[id], hardwareId, source)
                              then None else Get(s, id))
            && (forall b :: b in t.held <==> b in s.held && !(hardwareId != "" && OfDevice(b, hardwareId, source)))
            && (forall b | b in t.held :: t.held[b] == s.held[b])
    ensures id in DroppedActive(s, hardwareId, source)
            <==> hardwareId != "" && id in s.cands && s.cands[id].active && Involves(s.cands[id], hardwareId, source)
  {
    if id in s.cands { InvolvesIs(s.cands[id], hardwareId, source); }
  }

  /** A reload keeps exactly the candidates that are to be preserved and whose combo still exists, with
      the new combo in place of the old one; without such a list it forgets everything. */
  lemma ReloadIff(s: State, combos: seq<Combo>, preserve: Option<set<Id>>, id: Id)
    ensures var t := SetCombos(s, combos, preserve);
            && t.combos == combos
            && (if preserve.None? then t.cands == map[] && t.held == map[] && t.counter == 0
                else && t.held == s.held && t.counter == s.counter
                     && (id in t.cands <==>
                           id in s.cands && id in preserve.value && exists c | c in combos :: c.id == id)
                     && (id in t.cands && DistinctIds(combos) ==>
                           t.cands[id].combo in combos && t.cands[id].combo.id == id
                           && t.cands[id] == s.cands[id].(combo := t.cands[id].combo)))
  {
    ComboByIdFacts(combos, id);
  }

  /** The keys are held in the given order, behind those held already. */
  ghost predicate HeldInOrder(s: State, keys: seq<Binding>, t: State) {
    && HeldOK(t.held, t.counter) && t.counter >= s.counter && t.cands == s.cands && t.combos == s.combos
    && (forall b :: b in t.held <==> b in s.held || b in keys)
    && (forall b | b in s.held :: t.held[b] == s.held[b])
    && (forall i | 0 <= i < |keys| && keys[i] !in s.held :: keys[i] in t.held && t.held[keys[i]] > s.counter)
    && (forall i, j | 0 <= i < j < |keys| && keys[i] !in s.held && keys[j] !in s.held ::
          keys[i] in t.held && keys[j] in t.held && t.held[keys[i]] < t.held[keys[j]])
  }

  lemma RecordOne(t: State, last: Binding)
    requires HeldOK(t.held, t.counter)
    ensures var u := RecordHeld(t, last);
            && HeldOK(u.held, u.counter) && u.counter >= t.counter && u.cands == t.cands && u.combos == t.combos
            && u.held.Keys == t.held.Keys + {last}
            && (forall x | x in t.held :: u.held[x] == t.held[x] <= t.counter)
            && (last !in t.held ==> u.held[last] > t.counter)
  {
  }

  lemma HeldInOrderNext(s: State, front: seq<Binding>, t: State, last: Binding)
    requires HeldInOrder(s, front, t) && last !in front
    ensures HeldInOrder(s, front + [last], RecordHeld(t, last))
  {
    RecordOne(t, last);
    var u, keys := RecordHeld(t, last), front + [last];
    assert forall i | 0 <= i < |front| :: keys[i] == front[i] && front[i] in front;
    forall i, j | 0 <= i < j < |keys| && keys[i] !in s.held && keys[j] !in s.held
      ensures keys[i] in u.held && keys[j] in u.held && u.held[keys[i]] < u.held[keys[j]]
    {
      assert keys[i] == front[i] && front[i] in t.held && t.held[front[i]] > s.counter;
      if j < |front| {
        assert keys[j] == front[j] && t.held[front[i]] < t.held[front[j]];
      } else {
        assert keys[j] == last && (last in t.held ==> last in s.held);
      }
    }
  }

  /** Keys that are held from the start are held in the given order, behind those held already. */
  lemma {:induction false} PrimeHeldIff(s: State, keys: seq<Binding>)
    requires HeldOK(s.held, s.counter) && Distinct(keys)
    ensures HeldInOrder(s, keys, PrimeHeld(s, keys))
  {
    if keys != [] {
      var front, last := keys[..|keys| - 1], keys[|keys| - 1];
      PrimeHeldIff(s, front);
      assert keys == front + [last] && last !in front;
      HeldInOrderNext(s, front, PrimeHeld(s, front), last);
    }
  }

  /** A wheel notch alone starts a combo only if that combo is nothing but the notch. */
  lemma NotchAlone(s: State, b: Binding, pick: Pick, id: Id)
    requires DistinctIds(s.combos) && GoodPick(pick) && IsPulse(b) && s.held == map[] && Filled(s, id, b, pick)
    ensures var combo := ComboById(s.combos, id).value; |combo.steps| == 1 && |combo.steps[0].bindings| == 1
  {
    var combo := ComboById(s.combos, id).value;
    var given := FirstStepAssignment(combo, b, s.held.Keys, pick);
    assert forall h | h in Elements(given) :: h == b;
  }
}
