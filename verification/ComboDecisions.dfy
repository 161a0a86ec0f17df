/**
  What the recogniser tells the daemon to do with a key: consume it, pass it on, take earlier keys
  back, and run actions. Everything is said about the candidates before the event.
*/
module ComboDecisions {
  import opened Wrappers
  import opened ComboModel
  import opened ComboLaws
  import opened ComboFiring
  import opened ComboTiming

  // ---- The state before the event ----

  /** The key is on a device that the binding stands for; an empty id or source stands for any. */
  predicate OnDevice(e: Binding, b: Binding) { e.hardwareId in {"", b.hardwareId} && e.source in {"", b.source} }

  /** An awaited step can use a key that is not down if one of its bindings is that key on that device. The
      key contradicts the step if some of its bindings are on that device, and all of those are other keys. */
  lemma AwaitedKeys(c: Candidate, b: Binding)
    requires c.stepIndex < |c.combo.steps|
    ensures var awaited := c.combo.steps[c.stepIndex].bindings;
            && (Matching(c, b) <==>
                  && !c.releasing && b !in c.pressed
                  && exists e | e in awaited :: OnDevice(e, b) && e.token == b.token)
            && (ScopedMismatch(c, b) <==>
                  && !c.releasing && b !in c.pressed
                  && (exists e | e in awaited :: OnDevice(e, b))
                  && forall e | e in awaited && OnDevice(e, b) :: e.token != b.token)
            && (LacksOne(c) <==> |awaited| - |c.pressed| == 1)
  {
    var awaited := c.combo.steps[c.stepIndex].bindings;
    assert forall e | e in awaited :: BindingMatches(e, b) <==> OnDevice(e, b) && e.token == b.token;
    assert forall e | e in awaited :: BindingScopes(e, b) <==> OnDevice(e, b);
  }

  /** The key is the last one that the awaited step of this combo lacks. */
  ghost predicate Completes(s: State, id: Id, b: Binding) {
    id in s.cands && Matching(s.cands[id], b) && LacksOne(s.cands[id])
  }

  /** The key is one of several that the awaited step of this combo lacks. */
  ghost predicate Contributes(s: State, id: Id, b: Binding) {
    id in s.cands && Matching(s.cands[id], b) && !LacksOne(s.cands[id])
  }

  ghost predicate Helps(s: State, b: Binding) { exists id | id in s.cands :: Matching(s.cands[id], b) }

  /** The key is down already in an awaited step, and no awaited step can use it. */
  ghost predicate OnlyRepeats(s: State, b: Binding) {
    !Helps(s, b) && exists id | id in s.cands :: !s.cands[id].releasing && b in s.cands[id].pressed
  }

  /** The awaited step of this combo is within reach of the key but cannot use it. */
  ghost predicate Contradicted(s: State, id: Id, b: Binding) {
    id in s.cands && ScopedMismatch(s.cands[id], b) && !OnlyRepeats(s, b)
  }

  /** The combo has no candidate when the key comes to first steps: it had none, the key contradicted
      it, or it was a wheel notch that fired it. */
  ghost predicate Vacant(s: State, id: Id, b: Binding) {
    || id !in s.cands
    || Contradicted(s, id, b)
    || (Completes(s, id, b) && IsPulse(b) && IsLastStep(s.cands[id]))
  }

  /** The keys that are held fill the first step of this combo. */
  ghost predicate Filled(s: State, id: Id, b: Binding, pick: Pick) {
    && StartsWith(s.combos, id, b) && ComboById(s.combos, id).Some?
    && var combo := ComboById(s.combos, id).value;
       && MatchFirstStep(combo, b, s.held.Keys, pick).Some?
       && PulseCanComplete(combo, b, MatchFirstStep(combo, b, s.held.Keys, pick).value)
  }

  ghost predicate Starts(s: State, id: Id, b: Binding, pick: Pick) { Vacant(s, id, b) && Filled(s, id, b, pick) }

  /** The key is down in the candidate of a combo whose first step can use it, or is about to be. */
  ghost predicate TakesPart(s: State, id: Id, b: Binding) {
    && StartsWith(s.combos, id, b) && id in s.cands
    && (b in s.cands[id].pressed || (Matching(s.cands[id], b) && !IsPulse(b)))
  }

  /** The key completes an awaited step, or is down already and no awaited step can use it, or starts a
      combo, or is part of a candidate whose first step can use it. */
  ghost predicate IsTaken(s: State, b: Binding, pick: Pick) {
    || (exists id :: Completes(s, id, b)) || OnlyRepeats(s, b)
    || (exists id :: Starts(s, id, b, pick)) || (exists id :: TakesPart(s, id, b))
  }

  /** The key is of use to an awaited step, contradicts one, or occurs in some first step. */
  ghost predicate Concerns(s: State, b: Binding) {
    Helps(s, b) || (exists id :: Contradicted(s, id, b)) || exists id :: StartsWith(s.combos, id, b)
  }

  // ---- The waiting candidates ----

  lemma PressOneFlags(p: Progress, id: Id, b: Binding, now: real)
    requires id in p.s.cands
    ensures PressOne(p, id, b, now).hit <==> p.hit || LacksOne(p.s.cands[id])
    ensures PressOne(p, id, b, now).partial <==> p.partial || !LacksOne(p.s.cands[id])
  {
  }

  ghost predicate SomeLacks(s: State, ids: seq<Id>, lacks: bool) {
    exists x | x in ids && x in s.cands :: LacksOne(s.cands[x]) == lacks
  }

  lemma SomeLacksNext(s: State, front: seq<Id>, last: Id, lacks: bool)
    requires last in s.cands
    ensures SomeLacks(s, front + [last], lacks) <==> SomeLacks(s, front, lacks) || LacksOne(s.cands[last]) == lacks
  {
  }

  lemma {:induction false} PressAllFlags(s: State, ids: seq<Id>, b: Binding, now: real)
    requires Pressable(s, b) && Distinct(ids)
    requires forall x | x in ids :: x in s.cands && Matching(s.cands[x], b)
    ensures PressAll(s, ids, b, now).hit <==> SomeLacks(s, ids, true)
    ensures PressAll(s, ids, b, now).partial <==> SomeLacks(s, ids, false)
  {
    if ids != [] {
      var front, last := ids[..|ids| - 1], ids[|ids| - 1];
      PressAllFlags(s, front, b, now);
      PressAllKeeps(s, front, b, now);
      assert ids == front + [last] && last !in front;
      SomeLacksNext(s, front, last, true);
      SomeLacksNext(s, front, last, false);
      PressOneFlags(PressAll(s, front, b, now), last, b, now);
    }
  }

  // ---- What becomes of a waiting candidate ----

  /** A step is awaited, none of its keys is down, and the clock runs for the time that the step allows:
      its own, but at least a millisecond, or 600 milliseconds. */
  ghost predicate Awaits(c: Candidate, stepIndex: nat, now: real) {
    && c.stepIndex == stepIndex < |c.combo.steps| && !c.releasing && !c.active
    && c.pressed == {} && c.tracked == [] && c.finalBinding.None?
    && var ms := match c.combo.steps[stepIndex].timeoutMs case None => 600 case Some(ms) => Max(1, ms);
       c.deadline.Some? && (c.deadline.value - now) * 1000.0 == ms as real
  }

  /** The keys that are noted are those noted before and this one. */
  ghost predicate Notes(c: Candidate, b: Binding, d: Candidate) {
    forall x: Binding :: IsTracked(d, x) <==> IsTracked(c, x) || x == b
  }

  /** The key completes the step of `c`, which becomes `d`. */
  ghost predicate CompletesAs(c: Candidate, b: Binding, now: real, d: Candidate) {
    && d.combo == c.combo
    && if IsPulse(b) && c.pressed == {} && !IsLastStep(c) then Awaits(d, c.stepIndex + 1, now)
       else
         && d.stepIndex == c.stepIndex && d.releasing && d.deadline.None?
         && (d.active <==> c.stepIndex + 1 >= |c.combo.steps|)
         && d.finalBinding == (if d.active then Some(b) else None)
         && d.pressed == (if IsPulse(b) then c.pressed else c.pressed + {b})
         && Notes(c, b, d)
  }

  /** The key is one more of the step of `c`, which becomes `d`. */
  ghost predicate ContributesAs(c: Candidate, b: Binding, d: Candidate) {
    && d.combo == c.combo && d.stepIndex == c.stepIndex && !d.releasing && !d.active
    && d.deadline.None? && d.pressed == c.pressed + {b} && Notes(c, b, d)
  }

  /** What a candidate that can use the key becomes; None when a wheel notch has fired it. */
  ghost predicate PressedAs(c: Candidate, b: Binding, now: real, left: Option<Candidate>) {
    if LacksOne(c) then
      if IsPulse(b) && IsLastStep(c) then left.None? else left.Some? && CompletesAs(c, b, now, left.value)
    else left.Some? && if IsPulse(b) then left.value == c else ContributesAs(c, b, left.value)
  }

  function Get(s: State, id: Id): Option<Candidate> { if id in s.cands then Some(s.cands[id]) else None }

  lemma TrackNotes(c: Candidate, b: Binding, passed: bool, counter: nat)
    ensures var d := Track(c, b, passed, counter).0;
            && Notes(c, b, d) && d.combo == c.combo && d.stepIndex == c.stepIndex
            && d.releasing == c.releasing && d.active == c.active && d.finalBinding == c.finalBinding
            && (!IsTracked(c, b) ==>
                  d.pressed == (if IsPulse(b) then c.pressed else c.pressed + {b}) && d.deadline.None?)
            && (IsTracked(c, b) ==> d == c)
  {
    var d := Track(c, b, passed, counter).0;
    if !IsTracked(c, b) {
      var t := TrackedPress(b, counter + 1, passed, IsPulse(b));
      assert t in d.tracked;
      assert forall u | u in c.tracked :: u in d.tracked;
      assert forall u | u in d.tracked :: u in c.tracked || u == t;
    }
  }

  lemma CompleteSpec(c: Candidate, b: Binding, now: real, counter: nat)
    requires !(IsPulse(b) && IsLastStep(c)) && (IsTracked(c, b) && !IsPulse(b) ==> b in c.pressed)
    ensures CompletesAs(c, b, now, CompleteOne(c, b, now, counter).0)
  {
    TrackNotes(c, b, false, counter);
    var d := CompleteStep(c, b, IsLastStep(c), counter).0;
    assert d.tracked == Track(c, b, false, counter).0.tracked;
    assert Notes(c, b, d);
    assert d.pressed == if IsPulse(b) then c.pressed else c.pressed + {b};
  }

  lemma PressOneOutcome(p: Progress, id: Id, b: Binding, now: real)
    requires id in p.s.cands && p.s.cands[id].combo.id == id && Matching(p.s.cands[id], b) && Waiting(p.s.cands[id])
    ensures PressedAs(p.s.cands[id], b, now, Get(PressOne(p, id, b, now).s, id))
  {
    var c := p.s.cands[id];
    assert !IsTracked(c, b);
    if LacksOne(c) {
      if !(IsPulse(b) && IsLastStep(c)) { CompleteSpec(c, b, now, p.s.counter); }
    } else if !IsPulse(b) {
      TrackNotes(c, b, true, p.s.counter);
    }
  }

  lemma PressOneFrame(p: Progress, id: Id, b: Binding, now: real)
    requires id in p.s.cands && p.s.cands[id].combo.id == id
    ensures forall x: Id | x != id :: Get(PressOne(p, id, b, now).s, x) == Get(p.s, x)
  {
  }

  /** The turn of one candidate in the loop over the matching ones. */
  lemma {:induction false} TurnOf(s: State, ids: seq<Id>, b: Binding, now: real, x: Id) returns (p: Progress)
    requires Pressable(s, b) && Distinct(ids)
    requires forall y | y in ids :: y in s.cands && Matching(s.cands[y], b)
    ensures var t := PressAll(s, ids, b, now).s;
            if x in ids then Get(p.s, x) == Get(s, x) && Get(t, x) == Get(PressOne(p, x, b, now).s, x)
            else Get(t, x) == Get(s, x)
  {
    p := Progress(s, [], [], false, false);
    if ids != [] {
      var front, last := ids[..|ids| - 1], ids[|ids| - 1];
      assert ids == front + [last] && last !in front && last in ids;
      var before := PressAll(s, front, b, now);
      var _ := TurnOf(s, front, b, now, last);
      PressOneFrame(before, last, b, now);
      p := TurnOf(s, front, b, now, x);
      if x == last { p := before; }
    }
  }

  lemma PressAllOutcome(s: State, ids: seq<Id>, b: Binding, now: real, x: Id)
    requires Pressable(s, b) && Distinct(ids)
    requires forall y | y in ids :: y in s.cands && Matching(s.cands[y], b)
    ensures var t := PressAll(s, ids, b, now).s;
            if x in ids then PressedAs(s.cands[x], b, now, Get(t, x)) else Get(t, x) == Get(s, x)
  {
    var p := TurnOf(s, ids, b, now, x);
    if x in ids {
      assert CandOK(s.cands[x], s.held.Keys, s.counter);
      PressOneOutcome(p, x, b, now);
    }
  }

  lemma MatchingInOrder(s: State, b: Binding)
    requires Inv(s)
    ensures forall id :: id in InComboOrder(s.combos, MatchingIds(s, b)) <==> id in s.cands && Matching(s.cands[id], b)
  {
    InComboOrderFacts(s.combos, MatchingIds(s, b));
    forall id | id in s.cands && Matching(s.cands[id], b) ensures id in InComboOrder(s.combos, MatchingIds(s, b)) {
      assert s.cands[id].combo in s.combos && s.cands[id].combo.id in MatchingIds(s, b);
    }
  }

  /** What the waiting phase makes of every combo. */
  lemma WaitingOutcome(s: State, b: Binding, now: real, id: Id)
    requires Pressable(s, b)
    ensures var left := Get(PressWaiting(s, b, now).s, id);
            if id in s.cands && Matching(s.cands[id], b) then PressedAs(s.cands[id], b, now, left)
            else if Contradicted(s, id, b) then left.None?
            else left == Get(s, id)
  {
    if MatchingIds(s, b) != {} {
      WaitingWithMatch(s, b, now, id);
    } else {
      WaitingWithoutMatch(s, b, now, id);
    }
  }

  lemma WaitingWithMatch(s: State, b: Binding, now: real, id: Id)
    requires Pressable(s, b) && MatchingIds(s, b) != {}
    ensures var left := Get(PressWaiting(s, b, now).s, id);
            if id in s.cands && Matching(s.cands[id], b) then PressedAs(s.cands[id], b, now, left)
            else if Contradicted(s, id, b) then left.None?
            else left == Get(s, id)
  {
    var t := Drop(s, MismatchIds(s, b));
    MismatchDropKeeps(s, b);
    MatchingOrder(s, b);
    MatchingInOrder(s, b);
    PressAllOutcome(t, InComboOrder(s.combos, MatchingIds(s, b)), b, now, id);
    NotOnlyRepeats(s, b);
    MismatchGone(s, b, id);
  }

  lemma MismatchGone(s: State, b: Binding, id: Id)
    ensures Get(Drop(s, MismatchIds(s, b)), id)
         == if id in s.cands && ScopedMismatch(s.cands[id], b) then None else Get(s, id)
  {
  }

  lemma NotOnlyRepeats(s: State, b: Binding)
    ensures Helps(s, b) <==> MatchingIds(s, b) != {}
  {
    if id :| id in MatchingIds(s, b) { assert id in s.cands && Matching(s.cands[id], b); }
    if id :| id in s.cands && Matching(s.cands[id], b) { assert id in MatchingIds(s, b); }
  }

  lemma WaitingWithoutMatch(s: State, b: Binding, now: real, id: Id)
    requires MatchingIds(s, b) == {}
    ensures Get(PressWaiting(s, b, now).s, id) == if Contradicted(s, id, b) then None else Get(s, id)
    ensures !(id in s.cands && Matching(s.cands[id], b))
  {
    NotOnlyRepeats(s, b);
    if x :| x in RepeatedIds(s, b) { assert x in s.cands && Repeated(s.cands[x], b); }
    if x :| x in s.cands && Repeated(s.cands[x], b) { assert x in RepeatedIds(s, b); }
    assert id in s.cands && Matching(s.cands[id], b) ==> id in MatchingIds(s, b);
    if id in s.cands && ScopedMismatch(s.cands[id], b) { assert id in MismatchIds(s, b); }
  }

  lemma WaitingVacant(s: State, b: Binding, now: real, id: Id)
    requires Pressable(s, b)
    ensures id !in PressWaiting(s, b, now).s.cands <==> Vacant(s, id, b)
  {
    WaitingOutcome(s, b, now, id);
  }

  /** How the waiting phase judges the key. */
  lemma WaitingFlags(s: State, b: Binding, now: real)
    requires Pressable(s, b)
    ensures var d := PressWaiting(s, b, now).d;
            && (d.consume <==> (exists id :: Completes(s, id, b)) || OnlyRepeats(s, b))
            && (d.passthrough <==> !d.consume && (Helps(s, b) || exists id :: Contradicted(s, id, b)))
  {
    NotOnlyRepeats(s, b);
    if MatchingIds(s, b) != {} {
      FlagsOfMatches(s, b, now);
    } else {
      FlagsWithoutMatch(s, b, now);
    }
  }

  lemma FlagsOfMatches(s: State, b: Binding, now: real)
    requires Pressable(s, b) && MatchingIds(s, b) != {}
    ensures var d := PressWaiting(s, b, now).d;
            && (d.consume <==> exists id :: Completes(s, id, b)) && (d.passthrough <==> !d.consume)
  {
    var t := Drop(s, MismatchIds(s, b));
    var order := InComboOrder(s.combos, MatchingIds(s, b));
    MismatchDropKeeps(s, b);
    MatchingOrder(s, b);
    MatchingInOrder(s, b);
    PressAllFlags(t, order, b, now);
    SomeOfOrder(s, t, order, b);
  }

  lemma SomeOfOrder(s: State, t: State, order: seq<Id>, b: Binding)
    requires MatchingIds(s, b) != {} && forall id :: id in order <==> id in s.cands && Matching(s.cands[id], b)
    requires forall id | id in order :: id in t.cands && t.cands[id] == s.cands[id]
    ensures SomeLacks(t, order, true) <==> exists id :: Completes(s, id, b)
    ensures SomeLacks(t, order, true) || SomeLacks(t, order, false)
  {
    if id :| Completes(s, id, b) { assert id in order && id in t.cands; }
    if id :| id in order && id in t.cands && LacksOne(t.cands[id]) { assert Completes(s, id, b); }
    var some :| some in MatchingIds(s, b);
    assert some in order && some in t.cands;
  }

  lemma FlagsWithoutMatch(s: State, b: Binding, now: real)
    requires MatchingIds(s, b) == {}
    ensures var d := PressWaiting(s, b, now).d;
            && (forall id :: !Completes(s, id, b))
            && (d.consume <==> OnlyRepeats(s, b))
            && (d.passthrough <==> !d.consume && exists id :: Contradicted(s, id, b))
  {
    NotOnlyRepeats(s, b);
    forall id ensures !Completes(s, id, b) {
      assert id in s.cands && Matching(s.cands[id], b) ==> id in MatchingIds(s, b);
    }
    if x :| x in RepeatedIds(s, b) { assert x in s.cands && Repeated(s.cands[x], b); }
    if x :| x in s.cands && Repeated(s.cands[x], b) { assert x in RepeatedIds(s, b); }
    if x :| x in MismatchIds(s, b) { assert RepeatedIds(s, b) == {} ==> Contradicted(s, x, b); }
    if x :| Contradicted(s, x, b) { assert x in MismatchIds(s, b); }
  }

  // ---- First steps ----

  /** A candidate that is there already takes the key, or a new one starts. */
  ghost predicate Hits(s: State, id: Id, b: Binding, pick: Pick) {
    (id in s.cands && b in s.cands[id].pressed) || CanStartId(s, id, b, pick)
  }

  lemma StartedCombo(s: State, combo: Combo, keys: set<Binding>, b: Binding, now: real)
    ensures StartCandidate(s, combo, keys, b, now).0.combo == combo
  {
    TrackAllCombo(NewCandidate(combo), ByPressOrder(s, keys), b, s.counter);
  }

  lemma StartOneFrame(p: Progress, id: Id, b: Binding, now: real, pick: Pick)
    requires ComboById(p.s.combos, id).Some? ==> ComboById(p.s.combos, id).value.id == id
    ensures var q := StartOne(p, id, b, now, pick);
            && q.s.held == p.s.held && q.s.combos == p.s.combos
            && (forall x: Id | x != id :: Get(q.s, x) == Get(p.s, x))
            && (q.hit <==> p.hit || Hits(p.s, id, b, pick))
            && (id in p.s.cands ==> q.s == p.s)
  {
    if CanStartId(p.s, id, b, pick) {
      var combo := ComboById(p.s.combos, id).value;
      StartedCombo(p.s, combo, MatchFirstStep(combo, b, p.s.held.Keys, pick).value, b, now);
    }
  }

  lemma SomeHitsNext(s: State, front: seq<Id>, last: Id, b: Binding, pick: Pick)
    ensures (exists x | x in front + [last] :: Hits(s, x, b, pick))
            <==> (exists x | x in front :: Hits(s, x, b, pick)) || Hits(s, last, b, pick)
  {
    assert forall x | x in front :: x in front + [last];
    assert last in front + [last];
  }

  /** How far the loop over first steps has come: the combos that started are among these. */
  ghost predicate StartedSo(s: State, ids: seq<Id>, p: Progress, b: Binding, pick: Pick) {
    && p.s.held == s.held && p.s.combos == s.combos
    && (forall x: Id | x !in ids || x in s.cands :: Get(p.s, x) == Get(s, x))
    && (p.hit <==> exists x | x in ids :: Hits(s, x, b, pick))
  }

  lemma StartedNext(s: State, ids: seq<Id>, b: Binding, now: real, pick: Pick)
    requires DistinctIds(s.combos) && Distinct(ids) && ids != []
    requires var front := ids[..|ids| - 1]; StartedSo(s, front, StartAll(s, front, b, now, pick), b, pick)
    ensures StartedSo(s, ids, StartAll(s, ids, b, now, pick), b, pick)
  {
    var front, last := ids[..|ids| - 1], ids[|ids| - 1];
    assert ids == front + [last] && last !in front;
    var p := StartAll(s, front, b, now, pick);
    ComboByIdFacts(s.combos, last);
    StartOneFrame(p, last, b, now, pick);
    SomeHitsNext(s, front, last, b, pick);
    HitsSame(s, p.s, last, b, pick);
  }

  lemma HitsSame(s: State, t: State, id: Id, b: Binding, pick: Pick)
    requires s.held == t.held && s.combos == t.combos && Get(s, id) == Get(t, id)
    requires ComboById(s.combos, id).Some? ==> ComboById(s.combos, id).value.id == id
    ensures Hits(s, id, b, pick) <==> Hits(t, id, b, pick)
  {
  }

  lemma {:induction false} StartAllFlags(s: State, ids: seq<Id>, b: Binding, now: real, pick: Pick)
    requires DistinctIds(s.combos) && Distinct(ids)
    ensures StartedSo(s, ids, StartAll(s, ids, b, now, pick), b, pick)
  {
    if ids != [] {
      StartAllFlags(s, ids[..|ids| - 1], b, now, pick);
      StartedNext(s, ids, b, now, pick);
    }
  }

  lemma FirstStepsFlag(s: State, b: Binding, now: real, pick: Pick)
    requires Pressable(s, b) && GoodPick(pick)
    ensures var w := PressWaiting(s, b, now).s;
            PressFirstSteps(w, b, now, pick).d.consume
            <==> exists id :: StartsWith(s.combos, id, b) && Hits(w, id, b, pick)
    ensures !PressFirstSteps(PressWaiting(s, b, now).s, b, now, pick).d.passthrough
  {
    PressWaitingKeeps(s, b, now);
    FirstStepIdsAreScan(s.combos, b);
    StartAllFlags(PressWaiting(s, b, now).s, FirstStepIds(s.combos, b), b, now, pick);
  }

  /** What the waiting phase leaves to the first steps, in terms of the state before. */
  lemma HitsBefore(s: State, b: Binding, now: real, pick: Pick, id: Id)
    requires Pressable(s, b) && StartsWith(s.combos, id, b)
    ensures var w := PressWaiting(s, b, now);
            && (CanStartId(w.s, id, b, pick) <==> Starts(s, id, b, pick))
            && (!w.d.consume && id in w.s.cands ==> (b in w.s.cands[id].pressed <==> TakesPart(s, id, b)))
            && (TakesPart(s, id, b) ==> w.d.consume || (id in w.s.cands && b in w.s.cands[id].pressed))
  {
    var w := PressWaiting(s, b, now);
    PressWaitingKeeps(s, b, now);
    WaitingVacant(s, b, now, id);
    WaitingOutcome(s, b, now, id);
    WaitingFlags(s, b, now);
    ComboByIdFacts(s.combos, id);
    if id in s.cands && !w.d.consume { assert !Completes(s, id, b); }
  }

  // ---- Is the key consumed? ----

  /** A key press is consumed if and only if some combo takes it. */
  lemma PressConsumedIff(s: State, b: Binding, now: real, pick: Pick)
    requires Pressable(s, b) && GoodPick(pick)
    ensures PressEvent(s, b, now, pick).d.consume <==> IsTaken(s, b, pick)
  {
    var w := PressWaiting(s, b, now);
    WaitingFlags(s, b, now);
    FirstStepsFlag(s, b, now, pick);
    forall id | StartsWith(s.combos, id, b) { HitsBefore(s, b, now, pick, id); }
    if id :| Starts(s, id, b, pick) { assert Hits(w.s, id, b, pick); }
    if id :| TakesPart(s, id, b) { assert w.d.consume || Hits(w.s, id, b, pick); }
    if id :| StartsWith(s.combos, id, b) && Hits(w.s, id, b, pick) && !w.d.consume {
      assert Starts(s, id, b, pick) || TakesPart(s, id, b);
    }
  }

  /** A key press that is not consumed is passed on as part of a combo if and only if it concerns one. */
  lemma PressPassedIff(s: State, b: Binding, now: real, pick: Pick)
    requires Pressable(s, b) && GoodPick(pick)
    ensures PressEvent(s, b, now, pick).d.passthrough <==> !PressEvent(s, b, now, pick).d.consume && Concerns(s, b)
  {
    WaitingFlags(s, b, now);
    FirstStepsFlag(s, b, now, pick);
    FirstStepIdsAreScan(s.combos, b);
    var ids := FirstStepIds(s.combos, b);
    if ids != [] { assert ids[0] in ids; }
  }

  lemma FiresMeans(s: State, b: Binding, pick: Pick, id: Id)
    requires || (id in s.cands && Matching(s.cands[id], b) && LastKey(s, id))
             || (StartsWith(s.combos, id, b) && StartsAndFires(s, id, b, pick))
    ensures Completes(s, id, b) || Starts(s, id, b, pick)
  {
    ComboByIdFacts(s.combos, id);
  }

  /** A key that fires an action is consumed. */
  lemma FiringConsumes(s: State, b: Binding, now: real, pick: Pick)
    requires Pressable(s, b) && GoodPick(pick)
    requires PressEvent(s, b, now, pick).d.transitions != []
    ensures PressEvent(s, b, now, pick).d.consume && !PressEvent(s, b, now, pick).d.passthrough
  {
    var ts := PressEvent(s, b, now, pick).d.transitions;
    var id := ts[0].comboId;
    assert Emits(ts, id);
    PressFiresIff(s, b, now, pick, id);
    FiresMeans(s, b, pick, id);
    PressConsumedIff(s, b, now, pick);
    PressPassedIff(s, b, now, pick);
  }
}
