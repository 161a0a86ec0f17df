/**
  What every run of the combo recogniser keeps: the shape of its candidates, and the grammar of
  the transitions it emits for each combo.
*/
module ComboLaws {
  import opened Wrappers
  import opened ComboModel

  // ---- The invariant ----

  /** A step has been completed and its keys are being released. */
  ghost predicate Completing(c: Candidate) {
    c.releasing && c.pressed != {} && c.deadline.None? && (c.active ==> IsLastStep(c))
  }

  /** A step after the first one is awaited; the clock runs exactly while none of its keys is down.
      The keys of it that are down were passed on when they were pressed. */
  ghost predicate Waiting(c: Candidate) {
    && !c.releasing && !c.active && c.stepIndex >= 1
    && (c.deadline.Some? <==> c.pressed == {})
    && c.finalBinding.None?
    && (forall t | t in c.tracked :: t.binding in c.pressed && t.passedThrough)
    && (forall b | b in c.pressed :: IsTracked(c, b))
  }

  ghost predicate TrackedInOrder(tracked: seq<TrackedPress>, counter: nat) {
    && (forall t | t in tracked :: t.order <= counter && t.isPulse == IsPulse(t.binding))
    && (forall i, j | 0 <= i < j < |tracked| ::
          tracked[i].order < tracked[j].order && tracked[i].binding != tracked[j].binding)
  }

  ghost predicate PressedOK(c: Candidate, held: set<Binding>) {
    forall b | b in c.pressed :: b in held && !IsPulse(b) && StepMatches(CurrentStep(c), b)
  }

  ghost predicate CandOK(c: Candidate, held: set<Binding>, counter: nat) {
    && c.stepIndex < |c.combo.steps|
    && PressedOK(c, held)
    && TrackedInOrder(c.tracked, counter)
    && (Completing(c) || Waiting(c))
  }

  ghost predicate DistinctIds(combos: seq<Combo>) {
    forall i, j | 0 <= i < j < |combos| :: combos[i].id != combos[j].id
  }

  ghost predicate Distinct<T>(xs: seq<T>) {
    forall i, j | 0 <= i < j < |xs| :: xs[i] != xs[j]
  }

  ghost predicate Orders(ids: seq<Id>, keys: set<Id>) {
    Distinct(ids) && forall id :: id in ids <==> id in keys
  }

  ghost predicate HeldOK(held: map<Binding, nat>, counter: nat) {
    && (forall b | b in held :: held[b] <= counter)
    && (forall a, b | a in held && b in held && a != b :: held[a] != held[b])
  }

  ghost predicate Inv(s: State) {
    && DistinctIds(s.combos)
    && Orders(s.ids, s.cands.Keys)
    && HeldOK(s.held, s.counter)
    && (forall id | id in s.cands ::
          && s.cands[id].combo.id == id && s.cands[id].combo in s.combos
          && CandOK(s.cands[id], s.held.Keys, s.counter))
  }

  // ---- The grammar of transitions: (press release | pulse)* for every combo ----

  datatype Phase = Closed | Open | Broken

  function PhaseOf(s: State, id: Id): Phase {
    if id in s.cands && s.cands[id].active then Open else Closed
  }

  function NextPhase(phase: Phase, kind: Kind): Phase {
    match (phase, kind)
    case (Closed, Press) => Open
    case (Open, Release) => Closed
    case (Closed, Pulse) => Closed
    case _ => Broken
  }

  function PhaseAfter(phase: Phase, ts: seq<Transition>, id: Id): Phase {
    if ts == [] then phase
    else
      var before := PhaseAfter(phase, ts[..|ts| - 1], id);
      if ts[|ts| - 1].comboId == id then NextPhase(before, ts[|ts| - 1].kind) else before
  }

  lemma {:induction false} PhaseConcat(phase: Phase, ts: seq<Transition>, us: seq<Transition>, id: Id)
    ensures PhaseAfter(phase, ts + us, id) == PhaseAfter(PhaseAfter(phase, ts, id), us, id)
    decreases |us|
  {
    if us == [] {
      assert ts + us == ts;
    } else {
      PhaseConcat(phase, ts, us[..|us| - 1], id);
      assert (ts + us)[..|ts + us| - 1] == ts + us[..|us| - 1];
    }
  }

  lemma PhaseOne(phase: Phase, t: Transition, id: Id)
    ensures PhaseAfter(phase, [t], id) == if t.comboId == id then NextPhase(phase, t.kind) else phase
  {
    assert [t][..0] == [];
    assert PhaseAfter(phase, [t][..0], id) == phase;
  }

  /** The state change and the emitted transitions fit together. */
  ghost predicate Accounted(s: State, ts: seq<Transition>, s': State) {
    forall id: Id :: PhaseAfter(PhaseOf(s, id), ts, id) == PhaseOf(s', id)
  }

  lemma AccountedTrans(s: State, ts: seq<Transition>, s': State, us: seq<Transition>, s'': State)
    requires Accounted(s, ts, s') && Accounted(s', us, s'')
    ensures Accounted(s, ts + us, s'')
  {
    forall id: Id ensures PhaseAfter(PhaseOf(s, id), ts + us, id) == PhaseOf(s'', id) {
      PhaseConcat(PhaseOf(s, id), ts, us, id);
    }
  }

  lemma AccountedAfterSilence(s: State, s': State, ts: seq<Transition>, t: State)
    requires Accounted(s, [], s') && Accounted(s', ts, t)
    ensures Accounted(s, ts, t)
  {
    AccountedTrans(s, [], s', ts, t);
    assert [] + ts == ts;
  }

  // ---- The candidate dictionary ----

  lemma {:induction false} RestrictOrders(ids: seq<Id>, keep: set<Id>)
    ensures forall id :: id in Restrict(ids, keep) <==> id in ids && id in keep
    ensures Distinct(ids) ==> Distinct(Restrict(ids, keep))
  {
    if ids != [] {
      RestrictOrders(ids[..|ids| - 1], keep);
      assert ids == ids[..|ids| - 1] + [ids[|ids| - 1]];
    }
  }

  lemma {:induction false} RestrictAll(ids: seq<Id>, keys: set<Id>)
    requires forall id | id in ids :: id in keys
    ensures Restrict(ids, keys) == ids
  {
    if ids != [] {
      RestrictAll(ids[..|ids| - 1], keys);
      assert ids == ids[..|ids| - 1] + [ids[|ids| - 1]];
    }
  }

  lemma NothingExpired(s: State, now: real)
    requires !AnyExpired(s, now) && Orders(s.ids, s.cands.Keys)
    ensures Expire(s, now) == s
  {
    assert (map id | id in s.cands && !Expired(s.cands[id], now) :: s.cands[id]) == s.cands;
    RestrictAll(s.ids, s.cands.Keys);
  }

  lemma WithCandsKeepsInv(s: State, cands: map<Id, Candidate>)
    requires Inv(s) && cands.Keys <= s.cands.Keys
    requires forall id | id in cands ::
               && cands[id].combo.id == id && cands[id].combo in s.combos
               && CandOK(cands[id], s.held.Keys, s.counter)
    ensures Inv(WithCands(s, cands))
  {
    RestrictOrders(s.ids, cands.Keys);
  }

  /** Removing candidates that have no open press needs no transition. */
  lemma DropKeeps(s: State, cands: map<Id, Candidate>)
    requires Inv(s) && cands.Keys <= s.cands.Keys
    requires forall id | id in cands :: cands[id] == s.cands[id]
    requires forall id | id in s.cands && id !in cands :: !s.cands[id].active
    ensures Inv(WithCands(s, cands)) && Accounted(s, [], WithCands(s, cands))
  {
    WithCandsKeepsInv(s, cands);
  }

  lemma PulseStoreKeeps(s: State, c: Candidate, b: Binding, counter: nat)
    requires Inv(s) && counter >= s.counter && PhaseOf(s, c.combo.id) == Closed
    requires c.active && IsPulse(b)
    ensures Inv(Store(s, c, b, counter)) && Accounted(s, Fire(c, b), Store(s, c, b, counter))
  {
    var s' := s.(counter := counter);
    assert Inv(s');
    var t := Store(s, c, b, counter);
    WithCandsKeepsInv(s', t.cands);
    forall id: Id ensures PhaseAfter(PhaseOf(s, id), Fire(c, b), id) == PhaseOf(t, id) {
      PhaseOne(PhaseOf(s, id), Fire(c, b)[0], id);
    }
  }

  lemma StoreInv(s: State, c: Candidate, b: Binding, counter: nat)
    requires Inv(s) && counter >= s.counter && c.combo in s.combos && !(c.active && IsPulse(b))
    requires CandOK(c, s.held.Keys, counter)
    ensures Inv(Store(s, c, b, counter))
  {
    var t := Store(s, c, b, counter);
    assert Orders(t.ids, t.cands.Keys);
  }

  lemma StoreAccounted(s: State, c: Candidate, b: Binding, counter: nat)
    requires PhaseOf(s, c.combo.id) == Closed && !(c.active && IsPulse(b))
    ensures Accounted(s, Fire(c, b), Store(s, c, b, counter))
  {
    var t := Store(s, c, b, counter);
    forall id: Id ensures PhaseAfter(PhaseOf(s, id), Fire(c, b), id) == PhaseOf(t, id) {
      if c.active { PhaseOne(PhaseOf(s, id), Fire(c, b)[0], id); }
    }
  }

  lemma StoreKeeps(s: State, c: Candidate, b: Binding, counter: nat)
    requires Inv(s) && counter >= s.counter && c.combo in s.combos
    requires PhaseOf(s, c.combo.id) == Closed
    requires (c.active && IsPulse(b)) || CandOK(c, s.held.Keys, counter)
    ensures Inv(Store(s, c, b, counter)) && Accounted(s, Fire(c, b), Store(s, c, b, counter))
  {
    if c.active && IsPulse(b) {
      PulseStoreKeeps(s, c, b, counter);
    } else {
      StoreInv(s, c, b, counter);
      StoreAccounted(s, c, b, counter);
    }
  }

  // ---- One candidate ----

  lemma TrackFacts(c: Candidate, b: Binding, passed: bool, counter: nat)
    requires TrackedInOrder(c.tracked, counter)
    ensures var (c', counter') := Track(c, b, passed, counter);
            TrackedInOrder(c'.tracked, counter') && counter' >= counter
  {
  }

  lemma AdvanceOK(c: Candidate, now: real, held: set<Binding>, counter: nat)
    requires c.stepIndex < |c.combo.steps| && PressedOK(c, held) && TrackedInOrder(c.tracked, counter)
    requires c.releasing && c.deadline.None? && (c.active ==> IsLastStep(c) && c.pressed != {})
    requires IsLastStep(c) ==> c.active
    ensures CandOK(AdvancePulse(c, now), held, counter)
  {
  }

  /** Completing a step leaves a well-shaped candidate, or a pulse that has fired. */
  lemma CompleteOK(c: Candidate, b: Binding, now: real, held: set<Binding>, counter: nat)
    requires c.stepIndex < |c.combo.steps| && PressedOK(c, held) && TrackedInOrder(c.tracked, counter)
    requires IsPulse(b) || b in held
    requires StepMatches(CurrentStep(c), b)
    ensures var (c', counter') := CompleteOne(c, b, now, counter);
            && counter' >= counter && c'.combo == c.combo
            && ((c'.active && IsPulse(b)) || CandOK(c', held, counter'))
  {
    TrackFacts(c, b, false, counter);
    var (c1, counter') := CompleteStep(c, b, IsLastStep(c), counter);
    if !(c1.active && IsPulse(b)) {
      AdvanceOK(c1, now, held, counter');
    }
  }

  lemma PartialOK(c: Candidate, b: Binding, held: set<Binding>, counter: nat)
    requires CandOK(c, held, counter) && Matching(c, b)
    requires !IsPulse(b) && b in held
    ensures var (c', counter') := Track(c, b, true, counter);
            counter' >= counter && c'.combo == c.combo && !c'.active && CandOK(c', held, counter')
  {
    TrackFacts(c, b, true, counter);
  }

  // ---- Pressing a key while candidates wait ----

  lemma {:induction false} InComboOrderFacts(combos: seq<Combo>, ids: set<Id>)
    ensures forall id | id in InComboOrder(combos, ids) :: id in ids && exists c | c in combos :: c.id == id
    ensures forall c | c in combos && c.id in ids :: c.id in InComboOrder(combos, ids)
    ensures DistinctIds(combos) ==> Distinct(InComboOrder(combos, ids))
  {
    if combos != [] {
      InComboOrderFacts(combos[..|combos| - 1], ids);
      assert combos == combos[..|combos| - 1] + [combos[|combos| - 1]];
    }
  }

  ghost predicate Pressable(s: State, b: Binding) {
    Inv(s) && (IsPulse(b) || b in s.held)
  }

  /** `t` differs from `s` at one combo at most, and the difference shows in the transitions. */
  ghost predicate StepsTo(s: State, id: Id, ts: seq<Transition>, t: State) {
    && Inv(t) && t.held == s.held && t.combos == s.combos && Accounted(s, ts, t)
    && (forall x: Id | x != id :: x in t.cands <==> x in s.cands)
    && (forall x: Id | x != id && x in s.cands :: t.cands[x] == s.cands[x])
  }

  lemma StoreSteps(s: State, c: Candidate, b: Binding, counter: nat)
    requires Inv(s) && counter >= s.counter && c.combo in s.combos
    requires PhaseOf(s, c.combo.id) == Closed
    requires (c.active && IsPulse(b)) || CandOK(c, s.held.Keys, counter)
    ensures StepsTo(s, c.combo.id, Fire(c, b), Store(s, c, b, counter))
  {
    StoreKeeps(s, c, b, counter);
  }

  lemma CandLater(c: Candidate, held: set<Binding>, counter: nat, later: nat)
    requires CandOK(c, held, counter) && counter <= later
    ensures CandOK(c, held, later)
  {
  }

  lemma ReplaceInv(s: State, id: Id, c: Candidate, counter: nat)
    requires Inv(s) && id in s.cands && counter >= s.counter && c.combo == s.cands[id].combo
    requires CandOK(c, s.held.Keys, counter)
    ensures Inv(s.(cands := s.cands[id := c], counter := counter))
  {
    var t := s.(cands := s.cands[id := c], counter := counter);
    assert t.cands.Keys == s.cands.Keys;
    forall x | x in s.cands && x != id ensures CandOK(t.cands[x], s.held.Keys, counter) {
      CandLater(s.cands[x], s.held.Keys, s.counter, counter);
    }
  }

  lemma ReplaceSteps(s: State, id: Id, c: Candidate, counter: nat)
    requires Inv(s) && id in s.cands && counter >= s.counter && c.combo == s.cands[id].combo
    requires !s.cands[id].active && !c.active && CandOK(c, s.held.Keys, counter)
    ensures StepsTo(s, id, [], s.(cands := s.cands[id := c], counter := counter))
  {
    ReplaceInv(s, id, c, counter);
  }

  lemma PartialSteps(s: State, id: Id, b: Binding)
    requires Pressable(s, b) && !IsPulse(b) && id in s.cands && Matching(s.cands[id], b)
    ensures var (c', counter') := Track(s.cands[id], b, true, s.counter);
            StepsTo(s, id, [], s.(cands := s.cands[id := c'], counter := counter'))
  {
    PartialOK(s.cands[id], b, s.held.Keys, s.counter);
    var (c', counter') := Track(s.cands[id], b, true, s.counter);
    ReplaceSteps(s, id, c', counter');
  }

  lemma PressOneSteps(p: Progress, id: Id, b: Binding, now: real) returns (ts: seq<Transition>)
    requires Pressable(p.s, b) && id in p.s.cands && Matching(p.s.cands[id], b)
    ensures var q := PressOne(p, id, b, now);
            q.transitions == p.transitions + ts && StepsTo(p.s, id, ts, q.s)
            && (id in q.s.cands ==> id in p.s.cands)
  {
    var c := p.s.cands[id];
    if LacksOne(c) {
      CompleteOK(c, b, now, p.s.held.Keys, p.s.counter);
      var (c', counter') := CompleteOne(c, b, now, p.s.counter);
      StoreSteps(p.s, c', b, counter');
      ts := Fire(c', b);
    } else {
      ts := [];
      if !IsPulse(b) { PartialSteps(p.s, id, b); }
    }
  }

  lemma {:induction false} PressAllKeeps(s: State, ids: seq<Id>, b: Binding, now: real)
    requires Pressable(s, b) && Distinct(ids)
    requires forall id | id in ids :: id in s.cands && Matching(s.cands[id], b)
    ensures var p := PressAll(s, ids, b, now);
            && Pressable(p.s, b) && p.s.held == s.held && p.s.combos == s.combos
            && p.s.cands.Keys <= s.cands.Keys
            && (forall x: Id | x in s.cands && x !in ids :: x in p.s.cands && p.s.cands[x] == s.cands[x])
            && Accounted(s, p.transitions, p.s)
  {
    if ids != [] {
      var front, last := ids[..|ids| - 1], ids[|ids| - 1];
      PressAllKeeps(s, front, b, now);
      var p := PressAll(s, front, b, now);
      assert last !in front;
      var ts := PressOneSteps(p, last, b, now);
      var q := PressOne(p, last, b, now);
      AccountedTrans(s, p.transitions, p.s, ts, q.s);
    }
  }

  lemma MismatchDropKeeps(s: State, b: Binding)
    requires Inv(s)
    ensures var s' := Drop(s, MismatchIds(s, b));
            && Inv(s') && Accounted(s, [], s')
            && forall id | id in MatchingIds(s, b) :: id in s'.cands && Matching(s'.cands[id], b)
  {
    DropKeeps(s, map id | id in s.cands && id !in MismatchIds(s, b) :: s.cands[id]);
  }

  /** The matching candidates, in combo order, are ready to be advanced one by one. */
  lemma MatchingOrder(s: State, b: Binding)
    requires Inv(s)
    ensures var s' := Drop(s, MismatchIds(s, b));
            var order := InComboOrder(s.combos, MatchingIds(s, b));
            Distinct(order) && forall id | id in order :: id in s'.cands && Matching(s'.cands[id], b)
  {
    InComboOrderFacts(s.combos, MatchingIds(s, b));
    MismatchDropKeeps(s, b);
  }

  /** `t` comes from `s` by advancing or removing candidates, and `ts` says what fired. */
  ghost predicate Advances(s: State, ts: seq<Transition>, t: State) {
    && Inv(t) && t.held == s.held && t.combos == s.combos
    && t.cands.Keys <= s.cands.Keys && Accounted(s, ts, t)
  }

  lemma PressMatchingAdvances(s: State, b: Binding, now: real)
    requires Pressable(s, b)
    ensures var p := PressAll(Drop(s, MismatchIds(s, b)), InComboOrder(s.combos, MatchingIds(s, b)), b, now);
            Advances(s, p.transitions, p.s)
  {
    var s' := Drop(s, MismatchIds(s, b));
    var order := InComboOrder(s.combos, MatchingIds(s, b));
    MismatchDropKeeps(s, b);
    MatchingOrder(s, b);
    PressAllKeeps(s', order, b, now);
    var p := PressAll(s', order, b, now);
    AccountedAfterSilence(s, s', p.transitions, p.s);
  }

  lemma DropAdvances(s: State, b: Binding)
    requires Inv(s)
    ensures Advances(s, [], Drop(s, MismatchIds(s, b))) && Advances(s, [], s)
  {
    MismatchDropKeeps(s, b);
  }

  lemma PressWaitingKeeps(s: State, b: Binding, now: real)
    requires Pressable(s, b)
    ensures var o := PressWaiting(s, b, now); Advances(s, o.d.transitions, o.s)
  {
    if MatchingIds(s, b) != {} {
      PressMatchingAdvances(s, b, now);
    } else {
      DropAdvances(s, b);
      PressNothing(s, b, now);
    }
  }

  lemma PressNothing(s: State, b: Binding, now: real)
    requires MatchingIds(s, b) == {}
    ensures var o := PressWaiting(s, b, now);
            o.d.transitions == [] && (o.s == s || o.s == Drop(s, MismatchIds(s, b)))
  {
  }

  // ---- Starting new candidates ----

  /** An assignment of a different key to every expected binding. */
  ghost predicate Assigns(keys: seq<Binding>, bindings: seq<Binding>) {
    && |keys| == |bindings| && Distinct(keys)
    && forall i | 0 <= i < |keys| :: BindingMatches(bindings[i], keys[i])
  }

  ghost function Elements<T>(xs: seq<T>): set<T> { set x | x in xs }

  lemma {:induction false} MatchStepAssigns(done: seq<Binding>, keys: seq<Binding>, rest: seq<Binding>, b: Binding,
                                            held: set<Binding>, pick: Pick, used: bool)
    returns (all: seq<Binding>)
    requires GoodPick(pick) && Assigns(keys, done)
    requires forall k | k in keys :: k in held || (used && k == b)
    requires !used ==> b !in keys && forall e | e in done :: !BindingMatches(e, b)
    requires used ==> b in keys
    requires MatchStep(rest, b, held, pick, Elements(keys), used).Some?
    ensures Assigns(all, done + rest) && Elements(all) == MatchStep(rest, b, held, pick, Elements(keys), used).value
    ensures keys <= all
    ensures forall k | k in all :: k in held || k == b
    ensures used || (exists e | e in rest :: BindingMatches(e, b)) ==> b in all
    decreases |rest|
  {
    if rest == [] {
      all := keys;
      assert done + rest == done;
    } else {
      var takesCurrent := !used && BindingMatches(rest[0], b);
      var free := MatchingHeld(held, rest[0]) - Elements(keys);
      var k := if takesCurrent then b else pick(rest[0], free);
      assert takesCurrent || k in free;
      assert Elements(keys + [k]) == Elements(keys) + {k};
      all := MatchStepAssigns(done + [rest[0]], keys + [k], rest[1..], b, held, pick, used || takesCurrent);
      assert done + [rest[0]] + rest[1..] == done + rest;
    }
  }

  /** A first step is only ever matched by giving every binding its own key: the key just pressed
      for one of them, and keys that are held for the others. */
  lemma FirstStepAssignment(combo: Combo, b: Binding, held: set<Binding>, pick: Pick)
    returns (keys: seq<Binding>)
    requires GoodPick(pick)
    requires MatchFirstStep(combo, b, held, pick).Some?
    ensures Assigns(keys, FirstBindings(combo))
    ensures Elements(keys) == MatchFirstStep(combo, b, held, pick).value
    ensures forall k | k in keys :: k in held || k == b
    ensures (exists e | e in FirstBindings(combo) :: BindingMatches(e, b)) ==> b in keys
  {
    assert Elements<Binding>([]) == {};
    keys := MatchStepAssigns([], [], FirstBindings(combo), b, held, pick, false);
    assert [] + FirstBindings(combo) == FirstBindings(combo);
  }

  lemma {:induction false} TrackAllFacts(c: Candidate, keys: seq<Binding>, b: Binding, counter: nat)
    requires TrackedInOrder(c.tracked, counter)
    ensures var (c', counter') := TrackAll(c, keys, b, counter);
            && TrackedInOrder(c'.tracked, counter') && counter' >= counter
            && c'.combo == c.combo && c'.stepIndex == c.stepIndex
            && (forall k | k in c'.pressed :: k in c.pressed || (k in keys && !IsPulse(k)))
  {
    if keys != [] {
      var front, last := keys[..|keys| - 1], keys[|keys| - 1];
      TrackAllFacts(c, front, b, counter);
      var (c1, counter1) := TrackAll(c, front, b, counter);
      TrackFacts(c1, last, last != b, counter1);
    }
  }

  lemma StartOK(s: State, combo: Combo, b: Binding, now: real, pick: Pick)
    requires Pressable(s, b) && GoodPick(pick) && CanStart(s, combo, b, pick)
    requires combo in s.combos && exists e | e in FirstBindings(combo) :: BindingMatches(e, b)
    ensures var keys := MatchFirstStep(combo, b, s.held.Keys, pick).value;
            var (c, counter) := StartCandidate(s, combo, keys, b, now);
            && counter >= s.counter && c.combo == combo
            && ((c.active && IsPulse(b)) || CandOK(c, s.held.Keys, counter))
  {
    var keys := MatchFirstStep(combo, b, s.held.Keys, pick).value;
    var given := FirstStepAssignment(combo, b, s.held.Keys, pick);
    var c0 := NewCandidate(combo);
    TrackAllFacts(c0, ByPressOrder(s, keys), b, s.counter);
    var (c1, counter1) := TrackAll(c0, ByPressOrder(s, keys), b, s.counter);
    forall k | k in keys ensures StepMatches(combo.steps[0], k) {
      var i :| 0 <= i < |given| && given[i] == k;
      assert BindingMatches(FirstBindings(combo)[i], k);
    }
    assert PressedOK(c1, s.held.Keys);
    CompleteOK(c1, b, now, s.held.Keys, counter1);
  }

  lemma {:induction false} ComboByIdFacts(combos: seq<Combo>, id: Id)
    ensures match ComboById(combos, id)
            case None => forall c | c in combos :: c.id != id
            case Some(c) => c in combos && c.id == id
    ensures DistinctIds(combos) ==> forall c | c in combos && c.id == id :: ComboById(combos, id) == Some(c)
  {
    if combos != [] {
      ComboByIdFacts(combos[..|combos| - 1], id);
      assert combos == combos[..|combos| - 1] + [combos[|combos| - 1]];
    }
  }

  /** The combo with this id has a first-step binding that matches the key. */
  ghost predicate StartsWith(combos: seq<Combo>, id: Id, b: Binding) {
    exists c | c in combos :: c.id == id && exists e | e in FirstBindings(c) :: BindingMatches(e, b)
  }

  lemma StartOneKeeps(p: Progress, id: Id, b: Binding, now: real, pick: Pick)
    requires Pressable(p.s, b) && GoodPick(pick) && StartsWith(p.s.combos, id, b)
    ensures var q := StartOne(p, id, b, now, pick);
            && Pressable(q.s, b) && q.s.held == p.s.held && q.s.combos == p.s.combos
            && (forall x: Id | x != id :: x in q.s.cands <==> x in p.s.cands)
            && (p.hit ==> q.hit)
            && exists ts :: q.transitions == p.transitions + ts && Accounted(p.s, ts, q.s)
  {
    var q := StartOne(p, id, b, now, pick);
    ComboByIdFacts(p.s.combos, id);
    var combo := ComboById(p.s.combos, id).value;
    if id !in p.s.cands && CanStart(p.s, combo, b, pick) {
      StartOK(p.s, combo, b, now, pick);
      var keys := MatchFirstStep(combo, b, p.s.held.Keys, pick).value;
      var (c, counter) := StartCandidate(p.s, combo, keys, b, now);
      StoreKeeps(p.s, c, b, counter);
      assert Accounted(p.s, Fire(c, b), q.s);
    } else {
      assert q.transitions == p.transitions + [];
      assert Accounted(p.s, [], q.s);
    }
  }

  lemma {:induction false} StartAllKeeps(s: State, ids: seq<Id>, b: Binding, now: real, pick: Pick)
    requires Pressable(s, b) && GoodPick(pick)
    requires forall id | id in ids :: StartsWith(s.combos, id, b)
    ensures var p := StartAll(s, ids, b, now, pick);
            && Pressable(p.s, b) && p.s.held == s.held && p.s.combos == s.combos
            && (forall x: Id | x !in ids :: x in p.s.cands <==> x in s.cands)
            && Accounted(s, p.transitions, p.s)
  {
    if ids != [] {
      var front, last := ids[..|ids| - 1], ids[|ids| - 1];
      StartAllKeeps(s, front, b, now, pick);
      var p := StartAll(s, front, b, now, pick);
      StartOneKeeps(p, last, b, now, pick);
      var q := StartOne(p, last, b, now, pick);
      var ts :| q.transitions == p.transitions + ts && Accounted(p.s, ts, q.s);
      AccountedTrans(s, p.transitions, p.s, ts, q.s);
      assert ids == front + [last];
    }
  }

  // ---- The first-step index agrees with a scan ----

  lemma {:induction false} ListingsFacts(id: Id, bindings: seq<Binding>, hw: string, token: string, src: string)
    ensures forall x | x in Listings(id, bindings, hw, token, src) :: x == id
    ensures id in Listings(id, bindings, hw, token, src) <==>
            exists e | e in bindings :: (e.hardwareId, e.token, e.source) == (hw, token, src)
  {
    if bindings != [] {
      ListingsFacts(id, bindings[..|bindings| - 1], hw, token, src);
      assert bindings == bindings[..|bindings| - 1] + [bindings[|bindings| - 1]];
    }
  }

  ghost predicate ListedUnder(c: Combo, hw: string, token: string, src: string) {
    exists e | e in FirstBindings(c) :: (e.hardwareId, e.token, e.source) == (hw, token, src)
  }

  lemma {:induction false} IdsUnderKeyFacts(combos: seq<Combo>, hw: string, token: string, src: string)
    ensures forall id :: id in IdsUnderKey(combos, hw, token, src) <==>
              exists c | c in combos :: c.id == id && ListedUnder(c, hw, token, src)
  {
    if combos != [] {
      var front, last := combos[..|combos| - 1], combos[|combos| - 1];
      IdsUnderKeyFacts(front, hw, token, src);
      ListingsFacts(last.id, FirstBindings(last), hw, token, src);
      assert combos == front + [last];
    }
  }

  lemma {:induction false} IdsUnderKeysFacts(combos: seq<Combo>, token: string, keys: seq<(string, string)>)
    ensures forall id :: id in IdsUnderKeys(combos, token, keys) <==>
              exists c | c in combos :: c.id == id && exists k | k in keys :: ListedUnder(c, k.0, token, k.1)
  {
    if keys != [] {
      var front, last := keys[..|keys| - 1], keys[|keys| - 1];
      IdsUnderKeysFacts(combos, token, front);
      IdsUnderKeyFacts(combos, last.0, token, last.1);
      assert keys == front + [last];
    }
  }

  lemma {:induction false} DedupeFacts<T>(xs: seq<T>)
    ensures Distinct(Dedupe(xs)) && forall x :: x in Dedupe(xs) <==> x in xs
  {
    if xs != [] {
      DedupeFacts(xs[..|xs| - 1]);
      assert xs == xs[..|xs| - 1] + [xs[|xs| - 1]];
    }
  }

  lemma MatchesByKey(c: Combo, b: Binding)
    ensures (exists k | k in LookupKeys(b) :: ListedUnder(c, k.0, b.token, k.1)) <==>
            (exists e | e in FirstBindings(c) :: BindingMatches(e, b))
  {
    if k :| k in LookupKeys(b) && ListedUnder(c, k.0, b.token, k.1) {
      var e :| e in FirstBindings(c) && (e.hardwareId, e.token, e.source) == (k.0, b.token, k.1);
      assert BindingMatches(e, b);
    }
    if e :| e in FirstBindings(c) && BindingMatches(e, b) {
      var k := (e.hardwareId, e.source);
      assert k in LookupKeys(b);
      assert ListedUnder(c, k.0, b.token, k.1);
    }
  }

  /** Looking a key up in the first-step index gives, without duplicates, exactly the combos that
      a scan of all first steps finds. */
  lemma FirstStepIdsAreScan(combos: seq<Combo>, b: Binding)
    ensures Distinct(FirstStepIds(combos, b))
    ensures forall id :: id in FirstStepIds(combos, b) <==> StartsWith(combos, id, b)
  {
    DedupeFacts(IdsUnderKeys(combos, b.token, LookupKeys(b)));
    IdsUnderKeysFacts(combos, b.token, LookupKeys(b));
    forall c | c in combos { MatchesByKey(c, b); }
  }

  // ---- Events ----

  lemma PressEventKeeps(s: State, b: Binding, now: real, pick: Pick)
    requires Pressable(s, b) && GoodPick(pick)
    ensures var o := PressEvent(s, b, now, pick);
            Inv(o.s) && o.s.held == s.held && Accounted(s, o.d.transitions, o.s)
  {
    PressWaitingKeeps(s, b, now);
    var w := PressWaiting(s, b, now);
    FirstStepIdsAreScan(s.combos, b);
    StartAllKeeps(w.s, FirstStepIds(s.combos, b), b, now, pick);
    var p := StartAll(w.s, FirstStepIds(s.combos, b), b, now, pick);
    StartAllSilent(w.s, FirstStepIds(s.combos, b), b, now, pick);
    AccountedTrans(s, w.d.transitions, w.s, p.transitions, p.s);
  }

  /** Without a hit no transition was emitted. */
  lemma {:induction false} StartAllSilent(s: State, ids: seq<Id>, b: Binding, now: real, pick: Pick)
    ensures var p := StartAll(s, ids, b, now, pick); !p.hit ==> p.transitions == []
  {
    if ids != [] { StartAllSilent(s, ids[..|ids| - 1], b, now, pick); }
  }

  lemma ReleaseCandidateOK(c: Candidate, b: Binding, now: real, held: set<Binding>, counter: nat)
    requires CandOK(c, held, counter)
    ensures var r := ReleaseCandidate(c, b, now);
            r.Some? ==> CandOK(r.value, held - {b}, counter) && r.value.combo == c.combo
  {
  }

  ghost predicate EndsAction(s: State, x: Id, b: Binding) {
    x in s.cands && s.cands[x].active && b in s.cands[x].pressed
  }

  lemma ReleaseOnePhase(s: State, x: Id, b: Binding, id: Id, phase: Phase)
    requires Inv(s) && (x == id ==> phase == PhaseOf(s, id))
    ensures var us := if x in s.cands then ReleaseTransition(s.cands[x], b) else [];
            PhaseAfter(phase, us, id) == if x == id && EndsAction(s, id, b) then Closed else phase
  {
    if x in s.cands && ReleaseTransition(s.cands[x], b) != [] {
      PhaseOne(phase, ReleaseTransition(s.cands[x], b)[0], id);
    }
  }

  lemma {:induction false} ReleasePhases(s: State, ids: seq<Id>, b: Binding, id: Id)
    requires Inv(s) && Distinct(ids)
    ensures PhaseAfter(PhaseOf(s, id), ReleaseTransitions(s, ids, b), id) ==
            if id in ids && EndsAction(s, id, b) then Closed else PhaseOf(s, id)
  {
    if ids != [] {
      var front, last := ids[..|ids| - 1], ids[|ids| - 1];
      ReleasePhases(s, front, b, id);
      assert ids == front + [last] && last !in front;
      var phase, ts := PhaseOf(s, id), ReleaseTransitions(s, front, b);
      var us := if last in s.cands then ReleaseTransition(s.cands[last], b) else [];
      PhaseConcat(phase, ts, us, id);
      ReleaseOnePhase(s, last, b, id, PhaseAfter(phase, ts, id));
    }
  }

  lemma ReleaseAllKeeps(s: State, b: Binding, now: real)
    requires Inv(s)
    ensures Inv(RemoveHeld(ReleaseAll(s, b, now), b))
  {
    var s' := ReleaseAll(s, b, now);
    forall id | id in s.cands {
      ReleaseCandidateOK(s.cands[id], b, now, s.held.Keys, s.counter);
    }
    RestrictOrders(s.ids, s'.cands.Keys);
    assert (s.held - {b}).Keys == s.held.Keys - {b};
  }

  lemma ReleasedPhase(s: State, b: Binding, now: real, id: Id)
    requires Inv(s)
    ensures PhaseOf(ReleaseAll(s, b, now), id) == if EndsAction(s, id, b) then Closed else PhaseOf(s, id)
  {
    if id in s.cands {
      assert CandOK(s.cands[id], s.held.Keys, s.counter);
      ReleasedActive(s.cands[id], b, now, s.held.Keys, s.counter);
    }
  }

  lemma ReleasedActive(c: Candidate, b: Binding, now: real, held: set<Binding>, counter: nat)
    requires CandOK(c, held, counter)
    ensures var left := ReleaseCandidate(c, b, now);
            (left.Some? && left.value.active) <==> (c.active && b !in c.pressed)
  {
  }

  lemma ReleaseEventAccounted(s: State, b: Binding, now: real)
    requires Inv(s)
    ensures Accounted(s, ReleaseTransitions(s, s.ids, b), ReleaseAll(s, b, now))
  {
    forall id: Id ensures PhaseAfter(PhaseOf(s, id), ReleaseTransitions(s, s.ids, b), id)
                          == PhaseOf(ReleaseAll(s, b, now), id) {
      ReleasePhases(s, s.ids, b, id);
      ReleasedPhase(s, b, now, id);
    }
  }

  lemma ExpireKeeps(s: State, now: real)
    requires Inv(s)
    ensures Inv(Expire(s, now)) && Accounted(s, [], Expire(s, now))
  {
    DropKeeps(s, map id | id in s.cands && !Expired(s.cands[id], now) :: s.cands[id]);
  }

  lemma RecordHeldKeeps(s: State, b: Binding)
    requires Inv(s)
    ensures Inv(RecordHeld(s, b)) && Accounted(s, [], RecordHeld(s, b))
  {
  }

  lemma SettleKeeps(s: State, ts: seq<Transition>, t: State)
    requires Inv(t) && Accounted(s, ts, t)
    ensures Inv(Settle(t)) && Accounted(s, ts, Settle(t))
  {
    forall id: Id ensures PhaseOf(Settle(t), id) == PhaseOf(t, id) {
    }
  }

  /** One key press or release keeps the invariant and accounts for its transitions. */
  lemma HandleKeyKeeps(s: State, b: Binding, value: int, now: real, pick: Pick)
    requires Inv(s) && GoodPick(pick) && 0 <= value <= 1
    ensures var o := HandleKey(s, b, value, now, pick);
            Inv(o.s) && Accounted(s, o.d.transitions, o.s)
  {
    if value == 1 {
      var s' := if IsPulse(b) then s else RecordHeld(s, b);
      RecordHeldKeeps(s, b);
      PressEventKeeps(s', b, now, pick);
    } else {
      ReleaseAllKeeps(s, b, now);
      ReleaseEventAccounted(s, b, now);
    }
  }

  /** One input event keeps the invariant, and the transitions it emits are exactly the presses it
      opened and closed. */
  lemma HandleEventKeeps(s: State, b: Binding, value: int, now: real, pick: Pick)
    requires Inv(s) && GoodPick(pick) && 0 <= value <= 2
    ensures var o := HandleEvent(s, b, value, now, pick);
            Inv(o.s) && Accounted(s, o.d.transitions, o.s)
  {
    var s1 := Expire(s, now);
    ExpireKeeps(s, now);
    if value != 2 {
      HandleKeyKeeps(s1, b, value, now, pick);
      var o := HandleKey(s1, b, value, now, pick);
      AccountedAfterSilence(s, s1, o.d.transitions, o.s);
      SettleKeeps(s, o.d.transitions, o.s);
    }
  }
}
