/**
  The life of finished recordings: pending until claimed, claimed until released, and cleaned up
  exactly once. A recording may belong to a slot, whose metadata file names the latest recording of
  that slot; a new recording for the slot replaces the older ones.

  Everything the manager does under its lock, with the cleanup that follows, is one step.
*/
module RecordingManagerModel {
  import opened Wrappers

  type Id = string

  /** `ownsMeta`: cleaning this recording also deletes the metadata file of its slot. */
  datatype Snapshot = Snapshot(slot: nat, ownsMeta: bool)

  datatype State = State(
    pending: map<Id, Snapshot>,
    pendingAt: map<Id, real>,
    claimed: map<Id, Snapshot>,
    claimedAt: map<Id, real>,
    discardRequested: set<Id>)

  /** The new state, and the recordings whose files are deleted. */
  datatype Outcome = Outcome(s: State, cleanup: map<Id, Snapshot>)

  datatype Op =
    | Register(id: Id, recordingSlot: int, now: real)
    | Claim(id: Id, now: real)
    | ReleaseClaim(id: Id, saved: bool)
    | Discard(id: Id)
    | DiscardAll
    | DiscardExpired(now: real, ttl: real)

  const MAX_SLOTS := 4

  function NormalizeSlot(slot: int): nat { if 1 <= slot <= MAX_SLOTS then slot else 0 }

  const EMPTY := State(map[], map[], map[], map[], {})

  // ---- One step ----

  predicate Replaced(x: Snapshot, slot: nat) { slot != 0 && x.slot == slot }

  function RegisterStep(s: State, id: Id, slot: nat, now: real): Outcome {
    var snapshot := Snapshot(slot, slot != 0);
    var gone := map x | x in s.pending && x != id && Replaced(s.pending[x], slot) :: s.pending[x].(ownsMeta := false);
    Outcome(
      State((s.pending - gone.Keys)[id := snapshot],
            (s.pendingAt - gone.Keys)[id := now],
            map x | x in s.claimed ::
              if x != id && Replaced(s.claimed[x], slot) then s.claimed[x].(ownsMeta := false) else s.claimed[x],
            s.claimedAt,
            s.discardRequested + set x | x in s.claimed && x != id && Replaced(s.claimed[x], slot)),
      gone)
  }

  function ClaimStep(s: State, id: Id, now: real): Outcome {
    var s' := s.(pending := s.pending - {id}, pendingAt := s.pendingAt - {id});
    if id !in s.pending then Outcome(s', map[])
    else
      Outcome(s'.(claimed := s.claimed[id := s.pending[id]], claimedAt := s.claimedAt[id := now],
                  discardRequested := s.discardRequested - {id}), map[])
  }

  function ReleaseStep(s: State, id: Id, saved: bool): Outcome {
    var s' := s.(claimed := s.claimed - {id}, claimedAt := s.claimedAt - {id},
                 discardRequested := s.discardRequested - {id});
    if id !in s.claimed then Outcome(s', map[])
    else if saved || id in s.discardRequested then Outcome(s', map[id := s.claimed[id]])
    else
      var at := if id in s.claimedAt then s.claimedAt[id] else 0.0;
      Outcome(s'.(pending := s.pending[id := s.claimed[id]], pendingAt := s.pendingAt[id := at]), map[])
  }

  function DiscardStep(s: State, id: Id): Outcome {
    if id in s.pending then
      Outcome(s.(pending := s.pending - {id}, pendingAt := s.pendingAt - {id}), map[id := s.pending[id]])
    else if id in s.claimed then
      Outcome(s.(pendingAt := s.pendingAt - {id}, discardRequested := s.discardRequested + {id}), map[])
    else Outcome(s.(pendingAt := s.pendingAt - {id}), map[])
  }

  /** Recordings that belong to a slot stay. */
  function DiscardAllStep(s: State): Outcome {
    var kept := map x | x in s.pending && s.pending[x].slot != 0 :: s.pending[x];
    Outcome(s.(pending := kept,
               pendingAt := map x | x in s.pendingAt && x in kept :: s.pendingAt[x],
               discardRequested := s.discardRequested + set x | x in s.claimed && s.claimed[x].slot == 0),
            map x | x in s.pending && s.pending[x].slot == 0 :: s.pending[x])
  }

  predicate Old(at: map<Id, real>, x: Id, now: real, ttl: real) {
    x in at && now - at[x] >= (if ttl < 0.0 then 0.0 else ttl)
  }

  predicate PendingGone(s: State, x: Id, now: real, ttl: real) {
    Old(s.pendingAt, x, now, ttl) && (x !in s.pending || s.pending[x].slot == 0)
  }

  predicate ClaimedGone(s: State, x: Id, now: real, ttl: real) {
    Old(s.claimedAt, x, now, ttl) && (x !in s.claimed || s.claimed[x].slot == 0 || x in s.discardRequested)
  }

  function ExpireStep(s: State, now: real, ttl: real): Outcome {
    Outcome(
      State(map x | x in s.pending && !PendingGone(s, x, now, ttl) :: s.pending[x],
            map x | x in s.pendingAt && !PendingGone(s, x, now, ttl) :: s.pendingAt[x],
            map x | x in s.claimed && !ClaimedGone(s, x, now, ttl) :: s.claimed[x],
            map x | x in s.claimedAt && !ClaimedGone(s, x, now, ttl) :: s.claimedAt[x],
            set x | x in s.discardRequested && !ClaimedGone(s, x, now, ttl)),
      (map x | x in s.pending && PendingGone(s, x, now, ttl) :: s.pending[x])
      + (map x | x in s.claimed && ClaimedGone(s, x, now, ttl) :: s.claimed[x]))
  }

  function Step(s: State, op: Op): Outcome {
    match op
    case Register(id, recordingSlot, now) => RegisterStep(s, id, NormalizeSlot(recordingSlot), now)
    case Claim(id, now) => ClaimStep(s, id, now)
    case ReleaseClaim(id, saved) => ReleaseStep(s, id, saved)
    case Discard(id) => DiscardStep(s, id)
    case DiscardAll => DiscardAllStep(s)
    case DiscardExpired(now, ttl) => ExpireStep(s, now, ttl)
  }

  // ---- The invariant ----

  /** The recordings that have files: pending or claimed. */
  predicate IsLive(s: State, x: Id) { x in s.pending || x in s.claimed }

  function SnapshotOf(s: State, x: Id): Snapshot
    requires IsLive(s, x)
  {
    if x in s.pending then s.pending[x] else s.claimed[x]
  }

  /** The recording of a slot: pending, or claimed and not going to be discarded. */
  ghost predicate Current(s: State, x: Id, slot: nat) {
    IsLive(s, x) && SnapshotOf(s, x).slot == slot && x !in s.discardRequested
  }

  ghost predicate OwnsMeta(s: State, x: Id, slot: nat) {
    IsLive(s, x) && SnapshotOf(s, x).slot == slot && SnapshotOf(s, x).ownsMeta
  }

  ghost predicate Tables(s: State) {
    && s.pending.Keys !! s.claimed.Keys
    && s.pendingAt.Keys == s.pending.Keys && s.claimedAt.Keys == s.claimed.Keys
    && s.discardRequested <= s.claimed.Keys
  }

  ghost predicate SlotsUnique(s: State) {
    && (forall x, y, slot: nat | slot != 0 && Current(s, x, slot) && Current(s, y, slot) :: x == y)
    && (forall x, y, slot: nat | slot != 0 && OwnsMeta(s, x, slot) && OwnsMeta(s, y, slot) :: x == y)
    && (forall x | IsLive(s, x) && SnapshotOf(s, x).ownsMeta :: SnapshotOf(s, x).slot != 0)
  }

  ghost predicate Inv(s: State) { Tables(s) && SlotsUnique(s) }

  /** A finished recording gets an id that no live recording has. */
  ghost predicate Allowed(s: State, op: Op) {
    op.Register? ==> !IsLive(s, op.id)
  }

  ghost function Live(s: State): set<Id> { s.pending.Keys + s.claimed.Keys }

  ghost function Added(op: Op): set<Id> { if op.Register? then {op.id} else {} }

  /** The live recordings change only by the one that is registered and the ones that are cleaned. */
  ghost predicate Conserves(s: State, op: Op, o: Outcome) {
    && o.cleanup.Keys <= Live(s)
    && Live(o.s) == Live(s) + Added(op) - o.cleanup.Keys
  }

  /** Cleaning never deletes the metadata file that another recording of the slot still relies on. */
  ghost predicate MetaSafe(s: State, o: Outcome) {
    forall x, y | x in o.cleanup && o.cleanup[x].ownsMeta :: !OwnsMeta(o.s, y, o.cleanup[x].slot)
  }

  lemma RegisterKeeps(s: State, id: Id, slot: nat, now: real)
    requires Inv(s) && !IsLive(s, id)
    ensures var o := RegisterStep(s, id, slot, now);
            Tables(o.s) && o.cleanup.Keys <= s.pending.Keys && Live(o.s) == Live(s) + {id} - o.cleanup.Keys
  {
  }

  lemma RegisterSlots(s: State, id: Id, slot: nat, now: real)
    requires Inv(s) && !IsLive(s, id)
    ensures var o := RegisterStep(s, id, slot, now); SlotsUnique(o.s) && MetaSafe(s, o)
  {
    var o := RegisterStep(s, id, slot, now);
    forall x, k: nat | x != id && k != 0
      ensures Current(o.s, x, k) ==> Current(s, x, k) && k != slot
      ensures OwnsMeta(o.s, x, k) ==> OwnsMeta(s, x, k) && k != slot
    {
    }
    forall x | IsLive(o.s, x) && SnapshotOf(o.s, x).ownsMeta ensures SnapshotOf(o.s, x).slot != 0 {
      if x != id { assert IsLive(s, x) && SnapshotOf(s, x).slot == SnapshotOf(o.s, x).slot; }
    }
  }

  /** What is left of the slots when recordings only move, go or become doomed. */
  lemma SubsetSlots(s: State, t: State)
    requires Inv(s)
    requires forall x | IsLive(t, x) :: IsLive(s, x) && SnapshotOf(t, x) == SnapshotOf(s, x)
    requires forall x | IsLive(t, x) && x in s.discardRequested :: x in t.discardRequested
    ensures SlotsUnique(t)
  {
    forall x, k: nat ensures Current(t, x, k) ==> Current(s, x, k) { }
    forall x, k: nat ensures OwnsMeta(t, x, k) ==> OwnsMeta(s, x, k) { }
  }

  lemma OwnerGone(s: State, o: Outcome)
    requires Inv(s)
    requires forall x | IsLive(o.s, x) :: IsLive(s, x) && SnapshotOf(o.s, x) == SnapshotOf(s, x)
    requires forall x | x in o.cleanup :: IsLive(s, x) && o.cleanup[x] == SnapshotOf(s, x) && !IsLive(o.s, x)
    ensures MetaSafe(s, o)
  {
    forall x, y | x in o.cleanup && o.cleanup[x].ownsMeta ensures !OwnsMeta(o.s, y, o.cleanup[x].slot) {
      assert OwnsMeta(s, x, o.cleanup[x].slot);
      assert OwnsMeta(o.s, y, o.cleanup[x].slot) ==> OwnsMeta(s, y, o.cleanup[x].slot);
    }
  }

  /** Recordings only move or go, and exactly the ones that go are cleaned. */
  ghost predicate Shrinks(s: State, o: Outcome) {
    && Tables(o.s)
    && o.cleanup.Keys <= Live(s) && Live(o.s) == Live(s) - o.cleanup.Keys
    && (forall x | IsLive(o.s, x) :: IsLive(s, x) && SnapshotOf(o.s, x) == SnapshotOf(s, x))
    && (forall x | IsLive(o.s, x) && x in s.discardRequested :: x in o.s.discardRequested)
    && (forall x | x in o.cleanup :: IsLive(s, x) && o.cleanup[x] == SnapshotOf(s, x))
  }

  lemma ClaimShrinks(s: State, id: Id, now: real)
    requires Tables(s)
    ensures Shrinks(s, ClaimStep(s, id, now))
  {
  }

  lemma ReleaseShrinks(s: State, id: Id, saved: bool)
    requires Tables(s)
    ensures Shrinks(s, ReleaseStep(s, id, saved))
  {
  }

  lemma DiscardShrinks(s: State, id: Id)
    requires Tables(s)
    ensures Shrinks(s, DiscardStep(s, id))
  {
  }

  /** Discarding all leaves nothing but the recordings of slots and the doomed: a recording of a slot
      stays exactly as it was, one without is cleaned if it was pending and doomed if it was claimed. */
  ghost predicate OnlySlotsStay(s: State, o: Outcome) {
    && (forall x | IsLive(s, x) && SnapshotOf(s, x).slot != 0 ::
          && (x in o.s.pending <==> x in s.pending) && (x in o.s.claimed <==> x in s.claimed)
          && IsLive(o.s, x) && SnapshotOf(o.s, x) == SnapshotOf(s, x)
          && (x in o.s.discardRequested <==> x in s.discardRequested))
    && (forall x | x in o.s.pending :: o.s.pending[x].slot != 0)
    && (forall x | x in o.s.claimed && o.s.claimed[x].slot == 0 :: x in o.s.discardRequested)
    && (forall x :: x in o.cleanup <==> x in s.pending && s.pending[x].slot == 0)
  }

  lemma DiscardAllKeepsSlots(s: State)
    requires Tables(s)
    ensures OnlySlotsStay(s, DiscardAllStep(s))
  {
  }

  lemma DiscardAllShrinks(s: State)
    requires Tables(s)
    ensures Shrinks(s, DiscardAllStep(s))
  {
  }

  lemma ExpireShrinks(s: State, now: real, ttl: real)
    requires Tables(s)
    ensures Shrinks(s, ExpireStep(s, now, ttl))
  {
  }

  lemma OtherShrinks(s: State, op: Op)
    requires Tables(s) && !op.Register?
    ensures Shrinks(s, Step(s, op))
  {
    match op
    case Claim(id, now) => ClaimShrinks(s, id, now);
    case ReleaseClaim(id, saved) => ReleaseShrinks(s, id, saved);
    case Discard(id) => DiscardShrinks(s, id);
    case DiscardAll => DiscardAllShrinks(s);
    case DiscardExpired(now, ttl) => ExpireShrinks(s, now, ttl);
  }

  /** Every step keeps the tables consistent and the slots unique, cleans only live recordings, and
      never deletes metadata that is still in use. */
  lemma StepKeeps(s: State, op: Op)
    requires Inv(s) && Allowed(s, op)
    ensures var o := Step(s, op); Inv(o.s) && Conserves(s, op, o) && MetaSafe(s, o)
  {
    if op.Register? {
      RegisterKeeps(s, op.id, NormalizeSlot(op.recordingSlot), op.now);
      RegisterSlots(s, op.id, NormalizeSlot(op.recordingSlot), op.now);
    } else {
      OtherShrinks(s, op);
      SubsetSlots(s, Step(s, op).s);
      OwnerGone(s, Step(s, op));
    }
  }

  // ---- What each operation does to a recording ----

  /** A newly registered recording takes over the slot of this one. */
  predicate LosesSlot(r: Snapshot, id: Id, x: Id, recordingSlot: int) {
    x != id && 1 <= recordingSlot <= 4 && r.slot == recordingSlot
  }

  /** The recording was made or claimed at least so long ago; a negative time counts as none. */
  predicate Aged(at: map<Id, real>, x: Id, now: real, ttl: real) {
    x in at && now - at[x] >= 0.0 && now - at[x] >= ttl
  }

  /** What each operation cleans: a registration the pending recordings that lose their slot, a released
      claim the recording if it was saved or is doomed, discarding a pending one, and expiry those that
      are old enough and belong to no slot or are doomed. */
  predicate ShouldClean(s: State, op: Op, x: Id) {
    match op
    case Register(id, recordingSlot, _) => x in s.pending && LosesSlot(s.pending[x], id, x, recordingSlot)
    case Claim(_, _) => false
    case ReleaseClaim(id, saved) => x == id && x in s.claimed && (saved || x in s.discardRequested)
    case Discard(id) => x == id && x in s.pending
    case DiscardAll => x in s.pending && s.pending[x].slot == 0
    case DiscardExpired(now, ttl) =>
      || (x in s.pending && s.pending[x].slot == 0 && Aged(s.pendingAt, x, now, ttl))
      || (x in s.claimed && (s.claimed[x].slot == 0 || x in s.discardRequested) && Aged(s.claimedAt, x, now, ttl))
  }

  lemma CleansExactly(s: State, op: Op, x: Id)
    requires Inv(s) && Allowed(s, op)
    ensures x in Step(s, op).cleanup <==> ShouldClean(s, op, x)
    ensures x in Step(s, op).cleanup ==> Step(s, op).cleanup[x].slot == SnapshotOf(s, x).slot
  {
  }

  /** What is pending: new recordings, those given back by a claim that was not saved, and those that were
      pending and are neither claimed nor cleaned. */
  predicate ShouldPend(s: State, op: Op, x: Id) {
    match op
    case Register(id, _, _) => x == id || (x in s.pending && !ShouldClean(s, op, x))
    case Claim(id, _) => x in s.pending && x != id
    case ReleaseClaim(id, saved) =>
      x in s.pending || (x == id && x in s.claimed && !saved && x !in s.discardRequested)
    case _ => x in s.pending && !ShouldClean(s, op, x)
  }

  /** What is doomed: claimed recordings that lose their slot or are discarded; a claim starts unharmed. */
  predicate ShouldDoom(s: State, op: Op, x: Id) {
    match op
    case Register(id, recordingSlot, _) =>
      x in s.discardRequested || (x in s.claimed && LosesSlot(s.claimed[x], id, x, recordingSlot))
    case Claim(id, _) => x in s.discardRequested
    case ReleaseClaim(id, _) => x in s.discardRequested && x != id
    case Discard(id) => x in s.discardRequested || (x == id && x in s.claimed)
    case DiscardAll => x in s.discardRequested || (x in s.claimed && s.claimed[x].slot == 0)
    case DiscardExpired(_, _) => x in s.discardRequested && !ShouldClean(s, op, x)
  }

  /** What is claimed: a pending recording that is claimed, and what was claimed, is not released and not
      cleaned. */
  predicate ShouldClaim(s: State, op: Op, x: Id) {
    || (op.Claim? && x == op.id && x in s.pending)
    || (x in s.claimed && !(op.ReleaseClaim? && x == op.id) && !ShouldClean(s, op, x))
  }

  lemma PendsExactly(s: State, op: Op, x: Id)
    requires Inv(s) && Allowed(s, op)
    ensures x in Step(s, op).s.pending <==> ShouldPend(s, op, x)
  {
  }

  lemma ClaimsExactly(s: State, op: Op, x: Id)
    requires Inv(s) && Allowed(s, op)
    ensures x in Step(s, op).s.claimed <==> ShouldClaim(s, op, x)
  {
  }

  lemma DoomsExactly(s: State, op: Op, x: Id)
    requires Inv(s) && Allowed(s, op)
    ensures x in Step(s, op).s.discardRequested <==> ShouldDoom(s, op, x)
  {
  }

  /** Times: a recording counts from its registration, a claim from when it was made; a recording that is
      given back keeps the time of its claim. */
  lemma TimesExactly(s: State, op: Op, x: Id)
    requires Inv(s) && Allowed(s, op)
    ensures var t := Step(s, op).s;
            x in t.pending ==> x in t.pendingAt && t.pendingAt[x] == TimeIfPending(s, op, x)
    ensures var t := Step(s, op).s;
            x in t.claimed ==> x in t.claimedAt && t.claimedAt[x] == TimeIfClaimed(s, op, x)
  {
    StepKeeps(s, op);
  }

  function TimeIfPending(s: State, op: Op, x: Id): real {
    if op.Register? && x == op.id then op.now
    else if op.ReleaseClaim? && x == op.id && x in s.claimedAt then s.claimedAt[x]
    else if x in s.pendingAt then s.pendingAt[x] else 0.0
  }

  function TimeIfClaimed(s: State, op: Op, x: Id): real {
    if op.Claim? && x == op.id && x in s.pending then op.now else if x in s.claimedAt then s.claimedAt[x] else 0.0
  }

  /** A new recording has its slot, if that is one of the four, and owns its metadata file; the others keep
      theirs unless they lose the slot. */
  lemma SlotsExactly(s: State, op: Op, x: Id)
    requires Inv(s) && Allowed(s, op) && IsLive(Step(s, op).s, x)
    ensures SnapshotOf(Step(s, op).s, x) ==
            if op.Register? && x == op.id then
              (if 1 <= op.recordingSlot <= 4 then Snapshot(op.recordingSlot, true) else Snapshot(0, false))
            else if op.Register? && LosesSlot(SnapshotOf(s, x), op.id, x, op.recordingSlot) then
              SnapshotOf(s, x).(ownsMeta := false)
            else SnapshotOf(s, x)
  {
    StepKeeps(s, op);
  }

  // ---- Runs ----

  /** State, ids ever registered and ids ever cleaned after a run. */
  datatype History = History(s: State, registered: set<Id>, cleaned: set<Id>)

  function After(ops: seq<Op>): History {
    if ops == [] then History(EMPTY, {}, {})
    else
      var h := After(ops[..|ops| - 1]);
      var op := ops[|ops| - 1];
      var o := Step(h.s, op);
      History(o.s, if op.Register? then h.registered + {op.id} else h.registered, h.cleaned + o.cleanup.Keys)
  }

  /** Every registered recording has a new id. */
  ghost predicate FreshIds(ops: seq<Op>) {
    || ops == []
    || (FreshIds(ops[..|ops| - 1])
        && (ops[|ops| - 1].Register? ==> ops[|ops| - 1].id !in After(ops[..|ops| - 1]).registered))
  }

  /** In every run each registered recording is in exactly one of pending, claimed and cleaned. */
  lemma {:induction false} EveryRecordingAccountedFor(ops: seq<Op>)
    requires FreshIds(ops)
    ensures var h := After(ops);
            && Inv(h.s)
            && h.registered == h.s.pending.Keys + h.s.claimed.Keys + h.cleaned
            && h.s.pending.Keys !! h.s.claimed.Keys && Live(h.s) !! h.cleaned
  {
    if ops != [] {
      EveryRecordingAccountedFor(ops[..|ops| - 1]);
      StepKeeps(After(ops[..|ops| - 1]).s, ops[|ops| - 1]);
    }
  }

  /** No recording is cleaned twice: a step only cleans what was not cleaned before. */
  lemma CleanedOnce(ops: seq<Op>, op: Op)
    requires FreshIds(ops + [op])
    ensures Step(After(ops).s, op).cleanup.Keys !! After(ops).cleaned
  {
    assert (ops + [op])[..|ops|] == ops;
    EveryRecordingAccountedFor(ops);
    StepKeeps(After(ops).s, op);
  }

  // ---- The manager object ----

  class RecordingManager {
    var pending: map<Id, Snapshot>
    var pendingAt: map<Id, real>
    var claimed: map<Id, Snapshot>
    var claimedAt: map<Id, real>
    var discardRequested: set<Id>

    ghost function Abs(): State
      reads this
    {
      State(pending, pendingAt, claimed, claimedAt, discardRequested)
    }

    ghost predicate Valid()
      reads this
    {
      Inv(Abs())
    }

    constructor ()
      ensures Abs() == EMPTY
      ensures Valid()
    {
      pending, pendingAt, claimed, claimedAt, discardRequested := map[], map[], map[], map[], {};
    }

    /** Register a finished recording; the older recordings of its slot are cleaned or doomed. */
    method RegisterRecording(id: Id, recordingSlot: int, now: real) returns (cleanup: map<Id, Snapshot>)
      requires Valid() && !IsLive(Abs(), id)
      modifies this
      ensures Outcome(Abs(), cleanup) == Step(old(Abs()), Register(id, recordingSlot, now))
      ensures Valid()
    {
      StepKeeps(Abs(), Register(id, recordingSlot, now));
      var slot := NormalizeSlot(recordingSlot);
      cleanup := DiscardExistingSlotRecordings(slot, id);
      pending := pending[id := Snapshot(slot, slot != 0)];
      pendingAt := pendingAt[id := now];
    }

    method DiscardExistingSlotRecordings(slot: nat, keep: Id) returns (cleanup: map<Id, Snapshot>)
      requires pendingAt.Keys == pending.Keys && keep !in pending && keep !in claimed
      modifies this
      ensures cleanup == map x | x in old(pending) && x != keep && Replaced(old(pending)[x], slot) ::
                           old(pending)[x].(ownsMeta := false)
      ensures pending == old(pending) - cleanup.Keys && pendingAt == old(pendingAt) - cleanup.Keys
      ensures claimed == map x | x in old(claimed) ::
                if x != keep && Replaced(old(claimed)[x], slot) then old(claimed)[x].(ownsMeta := false)
                else old(claimed)[x]
      ensures discardRequested == old(discardRequested)
                                  + set x | x in old(claimed) && x != keep && Replaced(old(claimed)[x], slot)
      ensures claimedAt == old(claimedAt)
    {
      cleanup := map[];
      if slot == 0 { return; }
      cleanup := TakeSlot(pending, slot);
      pending, pendingAt := pending - cleanup.Keys, pendingAt - cleanup.Keys;
      var doomed: set<Id>;
      claimed, doomed := DoomSlot(claimed, slot);
      discardRequested := discardRequested + doomed;
    }

    /** `None` is the error for a recording that is not pending. */
    method ClaimRecording(id: Id, now: real) returns (r: Option<Snapshot>)
      requires Valid()
      modifies this
      ensures Abs() == Step(old(Abs()), Claim(id, now)).s
      ensures Valid()
      ensures r == if id in old(pending) then Some(old(pending)[id]) else None
    {
      StepKeeps(Abs(), Claim(id, now));
      if id !in pending {
        pendingAt := pendingAt - {id};
        return None;
      }
      var snapshot := pending[id];
      pending, pendingAt := pending - {id}, pendingAt - {id};
      claimed, claimedAt := claimed[id := snapshot], claimedAt[id := now];
      discardRequested := discardRequested - {id};
      r := Some(snapshot);
    }

    method ReleaseRecordingClaim(id: Id, saved: bool) returns (cleanup: map<Id, Snapshot>)
      requires Valid()
      modifies this
      ensures Outcome(Abs(), cleanup) == Step(old(Abs()), ReleaseClaim(id, saved))
      ensures Valid()
    {
      StepKeeps(Abs(), ReleaseClaim(id, saved));
      cleanup := map[];
      var doomed := id in discardRequested;
      discardRequested := discardRequested - {id};
      if id !in claimed {
        claimedAt := claimedAt - {id};
        return;
      }
      var snapshot, createdAt := claimed[id], claimedAt[id];
      claimed, claimedAt := claimed - {id}, claimedAt - {id};
      if saved || doomed {
        cleanup := map[id := snapshot];
      } else {
        pending, pendingAt := pending[id := snapshot], pendingAt[id := createdAt];
      }
    }

    method DiscardRecording(id: Id) returns (cleanup: map<Id, Snapshot>)
      requires Valid()
      modifies this
      ensures Outcome(Abs(), cleanup) == Step(old(Abs()), Discard(id))
      ensures Valid()
    {
      StepKeeps(Abs(), Discard(id));
      cleanup := map[];
      pendingAt := pendingAt - {id};
      if id in pending {
        cleanup := map[id := pending[id]];
        pending := pending - {id};
      } else if id in claimed {
        discardRequested := discardRequested + {id};
      }
    }

    method DiscardAllRecordings() returns (cleanup: map<Id, Snapshot>)
      requires Valid()
      modifies this
      ensures Outcome(Abs(), cleanup) == Step(old(Abs()), DiscardAll)
      ensures Valid()
      ensures OnlySlotsStay(old(Abs()), Outcome(Abs(), cleanup))
    {
      StepKeeps(Abs(), DiscardAll);
      DiscardAllKeepsSlots(Abs());
      cleanup := PopAllPending();
    }

    method PopAllPending() returns (cleanup: map<Id, Snapshot>)
      modifies this`pending, this`pendingAt, this`discardRequested
      ensures Outcome(Abs(), cleanup) == DiscardAllStep(old(Abs()))
    {
      cleanup := map x | x in pending && pending[x].slot == 0 :: pending[x];
      pending := map x | x in pending && pending[x].slot != 0 :: pending[x];
      pendingAt := map x | x in pendingAt && x in pending :: pendingAt[x];
      discardRequested := discardRequested + set x | x in claimed && claimed[x].slot == 0;
    }

    method DiscardExpiredRecordings(now: real, ttl: real) returns (cleanup: map<Id, Snapshot>)
      requires Valid()
      modifies this
      ensures Outcome(Abs(), cleanup) == Step(old(Abs()), DiscardExpired(now, ttl))
      ensures Valid()
    {
      StepKeeps(Abs(), DiscardExpired(now, ttl));
      cleanup := PopExpired(now, ttl);
    }

    method PopExpired(now: real, ttl: real) returns (cleanup: map<Id, Snapshot>)
      requires Tables(Abs())
      modifies this
      ensures Outcome(Abs(), cleanup) == ExpireStep(old(Abs()), now, ttl)
    {
      ghost var s := Abs();
      var expiredPending := set x | x in pendingAt && Old(pendingAt, x, now, ttl);
      var expiredClaimed := set x | x in claimedAt && Old(claimedAt, x, now, ttl);
      var gonePending := TakeExpired(pending, expiredPending, {});
      var goneClaimed := TakeExpired(claimed, expiredClaimed, discardRequested);
      cleanup := gonePending + goneClaimed;
      GoneMaps(s, now, ttl, expiredPending, expiredClaimed, gonePending, goneClaimed);
      ExpireByKeys(s, now, ttl, gonePending, goneClaimed);
      pending, pendingAt := pending - gonePending.Keys, pendingAt - gonePending.Keys;
      claimed, claimedAt := claimed - goneClaimed.Keys, claimedAt - goneClaimed.Keys;
      discardRequested := discardRequested - goneClaimed.Keys;
    }
  }

  /** The pending recordings of a slot, without their claim on its metadata file. */
  method TakeSlot(table: map<Id, Snapshot>, slot: nat) returns (gone: map<Id, Snapshot>)
    ensures gone == map x | x in table && Replaced(table[x], slot) :: table[x].(ownsMeta := false)
  {
    gone := map[];
    var todo := table.Keys;
    while todo != {}
      invariant todo <= table.Keys
      invariant gone == map x | x in table && x !in todo && Replaced(table[x], slot) :: table[x].(ownsMeta := false)
      decreases |todo|
    {
      var x :| x in todo;
      todo := todo - {x};
      if Replaced(table[x], slot) { gone := gone[x := table[x].(ownsMeta := false)]; }
    }
  }

  /** Claimed recordings of a slot lose the metadata file and will be discarded. */
  method DoomSlot(table: map<Id, Snapshot>, slot: nat) returns (r: map<Id, Snapshot>, doomed: set<Id>)
    ensures r == map x | x in table :: if Replaced(table[x], slot) then table[x].(ownsMeta := false) else table[x]
    ensures doomed == set x | x in table && Replaced(table[x], slot)
  {
    r, doomed := table, {};
    var todo := table.Keys;
    while todo != {}
      invariant todo <= table.Keys
      invariant r.Keys == table.Keys
      invariant forall x | x in table ::
                  r[x] == if x !in todo && Replaced(table[x], slot) then table[x].(ownsMeta := false) else table[x]
      invariant doomed == set x | x in table && x !in todo && Replaced(table[x], slot)
      decreases |todo|
    {
      var x :| x in todo;
      todo := todo - {x};
      if Replaced(table[x], slot) {
        r, doomed := r[x := table[x].(ownsMeta := false)], doomed + {x};
      }
    }
  }

  /** Expired recordings, except those of a slot that are not doomed. */
  method TakeExpired(table: map<Id, Snapshot>, expired: set<Id>, doomed: set<Id>) returns (gone: map<Id, Snapshot>)
    ensures gone == map x | x in table && x in expired && (table[x].slot == 0 || x in doomed) :: table[x]
  {
    gone := map[];
    var todo := expired;
    while todo != {}
      invariant todo <= expired
      invariant gone == map x | x in table && x in expired && x !in todo
                                && (table[x].slot == 0 || x in doomed) :: table[x]
      decreases |todo|
    {
      var x :| x in todo;
      todo := todo - {x};
      if x in table && (table[x].slot == 0 || x in doomed) { gone := gone[x := table[x]]; }
    }
  }

  lemma GoneMaps(s: State, now: real, ttl: real, expiredPending: set<Id>, expiredClaimed: set<Id>,
                 p: map<Id, Snapshot>, c: map<Id, Snapshot>)
    requires Tables(s)
    requires expiredPending == set x | x in s.pendingAt && Old(s.pendingAt, x, now, ttl)
    requires expiredClaimed == set x | x in s.claimedAt && Old(s.claimedAt, x, now, ttl)
    requires p == map x | x in s.pending && x in expiredPending && (s.pending[x].slot == 0 || x in {}) :: s.pending[x]
    requires c == map x | x in s.claimed && x in expiredClaimed
                          && (s.claimed[x].slot == 0 || x in s.discardRequested) :: s.claimed[x]
    ensures p == map x | x in s.pending && PendingGone(s, x, now, ttl) :: s.pending[x]
    ensures c == map x | x in s.claimed && ClaimedGone(s, x, now, ttl) :: s.claimed[x]
  {
  }

  lemma ExpireByKeys(s: State, now: real, ttl: real, p: map<Id, Snapshot>, c: map<Id, Snapshot>)
    requires Tables(s)
    requires p == map x | x in s.pending && PendingGone(s, x, now, ttl) :: s.pending[x]
    requires c == map x | x in s.claimed && ClaimedGone(s, x, now, ttl) :: s.claimed[x]
    ensures Outcome(State(s.pending - p.Keys, s.pendingAt - p.Keys, s.claimed - c.Keys, s.claimedAt - c.Keys,
                          s.discardRequested - c.Keys), p + c)
         == ExpireStep(s, now, ttl)
  {
    var t := ExpireStep(s, now, ttl).s;
    assert s.pending - p.Keys == t.pending;
    assert s.pendingAt - p.Keys == t.pendingAt;
    assert s.claimed - c.Keys == t.claimed;
    assert s.claimedAt - c.Keys == t.claimedAt;
    assert s.discardRequested - c.Keys == t.discardRequested;
  }
}
