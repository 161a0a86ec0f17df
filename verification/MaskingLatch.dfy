/**
  Admission of input grabs while hardware masking may be stopped. An emergency stop latches a pause
  locally; coordinator responses report a pause of their own. Requests are answered later, possibly
  after a stop began, so each one remembers the stop generation it was issued in.

  Issuing a request, applying its response, and the beginning and end of an emergency stop are the
  steps; any number of requests and stops may be under way at once.
*/
module MaskingLatch {
  import opened Wrappers

  type RequestId = nat

  datatype Command = Startup | Mask | Resume(oneMask: bool) | Poll | Restore | Inventory

  /** A startup, mask or global resume request may lift a pause; everything else, a poll or the
      resume of a single mask for example, only observes. */
  predicate IsTransition(c: Command) { c == Startup || c == Mask || c == Resume(false) }

  datatype Request = Request(command: Command, generation: nat, issuedAt: nat)

  datatype State = State(
    emergencyLatched: bool,
    observedPaused: bool,
    stopGeneration: nat,
    suspended: bool,
    inFlight: map<RequestId, Request>)

  datatype Op =
    | Issue(id: RequestId, command: Command)
    | Respond(id: RequestId, remappingSuspended: bool)
    | RequestFails(id: RequestId)
    | StopBegins
    | StopEnds

  function Init(suspended: bool): State { State(false, suspended, 0, suspended, map[]) }

  function SyncAdmission(s: State): State { s.(suspended := s.emergencyLatched || s.observedPaused) }

  function ApplyStatus(s: State, remappingSuspended: bool, generation: nat, transition: bool): State {
    SyncAdmission(
      if remappingSuspended then s.(observedPaused := true)
      else if transition && generation == s.stopGeneration then s.(observedPaused := false, emergencyLatched := false)
      else s)
  }

  predicate Enabled(s: State, op: Op) {
    match op
    case Issue(id, _) => id !in s.inFlight
    case Respond(id, _) => id in s.inFlight
    case RequestFails(id) => id in s.inFlight
    case _ => true
  }

  /** `at` is the number of steps taken before this one. */
  function Step(s: State, op: Op, at: nat): State
    requires Enabled(s, op)
  {
    match op
    case Issue(id, command) => s.(inFlight := s.inFlight[id := Request(command, s.stopGeneration, at)])
    case Respond(id, remappingSuspended) =>
      var r := s.inFlight[id];
      ApplyStatus(s, remappingSuspended, r.generation, IsTransition(r.command)).(inFlight := s.inFlight - {id})
    case RequestFails(id) => s.(inFlight := s.inFlight - {id})
    case StopBegins => SyncAdmission(s.(emergencyLatched := true, stopGeneration := s.stopGeneration + 1))
    case StopEnds => SyncAdmission(s.(stopGeneration := s.stopGeneration + 1))
  }

  // ---- Runs ----

  function Run(start: bool, ops: seq<Op>): Option<State> {
    if ops == [] then Some(Init(start))
    else
      var s := Run(start, ops[..|ops| - 1]);
      if s.None? || !Enabled(s.value, ops[|ops| - 1]) then None
      else Some(Step(s.value, ops[|ops| - 1], |ops| - 1))
  }

  predicate IsStop(op: Op) { op.StopBegins? || op.StopEnds? }

  function StopEvents(ops: seq<Op>): nat {
    if ops == [] then 0 else StopEvents(ops[..|ops| - 1]) + if IsStop(ops[|ops| - 1]) then 1 else 0
  }

  predicate NoStopsSince(ops: seq<Op>, from: nat) { forall j | from <= j < |ops| :: !IsStop(ops[j]) }

  lemma {:induction false} StopEventsSince(ops: seq<Op>, from: nat)
    requires from <= |ops|
    ensures StopEvents(ops[..from]) <= StopEvents(ops)
    ensures StopEvents(ops[..from]) == StopEvents(ops) <==> NoStopsSince(ops, from)
    decreases |ops|
  {
    if from == |ops| {
      assert ops[..from] == ops;
    } else {
      var front, last := ops[..|ops| - 1], ops[|ops| - 1];
      StopEventsSince(front, from);
      assert front[..from] == ops[..from];
    }
  }

  /** The request was issued as a step of the run, and remembers how many stops there were by then. */
  ghost predicate Issued(ops: seq<Op>, id: RequestId, r: Request) {
    && r.issuedAt < |ops| && ops[r.issuedAt] == Issue(id, r.command)
    && r.generation == StopEvents(ops[..r.issuedAt])
    && Untouched(ops, r.issuedAt + 1, |ops|, id)
  }

  predicate Concerns(op: Op, id: RequestId) {
    (op.Issue? || op.Respond? || op.RequestFails?) && op.id == id
  }

  /** No step in a stretch issues, answers or fails a request with this id. */
  ghost predicate Untouched(ops: seq<Op>, from: nat, to: nat, id: RequestId) {
    forall j | from <= j < to && j < |ops| :: !Concerns(ops[j], id)
  }

  ghost predicate Inv(ops: seq<Op>, s: State) {
    && s.stopGeneration == StopEvents(ops)
    && s.suspended == (s.emergencyLatched || s.observedPaused)
    && (forall id | id in s.inFlight :: Issued(ops, id, s.inFlight[id]))
  }

  lemma IssuedStays(ops: seq<Op>, op: Op, id: RequestId, r: Request)
    requires Issued(ops, id, r) && !Concerns(op, id)
    ensures Issued(ops + [op], id, r)
  {
    assert (ops + [op])[..r.issuedAt] == ops[..r.issuedAt];
  }

  lemma StepKeeps(ops: seq<Op>, s: State, op: Op)
    requires Inv(ops, s) && Enabled(s, op)
    ensures Inv(ops + [op], Step(s, op, |ops|))
  {
    assert (ops + [op])[..|ops|] == ops;
    var t := Step(s, op, |ops|);
    forall id | id in t.inFlight ensures Issued(ops + [op], id, t.inFlight[id]) {
      if !Concerns(op, id) { IssuedStays(ops, op, id, s.inFlight[id]); }
    }
  }

  lemma {:induction false} RunInv(start: bool, ops: seq<Op>)
    requires Run(start, ops).Some?
    ensures Inv(ops, Run(start, ops).value)
  {
    if ops != [] {
      var front := ops[..|ops| - 1];
      RunInv(start, front);
      StepKeeps(front, Run(start, front).value, ops[|ops| - 1]);
      assert front + [ops[|ops| - 1]] == ops;
    }
  }

  /** A startup, a mask or a resume of everything is asked for. */
  ghost predicate Asked(op: Op, id: RequestId) {
    op == Issue(id, Startup) || op == Issue(id, Mask) || op == Issue(id, Resume(false))
  }

  /** The last step is an unsuspended answer to a transition request that was issued after `from`
      and has seen no emergency stop begin or end since. Ids may be used again, so the request is the
      latest with that id. */
  ghost predicate Lifts(ops: seq<Op>, from: nat) {
    && ops != []
    && ops[|ops| - 1].Respond? && !ops[|ops| - 1].remappingSuspended
    && exists m ::
         && from <= m < |ops| - 1
         && Asked(ops[m], ops[|ops| - 1].id)
         && Untouched(ops, m + 1, |ops| - 1, ops[|ops| - 1].id)
         && NoStopsSince(ops, m)
  }

  /** Step `k` lifts the stop that began at step `i`. */
  ghost predicate LiftsAt(ops: seq<Op>, k: nat, i: nat) { k < |ops| && Lifts(ops[..k + 1], i + 1) }

  /** A suspended machine stays suspended in a step, unless the step lifts it. */
  lemma OnlyALiftResumes(start: bool, ops: seq<Op>)
    requires ops != [] && Run(start, ops).Some? && Run(start, ops[..|ops| - 1]).value.suspended
    ensures !Run(start, ops).value.suspended ==> Lifts(ops, 0)
  {
    var front, last := ops[..|ops| - 1], ops[|ops| - 1];
    RunInv(start, front);
    var s := Run(start, front).value;
    if !Run(start, ops).value.suspended {
      ResumingStep(s, last, |front|);
      var r := s.inFlight[last.id];
      assert Issued(front, last.id, r);
      StopEventsSince(front, r.issuedAt);
      assert Asked(ops[r.issuedAt], last.id);
      assert NoStopsSince(ops, r.issuedAt) && Untouched(ops, r.issuedAt + 1, |front|, last.id);
    }
  }

  /** Only the answer to an up-to-date transition request admits grabs again. */
  lemma ResumingStep(s: State, op: Op, at: nat)
    requires Enabled(s, op) && s.suspended == (s.emergencyLatched || s.observedPaused)
    requires s.suspended && !Step(s, op, at).suspended
    ensures op.Respond? && !op.remappingSuspended
    ensures IsTransition(s.inFlight[op.id].command) && s.inFlight[op.id].generation == s.stopGeneration
  {
  }

  /** Once an emergency stop has begun at step `i`, remapping is suspended again unless some later
      step lifted it: an unsuspended answer to a startup, mask or global resume request issued after
      the stop began, with no stop beginning or ending in between. Polls and older requests never
      lift it. */
  lemma {:induction false} StopHolds(start: bool, ops: seq<Op>, i: nat)
    requires Run(start, ops).Some? && i < |ops| && ops[i] == StopBegins
    ensures Run(start, ops).value.suspended || exists k :: i < k && LiftsAt(ops, k, i)
    decreases |ops|
  {
    var front := ops[..|ops| - 1];
    if i < |ops| - 1 {
      StopHolds(start, front, i);
      if Run(start, front).value.suspended {
        OnlyALiftResumes(start, ops);
        if !Run(start, ops).value.suspended {
          LiftAfterStop(ops, i);
          assert ops[..(|ops| - 1) + 1] == ops;
          assert LiftsAt(ops, |ops| - 1, i);
        }
      } else {
        var k :| i < k && LiftsAt(front, k, i);
        assert front[..k + 1] == ops[..k + 1];
        assert LiftsAt(ops, k, i);
      }
    }
  }

  /** A request that has seen no stop since it was issued was issued after every stop. */
  lemma LiftAfterStop(ops: seq<Op>, i: nat)
    requires Lifts(ops, 0) && i < |ops| && IsStop(ops[i])
    ensures Lifts(ops, i + 1)
  {
    var id := ops[|ops| - 1].id;
    var m :| 0 <= m < |ops| - 1 && Asked(ops[m], id) && Untouched(ops, m + 1, |ops| - 1, id) && NoStopsSince(ops, m);
    assert i < m;
  }

  /** A poll never lifts, nor does the resume of one mask, a restore or an inventory: the answer to
      such a request does not, whatever requests there were before. */
  lemma ObserverNeverLifts(ops: seq<Op>, m: nat, id: RequestId, command: Command, suspended: bool)
    requires m < |ops| - 1 && ops[m] == Issue(id, command) && command in {Poll, Restore, Inventory, Resume(true)}
    requires Untouched(ops, m + 1, |ops| - 1, id) && ops[|ops| - 1] == Respond(id, suspended)
    ensures !Lifts(ops, 0)
  {
    forall k | 0 <= k < |ops| - 1 && Asked(ops[k], id) ensures !Untouched(ops, k + 1, |ops| - 1, id) {
      assert Concerns(ops[k], id) && Concerns(ops[m], id);
    }
  }

  /** A lift does lift: whatever was latched or observed before, remapping is admitted again. */
  lemma LiftResumes(start: bool, ops: seq<Op>)
    requires ops != [] && Run(start, ops).Some?
    requires var front, last := ops[..|ops| - 1], ops[|ops| - 1];
             last.Respond? && !last.remappingSuspended
             && var r := Run(start, front).value.inFlight[last.id];
                r.command in {Startup, Mask, Resume(false)} && NoStopsSince(front, r.issuedAt)
    ensures !Run(start, ops).value.suspended
  {
    var front, last := ops[..|ops| - 1], ops[|ops| - 1];
    RunInv(start, front);
    StopEventsSince(front, Run(start, front).value.inFlight[last.id].issuedAt);
  }

  /** Any answer that reports a pause suspends, whatever it answers. */
  lemma AnyAnswerMayPause(start: bool, ops: seq<Op>)
    requires ops != [] && Run(start, ops).Some? && ops[|ops| - 1].Respond? && ops[|ops| - 1].remappingSuspended
    ensures Run(start, ops).value.suspended
  {
  }

  // ---- The masking object ----

  /** Every emergency stop of a run still holds, or was lifted by a later step. */
  ghost predicate StopsHold(ops: seq<Op>, suspended: bool) {
    forall i | 0 <= i < |ops| && ops[i] == StopBegins :: suspended || exists k :: i < k && LiftsAt(ops, k, i)
  }

  lemma AllStopsHold(start: bool, ops: seq<Op>)
    requires Run(start, ops).Some?
    ensures StopsHold(ops, Run(start, ops).value.suspended)
  {
    forall i | 0 <= i < |ops| && ops[i] == StopBegins
      ensures Run(start, ops).value.suspended || exists k :: i < k && LiftsAt(ops, k, i)
    {
      StopHolds(start, ops, i);
    }
  }

  lemma RunNext(start: bool, ops: seq<Op>, op: Op)
    requires Run(start, ops).Some? && Enabled(Run(start, ops).value, op)
    ensures Run(start, ops + [op]) == Some(Step(Run(start, ops).value, op, |ops|))
  {
    assert (ops + [op])[..|ops|] == ops;
  }

  /** What one step of the object guarantees about its whole past: stops hold until lifted, and only
      a lift admits grabs again. */
  lemma HistoryGrows(start: bool, ops: seq<Op>, s: State, op: Op)
    requires Run(start, ops) == Some(s) && Enabled(s, op)
    ensures var t := Step(s, op, |ops|);
            && Run(start, ops + [op]) == Some(t) && Inv(ops + [op], t)
            && StopsHold(ops + [op], t.suspended)
            && (s.suspended && !t.suspended ==> Lifts(ops + [op], 0))
  {
    RunNext(start, ops, op);
    RunInv(start, ops + [op]);
    AllStopsHold(start, ops + [op]);
    assert (ops + [op])[..|ops|] == ops;
    if s.suspended { OnlyALiftResumes(start, ops + [op]); }
  }

  class HardwareMasking {
    var emergencyLatched: bool
    var observedPaused: bool
    var stopGeneration: nat
    var maskingSuspended: bool
    ghost const start: bool
    ghost var inFlight: map<RequestId, Request>
    ghost var history: seq<Op>

    ghost function Abs(): State
      reads this
    {
      State(emergencyLatched, observedPaused, stopGeneration, maskingSuspended, inFlight)
    }

    /** The fields are those that the steps so far lead to. */
    ghost predicate Valid()
      reads this
    {
      Run(start, history) == Some(Abs())
    }

    constructor (suspended: bool)
      ensures Valid() && history == [] && maskingSuspended == suspended
    {
      emergencyLatched, observedPaused, stopGeneration, maskingSuspended := false, suspended, 0, suspended;
      start, inFlight, history := suspended, map[], [];
    }

    method Sync()
      modifies this`maskingSuspended
      ensures Abs() == SyncAdmission(old(Abs()))
    {
      maskingSuspended := emergencyLatched || observedPaused;
    }

    /** Apply a status. Afterwards grabs are admitted exactly if the status reports no pause, and they
        were admitted before or the status answers an up-to-date transition request. */
    method Apply(remappingSuspended: bool, generation: nat, transition: bool)
      requires maskingSuspended == (emergencyLatched || observedPaused)
      modifies this`emergencyLatched, this`observedPaused, this`maskingSuspended
      ensures Abs() == ApplyStatus(old(Abs()), remappingSuspended, generation, transition)
      ensures !maskingSuspended <==>
              !remappingSuspended && (!old(maskingSuspended) || (transition && generation == stopGeneration))
    {
      if remappingSuspended {
        observedPaused := true;
      } else if transition && generation == stopGeneration {
        observedPaused := false;
        emergencyLatched := false;
      }
      Sync();
    }

    /** Before a request is sent, its generation is noted. Admission stays as it is. */
    method IssueRequest(ghost id: RequestId, ghost command: Command) returns (generation: nat)
      requires Valid() && id !in inFlight
      modifies this`inFlight, this`history
      ensures Valid() && history == old(history) + [Issue(id, command)]
      ensures inFlight == old(inFlight)[id := Request(command, generation, old(|history|))]
      ensures generation == StopEvents(old(history)) && StopsHold(history, maskingSuspended)
    {
      RunInv(start, history);
      HistoryGrows(start, history, Abs(), Issue(id, command));
      generation := stopGeneration;
      inFlight := inFlight[id := Request(command, generation, |history|)];
      history := history + [Issue(id, command)];
    }

    /** The response of a request arrives. Every stop in the past still holds unless a lift followed
        it, and if this response admits grabs again, it is such a lift. */
    method OnResponse(ghost id: RequestId, remappingSuspended: bool, generation: nat, command: Command)
      requires Valid() && id in inFlight
      requires inFlight[id].generation == generation && inFlight[id].command == command
      modifies this
      ensures Valid() && history == old(history) + [Respond(id, remappingSuspended)]
      ensures StopsHold(history, maskingSuspended)
      ensures old(maskingSuspended) && !maskingSuspended ==>
                Lifts(history, 0) && command in {Startup, Mask, Resume(false)}
      ensures command == Poll && old(maskingSuspended) ==> maskingSuspended
    {
      RunInv(start, history);
      HistoryGrows(start, history, Abs(), Respond(id, remappingSuspended));
      Apply(remappingSuspended, generation, IsTransition(command));
      inFlight := inFlight - {id};
      history := history + [Respond(id, remappingSuspended)];
    }

    /** A request fails: nothing is learnt from it. */
    method OnFailure(ghost id: RequestId)
      requires Valid() && id in inFlight
      modifies this`inFlight, this`history
      ensures Valid() && history == old(history) + [RequestFails(id)] && inFlight == old(inFlight) - {id}
      ensures StopsHold(history, maskingSuspended)
    {
      HistoryGrows(start, history, Abs(), RequestFails(id));
      inFlight := inFlight - {id};
      history := history + [RequestFails(id)];
    }

    /** A stop begins: grabs are suspended at once, and no request that is under way can lift it. */
    method BeginRestore()
      requires Valid()
      modifies this`emergencyLatched, this`stopGeneration, this`maskingSuspended, this`history
      ensures Valid() && history == old(history) + [StopBegins]
      ensures maskingSuspended && forall id | id in inFlight :: inFlight[id].generation < stopGeneration
    {
      RunInv(start, history);
      OlderRequests(history, Abs());
      HistoryGrows(start, history, Abs(), StopBegins);
      emergencyLatched := true;
      stopGeneration := stopGeneration + 1;
      Sync();
      history := history + [StopBegins];
    }

    /** A stop ends: grabs stay suspended if they were, and no request issued while it ran can lift it. */
    method EndRestore()
      requires Valid()
      modifies this`stopGeneration, this`maskingSuspended, this`history
      ensures Valid() && history == old(history) + [StopEnds]
      ensures maskingSuspended == old(maskingSuspended) && StopsHold(history, maskingSuspended)
      ensures forall id | id in inFlight :: inFlight[id].generation < stopGeneration
    {
      RunInv(start, history);
      OlderRequests(history, Abs());
      HistoryGrows(start, history, Abs(), StopEnds);
      stopGeneration := stopGeneration + 1;
      Sync();
      history := history + [StopEnds];
    }
  }

  /** Requests remember at most the present generation. */
  lemma OlderRequests(ops: seq<Op>, s: State)
    requires Inv(ops, s)
    ensures forall id | id in s.inFlight :: s.inFlight[id].generation <= s.stopGeneration
  {
    forall id | id in s.inFlight ensures s.inFlight[id].generation <= s.stopGeneration {
      StopEventsSince(ops, s.inFlight[id].issuedAt);
    }
  }
}
