/**
  Pausing input and restoring hardware around system sleep. The login daemon signals "about to
  sleep" and "woke up"; the signal handler notes the request at once and queues it, and one worker
  task handles the queue.

  A signal and each stretch of the worker between two awaits is one step. Callbacks do not throw.
*/
module SleepModel {
  import opened Wrappers

  datatype Worker = Idle | Preparing | CleaningHardware | AcquiringInhibitor

  datatype Hardware = Resumed | CleanedUp

  datatype State = State(
    hasCleanup: bool,
    sleepRequested: bool,
    pendingNeutralizations: int,
    runtimePaused: bool,
    queue: seq<bool>,
    worker: Worker,
    hardware: Hardware,
    resumeCalls: nat)

  datatype Op =
    | Signal(preparing: bool)
    | WorkerTakes
    | PrepareDone
    | CleanupDone
    | AcquireDone

  function Init(hasCleanup: bool): State { State(hasCleanup, false, 0, false, [], Idle, Resumed, 0) }

  function ResumeIfReady(s: State): State {
    if !s.sleepRequested && s.pendingNeutralizations == 0 then s.(runtimePaused := false) else s
  }

  function OnSignal(s: State, preparing: bool): State {
    var s1 := s.(sleepRequested := preparing);
    var s2 := if preparing
              then s1.(pendingNeutralizations := s1.pendingNeutralizations + 1, runtimePaused := true)
              else ResumeIfReady(s1);
    s2.(queue := s2.queue + [preparing])
  }

  /** An old wake-up does nothing while a newer sleep is wanted or being prepared. */
  function TakeEvent(s: State): State
    requires s.queue != []
  {
    var s' := s.(queue := s.queue[1..]);
    if s.queue[0] then s'.(worker := Preparing)
    else if s.sleepRequested || s.pendingNeutralizations != 0 then s'
    else ResumeIfReady(s').(hardware := Resumed, resumeCalls := s.resumeCalls + 1, worker := AcquiringInhibitor)
  }

  function FinishPrepare(s: State): State {
    var s' := ResumeIfReady(s.(pendingNeutralizations := s.pendingNeutralizations - 1));
    if s.hasCleanup then s'.(worker := CleaningHardware, hardware := CleanedUp) else s'.(worker := Idle)
  }

  predicate Enabled(s: State, op: Op) {
    match op
    case Signal(_) => true
    case WorkerTakes => s.worker == Idle && s.queue != []
    case PrepareDone => s.worker == Preparing
    case CleanupDone => s.worker == CleaningHardware
    case AcquireDone => s.worker == AcquiringInhibitor
  }

  function Step(s: State, op: Op): State
    requires Enabled(s, op)
  {
    match op
    case Signal(preparing) => OnSignal(s, preparing)
    case WorkerTakes => TakeEvent(s)
    case PrepareDone => FinishPrepare(s)
    case CleanupDone => s.(worker := Idle)
    case AcquireDone => s.(worker := Idle)
  }

  // ---- The invariant ----

  function Suspends(queue: seq<bool>): nat {
    if queue == [] then 0 else Suspends(queue[..|queue| - 1]) + if queue[|queue| - 1] then 1 else 0
  }

  lemma {:induction false} SuspendsHead(queue: seq<bool>)
    requires queue != []
    ensures Suspends(queue) == (if queue[0] then 1 else 0) + Suspends(queue[1..])
  {
    if |queue| > 1 {
      SuspendsHead(queue[..|queue| - 1]);
      assert queue[..|queue| - 1][1..] == queue[1..][..|queue| - 2];
    } else {
      assert queue[..0] == [] && queue[1..] == [];
    }
  }

  /** Suspends that are queued or being prepared. */
  function Outstanding(s: State): nat { Suspends(s.queue) + if s.worker == Preparing then 1 else 0 }

  ghost predicate Inv(s: State) {
    && s.pendingNeutralizations == Outstanding(s)
    && (s.runtimePaused <==> s.sleepRequested || Outstanding(s) > 0)
    && (s.queue != [] ==> s.queue[|s.queue| - 1] == s.sleepRequested)
    && (s.queue == [] ==>
          match s.worker
          case Idle => s.hasCleanup ==> (s.hardware == Resumed <==> !s.sleepRequested)
          case Preparing => s.sleepRequested
          case CleaningHardware => s.sleepRequested && s.hardware == CleanedUp
          case AcquiringInhibitor => !s.sleepRequested && s.hardware == Resumed)
  }

  lemma SignalCounts(s: State, preparing: bool)
    ensures Outstanding(OnSignal(s, preparing)) == Outstanding(s) + if preparing then 1 else 0
  {
    assert (s.queue + [preparing])[..|s.queue|] == s.queue;
  }

  lemma StepKeeps(s: State, op: Op)
    requires Inv(s) && Enabled(s, op)
    ensures Inv(Step(s, op))
  {
    match op
    case Signal(preparing) => assert (s.queue + [preparing])[..|s.queue|] == s.queue;
    case WorkerTakes => SuspendsHead(s.queue);
    case _ =>
  }

  // ---- Runs ----

  function Run(hasCleanup: bool, ops: seq<Op>): Option<State> {
    if ops == [] then Some(Init(hasCleanup))
    else
      var s := Run(hasCleanup, ops[..|ops| - 1]);
      if s.None? || !Enabled(s.value, ops[|ops| - 1]) then None else Some(Step(s.value, ops[|ops| - 1]))
  }

  /** Across every interleaving: the counter is the number of suspends queued or in progress, and
      input is paused exactly while sleep is wanted or a suspend is outstanding. */
  lemma {:induction false} EveryInterleaving(hasCleanup: bool, ops: seq<Op>)
    requires Run(hasCleanup, ops).Some?
    ensures Inv(Run(hasCleanup, ops).value) && Run(hasCleanup, ops).value.hasCleanup == hasCleanup
  {
    if ops != [] {
      EveryInterleaving(hasCleanup, ops[..|ops| - 1]);
      StepKeeps(Run(hasCleanup, ops[..|ops| - 1]).value, ops[|ops| - 1]);
    }
  }

  /** Hardware is only ever resumed when no sleep is wanted, none is queued and none is in progress. */
  lemma NoResumeDuringSuspend(hasCleanup: bool, ops: seq<Op>, op: Op)
    requires Run(hasCleanup, ops).Some? && Enabled(Run(hasCleanup, ops).value, op)
    requires Step(Run(hasCleanup, ops).value, op).resumeCalls > Run(hasCleanup, ops).value.resumeCalls
    ensures var s := Run(hasCleanup, ops).value;
            && op == WorkerTakes && s.worker == Idle && !s.sleepRequested && Outstanding(s) == 0
            && !Step(s, op).runtimePaused
  {
    EveryInterleaving(hasCleanup, ops);
  }

  /** With nothing left to do, hardware is resumed exactly when no sleep is requested. */
  lemma SettledHardware(ops: seq<Op>)
    requires Run(true, ops).Some?
    requires Run(true, ops).value.queue == [] && Run(true, ops).value.worker == Idle
    ensures Run(true, ops).value.hardware == Resumed <==> !Run(true, ops).value.sleepRequested
  {
    EveryInterleaving(true, ops);
  }

  /** What the runtime has been told last: the pending work decides it, not the order of the steps. */
  lemma PausedIff(hasCleanup: bool, ops: seq<Op>)
    requires Run(hasCleanup, ops).Some?
    ensures var s := Run(hasCleanup, ops).value;
            && s.pendingNeutralizations == Outstanding(s)
            && (s.runtimePaused <==> s.sleepRequested || Outstanding(s) > 0)
  {
    EveryInterleaving(hasCleanup, ops);
  }

  // ---- The coordinator object ----

  class SleepCoordinator {
    const hasCleanup: bool
    var sleepRequested: bool
    var pendingNeutralizations: int
    var runtimePaused: bool
    var queue: seq<bool>
    var worker: Worker
    var hardware: Hardware
    var resumeCalls: nat

    ghost function Abs(): State
      reads this
    {
      State(hasCleanup, sleepRequested, pendingNeutralizations, runtimePaused, queue, worker, hardware, resumeCalls)
    }

    ghost predicate Valid()
      reads this
    {
      Inv(Abs())
    }

    /** Input is paused exactly while sleep is requested or a suspend is queued or being prepared. */
    ghost predicate PausedAsNeeded()
      reads this
    {
      runtimePaused <==> sleepRequested || Outstanding(Abs()) > 0
    }

    /** With nothing left to do, the hardware is in the state that the last signal asked for. */
    ghost predicate SettlesRight()
      reads this
    {
      hasCleanup && queue == [] && worker == Idle ==> (hardware == Resumed <==> !sleepRequested)
    }

    constructor (hasCleanup: bool)
      ensures Valid() && Abs() == Init(hasCleanup)
    {
      this.hasCleanup := hasCleanup;
      sleepRequested, pendingNeutralizations, runtimePaused := false, 0, false;
      queue, worker, hardware, resumeCalls := [], Idle, Resumed, 0;
    }

    /** A signal arrives. Input is paused before the handler returns if sleep is coming, and a wake-up
        lets it go on only if no suspend is outstanding. */
    method OnPrepareForSleep(preparing: bool)
      requires Valid()
      modifies this
      ensures Abs() == Step(old(Abs()), Signal(preparing))
      ensures Valid()
      ensures PausedAsNeeded() && SettlesRight()
      ensures Outstanding(Abs()) == old(Outstanding(Abs())) + if preparing then 1 else 0
      ensures preparing ==> runtimePaused
      ensures hardware == old(hardware) && resumeCalls == old(resumeCalls)
    {
      StepKeeps(Abs(), Signal(preparing));
      SignalCounts(Abs(), preparing);
      NoteSignal(preparing);
    }

    method NoteSignal(preparing: bool)
      modifies this
      ensures Abs() == OnSignal(old(Abs()), preparing)
    {
      sleepRequested := preparing;
      if preparing {
        pendingNeutralizations := pendingNeutralizations + 1;
        PauseRuntime();
      } else {
        ResumeWhenReady();
      }
      queue := queue + [preparing];
    }

    method PauseRuntime()
      modifies this`runtimePaused
      ensures runtimePaused
    {
      if !runtimePaused { runtimePaused := true; }
    }

    method ResumeWhenReady()
      modifies this`runtimePaused
      ensures Abs() == ResumeIfReady(old(Abs()))
    {
      if !sleepRequested && pendingNeutralizations == 0 && runtimePaused {
        runtimePaused := false;
      }
    }

    /** The worker takes the next event, up to its first await. Hardware is resumed only when no sleep
        is requested, queued or in progress, and input runs by then; an outdated wake-up is dropped. */
    method WorkerLoop()
      requires Valid() && worker == Idle && queue != []
      modifies this
      ensures Valid() && Abs() == Step(old(Abs()), WorkerTakes)
      ensures PausedAsNeeded() && SettlesRight() && Outstanding(Abs()) == old(Outstanding(Abs()))
      ensures queue == old(queue)[1..] && sleepRequested == old(sleepRequested)
      ensures old(queue)[0] ==> worker == Preparing && hardware == old(hardware) && resumeCalls == old(resumeCalls)
      ensures !old(queue)[0] && !sleepRequested && Outstanding(Abs()) == 0 ==>
                hardware == Resumed && resumeCalls == old(resumeCalls) + 1 && worker == AcquiringInhibitor
      ensures resumeCalls > old(resumeCalls) ==> !sleepRequested && Outstanding(Abs()) == 0 && !runtimePaused
      ensures !old(queue)[0] && (sleepRequested || Outstanding(Abs()) > 0) ==>
                hardware == old(hardware) && resumeCalls == old(resumeCalls) && worker == Idle
    {
      StepKeeps(Abs(), WorkerTakes);
      SuspendsHead(queue);
      var preparing := queue[0];
      queue := queue[1..];
      if preparing {
        worker := Preparing;
        return;
      }
      if sleepRequested || pendingNeutralizations != 0 {
        return;
      }
      ResumeWhenReady();
      hardware, resumeCalls := Resumed, resumeCalls + 1;
      worker := AcquiringInhibitor;
    }

    /** The runtime is neutralised. One suspend fewer is outstanding, and input goes on if it was the
        last one and the system has woken up meanwhile. */
    method AfterPrepare()
      requires Valid() && worker == Preparing
      modifies this
      ensures Valid() && Abs() == Step(old(Abs()), PrepareDone)
      ensures PausedAsNeeded() && SettlesRight() && Outstanding(Abs()) == old(Outstanding(Abs())) - 1
      ensures resumeCalls == old(resumeCalls) && queue == old(queue) && sleepRequested == old(sleepRequested)
      ensures if hasCleanup then hardware == CleanedUp && worker == CleaningHardware
              else hardware == old(hardware) && worker == Idle
    {
      StepKeeps(Abs(), PrepareDone);
      pendingNeutralizations := pendingNeutralizations - 1;
      ResumeWhenReady();
      if hasCleanup {
        hardware, worker := CleanedUp, CleaningHardware;
      } else {
        worker := Idle;
      }
    }

    /** Cleaning the hardware or taking the inhibitor is done. */
    method BackToQueue(ghost op: Op)
      requires Valid()
      requires (op == CleanupDone && worker == CleaningHardware) || (op == AcquireDone && worker == AcquiringInhibitor)
      modifies this`worker
      ensures Valid() && Abs() == Step(old(Abs()), op)
      ensures PausedAsNeeded() && SettlesRight() && worker == Idle
    {
      StepKeeps(Abs(), op);
      worker := Idle;
    }
  }
}
