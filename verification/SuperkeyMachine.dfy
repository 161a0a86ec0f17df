/**
  The superkey machine as the daemon runs it: fields that the handlers update in place, and loops
  that press and release lists of actions. Every handler takes exactly the step of `Superkey`.
*/
module SuperkeyMachineModule {
  import opened Wrappers
  import opened Superkey
  import opened SuperkeyOutput

  class SuperkeyMachine {
    var config: Config
    var phase: Phase
    var pressStartedAt: Option<real>
    var holdTimer: Option<real>
    var doubleTapTimer: Option<real>
    var heldActions: seq<Held>
    var running: bool
    var retiring: bool
    ghost var trace: seq<Output>
    ghost var fired: seq<Slot>
    ghost var gesture: Gesture

    ghost function Abs(): State
      reads this
    {
      State(config, phase, pressStartedAt, holdTimer, doubleTapTimer, heldActions, running, retiring,
            trace, fired, gesture)
    }

    ghost predicate Valid()
      reads this
    {
      Inv(Abs())
    }

    constructor (config: Config)
      ensures Abs() == Init(config)
      ensures Valid()
    {
      this.config := config;
      phase, pressStartedAt, holdTimer, doubleTapTimer := Idle, None, None, None;
      heldActions, running, retiring := [], true, false;
      trace, fired := [], [];
      gesture := Gesture(config, 0.0, false, None, None, false, None);
    }

    // ---- Running actions ----

    method ExecuteActionsDown(actions: seq<Action>)
      modifies this`heldActions, this`trace
      ensures heldActions == old(heldActions) + Live(actions, 0)
      ensures trace == old(trace) + Downs(Live(actions, 0))
    {
      var index := 0;
      while index < |actions|
        invariant 0 <= index <= |actions|
        invariant heldActions + Live(actions, index) == old(heldActions) + Live(actions, 0)
        invariant trace + Downs(Live(actions, index)) == old(trace) + Downs(Live(actions, 0))
      {
        var h := (index, actions[index]);
        LiveNext(actions, index, heldActions, trace);
        heldActions := heldActions + [h];
        trace := trace + [Down(h)];
        if h.1.isEmergencyReset { return; }
        index := index + 1;
      }
    }

    method ExecuteHeldActionsUp()
      modifies this`heldActions, this`trace
      ensures heldActions == [] && trace == old(trace) + UpsReversed(old(heldActions))
    {
      while heldActions != []
        invariant trace + UpsReversed(heldActions) == old(trace) + UpsReversed(old(heldActions))
        decreases |heldActions|
      {
        var h := heldActions[|heldActions| - 1];
        UpsNext(heldActions, trace);
        heldActions := heldActions[..|heldActions| - 1];
        trace := trace + [Up(h)];
      }
    }

    /** Press the actions and release them in reverse; what was held before stays held. */
    method ExecuteActionsTap(actions: seq<Action>)
      modifies this`trace
      ensures trace == old(trace) + Pressed(actions)
    {
      var pressed := PressForTap(actions);
      ghost var before := trace;
      while pressed != []
        invariant trace + UpsReversed(pressed) == before + UpsReversed(Live(actions, 0))
        decreases |pressed|
      {
        var h := pressed[|pressed| - 1];
        UpsNext(pressed, trace);
        pressed := pressed[..|pressed| - 1];
        trace := trace + [Up(h)];
      }
      assert before + UpsReversed(Live(actions, 0)) == old(trace) + Pressed(actions);
    }

    method PressForTap(actions: seq<Action>) returns (pressed: seq<Held>)
      modifies this`trace
      ensures pressed == Live(actions, 0) && trace == old(trace) + Downs(pressed)
    {
      var index := 0;
      pressed := [];
      while index < |actions|
        invariant 0 <= index <= |actions|
        invariant pressed + Live(actions, index) == Live(actions, 0)
        invariant trace + Downs(Live(actions, index)) == old(trace) + Downs(Live(actions, 0))
      {
        var h := (index, actions[index]);
        LiveNext(actions, index, pressed, trace);
        pressed := pressed + [h];
        trace := trace + [Down(h)];
        if h.1.isEmergencyReset { return; }
        index := index + 1;
      }
    }

    method EmitTap(slot: Slot)
      modifies this`trace, this`fired
      ensures Abs() == EmitTapped(old(Abs()), slot)
    {
      var actions := ActionsOf(config, slot);
      if actions != [] {
        fired := fired + [slot];
        ExecuteActionsTap(actions);
      }
    }

    method EmitHoldDown(slot: Slot)
      modifies this`heldActions, this`trace, this`fired
      ensures Abs() == EmitDown(old(Abs()), slot)
    {
      var actions := ActionsOf(config, slot);
      if actions != [] {
        fired := fired + [slot];
        ExecuteActionsDown(actions);
      }
    }

    method GoIdle()
      modifies this`phase, this`retiring, this`config
      ensures Abs() == BecomeIdle(old(Abs()))
    {
      phase := Idle;
      if retiring {
        retiring := false;
        config := DEFAULT_CONFIG;
      }
    }

    // ---- Handlers ----

    /** Every handler and timer takes its step, keeps the machine valid, puts out what it should, and
        records the times of the gesture. */
    ghost predicate Takes(s: State, op: Op)
      reads this
    {
      Abs() == Step(s, op) && Inv(Abs()) && OutputFits(s, op, Abs()) && Records(s, op, Abs())
    }

    /** Going down emits nothing and fires nothing; it starts a gesture or the second press of one. */
    method OnDown(now: real)
      requires Valid()
      modifies this
      ensures Takes(old(Abs()), KeyDown(now)) && Valid()
      ensures trace == old(trace) && heldActions == old(heldActions) && fired <= old(fired)
      ensures old(phase) == Idle || old(phase) == UpWait ==>
                pressStartedAt == Some(now) && doubleTapTimer.None? && (holdTimer.Some? ==> NeedsHold(config))
    {
      InvKeeps(Abs(), KeyDown(now));
      StartPress(now);
    }

    method StartPress(now: real)
      modifies this
      ensures Abs() == Step(old(Abs()), KeyDown(now))
    {
      if phase == Idle {
        phase, pressStartedAt := DownWait, Some(now);
        if config.hold != [] { holdTimer := Some(now + Seconds(config.holdThresholdMs)); }
        fired, gesture := [], Gesture(config, now, false, None, None, false, None);
      } else if phase == UpWait {
        doubleTapTimer := None;
        phase, pressStartedAt := DownWait2, Some(now);
        if config.tapHold != [] || config.hold != [] { holdTimer := Some(now + Seconds(config.holdThresholdMs)); }
        gesture := gesture.(down2 := Some(now));
      }
    }

    /** Going up ends the gesture, except after a tap that a second press may follow; whenever it ends
        nothing is left pressed. A slot that fires runs the actions configured for it. */
    method OnUp(now: real)
      requires Valid()
      modifies this
      ensures Takes(old(Abs()), KeyUp(now)) && Valid()
      ensures phase == Idle || phase == UpWait
      ensures phase == Idle ==> OpenStack(trace) == Some([])
      ensures old(trace) <= trace
      ensures FiresNow(old(Abs()), Abs(), Tap) ==> Tapping(trace[|old(trace)|..], old(config).tap)
      ensures FiresNow(old(Abs()), Abs(), DoubleTap) ==> Tapping(trace[|old(trace)|..], old(config).doubleTap)
    {
      ghost var s := Abs();
      InvKeeps(s, KeyUp(now));
      TapsListed(s, KeyUp(now), Step(s, KeyUp(now)));
      EndPress(now);
    }

    method EndPress(now: real)
      requires Valid()
      modifies this
      ensures Abs() == Step(old(Abs()), KeyUp(now))
    {
      match phase {
        case DownWait => OnFirstUp(now);
        case DownWait2 => OnSecondUp(now);
        case Holding => OnHoldRelease(now, config.hold);
        case TapHolding => OnHoldRelease(now, config.tapHold);
        case _ =>
      }
    }

    method OnFirstUp(now: real)
      modifies this
      ensures Abs() == FirstUp(old(Abs()), now)
    {
      var isTap := IsTap(config, pressStartedAt, now);
      pressStartedAt, holdTimer := None, None;
      gesture := gesture.(up1 := Some(now));
      if !isTap {
        GoIdle();
      } else if config.doubleTap != [] || config.tapHold != [] {
        phase := UpWait;
        doubleTapTimer := Some(now + Seconds(config.doubleTapWindowMs));
      } else {
        EmitTap(Tap);
        GoIdle();
      }
    }

    method OnSecondUp(now: real)
      modifies this
      ensures Abs() == SecondUp(old(Abs()), now)
    {
      var isTap := IsTap(config, pressStartedAt, now);
      pressStartedAt, holdTimer := None, None;
      gesture := gesture.(up2 := Some(now));
      if isTap && config.doubleTap != [] {
        EmitTap(DoubleTap);
      } else {
        EmitTap(Tap);
      }
      GoIdle();
    }

    /** The held actions go up only if the slot has actions; it always does when it is being held. */
    method OnHoldRelease(now: real, slotActions: seq<Action>)
      requires slotActions != []
      modifies this
      ensures Abs() == HoldUp(old(Abs()), now)
    {
      gesture := if gesture.down2.Some? then gesture.(up2 := Some(now)) else gesture.(up1 := Some(now));
      if slotActions != [] {
        ExecuteHeldActionsUp();
      }
      GoIdle();
    }

    method HoldTimeout(ghost now: real)
      requires Valid() && holdTimer.Some?
      modifies this
      ensures Takes(old(Abs()), Op.HoldTimeout(now)) && Valid()
    {
      InvKeeps(Abs(), Op.HoldTimeout(now));
      StartHolding();
    }

    method StartHolding()
      modifies this
      ensures Abs() == HoldFires(old(Abs()))
    {
      holdTimer := None;
      if !running { return; }
      if phase == DownWait {
        gesture := gesture.(over1 := true);
        pressStartedAt, phase := None, Holding;
        EmitHoldDown(Hold);
      } else if phase == DownWait2 {
        gesture := gesture.(over2 := true);
        pressStartedAt := None;
        if config.tapHold == [] {
          phase := Holding;
          EmitHoldDown(Hold);
        } else {
          phase := TapHolding;
          EmitHoldDown(TapHold);
        }
      }
    }

    method DoubleTapTimeout(ghost now: real)
      requires Valid() && doubleTapTimer.Some?
      modifies this
      ensures Takes(old(Abs()), Op.DoubleTapTimeout(now)) && Valid()
      ensures old(trace) <= trace
      ensures FiresNow(old(Abs()), Abs(), Tap) ==> Tapping(trace[|old(trace)|..], old(config).tap)
    {
      ghost var s := Abs();
      InvKeeps(s, Op.DoubleTapTimeout(now));
      TapsListed(s, Op.DoubleTapTimeout(now), Step(s, Op.DoubleTapTimeout(now)));
      EndWindow();
    }

    method EndWindow()
      modifies this
      ensures Abs() == DoubleTapFires(old(Abs()))
    {
      doubleTapTimer := None;
      if running && phase == UpWait {
        EmitTap(Tap);
        GoIdle();
      }
    }

    /** Whatever was going on, afterwards the key is idle, no timer is pending and nothing is pressed. */
    method StopMachine()
      requires Valid()
      modifies this
      ensures Takes(old(Abs()), Stop) && Valid()
      ensures phase == Idle && holdTimer.None? && doubleTapTimer.None? && OpenStack(trace) == Some([])
    {
      InvKeeps(Abs(), Stop);
      Halt();
    }

    method Halt()
      modifies this
      ensures Abs() == Step(old(Abs()), Stop)
    {
      running, pressStartedAt, holdTimer, doubleTapTimer := false, None, None, None;
      ExecuteHeldActionsUp();
      GoIdle();
    }

    /** The gesture that is going on is not disturbed: phase, timers, output and the actions to release
        stay. The configuration is dropped now if the key is idle, and later otherwise. */
    method RetireAfterGesture()
      requires Valid()
      modifies this`retiring, this`phase, this`config
      ensures Takes(old(Abs()), RetireWhenIdle) && Valid()
      ensures phase == old(phase)
      ensures if phase == Idle then config == DEFAULT_CONFIG && !retiring else config == old(config) && retiring
    {
      InvKeeps(Abs(), RetireWhenIdle);
      retiring := true;
      if phase == Idle { GoIdle(); }
    }

    method ExecuteRepeatSlot(slot: Slot)
      requires Valid()
      modifies this`trace
      ensures Takes(old(Abs()), Repeat(slot)) && Valid()
    {
      InvKeeps(Abs(), Repeat(slot));
      if ActionsOf(config, slot) != [] { ExecuteActionsTap(ActionsOf(config, slot)); }
    }
  }

  lemma InvKeeps(s: State, op: Op)
    requires Inv(s) && Enabled(s, op)
    ensures Inv(Step(s, op)) && OutputFits(s, op, Step(s, op)) && Records(s, op, Step(s, op))
  {
    LogicKeeps(s, op);
    HeldKeeps(s, op);
    OutputKeeps(s, op);
    RecordsKeep(s, op);
  }

  /** Pressing one more action of a list, seen from what is still to be pressed. */
  lemma LiveNext(actions: seq<Action>, index: nat, held: seq<Held>, trace: seq<Output>)
    requires index < |actions|
    ensures var h := (index, actions[index]);
            var rest := if h.1.isEmergencyReset then [] else Live(actions, index + 1);
            && held + Live(actions, index) == held + [h] + rest
            && trace + Downs(Live(actions, index)) == trace + [Down(h)] + Downs(rest)
  {
    var h := (index, actions[index]);
    var rest := if h.1.isEmergencyReset then [] else Live(actions, index + 1);
    assert Live(actions, index) == [h] + rest;
    assert Downs([h] + rest) == [Down(h)] + Downs(rest);
    Assoc(held, [h], rest);
    Assoc(trace, [Down(h)], Downs(rest));
  }

  lemma UpsNext(hs: seq<Held>, trace: seq<Output>)
    requires hs != []
    ensures trace + UpsReversed(hs) == trace + [Up(hs[|hs| - 1])] + UpsReversed(hs[..|hs| - 1])
  {
    assert UpsReversed(hs) == [Up(hs[|hs| - 1])] + UpsReversed(hs[..|hs| - 1]);
  }
}
