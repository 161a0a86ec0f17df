/**
  Rapidfire blocks of a macro: how many presses fit a block of fixed duration, and when each one
  goes down and up. Times are in microseconds.
*/
module Rapidfire {
  import opened Wrappers

  const MIN_HOLD_MS := 0
  const MIN_WAIT_MS := 1
  const MIN_WAIT_US := MIN_WAIT_MS * 1000

  datatype Plan = Plan(durationUs: nat, holdUs: nat, count: nat)

  function Min(a: int, b: int): int { if a < b then a else b }
  function AbsReal(x: real): real { if x < 0.0 then -x else x }

  function HoldUs(holdMs: int): nat { Max(MIN_HOLD_MS, holdMs) * 1000 }
  function WaitUs(waitMs: int): nat { Max(MIN_WAIT_MS, waitMs) * 1000 }

  /** The largest number of presses that leaves the minimum wait between them. */
  function MaxCount(duration: nat, hold: nat): nat { (duration + MIN_WAIT_US) / (hold + MIN_WAIT_US) }

  /** The wait between `n` presses of length `hold` that fill the block. */
  function WaitOf(duration: nat, hold: nat, n: nat): real
    requires n >= 2
  {
    (duration - n * hold) as real / (n - 1) as real
  }

  /** How far that wait is from the one asked for. */
  function Miss(duration: nat, hold: nat, wait: nat, n: nat): real
    requires n >= 2
  {
    AbsReal(WaitOf(duration, hold, n) - wait as real)
  }

  function Clamp(lo: int, hi: int, n: int): int { Max(lo, Min(hi, n)) }

  function PlanFor(durationUs: int, holdMs: int, waitMs: int): Plan {
    var duration, hold, wait := Max(0, durationUs), HoldUs(holdMs), WaitUs(waitMs);
    var maxCount := MaxCount(duration, hold);
    if maxCount < 2 then Plan(duration, duration, 1)
    else
      var below := (duration + wait) / (hold + wait);
      var a, b := Clamp(2, maxCount, below), Clamp(2, maxCount, below + 1);
      var miss := n requires n >= 2 => Miss(duration, hold, wait, n);
      Plan(duration, hold, if miss(b) < miss(a) || (miss(b) == miss(a) && b < a) then b else a)
  }

  /** When pulse `index` goes down and up, from the start of the block. */
  function PulseAt(p: Plan, index: nat): (int, int)
    requires p.count >= 1
  {
    if p.count == 1 then (0, p.durationUs)
    else
      var gaps := p.count - 1;
      var press := ((p.durationUs - p.holdUs) * index + gaps / 2) / gaps;
      (press, press + p.holdUs)
  }

  // ---- The count is the best one ----

  /** The span left for waiting, per gap. */
  lemma WaitBySpan(duration: nat, hold: nat, n: nat)
    requires n >= 2
    ensures WaitOf(duration, hold, n) == (duration - hold) as real / (n - 1) as real - hold as real
  {
    var x, g := (duration - hold) as real, (n - 1) as real;
    assert (duration - n * hold) as real == x - g * hold as real;
    assert (x - g * hold as real) / g == x / g - hold as real;
  }

  lemma QuotientDecreases(x: real, a: real, b: real)
    requires 0.0 < x && 0.0 < a < b
    ensures x / b < x / a
  {
    var qa, qb := x / a, x / b;
    assert qa * a == x && qb * b == x;
    assert qb * a < qb * b;
    assert (qa - qb) * a > 0.0;
  }

  lemma WaitDecreases(duration: nat, hold: nat, m: nat, n: nat)
    requires 2 <= m < n && hold < duration
    ensures WaitOf(duration, hold, n) < WaitOf(duration, hold, m)
  {
    WaitBySpan(duration, hold, m);
    WaitBySpan(duration, hold, n);
    QuotientDecreases((duration - hold) as real, (m - 1) as real, (n - 1) as real);
  }

  /** The wait of `n` presses reaches the wanted one exactly up to the ideal count. */
  lemma IdealCount(duration: nat, hold: nat, wait: nat, n: nat)
    requires n >= 2 && wait > 0
    ensures WaitOf(duration, hold, n) >= wait as real <==> n <= (duration + wait) / (hold + wait)
  {
    var g := (n - 1) as real;
    var d := (duration - n * hold) as real;
    assert WaitOf(duration, hold, n) * g == d;
    assert WaitOf(duration, hold, n) >= wait as real <==> d >= wait as real * g;
    assert wait as real * g == (wait * (n - 1)) as real;
    assert d >= wait as real * g <==> duration - n * hold >= wait * (n - 1);
    assert duration - n * hold >= wait * (n - 1) <==> n * (hold + wait) <= duration + wait;
    FitsIff(n, hold + wait, duration + wait);
  }

  lemma FitsIff(n: nat, d: nat, x: nat)
    requires d > 0
    ensures n * d <= x <==> n <= x / d
  {
    var q, r := x / d, x % d;
    assert x == d * q + r;
    if n <= q {
      assert n * d <= q * d;
    } else {
      assert (q + 1) * d <= n * d;
    }
  }

  lemma MissOrder(duration: nat, hold: nat, wait: nat, m: nat, n: nat)
    requires 2 <= m < n && hold < duration && wait > 0
    ensures n <= (duration + wait) / (hold + wait) ==> Miss(duration, hold, wait, n) < Miss(duration, hold, wait, m)
    ensures m > (duration + wait) / (hold + wait) ==> Miss(duration, hold, wait, m) < Miss(duration, hold, wait, n)
  {
    WaitDecreases(duration, hold, m, n);
    IdealCount(duration, hold, wait, m);
    IdealCount(duration, hold, wait, n);
  }

  lemma RoomForTwo(duration: nat, hold: nat)
    requires MaxCount(duration, hold) >= 2
    ensures duration >= 2 * hold + MIN_WAIT_US
  {
    FitsIff(2, hold + MIN_WAIT_US, duration + MIN_WAIT_US);
  }

  /** So many presses fit the block with a wait of a millisecond between them. Times are in microseconds,
      and a press of negative length counts as none. */
  predicate FitsBlock(durationUs: int, holdMs: int, n: nat) {
    n * (1000 * Max(0, holdMs)) + (n - 1) * 1000 <= Max(0, durationUs)
  }

  lemma FitsByCount(durationUs: int, holdMs: int, n: nat)
    requires n >= 1
    ensures FitsBlock(durationUs, holdMs, n) <==> n <= MaxCount(Max(0, durationUs), HoldUs(holdMs))
  {
    var hold, duration := HoldUs(holdMs), Max(0, durationUs);
    FitsIff(n, hold + MIN_WAIT_US, duration + MIN_WAIT_US);
    assert n * (hold + MIN_WAIT_US) == n * hold + n * 1000;
  }

  /** How far the wait between `n` presses that fill the block is from the one asked for, which is a
      millisecond at least. */
  function Off(durationUs: int, holdMs: int, waitMs: int, n: nat): real
    requires n >= 2
  {
    var wait := (Max(0, durationUs) - n * (1000 * Max(0, holdMs))) as real / (n - 1) as real;
    var off := wait - (1000 * Max(1, waitMs)) as real;
    if off < 0.0 then -off else off
  }

  /** In the terms of the block: of all the counts that fit, the plan has the one whose wait is closest to
      the one asked for, and the smallest of those. */
  lemma BestCount(durationUs: int, holdMs: int, waitMs: int, n: nat)
    requires n >= 2 && FitsBlock(durationUs, holdMs, n)
    ensures var p := PlanFor(durationUs, holdMs, waitMs);
            && p.count >= 2 && FitsBlock(durationUs, holdMs, p.count)
            && p.durationUs == Max(0, durationUs) && p.holdUs == 1000 * Max(0, holdMs)
            && Off(durationUs, holdMs, waitMs, p.count) <= Off(durationUs, holdMs, waitMs, n)
            && (Off(durationUs, holdMs, waitMs, p.count) == Off(durationUs, holdMs, waitMs, n) ==> p.count <= n)
  {
    FitsByCount(durationUs, holdMs, n);
    CountIsBest(durationUs, holdMs, waitMs, n);
    FitsByCount(durationUs, holdMs, PlanFor(durationUs, holdMs, waitMs).count);
  }

  /** Every pulse of a repeated press is held for the time asked for, and a single press for the block. */
  lemma PulsesAreHeld(durationUs: int, holdMs: int, waitMs: int, index: nat)
    requires index < PlanFor(durationUs, holdMs, waitMs).count
    ensures var (press, release) := PulseAt(PlanFor(durationUs, holdMs, waitMs), index);
            release - press ==
            if FitsBlock(durationUs, holdMs, 2) then 1000 * Max(0, holdMs) else Max(0, durationUs)
  {
    FitsByCount(durationUs, holdMs, 2);
    if FitsBlock(durationUs, holdMs, 2) { BestCount(durationUs, holdMs, waitMs, 2); }
  }

  /** Of all the counts that fit the block, the planner takes the one whose wait is closest to the
      wanted wait, and among equally close ones the smallest. It looks at two candidates only. */
  lemma CountIsBest(durationUs: int, holdMs: int, waitMs: int, n: nat)
    requires 2 <= n <= MaxCount(Max(0, durationUs), HoldUs(holdMs))
    ensures var p := PlanFor(durationUs, holdMs, waitMs);
            var duration, hold, wait := Max(0, durationUs), HoldUs(holdMs), WaitUs(waitMs);
            && 2 <= p.count <= MaxCount(duration, hold) && p.durationUs == duration && p.holdUs == hold
            && Miss(duration, hold, wait, p.count) <= Miss(duration, hold, wait, n)
            && (Miss(duration, hold, wait, p.count) == Miss(duration, hold, wait, n) ==> p.count <= n)
  {
    var duration, hold, wait := Max(0, durationUs), HoldUs(holdMs), WaitUs(waitMs);
    RoomForTwo(duration, hold);
    var maxCount := MaxCount(duration, hold);
    var below := (duration + wait) / (hold + wait);
    var a, b := Clamp(2, maxCount, below), Clamp(2, maxCount, below + 1);
    if n < a {
      MissOrder(duration, hold, wait, n, a);
    } else if n > b {
      MissOrder(duration, hold, wait, b, n);
    }
    if a < b {
      assert n <= a || n >= b;
    }
  }

  // ---- Where the pulses land ----

  /** The pulses and the minimum waits between them fit the block. */
  ghost predicate Fits(p: Plan) {
    && p.count >= 1
    && (p.count >= 2 ==> p.holdUs < p.durationUs
                         && (p.count - 1) * (p.holdUs + MIN_WAIT_US) <= p.durationUs - p.holdUs)
  }

  /** Every plan fits its block, and presses repeatedly exactly when two presses have room. */
  lemma PlanFits(durationUs: int, holdMs: int, waitMs: int)
    ensures Fits(PlanFor(durationUs, holdMs, waitMs))
    ensures PlanFor(durationUs, holdMs, waitMs).durationUs == Max(0, durationUs)
    ensures PlanFor(durationUs, holdMs, waitMs).count >= 2 <==> Max(0, durationUs) >= 2 * HoldUs(holdMs) + MIN_WAIT_US
  {
    var p := PlanFor(durationUs, holdMs, waitMs);
    FitsIff(2, HoldUs(holdMs) + MIN_WAIT_US, Max(0, durationUs) + MIN_WAIT_US);
    if MaxCount(Max(0, durationUs), HoldUs(holdMs)) >= 2 {
      CountIsBest(durationUs, holdMs, waitMs, 2);
      RoomForTwo(p.durationUs, p.holdUs);
      FitsIff(p.count, p.holdUs + MIN_WAIT_US, p.durationUs + MIN_WAIT_US);
      OneLess(p.count, p.holdUs + MIN_WAIT_US, p.durationUs + MIN_WAIT_US);
    }
  }

  lemma OneLess(n: nat, d: nat, x: nat)
    requires n >= 1 && n * d <= x
    ensures (n - 1) * d <= x - d
  {
  }

  /** The press of pulse `i` over `g` gaps that span `x`. */
  function Rounded(x: nat, g: nat, i: nat): nat
    requires g > 0
  {
    (x * i + g / 2) / g
  }

  lemma StepGain(x: nat, y: nat, g: nat, q: nat)
    requires g > 0 && y >= x + g * q
    ensures y / g >= x / g + q
  {
    assert x / g * g <= x;
    assert (x / g + q) * g <= y by {
      assert (x / g + q) * g == x / g * g + q * g;
    }
    FitsIff(x / g + q, g, y);
  }

  lemma RoundedGain(x: nat, g: nat, q: nat, i: nat)
    requires g > 0 && g * q <= x
    ensures Rounded(x, g, i) + q <= Rounded(x, g, i + 1)
  {
    assert x * (i + 1) == x * i + x;
    StepGain(x * i + g / 2, x * (i + 1) + g / 2, g, q);
  }

  /** Every pulse leaves the minimum wait before the next one. */
  lemma PulsesKeepTheWait(p: Plan, index: nat)
    requires Fits(p) && index + 1 < p.count
    ensures PulseAt(p, index).1 + MIN_WAIT_US <= PulseAt(p, index + 1).0
  {
    RoundedGain(p.durationUs - p.holdUs, p.count - 1, p.holdUs + MIN_WAIT_US, index);
    assert PulseAt(p, index).0 == Rounded(p.durationUs - p.holdUs, p.count - 1, index);
    assert PulseAt(p, index + 1).0 == Rounded(p.durationUs - p.holdUs, p.count - 1, index + 1);
  }

  lemma RoundedEnds(x: nat, g: nat)
    requires g > 0
    ensures Rounded(x, g, 0) == 0 && Rounded(x, g, g) == x
  {
    FloorOf(g / 2, g, 0);
    FloorOf(x * g + g / 2, g, x);
  }

  lemma FloorOf(n: nat, g: nat, q: nat)
    requires g > 0 && q * g <= n < (q + 1) * g
    ensures n / g == q
  {
    FitsIff(q, g, n);
    FitsIff(q + 1, g, n);
  }

  /** The first pulse starts with the block and the last one ends with it. */
  lemma PulsesSpanTheBlock(p: Plan)
    requires Fits(p)
    ensures PulseAt(p, 0).0 == 0 && PulseAt(p, p.count - 1).1 == p.durationUs
  {
    if p.count >= 2 {
      RoundedEnds(p.durationUs - p.holdUs, p.count - 1);
    }
  }

  lemma RoundedNear(x: nat, g: nat, i: nat)
    requires g > 0
    ensures 2 * (Rounded(x, g, i) * g - x * i) <= g && 2 * (x * i - Rounded(x, g, i) * g) <= g
  {
    var e := x * i;
    var q := (e + g / 2) / g;
    assert q * g <= e + g / 2 < q * g + g;
  }

  /** Each press is the nearest whole microsecond to its exact place, so the rounding errors do not
      add up. */
  lemma PressIsRounded(p: Plan, index: nat)
    requires Fits(p) && index < p.count && p.count >= 2
    ensures AbsReal(PulseAt(p, index).0 as real
                    - ((p.durationUs - p.holdUs) * index) as real / (p.count - 1) as real) <= 0.5
  {
    RoundedNear(p.durationUs - p.holdUs, p.count - 1, index);
    var span, gaps := p.durationUs - p.holdUs, p.count - 1;
    RoundedQuotient(Rounded(span, gaps, index), span * index, gaps);
  }

  lemma RoundedQuotient(press: int, e: int, g: nat)
    requires g > 0 && 2 * (press * g - e) <= g && 2 * (e - press * g) <= g
    ensures AbsReal(press as real - e as real / g as real) <= 0.5
  {
    var exact := e as real / g as real;
    assert exact * g as real == e as real;
    var diff := press as real - exact;
    assert diff * g as real == (press * g - e) as real;
    NonPositive(diff - 0.5, g as real);
    NonPositive(-diff - 0.5, g as real);
  }

  lemma NonPositive(x: real, g: real)
    requires g > 0.0 && x * g <= 0.0
    ensures x <= 0.0
  {
    assert x == (x * g) / g;
  }

  // ---- Expanding a block into events ----

  datatype Block = Block(deviceType: string, eventType: int, code: int, outputId: string, startUs: int,
                         durationUs: int, holdMs: int, waitMs: int)

  datatype KeyEvent = KeyEvent(deviceType: string, code: int, outputId: string, value: int, tUs: int)

  function EndUs(block: Block): int { block.startUs + Max(0, block.durationUs) }

  predicate IsButton(block: Block) { block.deviceType in {"keyboard", "mouse", "gamepad"} }

  /** The target of a block goes down or up, so long after its start. */
  function ButtonEvent(block: Block, value: int, offset: int): KeyEvent {
    KeyEvent(block.deviceType, block.code, block.outputId, value, block.startUs + offset)
  }

  function Pulses(p: Plan): seq<(int, int)>
    requires p.count >= 1
  {
    seq(p.count, i requires 0 <= i < p.count => PulseAt(p, i))
  }

  /** Pulses that follow each other in time. */
  ghost predicate InOrder(pulses: seq<(int, int)>) {
    && (forall i | 0 <= i < |pulses| :: pulses[i].0 <= pulses[i].1)
    && (forall i | 0 <= i < |pulses| - 1 :: pulses[i].1 + MIN_WAIT_US <= pulses[i + 1].0)
  }

  lemma PulsesInOrder(p: Plan)
    requires Fits(p)
    ensures InOrder(Pulses(p)) && Pulses(p)[0].0 == 0 && Pulses(p)[p.count - 1].1 == p.durationUs
  {
    PulsesSpanTheBlock(p);
    forall i | 0 <= i < p.count - 1 ensures Pulses(p)[i].1 + MIN_WAIT_US <= Pulses(p)[i + 1].0 {
      PulsesKeepTheWait(p, i);
    }
  }

  /** Expand one block; the events alternate press and release, never go back in time, start with
      the block and end with it, with a release at `EndUs`. */
  method Expand(block: Block) returns (r: Result<seq<KeyEvent>>)
    ensures r.Ok? <==> block.deviceType in ["keyboard", "mouse", "gamepad"] && block.eventType == 1
    ensures r.Ok? ==>
      var pulses := Pulses(PlanFor(block.durationUs, block.holdMs, block.waitMs));
      var events := r.value;
      && |events| == 2 * |pulses| >= 2
      && (forall i | 0 <= i < |pulses| ::
            && events[2 * i] == ButtonEvent(block, 1, pulses[i].0)
            && events[2 * i + 1] == ButtonEvent(block, 0, pulses[i].1))
      && (forall k | 0 <= k < |events| - 1 :: events[k].tUs <= events[k + 1].tUs)
      && events[0].tUs == block.startUs
      && events[|events| - 1].tUs == block.startUs + Max(0, block.durationUs) == EndUs(block)
  {
    if !IsButton(block) {
      return Err("Macro rapidfire requires a keyboard, mouse, or gamepad button");
    }
    if block.eventType != 1 {
      return Err("Macro rapidfire requires an EV_KEY target");
    }
    var p := PlanFor(block.durationUs, block.holdMs, block.waitMs);
    PlanFits(block.durationUs, block.holdMs, block.waitMs);
    PulsesInOrder(p);
    var events := ExpandPulses(block, Pulses(p));
    r := Ok(events);
  }

  method ExpandPulses(block: Block, pulses: seq<(int, int)>) returns (events: seq<KeyEvent>)
    requires InOrder(pulses) && |pulses| >= 1
    ensures |events| == 2 * |pulses|
    ensures forall i | 0 <= i < |pulses| ::
              && events[2 * i] == ButtonEvent(block, 1, pulses[i].0)
              && events[2 * i + 1] == ButtonEvent(block, 0, pulses[i].1)
    ensures forall k | 0 <= k < |events| - 1 :: events[k].tUs <= events[k + 1].tUs
  {
    events := [];
    for index := 0 to |pulses|
      invariant |events| == 2 * index
      invariant forall i | 0 <= i < index ::
                  && events[2 * i] == ButtonEvent(block, 1, pulses[i].0)
                  && events[2 * i + 1] == ButtonEvent(block, 0, pulses[i].1)
      invariant index > 0 ==> events[|events| - 1].tUs == block.startUs + pulses[index - 1].1
      invariant forall k | 0 <= k < |events| - 1 :: events[k].tUs <= events[k + 1].tUs
    {
      var (press, release) := pulses[index];
      events := events + [ButtonEvent(block, 1, press),
                          ButtonEvent(block, 0, release)];
    }
  }
}
