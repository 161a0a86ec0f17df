/**
  The combo recogniser of keymasqd, without its lookup structures.

  A combo is a sequence of chords ("steps"). The recogniser keeps, per combo, at most one
  candidate that records how far the combo has been typed. This module defines one step of the
  recogniser as a function of its state; `ComboEngine` implements the same step with the
  in-place dictionaries and indexes of the daemon, and `ComboLaws` proves what every run keeps.

  Two names may stand for one key ("key_leftctrl" and "key_rightctrl" both mean "ctrl"), so a
  binding carries the name the device reported and the token it is normalised to.

  Python leaves the iteration order of a set open. Where the daemon takes "some" member of a set,
  the model takes `pick(expected, candidates)`, and every result holds for every `pick`.
*/
module ComboModel {
  import opened Wrappers

  type Id = string

  datatype Binding = Binding(hardwareId: string, evdev: string, token: string, source: string)

  datatype Step = Step(bindings: seq<Binding>, timeoutMs: Option<int>)

  datatype Combo = Combo(id: Id, steps: seq<Step>, action: int)

  datatype TrackedPress = TrackedPress(binding: Binding, order: nat, passedThrough: bool, isPulse: bool)

  datatype Candidate = Candidate(
    combo: Combo,
    stepIndex: nat,
    tracked: seq<TrackedPress>,
    pressed: set<Binding>,
    releasing: bool,
    deadline: Option<real>,
    finalBinding: Option<Binding>,
    active: bool)

  datatype Kind = Press | Release | Pulse

  datatype Transition = Transition(comboId: Id, action: int, kind: Kind, trigger: Binding, triggers: seq<Binding>)

  datatype Decision = Decision(
    consume: bool,
    passthrough: bool,
    recall: seq<Binding>,
    transitions: seq<Transition>,
    reset: bool)

  /** `cands` with `ids` is the insertion-ordered dictionary of candidates; `held` maps every held
      key to its press order. */
  datatype State = State(
    combos: seq<Combo>,
    cands: map<Id, Candidate>,
    ids: seq<Id>,
    held: map<Binding, nat>,
    counter: nat)

  datatype Outcome = Outcome(s: State, d: Decision)

  type Pick = (Binding, set<Binding>) -> Binding

  const NOTHING := Decision(false, false, [], [], false)

  const DEFAULT_STEP_TIMEOUT_MS := 600
  const PULSE_TOKENS := {"wheel_up", "wheel_down", "wheel_left", "wheel_right"}
  const MODIFIER_TOKENS := {"ctrl", "shift", "alt", "meta"}

  // ---- Matching ----

  predicate IsPulse(b: Binding) { b.token in PULSE_TOKENS }

  predicate IsModifier(b: Binding) { b.token in MODIFIER_TOKENS }

  /** An empty hardware id or source in the expected binding matches any. */
  predicate BindingMatches(expected: Binding, actual: Binding) {
    && (expected.hardwareId == "" || expected.hardwareId == actual.hardwareId)
    && expected.token == actual.token
    && (expected.source == "" || expected.source == actual.source)
  }

  predicate StepMatches(step: Step, b: Binding) {
    exists e | e in step.bindings :: BindingMatches(e, b)
  }

  predicate BindingScopes(expected: Binding, b: Binding) {
    && (expected.hardwareId == "" || expected.hardwareId == b.hardwareId)
    && (expected.source == "" || expected.source == b.source)
  }

  predicate StepScopes(step: Step, b: Binding) {
    exists e | e in step.bindings :: BindingScopes(e, b)
  }

  ghost predicate GoodPick(pick: Pick) {
    forall e, s :: s != {} ==> pick(e, s) in s
  }

  function MatchingHeld(held: set<Binding>, expected: Binding): set<Binding> {
    set h | h in held && BindingMatches(expected, h)
  }

  /** Assign a held key to every expected binding, the current key to the first binding it
      matches. `None` when some binding finds no unused held key. */
  function MatchStep(bindings: seq<Binding>, current: Binding, held: set<Binding>, pick: Pick,
                     matched: set<Binding>, used: bool): Option<set<Binding>>
    decreases |bindings|
  {
    if bindings == [] then Some(matched)
    else if !used && BindingMatches(bindings[0], current) then
      MatchStep(bindings[1..], current, held, pick, matched + {current}, true)
    else
      var free := MatchingHeld(held, bindings[0]) - matched;
      if free == {} then None
      else MatchStep(bindings[1..], current, held, pick, matched + {pick(bindings[0], free)}, used)
  }

  function MatchFirstStep(combo: Combo, b: Binding, held: set<Binding>, pick: Pick): Option<set<Binding>> {
    MatchStep(FirstBindings(combo), b, held, pick, {}, false)
  }

  function FirstBindings(combo: Combo): seq<Binding> {
    if combo.steps == [] then [] else combo.steps[0].bindings
  }

  /** A wheel pulse may complete a first step that also holds an ordinary key, or a combo that is
      nothing but that pulse. */
  predicate PulseCanComplete(combo: Combo, b: Binding, matched: set<Binding>) {
    || !IsPulse(b)
    || (|combo.steps| == 1 && |combo.steps[0].bindings| == 1)
    || (exists h | h in matched :: h != b && !IsPulse(h))
  }

  // ---- Which combos a key can start ----

  /** Ids of the combos that list `b` with exactly this hardware id and source in their first step,
      once per listing. */
  function IdsUnderKey(combos: seq<Combo>, hardwareId: string, token: string, source: string): seq<Id> {
    if combos == [] then []
    else
      IdsUnderKey(combos[..|combos| - 1], hardwareId, token, source)
      + Listings(combos[|combos| - 1].id, FirstBindings(combos[|combos| - 1]), hardwareId, token, source)
  }

  function Listings(id: Id, bindings: seq<Binding>, hardwareId: string, token: string, source: string): seq<Id> {
    if bindings == [] then []
    else
      var last := bindings[|bindings| - 1];
      Listings(id, bindings[..|bindings| - 1], hardwareId, token, source)
      + if (last.hardwareId, last.token, last.source) == (hardwareId, token, source) then [id] else []
  }

  function Dedupe<T(==)>(xs: seq<T>): seq<T> {
    if xs == [] then []
    else
      var init := Dedupe(xs[..|xs| - 1]);
      if xs[|xs| - 1] in init then init else init + [xs[|xs| - 1]]
  }

  /** The lookup keys of a key: its own hardware id and source, and the wildcards. */
  function LookupKeys(b: Binding): seq<(string, string)> {
    if b.hardwareId == "" then
      if b.source == "" then [("", "")] else [("", b.source), ("", "")]
    else
      if b.source == "" then [(b.hardwareId, ""), ("", "")]
      else [(b.hardwareId, b.source), (b.hardwareId, ""), ("", b.source), ("", "")]
  }

  function IdsUnderKeys(combos: seq<Combo>, token: string, keys: seq<(string, string)>): seq<Id> {
    if keys == [] then []
    else
      var last := keys[|keys| - 1];
      IdsUnderKeys(combos, token, keys[..|keys| - 1]) + IdsUnderKey(combos, last.0, token, last.1)
  }

  function FirstStepIds(combos: seq<Combo>, b: Binding): seq<Id> {
    Dedupe(IdsUnderKeys(combos, b.token, LookupKeys(b)))
  }

  function ComboById(combos: seq<Combo>, id: Id): Option<Combo> {
    if combos == [] then None
    else if combos[|combos| - 1].id == id then Some(combos[|combos| - 1])
    else ComboById(combos[..|combos| - 1], id)
  }

  /** The given ids, in the order of the combo list. */
  function InComboOrder(combos: seq<Combo>, ids: set<Id>): seq<Id> {
    if combos == [] then []
    else
      InComboOrder(combos[..|combos| - 1], ids)
      + if combos[|combos| - 1].id in ids then [combos[|combos| - 1].id] else []
  }

  // ---- One candidate ----

  function CurrentStep(c: Candidate): Step {
    if c.stepIndex < |c.combo.steps| then c.combo.steps[c.stepIndex] else Step([], None)
  }

  predicate IsLastStep(c: Candidate) { c.stepIndex + 1 >= |c.combo.steps| }

  function TrackedBindings(c: Candidate): seq<Binding> {
    seq(|c.tracked|, i requires 0 <= i < |c.tracked| => c.tracked[i].binding)
  }

  predicate IsTracked(c: Candidate, b: Binding) {
    exists t | t in c.tracked :: t.binding == b
  }

  function TimeoutMs(step: Step): int {
    match step.timeoutMs
    case None => DEFAULT_STEP_TIMEOUT_MS
    case Some(ms) => if ms < 1 then 1 else ms
  }

  function Deadline(now: real, step: Step): Option<real> {
    Some(now + TimeoutMs(step) as real / 1000.0)
  }

  /** The candidate and the press counter after noting one more key. */
  function Track(c: Candidate, b: Binding, passedThrough: bool, counter: nat): (Candidate, nat) {
    if IsTracked(c, b) then (c, counter)
    else
      (c.(pressed := if IsPulse(b) then c.pressed else c.pressed + {b},
          deadline := None,
          tracked := c.tracked + [TrackedPress(b, counter + 1, passedThrough, IsPulse(b))]),
       counter + 1)
  }

  function TrackAll(c: Candidate, keys: seq<Binding>, current: Binding, counter: nat): (Candidate, nat) {
    if keys == [] then (c, counter)
    else
      var (c', counter') := TrackAll(c, keys[..|keys| - 1], current, counter);
      var last := keys[|keys| - 1];
      Track(c', last, last != current, counter')
  }

  function CompleteStep(c: Candidate, b: Binding, isFinal: bool, counter: nat): (Candidate, nat) {
    var (c', counter') := Track(c, b, false, counter);
    (c'.(pressed := if IsPulse(b) then c'.pressed else c'.pressed + {b},
         releasing := true,
         deadline := None,
         finalBinding := if isFinal then Some(b) else None,
         active := isFinal),
     counter')
  }

  /** Move on to the next step and start its timeout. */
  function NextStep(c: Candidate, now: real): Candidate {
    var c' := c.(stepIndex := c.stepIndex + 1, tracked := [], releasing := false, finalBinding := None);
    c'.(deadline := Deadline(now, CurrentStep(c')))
  }

  function AdvancePulse(c: Candidate, now: real): Candidate {
    if c.active || !c.releasing || c.pressed != {} || IsLastStep(c) then c else NextStep(c, now)
  }

  predicate Recalled(c: Candidate, t: TrackedPress) {
    Some(t.binding) != c.finalBinding && !IsModifier(t.binding) && !t.isPulse
  }

  /** The keys whose output must be taken back, newest first. */
  function RecallFrom(c: Candidate, tracked: seq<TrackedPress>): seq<Binding> {
    if tracked == [] then []
    else
      (if Recalled(c, tracked[|tracked| - 1]) then [tracked[|tracked| - 1].binding] else [])
      + RecallFrom(c, tracked[..|tracked| - 1])
  }

  function Recall(c: Candidate): seq<Binding> { RecallFrom(c, c.tracked) }

  function KindOf(b: Binding): Kind { if IsPulse(b) then Pulse else Press }

  function Fire(c: Candidate, b: Binding): seq<Transition> {
    if c.active then [Transition(c.combo.id, c.combo.action, KindOf(b), b, TrackedBindings(c))] else []
  }

  // ---- The candidate dictionary ----

  function Restrict(ids: seq<Id>, keep: set<Id>): seq<Id> {
    if ids == [] then []
    else Restrict(ids[..|ids| - 1], keep) + if ids[|ids| - 1] in keep then [ids[|ids| - 1]] else []
  }

  /** Overwrite or remove candidates; nothing is added, so the order of the rest stays. */
  function WithCands(s: State, cands: map<Id, Candidate>): State {
    s.(cands := cands, ids := Restrict(s.ids, cands.Keys))
  }

  predicate Expired(c: Candidate, now: real) {
    c.deadline.Some? && c.deadline.value <= now
  }

  function Expire(s: State, now: real): State {
    WithCands(s, map id | id in s.cands && !Expired(s.cands[id], now) :: s.cands[id])
  }

  predicate AnyExpired(s: State, now: real) {
    exists id | id in s.cands :: Expired(s.cands[id], now)
  }

  // ---- Pressing a key while candidates wait ----

  predicate Repeated(c: Candidate, b: Binding) { !c.releasing && b in c.pressed }

  predicate Matching(c: Candidate, b: Binding) {
    !c.releasing && b !in c.pressed && StepMatches(CurrentStep(c), b)
  }

  predicate ScopedMismatch(c: Candidate, b: Binding) {
    && !c.releasing && b !in c.pressed
    && !StepMatches(CurrentStep(c), b) && StepScopes(CurrentStep(c), b)
  }

  function RepeatedIds(s: State, b: Binding): set<Id> {
    set id | id in s.cands && Repeated(s.cands[id], b)
  }

  function MatchingIds(s: State, b: Binding): set<Id> {
    set id | id in s.cands && Matching(s.cands[id], b)
  }

  function MismatchIds(s: State, b: Binding): set<Id> {
    set id | id in s.cands && ScopedMismatch(s.cands[id], b)
  }

  function Drop(s: State, dropped: set<Id>): State {
    WithCands(s, map id | id in s.cands && id !in dropped :: s.cands[id])
  }

  /** Running totals while the matching candidates are advanced one by one. */
  datatype Progress = Progress(s: State, transitions: seq<Transition>, recall: seq<Binding>,
                               partial: bool, hit: bool)

  predicate LacksOne(c: Candidate) { |c.pressed| + 1 == |CurrentStep(c).bindings| }

  function CompleteOne(c: Candidate, b: Binding, now: real, counter: nat): (Candidate, nat) {
    var (c', counter') := CompleteStep(c, b, IsLastStep(c), counter);
    (AdvancePulse(c', now), counter')
  }

  /** Store a candidate that has just completed a step; a fired pulse leaves nothing to release. */
  function Store(s: State, c: Candidate, b: Binding, counter: nat): State {
    var s' := s.(counter := counter);
    if c.active && IsPulse(b) then
      Drop(s', {c.combo.id})
    else
      s'.(cands := s.cands[c.combo.id := c],
          ids := if c.combo.id in s.cands then s.ids else s.ids + [c.combo.id])
  }

  function PressOne(p: Progress, id: Id, b: Binding, now: real): Progress {
    if id !in p.s.cands then p
    else
      var c := p.s.cands[id];
      if LacksOne(c) then
        var (c', counter') := CompleteOne(c, b, now, p.s.counter);
        Progress(Store(p.s, c', b, counter'), p.transitions + Fire(c', b), p.recall + Recall(c'), p.partial, true)
      else if IsPulse(b) then p.(partial := true)
      else
        var (c', counter') := Track(c, b, true, p.s.counter);
        p.(s := p.s.(cands := p.s.cands[id := c'], counter := counter'), partial := true)
  }

  function PressAll(s: State, ids: seq<Id>, b: Binding, now: real): Progress {
    if ids == [] then Progress(s, [], [], false, false)
    else PressOne(PressAll(s, ids[..|ids| - 1], b, now), ids[|ids| - 1], b, now)
  }

  function PressWaiting(s: State, b: Binding, now: real): Outcome {
    var matching := MatchingIds(s, b);
    var mismatched := MismatchIds(s, b);
    if matching == {} then
      if RepeatedIds(s, b) != {} then Outcome(s, NOTHING.(consume := true))
      else if mismatched == {} then Outcome(s, NOTHING)
      else
        var s' := Drop(s, mismatched);
        Outcome(s', NOTHING.(passthrough := true, reset := s'.cands == map[]))
    else
      var p := PressAll(Drop(s, mismatched), InComboOrder(s.combos, matching), b, now);
      Outcome(p.s, Decision(p.hit, p.partial && !p.hit, Dedupe(p.recall), p.transitions, false))
  }

  // ---- Starting new candidates ----

  function PressKey(s: State, b: Binding): nat {
    if b in s.held then s.held[b] else s.counter + 1
  }

  /** The given keys from the oldest press to the newest. */
  ghost function ByPressOrder(s: State, keys: set<Binding>): (r: seq<Binding>)
    ensures forall b :: b in r <==> b in keys
    decreases |keys|
  {
    if keys == {} then []
    else
      LastPressedExists(s, keys);
      var b :| b in keys && forall x | x in keys :: PressKey(s, x) <= PressKey(s, b);
      ByPressOrder(s, keys - {b}) + [b]
  }

  lemma LastPressedExists(s: State, keys: set<Binding>)
    requires keys != {}
    ensures exists b :: b in keys && forall x | x in keys :: PressKey(s, x) <= PressKey(s, b)
    decreases |keys|
  {
    var k :| k in keys;
    if keys != {k} {
      assert keys - {k} != {};
      LastPressedExists(s, keys - {k});
      var m :| m in keys - {k} && forall x | x in keys - {k} :: PressKey(s, x) <= PressKey(s, m);
      var best := if PressKey(s, m) < PressKey(s, k) then k else m;
      assert forall x | x in keys :: x == k || x in keys - {k};
      assert forall x | x in keys :: PressKey(s, x) <= PressKey(s, best);
    }
  }

  function NewCandidate(combo: Combo): Candidate {
    Candidate(combo, 0, [], {}, false, None, None, false)
  }

  ghost function StartCandidate(s: State, combo: Combo, keys: set<Binding>, b: Binding, now: real): (Candidate, nat) {
    var (c', counter') := TrackAll(NewCandidate(combo), ByPressOrder(s, keys), b, s.counter);
    CompleteOne(c', b, now, counter')
  }

  predicate CanStart(s: State, combo: Combo, b: Binding, pick: Pick) {
    && combo.id !in s.cands
    && MatchFirstStep(combo, b, s.held.Keys, pick).Some?
    && PulseCanComplete(combo, b, MatchFirstStep(combo, b, s.held.Keys, pick).value)
  }

  predicate CanStartId(s: State, id: Id, b: Binding, pick: Pick) {
    ComboById(s.combos, id).Some? && CanStart(s, ComboById(s.combos, id).value, b, pick)
  }

  ghost function StartOne(p: Progress, id: Id, b: Binding, now: real, pick: Pick): Progress {
    if id in p.s.cands then p.(hit := p.hit || b in p.s.cands[id].pressed)
    else
      match ComboById(p.s.combos, id)
      case None => p
      case Some(combo) =>
        if !CanStart(p.s, combo, b, pick) then p
        else
          var keys := MatchFirstStep(combo, b, p.s.held.Keys, pick).value;
          var (c, counter) := StartCandidate(p.s, combo, keys, b, now);
          Progress(Store(p.s, c, b, counter), p.transitions + Fire(c, b), p.recall + Recall(c), p.partial, true)
  }

  ghost function StartAll(s: State, ids: seq<Id>, b: Binding, now: real, pick: Pick): Progress {
    if ids == [] then Progress(s, [], [], false, false)
    else StartOne(StartAll(s, ids[..|ids| - 1], b, now, pick), ids[|ids| - 1], b, now, pick)
  }

  ghost function PressFirstSteps(s: State, b: Binding, now: real, pick: Pick): Outcome {
    var p := StartAll(s, FirstStepIds(s.combos, b), b, now, pick);
    Outcome(p.s, if p.hit then Decision(true, false, Dedupe(p.recall), p.transitions, false) else NOTHING)
  }

  function Merge(d: Decision, e: Decision): Decision {
    var consume := d.consume || e.consume;
    Decision(consume, (d.passthrough || e.passthrough) && !consume, Dedupe(d.recall + e.recall),
             d.transitions + e.transitions, d.reset || e.reset)
  }

  ghost function PressEvent(s: State, b: Binding, now: real, pick: Pick): Outcome {
    var waiting := PressWaiting(s, b, now);
    var started := PressFirstSteps(waiting.s, b, now, pick);
    var d := Merge(waiting.d, started.d);
    Outcome(started.s,
            if !d.consume && !d.passthrough && FirstStepIds(s.combos, b) != [] then d.(passthrough := true) else d)
  }

  // ---- Releasing a key ----

  predicate WasPassedThrough(c: Candidate, b: Binding) {
    exists i | 0 <= i < |c.tracked| ::
      && c.tracked[i].binding == b && c.tracked[i].passedThrough
      && forall j | 0 <= j < i :: c.tracked[j].binding != b
  }

  /** What a released key leaves of a candidate. */
  function ReleaseCandidate(c: Candidate, b: Binding, now: real): Option<Candidate> {
    if b !in c.pressed then Some(c)
    else if !c.releasing then None
    else if !StepMatches(CurrentStep(c), b) then Some(c)
    else
      var c' := c.(pressed := c.pressed - {b}, active := false);
      if c'.pressed != {} then
        if c.stepIndex == 0 && |c.combo.steps| == 1 then None else Some(c')
      else if IsLastStep(c) then None
      else Some(NextStep(c', now))
  }

  /** The key was the part of a step that is being released. */
  predicate ReleasesStep(c: Candidate, b: Binding) {
    c.releasing && b in c.pressed && StepMatches(CurrentStep(c), b)
  }

  predicate AbandonsStep(c: Candidate, b: Binding) { !c.releasing && b in c.pressed }

  function ReleaseTransition(c: Candidate, b: Binding): seq<Transition> {
    if ReleasesStep(c, b) && c.active then
      [Transition(c.combo.id, c.combo.action, Release, b, [])]
    else []
  }

  function ReleaseTransitions(s: State, ids: seq<Id>, b: Binding): seq<Transition> {
    if ids == [] then []
    else
      var id := ids[|ids| - 1];
      ReleaseTransitions(s, ids[..|ids| - 1], b)
      + if id in s.cands then ReleaseTransition(s.cands[id], b) else []
  }

  function ReleaseAll(s: State, b: Binding, now: real): State {
    WithCands(s, map id | id in s.cands && ReleaseCandidate(s.cands[id], b, now).Some? ::
                   ReleaseCandidate(s.cands[id], b, now).value)
  }

  function ReleaseEvent(s: State, b: Binding, now: real): Outcome {
    var s' := ReleaseAll(s, b, now);
    var stepReleased := exists id | id in s.cands :: ReleasesStep(s.cands[id], b);
    var abandoned := exists id | id in s.cands :: AbandonsStep(s.cands[id], b);
    var passed := exists id | id in s.cands :: AbandonsStep(s.cands[id], b) && WasPassedThrough(s.cands[id], b);
    var consume := stepReleased || (abandoned && !passed);
    Outcome(s', Decision(consume, passed && !consume, [], ReleaseTransitions(s, s.ids, b),
                         (stepReleased || abandoned) && s'.cands == map[]))
  }

  // ---- One input event ----

  function RecordHeld(s: State, b: Binding): State {
    if b in s.held then s else s.(held := s.held[b := s.counter + 1], counter := s.counter + 1)
  }

  function RemoveHeld(s: State, b: Binding): State { s.(held := s.held - {b}) }

  function Settle(s: State): State {
    if s.cands == map[] && s.held == map[] then s.(counter := 0) else s
  }

  ghost function HandleKey(s: State, b: Binding, value: int, now: real, pick: Pick): Outcome {
    if value == 1 then
      PressEvent(if IsPulse(b) then s else RecordHeld(s, b), b, now, pick)
    else
      var o := ReleaseEvent(s, b, now);
      o.(s := RemoveHeld(o.s, b))
  }

  ghost function HandleEvent(s: State, b: Binding, value: int, now: real, pick: Pick): Outcome {
    var expired := AnyExpired(s, now);
    var s1 := Expire(s, now);
    if value == 2 then
      Outcome(s1, NOTHING.(reset := expired && s1.cands == map[]))
    else
      var o := HandleKey(s1, b, value, now, pick);
      var emptied := s1.cands != map[] && o.s.cands == map[];
      Outcome(Settle(o.s),
              if emptied && (expired || o.d.consume || o.d.passthrough) then o.d.(reset := true) else o.d)
  }

  /** Would handling this pulse consume it? */
  predicate WouldConsumePulse(s: State, b: Binding, pick: Pick) {
    && IsPulse(b)
    && (|| (exists id | id in s.cands ::
              !s.cands[id].releasing && StepMatches(CurrentStep(s.cands[id]), b) && LacksOne(s.cands[id]))
        || (exists id | id in FirstStepIds(s.combos, b) :: CanStartId(s, id, b, pick)))
  }

  // ---- The other operations ----

  predicate InScope(b: Binding, hardwareId: string, source: Option<string>) {
    b.hardwareId == hardwareId && (source.None? || b.source == source.value)
  }

  predicate TouchesScope(c: Candidate, hardwareId: string, source: Option<string>) {
    || (exists b | b in c.pressed :: InScope(b, hardwareId, source))
    || (exists t | t in c.tracked :: InScope(t.binding, hardwareId, source))
    || (c.finalBinding.Some? && InScope(c.finalBinding.value, hardwareId, source))
  }

  /** Forget everything that involves a device that went away. */
  function DropScope(s: State, hardwareId: string, source: Option<string>): State {
    if hardwareId == "" then s
    else
      var s' := WithCands(s, map id | id in s.cands && !TouchesScope(s.cands[id], hardwareId, source) :: s.cands[id]);
      Settle(s'.(held := map b | b in s.held && !InScope(b, hardwareId, source) :: s.held[b]))
  }

  /** The combos whose action was active and has lost its candidate. */
  function DroppedActive(s: State, hardwareId: string, source: Option<string>): set<Id> {
    if hardwareId == "" then {}
    else set id | id in s.cands && TouchesScope(s.cands[id], hardwareId, source) && s.cands[id].active
  }

  function Reset(s: State): State { State(s.combos, map[], [], map[], 0) }

  function PreserveCandidates(s: State, combos: seq<Combo>, keep: set<Id>): State {
    WithCands(s, map id | id in s.cands && id in keep && ComboById(combos, id).Some? ::
                   s.cands[id].(combo := ComboById(combos, id).value)).(combos := combos)
  }

  function SetCombos(s: State, combos: seq<Combo>, preserve: Option<set<Id>>): State {
    match preserve
    case None => Reset(s).(combos := combos)
    case Some(keep) => PreserveCandidates(s, combos, keep)
  }

  function PrimeHeld(s: State, keys: seq<Binding>): State {
    if keys == [] then s else RecordHeld(PrimeHeld(s, keys[..|keys| - 1]), keys[|keys| - 1])
  }

  function Init(): State { State([], map[], [], map[], 0) }
}
