/** Concrete runs at which the properties of the engine stop: each is the input of an exact theorem elsewhere. */
module CornerCases {
  import opened Wrappers
  import opened Bits
  import opened Hid
  import opened Engine
  import opened Device
  import opened NoStuckModifiers
  import opened CleanTap

  // ---------------------------------------------------------------------------
  // A modifier left stuck: Control is held, a Control+A rule fires and consumes it, the auto-repeat
  // of Control arrives as a press and is forwarded, and its release is swallowed.
  // ---------------------------------------------------------------------------

  const A: HidUsage := 0x070004
  const B: HidUsage := 0x070005

  const CONTROL_KEY := Key(29, false)
  const A_KEY := Key(30, false)

  const TWO_KEYS: Layout := key => if key == CONTROL_KEY then LEFT_CONTROL else A
  const OUTPUTS := [NativeKey(NONE, B)]
  const RULES: Lookup := (usage, modifiers) => if usage == A && modifiers == {0} then Some(OUTPUTS) else None

  const CONTROL_DOWN := Event(CONTROL_KEY, Press, true, RULES)
  const A_DOWN := Event(A_KEY, Press, true, RULES)
  const CONTROL_UP := Event(CONTROL_KEY, Release, true, RULES)
  const A_UP := Event(A_KEY, Release, true, RULES)

  const HOLDING := World(State({0}, Tracker({CONTROL_KEY}, {}, map[], {0}, NONE, {})), {0})
  const FIRED := State({0}, Tracker({CONTROL_KEY, A_KEY}, {A_KEY}, map[], NONE, {0}, {}))
  const LET_GO := State(NONE, Tracker({A_KEY}, {A_KEY}, map[], NONE, NONE, {}))

  lemma ControlGoesDown()
    ensures Step(TWO_KEYS, START, CONTROL_DOWN) == HOLDING
  {}

  lemma RuleFires()
    ensures Step(TWO_KEYS, HOLDING, A_DOWN) == World(FIRED, NONE)
  {
    assert OUTPUTS[..0] == [] && HeldByOutputs(OUTPUTS) == NONE;
    assert HeldBits(map[]) == NONE;
    assert DecisionAt(TWO_KEYS, HOLDING.engine, A_DOWN) == Emit({0}, OUTPUTS);
    EmitOnDevice({0}, {0}, OUTPUTS);
    assert WithoutBits(map[], {0}) == map[];
  }

  lemma ControlRepeats()
    ensures RepressOfConsumed(TWO_KEYS, FIRED, CONTROL_DOWN)
    ensures Step(TWO_KEYS, World(FIRED, NONE), CONTROL_DOWN) == World(FIRED, {0})
  {}

  lemma ReleaseIsSwallowed()
    ensures Step(TWO_KEYS, World(FIRED, {0}), CONTROL_UP) == World(LET_GO, {0})
    ensures Step(TWO_KEYS, World(LET_GO, {0}), A_UP) == World(INITIAL, {0})
  {}

  lemma StepwiseRun(layout: Layout, w: World, a: Event, b: Event, c: Event, d: Event, e: Event)
    ensures Run(layout, w, [a, b, c, d, e]) ==
            Step(layout, Step(layout, Step(layout, Step(layout, Step(layout, w, a), b), c), d), e)
  {
    RunSnoc(layout, w, [], a);
    RunSnoc(layout, w, [a], b);
    RunSnoc(layout, w, [a, b], c);
    RunSnoc(layout, w, [a, b, c], d);
    RunSnoc(layout, w, [a, b, c, d], e);
    assert [] + [a] == [a] && [a] + [b] == [a, b] && [a, b] + [c] == [a, b, c];
    assert [a, b, c] + [d] == [a, b, c, d] && [a, b, c, d] + [e] == [a, b, c, d, e];
  }

  lemma ControlStaysDown()
    ensures Run(TWO_KEYS, START, [CONTROL_DOWN, A_DOWN, CONTROL_DOWN, CONTROL_UP, A_UP]) == World(INITIAL, {0})
  {
    StepwiseRun(TWO_KEYS, START, CONTROL_DOWN, A_DOWN, CONTROL_DOWN, CONTROL_UP, A_UP);
    ControlGoesDown();
    RuleFires();
    ControlRepeats();
    ReleaseIsSwallowed();
  }

  // ---------------------------------------------------------------------------
  // A tap that is not clean: Control is pressed while the emitter is unreachable, then the rule fires.
  // ---------------------------------------------------------------------------

  const CONTROL_DOWN_UNREACHABLE := Event(CONTROL_KEY, Press, false, RULES)
  const NATIVE := World(State({0}, Tracker({CONTROL_KEY}, {}, map[], NONE, NONE, {})), {0})

  lemma ControlRidesOnTheOutput()
    ensures var w := Run(TWO_KEYS, START, [CONTROL_DOWN_UNREACHABLE]);
      var decision := DecisionIn(TWO_KEYS, INITIAL, [CONTROL_DOWN_UNREACHABLE, A_DOWN], 1);
      decision == Emit(NONE, OUTPUTS) && LeftOfTrigger(w, decision) == {0}
  {
    var events := [CONTROL_DOWN_UNREACHABLE, A_DOWN];
    assert [CONTROL_DOWN_UNREACHABLE][..0] == [] && events[..1] == [CONTROL_DOWN_UNREACHABLE];
    assert Step(TWO_KEYS, START, CONTROL_DOWN_UNREACHABLE) == NATIVE;
    assert Run(TWO_KEYS, START, [CONTROL_DOWN_UNREACHABLE]) == NATIVE;
    EngineOfRun(TWO_KEYS, START, [CONTROL_DOWN_UNREACHABLE]);
    assert HeldBits(map[]) == NONE;
  }

  // ---------------------------------------------------------------------------
  // A held bit outside the modifier state: CapsLock holds Control, then the physical Control is
  // pressed and let go.
  // ---------------------------------------------------------------------------

  const CAPS_LOCK: HidUsage := 0x070039
  const CAPS_KEY := Key(58, false)
  const CAPS_LAYOUT: Layout := key => if key == CONTROL_KEY then LEFT_CONTROL else CAPS_LOCK
  const HOLD_CONTROL := [NativeKey(NONE, LEFT_CONTROL)]
  const CAPS_RULES: Lookup := (usage, modifiers) => if usage == CAPS_LOCK then Some(HOLD_CONTROL) else None

  const CAPS_DOWN := Event(CAPS_KEY, Press, true, CAPS_RULES)
  const CAPS_HELD := State({0}, Tracker({CAPS_KEY}, {CAPS_KEY}, map[CAPS_KEY := {0}], NONE, NONE, {}))
  const BOTH_HELD := State({0}, Tracker({CAPS_KEY, CONTROL_KEY}, {CAPS_KEY}, map[CAPS_KEY := {0}], {0}, NONE, {}))
  const CAPS_ONLY := State(NONE, Tracker({CAPS_KEY}, {CAPS_KEY}, map[CAPS_KEY := {0}], NONE, NONE, {}))

  lemma CapsHolds()
    ensures EngineAfter(CAPS_LAYOUT, INITIAL, CAPS_DOWN) == CAPS_HELD
  {
    assert HOLD_CONTROL[..0] == [] && HeldByOutputs(HOLD_CONTROL) == {0};
    assert HeldBits(map[]) == NONE && WithoutBits(map[], NONE) == map[];
    var t := Tracker({CAPS_KEY}, {CAPS_KEY}, map[], NONE, NONE, {});
    assert ConsumeTriggered(t, NONE) == t;
    assert NONE + {0} == {0};
    assert HoldOutput(t, CAPS_KEY, {0}) == CAPS_HELD.tracker;
  }

  lemma HeldControlLeavesTheState()
    ensures EngineRun(CAPS_LAYOUT, INITIAL, [CAPS_DOWN, Event(CONTROL_KEY, Press, true, CAPS_RULES), CONTROL_UP]) == CAPS_ONLY
    ensures HeldBits(CAPS_ONLY.tracker.held) == {0} && CAPS_ONLY.modifiers == NONE
  {
    var press := Event(CONTROL_KEY, Press, true, CAPS_RULES);
    CapsHolds();
    assert CAPS_RULES(LEFT_CONTROL, {0}) == None;
    assert EngineAfter(CAPS_LAYOUT, CAPS_HELD, press) == BOTH_HELD;
    assert EngineAfter(CAPS_LAYOUT, BOTH_HELD, CONTROL_UP) == CAPS_ONLY;
    EngineRunSnoc(CAPS_LAYOUT, INITIAL, [], CAPS_DOWN);
    EngineRunSnoc(CAPS_LAYOUT, INITIAL, [CAPS_DOWN], press);
    EngineRunSnoc(CAPS_LAYOUT, INITIAL, [CAPS_DOWN, press], CONTROL_UP);
    assert [] + [CAPS_DOWN] == [CAPS_DOWN] && [CAPS_DOWN] + [press] == [CAPS_DOWN, press];
    assert [CAPS_DOWN, press] + [CONTROL_UP] == [CAPS_DOWN, press, CONTROL_UP];
  }
}
