/**
 The output device as the set of modifier bits that are down on it, and runs of the engine
 executed on it. Every event carries its own reachability flag and its own rule table, so a run
 covers every flip of the emitter and every hot reload.
 */
module Device {
  import opened Wrappers
  import opened Bits
  import opened Hid
  import opened Engine
  import opened Emission

  /** Every physical key has a fixed usage; several keys may share one. */
  type Layout = Key -> HidUsage

  /** The value of a key event: 1, 2 and 0 in evdev terms. */
  datatype Kind = Press | Repeat | Release

  datatype Event = Event(key: Key, kind: Kind, reachable: bool, lookup: Lookup)

  datatype World = World(engine: State, device: Mask)

  const START := World(INITIAL, NONE)

  /** A forwarded repeat of a modifier is not replayed on the device. */
  function Forwarded(device: Mask, usage: HidUsage, kind: Kind): (bits: Mask) {
    match kind
    case Press => SetOwn(device, usage)
    case Repeat => device
    case Release => ClearOwn(device, usage)
  }

  function Performed(device: Mask, action: EmitAction): (bits: Mask) {
    match action
    case ReleaseConsumed(mask) => device - mask
    case Tap(output) => device + output.modifiers - output.modifiers
    case Hold(output) => device + (match HeldMask(output) case Some(mask) => mask case None => NONE)
  }

  function PerformedAll(device: Mask, actions: seq<EmitAction>): (bits: Mask) {
    if actions == [] then device
    else Performed(PerformedAll(device, actions[..|actions| - 1]), actions[|actions| - 1])
  }

  function Executed(device: Mask, usage: HidUsage, kind: Kind, plan: EmissionPlan): (bits: Mask) {
    PerformedAll(if plan.input == Forward then Forwarded(device, usage, kind) else device, plan.actions)
  }

  ghost function DecisionAt(layout: Layout, s: State, e: Event): (decision: Decision) {
    Decide(s, e.key, layout(e.key), e.kind != Release, e.reachable, e.lookup).1
  }

  ghost function EngineAfter(layout: Layout, s: State, e: Event): (after: State) {
    Decide(s, e.key, layout(e.key), e.kind != Release, e.reachable, e.lookup).0
  }

  /** One event on a platform whose device already released the consumed modifiers. */
  ghost function Step(layout: Layout, w: World, e: Event): (after: World) {
    World(EngineAfter(layout, w.engine, e),
          Executed(w.device, layout(e.key), e.kind, PlanOf(DecisionAt(layout, w.engine, e), SwallowIt)))
  }

  ghost function Run(layout: Layout, w: World, events: seq<Event>): (after: World) {
    if events == [] then w
    else Step(layout, Run(layout, w, events[..|events| - 1]), events[|events| - 1])
  }

  /** The engine of a run, without its device. */
  ghost function EngineRun(layout: Layout, s: State, events: seq<Event>): (after: State) {
    if events == [] then s
    else EngineAfter(layout, EngineRun(layout, s, events[..|events| - 1]), events[|events| - 1])
  }

  lemma EngineRunSnoc(layout: Layout, s: State, events: seq<Event>, e: Event)
    ensures EngineRun(layout, s, events + [e]) == EngineAfter(layout, EngineRun(layout, s, events), e)
  {
    assert (events + [e])[..|events|] == events;
  }

  lemma {:induction false} EngineOfRun(layout: Layout, w: World, events: seq<Event>)
    ensures Run(layout, w, events).engine == EngineRun(layout, w.engine, events)
  {
    if events != [] {
      EngineOfRun(layout, w, events[..|events| - 1]);
    }
  }

  /** The decision taken on the i-th event of a run. */
  ghost function DecisionIn(layout: Layout, s: State, events: seq<Event>, i: nat): (decision: Decision)
    requires i < |events|
  {
    DecisionAt(layout, EngineRun(layout, s, events[..i]), events[i])
  }

  lemma PerformedAllConcat(device: Mask, xs: seq<EmitAction>, ys: seq<EmitAction>)
    ensures PerformedAll(device, xs + ys) == PerformedAll(PerformedAll(device, xs), ys)
  {
    if ys == [] {
      assert xs + ys == xs;
    } else {
      var n := |ys| - 1;
      PerformedAllConcat(device, xs, ys[..n]);
      assert (xs + ys)[..|xs + ys| - 1] == xs + ys[..n];
    }
  }

  lemma RunSnoc(layout: Layout, w: World, events: seq<Event>, e: Event)
    ensures Run(layout, w, events + [e]) == Step(layout, Run(layout, w, events), e)
  {}

  lemma {:induction false} RunConcat(layout: Layout, w: World, xs: seq<Event>, ys: seq<Event>)
    ensures Run(layout, w, xs + ys) == Run(layout, Run(layout, w, xs), ys)
  {
    if ys == [] {
      assert xs + ys == xs;
    } else {
      RunConcat(layout, w, xs, ys[..|ys| - 1]);
      InitOfConcat(xs, ys);
    }
  }

  /** An engine and the device it drives. */
  class Session {
    const engine: MappingEngine
    var device: Mask

    function Value(): (value: World)
      reads this, engine, engine.tracker
    {
      World(engine.Value(), device)
    }

    constructor ()
      ensures Value() == START
      ensures fresh(engine) && fresh(engine.tracker)
    {
      engine := new MappingEngine();
      device := NONE;
    }

    /** Decide an event, forward it if the plan says so, and perform the actions of the plan in order. */
    method Process(layout: Layout, e: Event)
      modifies this, engine, engine.tracker
      ensures Value() == Step(layout, old(Value()), e)
    {
      var usage := layout(e.key);
      var decision := engine.DecideEvent(e.key, usage, e.kind != Release, e.reachable, e.lookup);
      var plan := BuildPlan(decision, SwallowIt);
      Execute(usage, e.kind, plan);
    }

    /** Forward the input if the plan says so, then perform its actions in order. */
    method Execute(usage: HidUsage, kind: Kind, plan: EmissionPlan)
      modifies this
      ensures device == Executed(old(device), usage, kind, plan)
    {
      if plan.input == Forward {
        device := Forwarded(device, usage, kind);
      }
      ghost var start := device;
      for i := 0 to |plan.actions|
        invariant device == PerformedAll(start, plan.actions[..i])
      {
        assert plan.actions[..i + 1][..i] == plan.actions[..i];
        device := Performed(device, plan.actions[i]);
      }
      assert plan.actions[..|plan.actions|] == plan.actions;
    }
  }
}
