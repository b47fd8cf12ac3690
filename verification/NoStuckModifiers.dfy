/**
 The invariants of the engine and of the device driven by it, for every run: any keys and any
 interleaving, any number of keys on one modifier bit, any flips of reachability, any rule tables.
 */
module NoStuckModifiers {
  import opened Wrappers
  import opened Bits
  import opened Hid
  import opened Engine
  import opened Emission
  import opened Device
  import opened Prefixes

  /** The pressed keys on bit b whose key-down was not swallowed. */
  function Live(layout: Layout, t: Tracker, b: Bit): (keys: set<Key>) {
    set k | k in t.pressed && k !in t.swallowed && BitOf(layout(k)) == Some(b)
  }

  /** What the bookkeeping of the engine guarantees about its own sets and masks. */
  ghost predicate Consistent(layout: Layout, s: State) {
    var t := s.tracker;
    && t.swallowed <= t.pressed
    && t.held.Keys <= t.swallowed
    && (forall k :: k in t.held ==> t.held[k] != NONE)
    && t.stale <= t.pressed - t.swallowed
    && (forall k :: k in t.stale ==> BitOf(layout(k)).None?)
    && t.forwarded !! t.consumed
    && (forall b: Bit :: b in t.forwarded ==> Live(layout, t, b) != {})
    && (forall b: Bit :: b in t.consumed ==> Live(layout, t, b) != {})
    && (forall b: Bit :: b in s.modifiers ==> Live(layout, t, b) != {} || b in HeldBits(t.held))
  }

  /**
   A bit that is down on the device has a witness: an output holds it, or a live key does. When the
   bit is marked consumed the release of one of its live keys will be swallowed, so a second is needed.
   */
  ghost predicate Witnessed(layout: Layout, t: Tracker, b: Bit) {
    b in HeldBits(t.held) || |Live(layout, t, b)| >= (if b in t.consumed then 2 else 1)
  }

  ghost predicate DeviceCovered(layout: Layout, w: World) {
    forall b: Bit :: b in w.device ==> Witnessed(layout, w.engine.tracker, b)
  }

  ghost predicate Good(layout: Layout, w: World) {
    Consistent(layout, w.engine) && DeviceCovered(layout, w)
  }

  /** A press event of a key that is still down and whose bit a fired trigger has consumed. */
  predicate RepressOfConsumed(layout: Layout, s: State, e: Event) {
    && e.kind == Press
    && e.key in s.tracker.pressed - s.tracker.swallowed
    && BitOf(layout(e.key)).Some?
    && BitOf(layout(e.key)).value in s.tracker.consumed
  }

  // ---------------------------------------------------------------------------
  // One step keeps the invariants
  // ---------------------------------------------------------------------------

  /** On the device, outputs add at most the bits they hold. */
  lemma {:induction false} OutputsOnDevice(device: Mask, outputs: seq<NativeKey>)
    ensures PerformedAll(device, ActionsOf(outputs)) <= device + HeldByOutputs(outputs)
  {
    if outputs != [] {
      var n := |outputs| - 1;
      OutputsOnDevice(device, outputs[..n]);
      assert ActionsOf(outputs)[..n] == ActionsOf(outputs[..n]);
    }
  }

  lemma EmitOnDevice(device: Mask, release: Mask, outputs: seq<NativeKey>)
    ensures PerformedAll(device, PlanOf(Emit(release, outputs), SwallowIt).actions) <= device - release + HeldByOutputs(outputs)
  {
    PerformedAllConcat(device, ReleaseFirst(release), ActionsOf(outputs));
    assert PerformedAll(device, ReleaseFirst(release)) == device - release;
    OutputsOnDevice(device - release, outputs);
  }

  lemma HeldAfterFiring(t: Tracker, key: Key, modifiers: Mask, holds: Mask, b: Bit)
    ensures b in HeldBits(HoldOutput(ConsumeTriggered(t, modifiers), key, holds).held) <==>
            b in HeldBits(t.held) - modifiers || b in holds
  {
    var consumed := ConsumeTriggered(t, modifiers);
    var after := HoldOutput(consumed, key, holds);
    if b in HeldBits(t.held) - modifiers {
      var k :| k in t.held && b in t.held[k];
      assert b in t.held[k] - modifiers;
      assert k in consumed.held && b in consumed.held[k];
      assert k in after.held && b in after.held[k];
    }
    if b in holds {
      assert b in after.held[key];
    }
    if b in HeldBits(after.held) {
      var k :| k in after.held && b in after.held[k];
    }
  }

  lemma FireChanges(layout: Layout, s: State, e: Event, b: Bit)
    requires Consistent(layout, s) && DecisionAt(layout, s, e).Emit?
    ensures var t, t' := s.tracker, EngineAfter(layout, s, e).tracker;
      && Live(layout, t', b) == Live(layout, t, b)
      && (b in HeldBits(t'.held) <==> b in HeldBits(t.held) - s.modifiers || b in HeldByOutputs(DecisionAt(layout, s, e).outputs))
  {
    var t := s.tracker;
    var pressed := t.(pressed := t.pressed + {e.key}, swallowed := t.swallowed + {e.key});
    HeldAfterFiring(pressed, e.key, s.modifiers, HeldByOutputs(DecisionAt(layout, s, e).outputs), b);
  }

  lemma FireKeepsConsistent(layout: Layout, s: State, e: Event)
    requires Consistent(layout, s) && DecisionAt(layout, s, e).Emit?
    ensures Consistent(layout, EngineAfter(layout, s, e))
  {
    forall b: Bit { FireChanges(layout, s, e, b); }
  }

  lemma FireKeeps(layout: Layout, w: World, e: Event)
    requires Good(layout, w) && DecisionAt(layout, w.engine, e).Emit?
    ensures Good(layout, Step(layout, w, e))
  {
    var decision := DecisionAt(layout, w.engine, e);
    FireKeepsConsistent(layout, w.engine, e);
    EmitOnDevice(w.device, decision.release, decision.outputs);
    forall b: Bit { FireChanges(layout, w.engine, e, b); }
  }

  lemma LiveAfterPass(layout: Layout, s: State, e: Event, b: Bit)
    requires Consistent(layout, s) && e.kind != Release && e.key !in s.tracker.pressed
    requires DecisionAt(layout, s, e).Pass?
    ensures Live(layout, EngineAfter(layout, s, e).tracker, b) ==
            Live(layout, s.tracker, b) + if BitOf(layout(e.key)) == Some(b) then {e.key} else {}
    ensures e.key !in Live(layout, s.tracker, b)
  {}

  lemma PassKeepsConsistent(layout: Layout, s: State, e: Event)
    requires Consistent(layout, s) && e.kind != Release && e.key !in s.tracker.pressed
    requires DecisionAt(layout, s, e).Pass?
    ensures Consistent(layout, EngineAfter(layout, s, e))
  {
    forall b: Bit { LiveAfterPass(layout, s, e, b); }
  }

  lemma PassKeeps(layout: Layout, w: World, e: Event)
    requires Good(layout, w) && e.kind != Release && e.key !in w.engine.tracker.pressed
    requires DecisionAt(layout, w.engine, e).Pass?
    ensures Good(layout, Step(layout, w, e))
  {
    PassKeepsConsistent(layout, w.engine, e);
    var t' := EngineAfter(layout, w.engine, e).tracker;
    forall b: Bit | b in Step(layout, w, e).device ensures Witnessed(layout, t', b) {
      LiveAfterPass(layout, w.engine, e, b);
    }
  }

  lemma RepeatKeeps(layout: Layout, w: World, e: Event)
    requires Good(layout, w) && e.kind != Release && e.key in w.engine.tracker.pressed
    requires !RepressOfConsumed(layout, w.engine, e)
    ensures Good(layout, Step(layout, w, e))
  {
    var t := w.engine.tracker;
    match BitOf(layout(e.key))
    case None =>
    case Some(bit) =>
      if e.key !in t.swallowed {
        assert e.key in Live(layout, t, bit);
      }
  }

  lemma WitnessesAfterRelease(layout: Layout, s: State, e: Event, b: Bit)
    requires Consistent(layout, s) && e.kind == Release
    ensures var t, t' := s.tracker, EngineAfter(layout, s, e).tracker;
      && Live(layout, t', b) == Live(layout, t, b) - {e.key}
      && (b in HeldBits(t'.held) ==> b in HeldBits(t.held))
      && (b in HeldBits(t.held) && !(e.key in t.held && b in t.held[e.key]) ==> b in HeldBits(t'.held))
  {
    var t, t' := s.tracker, EngineAfter(layout, s, e).tracker;
    if b in HeldBits(t.held) && !(e.key in t.held && b in t.held[e.key]) {
      var k :| k in t.held && b in t.held[k];
      assert k in t'.held;
    }
  }

  lemma ReleaseKeepsConsistent(layout: Layout, s: State, e: Event)
    requires Consistent(layout, s) && e.kind == Release
    ensures Consistent(layout, EngineAfter(layout, s, e))
  {
    forall b: Bit { WitnessesAfterRelease(layout, s, e, b); }
  }

  lemma ReleaseKeepsWitness(layout: Layout, w: World, e: Event, b: Bit)
    requires Good(layout, w) && e.kind == Release
    requires b in Step(layout, w, e).device
    ensures Witnessed(layout, EngineAfter(layout, w.engine, e).tracker, b)
  {
    var t := w.engine.tracker;
    WitnessesAfterRelease(layout, w.engine, e, b);
    if e.key in t.swallowed {
      assert PerformedAll(w.device, ReleaseFirst(NONE)) == w.device;
      assert e.key !in Live(layout, t, b);
    } else if BitOf(layout(e.key)) == Some(b) && e.key in t.pressed {
      assert e.key in Live(layout, t, b);
    } else {
      assert e.key !in Live(layout, t, b);
    }
    assert b in w.device;
  }

  lemma ReleaseKeeps(layout: Layout, w: World, e: Event)
    requires Good(layout, w) && e.kind == Release
    ensures Good(layout, Step(layout, w, e))
  {
    ReleaseKeepsConsistent(layout, w.engine, e);
    var t' := EngineAfter(layout, w.engine, e).tracker;
    forall b: Bit | b in Step(layout, w, e).device ensures Witnessed(layout, t', b) {
      ReleaseKeepsWitness(layout, w, e, b);
    }
  }

  /** The bookkeeping is consistent after every event whatsoever. */
  lemma StepKeepsConsistent(layout: Layout, s: State, e: Event)
    requires Consistent(layout, s)
    ensures Consistent(layout, EngineAfter(layout, s, e))
  {
    if e.kind == Release {
      ReleaseKeepsConsistent(layout, s, e);
    } else if e.key in s.tracker.pressed {
      assert EngineAfter(layout, s, e) == s;
    } else if DecisionAt(layout, s, e).Emit? {
      FireKeepsConsistent(layout, s, e);
    } else {
      PassKeepsConsistent(layout, s, e);
    }
  }

  lemma StepKeepsGood(layout: Layout, w: World, e: Event)
    requires Good(layout, w) && !RepressOfConsumed(layout, w.engine, e)
    ensures Good(layout, Step(layout, w, e))
  {
    if e.kind == Release {
      ReleaseKeeps(layout, w, e);
    } else if e.key in w.engine.tracker.pressed {
      RepeatKeeps(layout, w, e);
    } else if DecisionAt(layout, w.engine, e).Emit? {
      FireKeeps(layout, w, e);
    } else {
      PassKeeps(layout, w, e);
    }
  }

  /** A repeated press of the only live key of a consumed bit that no output holds. */
  predicate Breaks(layout: Layout, s: State, e: Event) {
    && RepressOfConsumed(layout, s, e)
    && BitOf(layout(e.key)).value !in HeldBits(s.tracker.held)
    && Live(layout, s.tracker, BitOf(layout(e.key)).value) == {e.key}
  }

  /** Exactly one kind of event breaks the cover of the device. */
  lemma StepKeepsGoodExactly(layout: Layout, w: World, e: Event)
    requires Good(layout, w)
    ensures Good(layout, Step(layout, w, e)) <==> !Breaks(layout, w.engine, e)
  {
    if !RepressOfConsumed(layout, w.engine, e) {
      StepKeepsGood(layout, w, e);
    } else {
      var t := w.engine.tracker;
      var bit := BitOf(layout(e.key)).value;
      assert Step(layout, w, e) == World(w.engine, w.device + {bit});
      assert e.key in Live(layout, t, bit);
      assert |Live(layout, t, bit)| >= 1;
      if |Live(layout, t, bit)| == 1 {
        assert Live(layout, t, bit) == {e.key} by {
          assert |Live(layout, t, bit) - {e.key}| == 0;
        }
      } else {
        assert Live(layout, t, bit) != {e.key};
      }
      assert bit in Step(layout, w, e).device;
    }
  }

  // ---------------------------------------------------------------------------
  // The start of the event stream
  // ---------------------------------------------------------------------------

  datatype Note = Noted(key: Key) | Unnoted(key: Key)

  function NoteAfter(layout: Layout, s: State, note: Note): (after: State) {
    match note
    case Noted(key) => NoteHeld(s, key, layout(key))
    case Unnoted(key) => UnnoteHeld(s, key, layout(key))
  }

  /** The engine after the keys found held were noted and some notes were undone again. */
  function Noting(layout: Layout, notes: seq<Note>): (s: State) {
    if notes == [] then INITIAL
    else NoteAfter(layout, Noting(layout, notes[..|notes| - 1]), notes[|notes| - 1])
  }

  /** The key-downs of the held modifiers that are still marked forwarded, sent to the device. */
  function Synced(layout: Layout, s: State, pending: set<Key>): (after: World) {
    World(s, set k | k in pending && BitOf(layout(k)).Some? && BitOf(layout(k)).value in s.tracker.forwarded
               :: BitOf(layout(k)).value)
  }

  /** Where every run begins: the keys held at the start are noted and their modifiers sent to the device. */
  function Begin(layout: Layout, notes: seq<Note>, pending: set<Key>): (w: World) {
    Synced(layout, Noting(layout, notes), pending)
  }

  lemma {:induction false} NotingIsConsistent(layout: Layout, notes: seq<Note>)
    ensures var s := Noting(layout, notes);
      && Consistent(layout, s)
      && s.tracker.swallowed == {} && s.tracker.consumed == NONE
  {
    if notes != [] {
      var n := |notes| - 1;
      NotingIsConsistent(layout, notes[..n]);
      NoteKeepsConsistent(layout, Noting(layout, notes[..n]), notes[n]);
    }
  }

  lemma NoteKeepsConsistent(layout: Layout, s: State, note: Note)
    requires Consistent(layout, s) && s.tracker.swallowed == {} && s.tracker.consumed == NONE
    ensures Consistent(layout, NoteAfter(layout, s, note))
  {
    var k := note.key;
    var t := s.tracker;
    var noted, unnoted := NoteHeld(s, k, layout(k)).tracker, UnnoteHeld(s, k, layout(k)).tracker;
    assert t.held.Keys == {};
    forall b: Bit
      ensures b !in HeldBits(t.held)
      ensures Live(layout, noted, b) == Live(layout, t, b) + if BitOf(layout(k)) == Some(b) then {k} else {}
      ensures Live(layout, unnoted, b) == Live(layout, t, b) - {k}
    {}
  }

  lemma SyncIsGood(layout: Layout, notes: seq<Note>, pending: set<Key>)
    ensures Good(layout, Begin(layout, notes, pending))
  {
    NotingIsConsistent(layout, notes);
    var w := Begin(layout, notes, pending);
    forall b: Bit | b in w.device ensures Witnessed(layout, w.engine.tracker, b) {
      assert Live(layout, w.engine.tracker, b) != {};
    }
  }

  // ---------------------------------------------------------------------------
  // Whole runs
  // ---------------------------------------------------------------------------

  /** No event of the run breaks the cover. */
  ghost predicate Unbroken(layout: Layout, w: World, events: seq<Event>) {
    AtNoStep((past: seq<Event>, e: Event) => Breaks(layout, Run(layout, w, past).engine, e), events)
  }

  /** The device is covered after every event of the run. */
  ghost predicate AlwaysGood(layout: Layout, w: World, events: seq<Event>) {
    AtAllPrefixes((past: seq<Event>) => Good(layout, Run(layout, w, past)), events)
  }

  lemma {:induction false} RunIsConsistent(layout: Layout, w: World, events: seq<Event>)
    requires Consistent(layout, w.engine)
    ensures Consistent(layout, Run(layout, w, events).engine)
  {
    if events != [] {
      var n := |events| - 1;
      RunIsConsistent(layout, w, events[..n]);
      StepKeepsConsistent(layout, Run(layout, w, events[..n]).engine, events[n]);
    }
  }

  /** The bookkeeping is consistent in every run, without any condition. */
  lemma EngineIsConsistent(layout: Layout, notes: seq<Note>, events: seq<Event>)
    ensures Consistent(layout, EngineRun(layout, Noting(layout, notes), events))
  {
    NotingIsConsistent(layout, notes);
    RunIsConsistent(layout, World(Noting(layout, notes), NONE), events);
    EngineOfRun(layout, World(Noting(layout, notes), NONE), events);
  }

  /** The device stays covered throughout a run if and only if no event of the run breaks the cover. */
  lemma RunIsGoodExactly(layout: Layout, w: World, events: seq<Event>)
    requires Good(layout, w)
    ensures AlwaysGood(layout, w, events) <==> Unbroken(layout, w, events)
  {
    var holds := (past: seq<Event>) => Good(layout, Run(layout, w, past));
    var breaks := (past: seq<Event>, e: Event) => Breaks(layout, Run(layout, w, past).engine, e);
    forall past: seq<Event>, e: Event | holds(past) ensures holds(past + [e]) <==> !breaks(past, e) {
      RunSnoc(layout, w, past, e);
      StepKeepsGoodExactly(layout, Run(layout, w, past), e);
    }
    HoldsUntilBroken(holds, breaks, events);
  }

  lemma RunIsGood(layout: Layout, w: World, events: seq<Event>)
    requires Good(layout, w) && Unbroken(layout, w, events)
    ensures Good(layout, Run(layout, w, events))
  {
    RunIsGoodExactly(layout, w, events);
    assert events[..|events|] == events;
  }

  lemma NoKeyNoState(layout: Layout, s: State)
    requires Consistent(layout, s) && s.tracker.pressed == {}
    ensures s == INITIAL
  {
    var t := s.tracker;
    assert t.held.Keys == {} && t.held == map[];
    forall b: Bit ensures Live(layout, t, b) == {} && b !in HeldBits(t.held) {}
    assert s.modifiers == NONE;
    assert t.forwarded == NONE;
    assert t.consumed == NONE;
  }

  lemma NoKeyNoWitness(layout: Layout, w: World)
    requires Good(layout, w) && w.engine.tracker.pressed == {}
    ensures w == START
  {
    NoKeyNoState(layout, w.engine);
    forall b: Bit ensures !Witnessed(layout, w.engine.tracker, b) {
      assert Live(layout, w.engine.tracker, b) == {} && b !in HeldBits(w.engine.tracker.held);
    }
    assert w.device == NONE;
  }

  /** In every run without exception, an engine with no key pressed is back in its initial state. */
  lemma EngineComesToRest(layout: Layout, notes: seq<Note>, events: seq<Event>)
    ensures var s := EngineRun(layout, Noting(layout, notes), events);
      s.tracker.pressed == {} ==> s == INITIAL
  {
    if EngineRun(layout, Noting(layout, notes), events).tracker.pressed == {} {
      EngineIsConsistent(layout, notes, events);
      NoKeyNoState(layout, EngineRun(layout, Noting(layout, notes), events));
    }
  }

  /**
   No stuck modifiers: from any held keys at the start, every modifier that is down on the device
   has a witness after every event, if and only if no event is a press of the only live key of a
   consumed, unheld bit. Then, whenever no key is pressed, no modifier is down.
   */
  lemma NoStuckModifiers(layout: Layout, notes: seq<Note>, pending: set<Key>, events: seq<Event>)
    ensures var start := Begin(layout, notes, pending);
      && (AlwaysGood(layout, start, events) <==> Unbroken(layout, start, events))
      && (Unbroken(layout, start, events) && Run(layout, start, events).engine.tracker.pressed == {} ==>
            Run(layout, start, events) == START)
  {
    var start := Begin(layout, notes, pending);
    SyncIsGood(layout, notes, pending);
    RunIsGoodExactly(layout, start, events);
    if Unbroken(layout, start, events) && Run(layout, start, events).engine.tracker.pressed == {} {
      RunIsGood(layout, start, events);
      NoKeyNoWitness(layout, Run(layout, start, events));
    }
  }

  // ---------------------------------------------------------------------------
  // The cover is exact: it holds if and only if letting go of the keys clears the device
  // ---------------------------------------------------------------------------

  const NO_RULES: Lookup := (usage, modifiers) => None

  function Releases(keys: seq<Key>): (events: seq<Event>)
    ensures |events| == |keys|
  {
    seq(|keys|, i requires 0 <= i < |keys| => ReleaseOf(keys[i]))
  }

  function ReleaseOf(key: Key): (r: Event) {
    Event(key, Release, true, NO_RULES)
  }

  lemma RunReleases(layout: Layout, w: World, key: Key, rest: seq<Key>)
    ensures Run(layout, w, Releases([key] + rest)) == Run(layout, Step(layout, w, ReleaseOf(key)), Releases(rest))
  {
    var e := ReleaseOf(key);
    assert Releases([key] + rest) == [e] + Releases(rest);
    RunConcat(layout, w, [e], Releases(rest));
    assert [e][..0] == [];
    assert Run(layout, w, [e]) == Step(layout, w, e);
  }

  /** However the keys that are down are let go, the device ends with no modifier down. */
  ghost predicate LettingGoClears(layout: Layout, w: World) {
    forall keys: seq<Key> ::
      var end := Run(layout, w, Releases(keys));
      end.engine.tracker.pressed == {} ==> end.device == NONE
  }

  lemma CoveredClears(layout: Layout, w: World)
    requires Good(layout, w)
    ensures LettingGoClears(layout, w)
  {
    forall keys: seq<Key> | Run(layout, w, Releases(keys)).engine.tracker.pressed == {}
      ensures Run(layout, w, Releases(keys)).device == NONE
    {
      RunIsGood(layout, w, Releases(keys));
      NoKeyNoWitness(layout, Run(layout, w, Releases(keys)));
    }
  }

  lemma ReleaseKeepsUnwitnessed(layout: Layout, w: World, e: Event, b: Bit)
    requires Consistent(layout, w.engine) && e.kind == Release && e.key in w.engine.tracker.pressed
    requires b in w.device && !Witnessed(layout, w.engine.tracker, b)
    ensures b in Step(layout, w, e).device
    ensures !Witnessed(layout, Step(layout, w, e).engine.tracker, b)
  {
    var t := w.engine.tracker;
    WitnessesAfterRelease(layout, w.engine, e, b);
    if e.key in t.swallowed {
      assert PerformedAll(w.device, ReleaseFirst(NONE)) == w.device;
      assert e.key in t.held ==> b !in t.held[e.key];
      assert e.key !in Live(layout, t, b);
    } else if BitOf(layout(e.key)) == Some(b) {
      assert e.key in Live(layout, t, b);
      assert b in t.consumed && |Live(layout, t, b)| == 1;
      assert |Live(layout, t, b) - {e.key}| == 0;
    } else {
      assert e.key !in Live(layout, t, b);
    }
  }

  /** An unwitnessed bit survives some way of letting go of all keys. */
  lemma {:induction false} UnwitnessedIsStuck(layout: Layout, w: World, b: Bit) returns (keys: seq<Key>)
    requires Consistent(layout, w.engine)
    requires b in w.device && !Witnessed(layout, w.engine.tracker, b)
    ensures var end := Run(layout, w, Releases(keys));
      end.engine.tracker.pressed == {} && b in end.device
    decreases |w.engine.tracker.pressed|
  {
    if w.engine.tracker.pressed == {} {
      keys := [];
    } else {
      var key :| key in w.engine.tracker.pressed;
      var next := Step(layout, w, ReleaseOf(key));
      ReleaseKeepsUnwitnessed(layout, w, ReleaseOf(key), b);
      ReleaseKeepsConsistent(layout, w.engine, ReleaseOf(key));
      assert next.engine.tracker.pressed == w.engine.tracker.pressed - {key};
      var rest := UnwitnessedIsStuck(layout, next, b);
      keys := [key] + rest;
      RunReleases(layout, w, key, rest);
    }
  }

  /** After any run at all, letting go of the keys clears the device exactly when it is covered. */
  lemma ClearsExactlyWhenCovered(layout: Layout, notes: seq<Note>, pending: set<Key>, events: seq<Event>)
    ensures var w := Run(layout, Begin(layout, notes, pending), events);
      LettingGoClears(layout, w) <==> DeviceCovered(layout, w)
  {
    var start := Begin(layout, notes, pending);
    NotingIsConsistent(layout, notes);
    RunIsConsistent(layout, start, events);
    var w := Run(layout, start, events);
    if DeviceCovered(layout, w) {
      CoveredClears(layout, w);
    } else {
      var b: Bit :| b in w.device && !Witnessed(layout, w.engine.tracker, b);
      var keys := UnwitnessedIsStuck(layout, w, b);
      assert Run(layout, w, Releases(keys)).device != NONE;
    }
  }
}
