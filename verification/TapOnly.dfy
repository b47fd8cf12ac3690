/**
 Rule tables that hold nothing. When no rule outputs a modifier key and every modifier bit has one
 key, the engine refines a machine that keeps sets of keys and no mask at all.
 */
module TapOnly {
  import opened Bits
  import opened Hid
  import opened Engine
  import opened Emission
  import opened Device
  import opened NoStuckModifiers
  import opened KeyFate
  import opened CleanTap

  /** What a decision means to the typist: which of the outputs appear, and whether the event does. */
  datatype Verdict = Lets | Types(outputs: seq<NativeKey>) | Drops

  datatype Keys = Keys(pressed: set<Key>, mapped: set<Key>, stale: set<Key>)

  function BitsOf(layout: Layout, keys: set<Key>): (bits: Mask) {
    set k | k in keys && BitOf(layout(k)).Some? :: BitOf(layout(k)).value
  }

  function VerdictOf(decision: Decision): (verdict: Verdict) {
    match decision
    case Pass => Lets
    case ConsumedRelease => Lets
    case Emit(_, outputs) => Types(outputs)
    case Swallow(_) => Drops
  }

  /** The simple machine: a fresh key-down looks at the passing keys that are down, and at nothing else. */
  function KeysVerdict(layout: Layout, keys: Keys, e: Event): (verdict: Verdict) {
    if e.kind == Release then
      if e.key in keys.mapped then Drops else Lets
    else if e.key in keys.pressed then
      if e.key in keys.mapped + keys.stale then Drops else Lets
    else if !e.reachable then Lets
    else match e.lookup(layout(e.key), BitsOf(layout, keys.pressed - keys.mapped))
      case Some(outputs) => Types(outputs)
      case None => Lets
  }

  function KeysAfter(layout: Layout, keys: Keys, e: Event): (after: Keys) {
    if e.kind == Release then Keys(keys.pressed - {e.key}, keys.mapped - {e.key}, keys.stale - {e.key})
    else if KeysVerdict(layout, keys, e).Types? then Keys(keys.pressed + {e.key}, keys.mapped + {e.key}, keys.stale)
    else Keys(keys.pressed + {e.key}, keys.mapped, keys.stale)
  }

  /** The keys held at the start; those that are no modifiers are stale. */
  function KeysNoted(layout: Layout, notes: seq<Note>): (keys: Keys) {
    if notes == [] then Keys({}, {}, {})
    else
      var before, note := KeysNoted(layout, notes[..|notes| - 1]), notes[|notes| - 1];
      var own := if BitOf(layout(note.key)).Some? then {} else {note.key};
      if note.Noted? then Keys(before.pressed + {note.key}, {}, before.stale + own)
      else Keys(before.pressed - {note.key}, {}, before.stale - own)
  }

  function KeysRun(layout: Layout, notes: seq<Note>, events: seq<Event>): (keys: Keys) {
    if events == [] then KeysNoted(layout, notes)
    else KeysAfter(layout, KeysRun(layout, notes, events[..|events| - 1]), events[|events| - 1])
  }

  ghost predicate HoldsNothing(lookup: Lookup) {
    forall usage: HidUsage, modifiers: Mask ::
      lookup(usage, modifiers).Some? ==> HeldByOutputs(lookup(usage, modifiers).value) == NONE
  }

  ghost predicate TapsOnly(events: seq<Event>) {
    forall i :: 0 <= i < |events| ==> HoldsNothing(events[i].lookup)
  }

  ghost predicate Refines(layout: Layout, s: State, keys: Keys) {
    var t := s.tracker;
    && t.pressed == keys.pressed
    && t.swallowed == keys.mapped
    && t.stale == keys.stale
    && t.held == map[]
    && s.modifiers == BitsOf(layout, keys.pressed - keys.mapped)
  }

  /** Adding or removing a key changes its own bit and no other. */
  lemma OneKeyOneBit(layout: Layout, keys: set<Key>, key: Key)
    requires OneKeyPerBit(layout)
    ensures BitsOf(layout, keys + {key}) == SetOwn(BitsOf(layout, keys), layout(key))
    ensures BitsOf(layout, keys - {key}) == ClearOwn(BitsOf(layout, keys), layout(key))
  {}

  lemma StepRefines(layout: Layout, s: State, keys: Keys, e: Event)
    requires OneKeyPerBit(layout) && HoldsNothing(e.lookup)
    requires Consistent(layout, s) && Refines(layout, s, keys)
    ensures Refines(layout, EngineAfter(layout, s, e), KeysAfter(layout, keys, e))
    ensures VerdictOf(DecisionAt(layout, s, e)) == KeysVerdict(layout, keys, e)
  {
    var live, keys' := keys.pressed - keys.mapped, KeysAfter(layout, keys, e);
    assert HeldBits(map[]) == NONE;
    OneKeyOneBit(layout, live, e.key);
    assert keys'.pressed - keys'.mapped == if e.kind == Release then live - {e.key}
                                           else if e.key in keys.pressed || KeysVerdict(layout, keys, e).Types? then live
                                           else live + {e.key};
    if e.key !in live {
      assert live - {e.key} == live;
    }
  }

  lemma {:induction false} NotesRefine(layout: Layout, notes: seq<Note>)
    requires OneKeyPerBit(layout)
    ensures Refines(layout, Noting(layout, notes), KeysNoted(layout, notes))
  {
    if notes == [] {
      assert BitsOf(layout, {}) == NONE;
    } else {
      var n := |notes| - 1;
      var before := KeysNoted(layout, notes[..n]).pressed;
      NotesRefine(layout, notes[..n]);
      NotingIsConsistent(layout, notes[..n]);
      OneKeyOneBit(layout, before, notes[n].key);
      assert forall keys: set<Key> :: keys - {} == keys;
    }
  }

  lemma {:induction false} RunRefines(layout: Layout, notes: seq<Note>, events: seq<Event>)
    requires OneKeyPerBit(layout) && TapsOnly(events)
    ensures Refines(layout, EngineRun(layout, Noting(layout, notes), events), KeysRun(layout, notes, events))
  {
    if events == [] {
      NotesRefine(layout, notes);
    } else {
      var n := |events| - 1;
      RunRefines(layout, notes, events[..n]);
      EngineIsConsistent(layout, notes, events[..n]);
      StepRefines(layout, EngineRun(layout, Noting(layout, notes), events[..n]), KeysRun(layout, notes, events[..n]), events[n]);
    }
  }

  /** Every decision of every run has the verdict of the simple machine. */
  lemma TapOnlyRulesSeeOnlyKeys(layout: Layout, notes: seq<Note>, events: seq<Event>, i: nat)
    requires OneKeyPerBit(layout) && i < |events| && TapsOnly(events)
    ensures VerdictOf(DecisionIn(layout, Noting(layout, notes), events, i)) ==
            KeysVerdict(layout, KeysRun(layout, notes, events[..i]), events[i])
  {
    RunRefines(layout, notes, events[..i]);
    EngineIsConsistent(layout, notes, events[..i]);
    StepRefines(layout, EngineRun(layout, Noting(layout, notes), events[..i]), KeysRun(layout, notes, events[..i]), events[i]);
  }

  // ---------------------------------------------------------------------------
  // What is down before each output
  // ---------------------------------------------------------------------------

  function ModifiersOf(outputs: seq<NativeKey>): (bits: Mask) {
    if outputs == [] then NONE else ModifiersOf(outputs[..|outputs| - 1]) + outputs[|outputs| - 1].modifiers
  }

  /** Taps press and release their own modifiers. */
  lemma {:induction false} TapsOnDevice(device: Mask, outputs: seq<NativeKey>)
    requires HeldByOutputs(outputs) == NONE
    ensures PerformedAll(device, ActionsOf(outputs)) == device - ModifiersOf(outputs)
  {
    if outputs != [] {
      var n := |outputs| - 1;
      TapsOnDevice(device, outputs[..n]);
      assert ActionsOf(outputs)[..n] == ActionsOf(outputs[..n]);
    }
  }

  lemma {:induction false} FewerOutputsHoldLess(outputs: seq<NativeKey>, j: nat)
    requires j <= |outputs|
    ensures HeldByOutputs(outputs[..j]) <= HeldByOutputs(outputs)
  {
    if j == |outputs| {
      assert outputs[..j] == outputs;
    } else {
      var n := |outputs| - 1;
      FewerOutputsHoldLess(outputs[..n], j);
      assert outputs[..n][..j] == outputs[..j];
    }
  }

  lemma FiredOutputsHoldNothing(layout: Layout, s: State, e: Event)
    requires HoldsNothing(e.lookup) && DecisionAt(layout, s, e).Emit?
    ensures HeldByOutputs(DecisionAt(layout, s, e).outputs) == NONE
  {
    assert e.lookup(layout(e.key), s.modifiers).Some?;
  }

  lemma ReleaseLeavesLeaks(layout: Layout, w: World, keys: Keys, e: Event, leaked: Mask)
    requires Consistent(layout, w.engine) && Refines(layout, w.engine, keys) && DecisionAt(layout, w.engine, e).Emit?
    requires w.device <= w.engine.tracker.forwarded + HeldBits(w.engine.tracker.held) + leaked
    requires leaked !! w.engine.tracker.forwarded
    ensures w.device - DecisionAt(layout, w.engine, e).release == w.device * leaked
  {
    assert HeldBits(map[]) == NONE;
    forall b: Bit | b in w.engine.tracker.forwarded ensures b in w.engine.modifiers {
      var key :| key in Live(layout, w.engine.tracker, b);
    }
  }

  /**
   With such rules, before the output at j of a fired trigger exactly the leaked modifiers are down
   that no earlier output of the trigger has released; in runs where every press is recorded, none, so
   that each output is typed with exactly its own modifiers.
   */
  lemma TapOnlyOutputsAreExact(layout: Layout, notes: seq<Note>, pending: set<Key>, events: seq<Event>, i: nat, j: nat)
    requires OneKeyPerBit(layout) && i < |events| && TapsOnly(events)
    requires var decision := DecisionIn(layout, Noting(layout, notes), events, i);
      decision.Emit? && j <= |decision.outputs|
    ensures var w := Run(layout, Begin(layout, notes, pending), events[..i]);
      var decision := DecisionIn(layout, Noting(layout, notes), events, i);
      var down := PerformedAll(w.device, ReleaseFirst(decision.release) + ActionsOf(decision.outputs[..j]));
      && down == w.device * LeakedIn(layout, Trace(layout, notes, events[..i])) - ModifiersOf(decision.outputs[..j])
      && (AllRecorded(layout, notes, events[..i]) ==> down == NONE)
  {
    var start, past := Begin(layout, notes, pending), events[..i];
    var w, decision := Run(layout, start, past), DecisionIn(layout, Noting(layout, notes), events, i);
    EngineOfRun(layout, start, past);
    RunRefines(layout, notes, past);
    EngineIsConsistent(layout, notes, past);
    RunTracksDevice(layout, notes, pending, past);
    RunForwards(layout, notes, past);
    ReleaseLeavesLeaks(layout, w, KeysRun(layout, notes, past), events[i], LeakedIn(layout, Trace(layout, notes, past)));
    FiredOutputsHoldNothing(layout, w.engine, events[i]);
    FewerOutputsHoldLess(decision.outputs, j);
    PerformedAllConcat(w.device, ReleaseFirst(decision.release), ActionsOf(decision.outputs[..j]));
    assert PerformedAll(w.device, ReleaseFirst(decision.release)) == w.device - decision.release;
    TapsOnDevice(w.device - decision.release, decision.outputs[..j]);
    if AllRecorded(layout, notes, past) {
      RecordedDoesNotLeak(layout, notes, past);
    }
  }
}
