/**
 Bits held by outputs and the engine's modifier state. A held bit is normally active for lookups;
 exactly when the release of a key on the same bit ends that is told here.
 */
module HeldOutputs {
  import opened Bits
  import opened Hid
  import opened Engine
  import opened Device
  import opened Prefixes
  import opened NoStuckModifiers

  /** The bits that letting a key go takes out of the modifier state: its own and those it holds. */
  function ClearedBy(layout: Layout, t: Tracker, key: Key): (bits: Mask) {
    SetOwn(if key in t.held then t.held[key] else NONE, layout(key))
  }

  /** The release of a pressed key that takes a bit another key still holds. */
  predicate Uncovers(layout: Layout, s: State, e: Event) {
    && e.kind == Release && e.key in s.tracker.pressed
    && ClearedBy(layout, s.tracker, e.key) * HeldBits(s.tracker.held - {e.key}) != NONE
  }

  ghost predicate HeldIsActive(s: State) {
    HeldBits(s.tracker.held) <= s.modifiers
  }

  lemma FireKeepsHeldActive(layout: Layout, s: State, e: Event)
    requires Consistent(layout, s) && HeldIsActive(s) && DecisionAt(layout, s, e).Emit?
    ensures HeldIsActive(EngineAfter(layout, s, e))
  {
    forall b: Bit { FireChanges(layout, s, e, b); }
  }

  lemma ReleaseKeepsHeldActive(layout: Layout, s: State, e: Event)
    requires Consistent(layout, s) && HeldIsActive(s) && e.kind == Release
    ensures HeldIsActive(EngineAfter(layout, s, e)) <==> !Uncovers(layout, s, e)
  {
    if e.key in s.tracker.pressed {
      var t, s' := s.tracker, EngineAfter(layout, s, e);
      assert s'.modifiers == s.modifiers - ClearedBy(layout, t, e.key);
      assert s'.tracker.held == t.held - {e.key};
      assert HeldBits(t.held - {e.key}) <= HeldBits(t.held);
      TakenAway(HeldBits(t.held - {e.key}), s.modifiers, ClearedBy(layout, t, e.key));
    }
  }

  lemma TakenAway(still: Mask, modifiers: Mask, cleared: Mask)
    requires still <= modifiers
    ensures still <= modifiers - cleared <==> cleared * still == NONE
  {
    if cleared * still == NONE {
      forall b: Bit | b in still ensures b in modifiers - cleared {
        assert b !in cleared * still;
      }
    } else {
      var b :| b in cleared * still;
      assert b in still && b !in modifiers - cleared;
    }
  }

  /** Held bits stay active through every event but the release of a key that clears another key's bit. */
  lemma StepKeepsHeldActive(layout: Layout, s: State, e: Event)
    requires Consistent(layout, s) && HeldIsActive(s)
    ensures HeldIsActive(EngineAfter(layout, s, e)) <==> !Uncovers(layout, s, e)
  {
    if e.kind == Release {
      ReleaseKeepsHeldActive(layout, s, e);
    } else if DecisionAt(layout, s, e).Emit? {
      FireKeepsHeldActive(layout, s, e);
    }
  }

  /**
   In every run, every bit that an output holds is active for lookups after every event if and only if
   no key is let go that clears a bit another key still holds.
   */
  lemma HeldOutputsStayActive(layout: Layout, notes: seq<Note>, events: seq<Event>)
    ensures var start := Noting(layout, notes);
      AtAllPrefixes((past: seq<Event>) => HeldIsActive(EngineRun(layout, start, past)), events) <==>
      AtNoStep((past: seq<Event>, e: Event) => Uncovers(layout, EngineRun(layout, start, past), e), events)
  {
    var start := Noting(layout, notes);
    var holds := (past: seq<Event>) => HeldIsActive(EngineRun(layout, start, past));
    var breaks := (past: seq<Event>, e: Event) => Uncovers(layout, EngineRun(layout, start, past), e);
    NotingIsConsistent(layout, notes);
    assert start.tracker.held.Keys == {};
    forall past: seq<Event>, e: Event | holds(past) ensures holds(past + [e]) <==> !breaks(past, e) {
      EngineIsConsistent(layout, notes, past);
      EngineRunSnoc(layout, start, past, e);
      StepKeepsHeldActive(layout, EngineRun(layout, start, past), e);
    }
    HoldsUntilBroken(holds, breaks, events);
  }
}
