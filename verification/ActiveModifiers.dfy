/**
 The modifier state that lookups see. It is fixed by the notes and the trace alone: the bits of the
 passing keys that are down and of the outputs that are held, less the bits that were cleared while
 another key still stood for them.
 */
module ActiveModifiers {
  import opened Wrappers
  import opened Bits
  import opened Hid
  import opened Engine
  import opened Device
  import opened Prefixes
  import opened NoStuckModifiers
  import opened KeyFate
  import opened CleanTap
  import opened HeldOutputs

  // ---------------------------------------------------------------------------
  // One step
  // ---------------------------------------------------------------------------

  /** The bits of the pressed keys that were not mapped. */
  function LiveBits(layout: Layout, t: Tracker): (bits: Mask) {
    set k | k in t.pressed && k !in t.swallowed && BitOf(layout(k)).Some? :: BitOf(layout(k)).value
  }

  function OwnBits(usage: HidUsage): (bits: Mask) {
    match BitOf(usage) case Some(bit) => {bit} case None => NONE
  }

  lemma LiveBitsAreLive(layout: Layout, t: Tracker, b: Bit)
    ensures b in LiveBits(layout, t) <==> Live(layout, t, b) != {}
  {
    if b in LiveBits(layout, t) {
      var k :| k in t.pressed && k !in t.swallowed && BitOf(layout(k)) == Some(b);
      assert k in Live(layout, t, b);
    }
    if k :| k in Live(layout, t, b) {
      assert BitOf(layout(k)).value in LiveBits(layout, t);
    }
  }

  lemma FiredBits(layout: Layout, s: State, e: Event)
    requires Consistent(layout, s) && DecisionAt(layout, s, e).Emit?
    ensures var s' := EngineAfter(layout, s, e);
      var held, holds := HeldBits(s.tracker.held), HeldByOutputs(DecisionAt(layout, s, e).outputs);
      && LiveBits(layout, s'.tracker) == LiveBits(layout, s.tracker)
      && HeldBits(s'.tracker.held) == held - s.modifiers + holds
      && s'.modifiers == s.modifiers - held - OwnBits(layout(e.key)) + holds
  {
    var s' := EngineAfter(layout, s, e);
    forall b: Bit
      ensures b in LiveBits(layout, s'.tracker) <==> b in LiveBits(layout, s.tracker)
    {
      FireChanges(layout, s, e, b);
      LiveBitsAreLive(layout, s.tracker, b);
      LiveBitsAreLive(layout, s'.tracker, b);
    }
    forall b: Bit { FireChanges(layout, s, e, b); }
  }

  lemma PassedBits(layout: Layout, s: State, e: Event)
    requires Consistent(layout, s) && e.kind != Release && e.key !in s.tracker.pressed && DecisionAt(layout, s, e).Pass?
    ensures var s' := EngineAfter(layout, s, e);
      && LiveBits(layout, s'.tracker) == LiveBits(layout, s.tracker) + OwnBits(layout(e.key))
      && s'.tracker.held == s.tracker.held
      && s'.modifiers == s.modifiers + OwnBits(layout(e.key))
  {
    var s' := EngineAfter(layout, s, e);
    forall b: Bit
      ensures b in LiveBits(layout, s'.tracker) <==> b in LiveBits(layout, s.tracker) + OwnBits(layout(e.key))
    {
      LiveAfterPass(layout, s, e, b);
      LiveBitsAreLive(layout, s.tracker, b);
      LiveBitsAreLive(layout, s'.tracker, b);
    }
  }

  lemma ReleasedBits(layout: Layout, s: State, e: Event)
    requires Consistent(layout, s) && e.kind == Release && e.key in s.tracker.pressed
    ensures var s' := EngineAfter(layout, s, e);
      var cleared := ClearedBy(layout, s.tracker, e.key);
      && LiveBits(layout, s'.tracker) <= LiveBits(layout, s.tracker) <= LiveBits(layout, s'.tracker) + cleared
      && HeldBits(s'.tracker.held) <= HeldBits(s.tracker.held) <= HeldBits(s'.tracker.held) + cleared
      && s'.modifiers == s.modifiers - cleared
  {
    var s' := EngineAfter(layout, s, e);
    forall b: Bit
      ensures b in LiveBits(layout, s'.tracker) ==> b in LiveBits(layout, s.tracker)
      ensures b in LiveBits(layout, s.tracker) ==> b in LiveBits(layout, s'.tracker) + ClearedBy(layout, s.tracker, e.key)
      ensures b in HeldBits(s'.tracker.held) ==> b in HeldBits(s.tracker.held)
      ensures b in HeldBits(s.tracker.held) ==> b in HeldBits(s'.tracker.held) + ClearedBy(layout, s.tracker, e.key)
    {
      WitnessesAfterRelease(layout, s, e, b);
      LiveBitsAreLive(layout, s.tracker, b);
      LiveBitsAreLive(layout, s'.tracker, b);
    }
  }

  // ---------------------------------------------------------------------------
  // Live keys stay active
  // ---------------------------------------------------------------------------

  ghost predicate LiveIsActive(layout: Layout, s: State) {
    LiveBits(layout, s.tracker) <= s.modifiers
  }

  /**
   The event clears a bit that a live key still has: a release takes it, or a fired trigger takes it
   from a hold or from its own key and no output holds it again.
   */
  ghost predicate Dims(layout: Layout, s: State, e: Event) {
    var t, t' := s.tracker, EngineAfter(layout, s, e).tracker;
    if e.kind == Release then
      e.key in t.pressed && ClearedBy(layout, t, e.key) * LiveBits(layout, t') != NONE
    else
      DecisionAt(layout, s, e).Emit? &&
      !((HeldBits(t.held) + OwnBits(layout(e.key))) * LiveBits(layout, t) <= HeldByOutputs(DecisionAt(layout, s, e).outputs))
  }

  /** Live keys stay active through exactly the events that do not clear a bit a live key still has. */
  lemma StepKeepsLiveActive(layout: Layout, s: State, e: Event)
    requires Consistent(layout, s) && LiveIsActive(layout, s)
    ensures LiveIsActive(layout, EngineAfter(layout, s, e)) <==> !Dims(layout, s, e)
  {
    var s' := EngineAfter(layout, s, e);
    if e.kind == Release && e.key in s.tracker.pressed {
      ReleasedBits(layout, s, e);
      TakenAway(LiveBits(layout, s'.tracker), s.modifiers, ClearedBy(layout, s.tracker, e.key));
    } else if DecisionAt(layout, s, e).Emit? {
      FiredBits(layout, s, e);
      TakenAndGiven(LiveBits(layout, s.tracker), s.modifiers, HeldBits(s.tracker.held) + OwnBits(layout(e.key)),
                    HeldByOutputs(DecisionAt(layout, s, e).outputs));
      assert s.modifiers - HeldBits(s.tracker.held) - OwnBits(layout(e.key)) ==
             s.modifiers - (HeldBits(s.tracker.held) + OwnBits(layout(e.key)));
    } else if e.kind != Release && e.key !in s.tracker.pressed {
      PassedBits(layout, s, e);
    } else {
      assert s' == s;
    }
  }

  lemma TakenAndGiven(live: Mask, modifiers: Mask, taken: Mask, given: Mask)
    requires live <= modifiers
    ensures live <= modifiers - taken + given <==> taken * live <= given
  {
    if live <= modifiers - taken + given {
      forall b | b in taken * live ensures b in given {
        assert b in live;
      }
    }
    if taken * live <= given {
      forall b | b in live ensures b in modifiers - taken + given {
        assert b in taken ==> b in taken * live;
      }
    }
  }

  /**
   From any consistent state in which they are, in every run with every rule table: the bits of the
   live keys are in the modifier state after every event if and only if no event dims one.
   */
  lemma LiveKeysStayActive(layout: Layout, s: State, events: seq<Event>)
    requires Consistent(layout, s) && LiveIsActive(layout, s)
    ensures AtAllPrefixes((past: seq<Event>) => LiveIsActive(layout, EngineRun(layout, s, past)), events) <==>
            AtNoStep((past: seq<Event>, e: Event) => Dims(layout, EngineRun(layout, s, past), e), events)
  {
    var holds := (past: seq<Event>) => LiveIsActive(layout, EngineRun(layout, s, past));
    var breaks := (past: seq<Event>, e: Event) => Dims(layout, EngineRun(layout, s, past), e);
    forall past: seq<Event>, e: Event | holds(past) ensures holds(past + [e]) <==> !breaks(past, e) {
      RunIsConsistent(layout, World(s, NONE), past);
      EngineOfRun(layout, World(s, NONE), past);
      EngineRunSnoc(layout, s, past, e);
      StepKeepsLiveActive(layout, EngineRun(layout, s, past), e);
    }
    HoldsUntilBroken(holds, breaks, events);
  }

  // ---------------------------------------------------------------------------
  // The modifier state from the trace alone
  // ---------------------------------------------------------------------------

  /** The bits of the keys that passed and are down. */
  ghost function PassingIn(layout: Layout, trace: seq<Seen>): (bits: Mask) {
    set b: Bit | b in ALL_BITS && exists key: Key :: FateIn(layout, trace, key) == Passing && BitOf(layout(key)) == Some(b)
  }

  /** The bits that outputs of mapped keys hold. */
  ghost function HeldIn(layout: Layout, trace: seq<Seen>): (bits: Mask) {
    set b: Bit | b in ALL_BITS && exists key: Key :: b in HoldIn(layout, trace, key)
  }

  /** The bits that were cleared and not set again since. */
  ghost function DimmedIn(layout: Layout, trace: seq<Seen>): (bits: Mask) {
    if trace == [] then NONE
    else
      var init := trace[..|trace| - 1];
      var before := DimmedIn(layout, init);
      match trace[|trace| - 1]
      case Started(Noted(key)) => before - OwnBits(layout(key))
      case Started(Unnoted(key)) => before + OwnBits(layout(key))
      case Saw(event, decision) =>
        var own, first := OwnBits(layout(event.key)), FateIn(layout, init, event.key) == IsUp;
        if event.kind == Release then
          if first then before else before + own + HoldIn(layout, init, event.key)
        else if decision.Emit? then before + HeldIn(layout, init) + own - HeldByOutputs(decision.outputs)
        else if first then before - own
        else before
  }

  ghost predicate StateAgrees(layout: Layout, s: State, dimmed: Mask) {
    s.modifiers == LiveBits(layout, s.tracker) + HeldBits(s.tracker.held) - dimmed
  }

  lemma FireAgreesOnState(layout: Layout, s: State, e: Event, dimmed: Mask)
    requires Consistent(layout, s) && StateAgrees(layout, s, dimmed) && DecisionAt(layout, s, e).Emit?
    ensures StateAgrees(layout, EngineAfter(layout, s, e),
                        dimmed + HeldBits(s.tracker.held) + OwnBits(layout(e.key)) - HeldByOutputs(DecisionAt(layout, s, e).outputs))
  {
    FiredBits(layout, s, e);
  }

  lemma ReleaseAgreesOnState(layout: Layout, s: State, e: Event, dimmed: Mask)
    requires Consistent(layout, s) && StateAgrees(layout, s, dimmed) && e.kind == Release && e.key in s.tracker.pressed
    ensures StateAgrees(layout, EngineAfter(layout, s, e), dimmed + ClearedBy(layout, s.tracker, e.key))
  {
    ReleasedBits(layout, s, e);
  }

  lemma HeldInIsHeld(layout: Layout, trace: seq<Seen>, t: Tracker)
    requires forall key: Key :: FateAgrees(layout, trace, t, key)
    ensures HeldIn(layout, trace) == HeldBits(t.held)
  {
    forall b: Bit ensures b in HeldIn(layout, trace) <==> b in HeldBits(t.held) {
      assert b in ALL_BITS;
      if b in HeldBits(t.held) {
        var key :| key in t.held && b in t.held[key];
        assert FateAgrees(layout, trace, t, key);
      }
      if b in HeldIn(layout, trace) {
        var key :| b in HoldIn(layout, trace, key);
        assert FateAgrees(layout, trace, t, key);
      }
    }
  }

  lemma PassingInIsLive(layout: Layout, trace: seq<Seen>, s: State)
    requires Consistent(layout, s)
    requires forall key: Key :: FateAgrees(layout, trace, s.tracker, key)
    ensures PassingIn(layout, trace) == LiveBits(layout, s.tracker)
  {
    var t := s.tracker;
    forall b: Bit ensures b in PassingIn(layout, trace) <==> b in LiveBits(layout, t) {
      assert b in ALL_BITS;
      if b in LiveBits(layout, t) {
        var key :| key in t.pressed && key !in t.swallowed && BitOf(layout(key)) == Some(b);
        assert FateAgrees(layout, trace, t, key);
      }
      if b in PassingIn(layout, trace) {
        var key :| FateIn(layout, trace, key) == Passing && BitOf(layout(key)) == Some(b);
        assert FateAgrees(layout, trace, t, key);
      }
    }
  }

  lemma StepAgreesOnState(layout: Layout, s: State, trace: seq<Seen>, e: Event)
    requires Consistent(layout, s) && StateAgrees(layout, s, DimmedIn(layout, trace))
    requires forall key: Key :: FateAgrees(layout, trace, s.tracker, key)
    ensures StateAgrees(layout, EngineAfter(layout, s, e), DimmedIn(layout, trace + [Saw(e, DecisionAt(layout, s, e))]))
  {
    var dimmed, own := DimmedIn(layout, trace), OwnBits(layout(e.key));
    LastSeen(trace, Saw(e, DecisionAt(layout, s, e)));
    assert FateAgrees(layout, trace, s.tracker, e.key);
    if e.kind == Release && e.key in s.tracker.pressed {
      ReleaseAgreesOnState(layout, s, e, dimmed);
      assert ClearedBy(layout, s.tracker, e.key) == own + HoldIn(layout, trace, e.key);
      assert dimmed + (own + HoldIn(layout, trace, e.key)) == dimmed + own + HoldIn(layout, trace, e.key);
    } else if DecisionAt(layout, s, e).Emit? {
      HeldInIsHeld(layout, trace, s.tracker);
      FireAgreesOnState(layout, s, e, dimmed);
    } else if e.kind != Release && e.key !in s.tracker.pressed {
      PassedBits(layout, s, e);
    } else {
      assert EngineAfter(layout, s, e) == s;
    }
  }

  lemma NoteAgreesOnState(layout: Layout, s: State, note: Note, dimmed: Mask)
    requires Consistent(layout, s) && s.tracker.swallowed == {} && StateAgrees(layout, s, dimmed)
    ensures StateAgrees(layout, NoteAfter(layout, s, note),
                        if note.Noted? then dimmed - OwnBits(layout(note.key)) else dimmed + OwnBits(layout(note.key)))
  {
    var t, t' := s.tracker, NoteAfter(layout, s, note).tracker;
    var own := OwnBits(layout(note.key));
    assert t.held.Keys == {} && HeldBits(t.held) == NONE;
    forall b: Bit
      ensures note.Noted? ==> (b in LiveBits(layout, t') <==> b in LiveBits(layout, t) + own)
      ensures note.Unnoted? && b !in own ==> (b in LiveBits(layout, t') <==> b in LiveBits(layout, t))
    {
      LiveBitsAreLive(layout, t, b);
      LiveBitsAreLive(layout, t', b);
      assert Live(layout, t', b) == if BitOf(layout(note.key)) != Some(b) then Live(layout, t, b)
                                    else if note.Noted? then Live(layout, t, b) + {note.key}
                                    else Live(layout, t, b) - {note.key};
    }
  }

  lemma {:induction false} NotesAgreeOnState(layout: Layout, notes: seq<Note>)
    ensures StateAgrees(layout, Noting(layout, notes), DimmedIn(layout, NoteTrace(notes)))
  {
    if notes != [] {
      var n := |notes| - 1;
      NotesAgreeOnState(layout, notes[..n]);
      NotingIsConsistent(layout, notes[..n]);
      NoteTraceSnoc(notes);
      LastSeen(NoteTrace(notes[..n]), Started(notes[n]));
      NoteAgreesOnState(layout, Noting(layout, notes[..n]), notes[n], DimmedIn(layout, NoteTrace(notes[..n])));
    }
  }

  lemma {:induction false} RunAgreesOnState(layout: Layout, notes: seq<Note>, events: seq<Event>)
    ensures StateAgrees(layout, EngineRun(layout, Noting(layout, notes), events), DimmedIn(layout, Trace(layout, notes, events)))
  {
    if events == [] {
      NotesAgreeOnState(layout, notes);
    } else {
      var n := |events| - 1;
      RunAgreesOnState(layout, notes, events[..n]);
      EngineIsConsistent(layout, notes, events[..n]);
      forall key: Key { RunAgrees(layout, notes, events[..n], key); }
      StepAgreesOnState(layout, EngineRun(layout, Noting(layout, notes), events[..n]), Trace(layout, notes, events[..n]), events[n]);
    }
  }

  /**
   In every run the modifier state is exactly what the notes and the trace say: the bits of passing
   keys and of held outputs, less those cleared and not set again since.
   */
  lemma ModifierStateIsToldByTheTrace(layout: Layout, notes: seq<Note>, events: seq<Event>)
    ensures var trace := Trace(layout, notes, events);
      EngineRun(layout, Noting(layout, notes), events).modifiers ==
      PassingIn(layout, trace) + HeldIn(layout, trace) - DimmedIn(layout, trace)
  {
    var s, trace := EngineRun(layout, Noting(layout, notes), events), Trace(layout, notes, events);
    RunAgreesOnState(layout, notes, events);
    EngineIsConsistent(layout, notes, events);
    forall key: Key ensures FateAgrees(layout, trace, s.tracker, key) { RunAgrees(layout, notes, events, key); }
    PassingInIsLive(layout, trace, s);
    HeldInIsHeld(layout, trace, s.tracker);
  }

  /** The modifiers that a key-down is looked up under, from the trace alone. */
  ghost function ActiveIn(layout: Layout, trace: seq<Seen>): (bits: Mask) {
    PassingIn(layout, trace) + HeldIn(layout, trace) - DimmedIn(layout, trace)
  }

  /**
   The decision on a fresh key-down from the trace alone: the rule table is asked under the active
   modifiers, and the trigger releases exactly those of them that are forwarded or held.
   */
  lemma FreshDownIsToldByTheTrace(layout: Layout, notes: seq<Note>, events: seq<Event>, i: nat)
    requires i < |events| && events[i].kind != Release
    requires FateIn(layout, Trace(layout, notes, events[..i]), events[i].key) == IsUp
    ensures var trace := Trace(layout, notes, events[..i]);
      var active := ActiveIn(layout, trace);
      var found := events[i].lookup(layout(events[i].key), active);
      DecisionIn(layout, Noting(layout, notes), events, i) ==
      if events[i].reachable && found.Some?
      then Emit(active * (ForwardedIn(layout, trace) + HeldIn(layout, trace)), found.value)
      else Pass
  {
    var trace, s := Trace(layout, notes, events[..i]), EngineRun(layout, Noting(layout, notes), events[..i]);
    ModifierStateIsToldByTheTrace(layout, notes, events[..i]);
    RunForwards(layout, notes, events[..i]);
    forall key: Key ensures FateAgrees(layout, trace, s.tracker, key) { RunAgrees(layout, notes, events[..i], key); }
    HeldInIsHeld(layout, trace, s.tracker);
    assert FateAgrees(layout, trace, s.tracker, events[i].key);
    var active, forwarded, held := s.modifiers, s.tracker.forwarded, HeldBits(s.tracker.held);
    assert active * (forwarded + held) == (active * forwarded) + (held * active);
  }
}
