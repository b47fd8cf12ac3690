/**
 Clean taps: once the release mask of a fired trigger is applied, none of the modifiers that the
 trigger was matched under is down on the device, so they do not ride on the first output. What can
 be left is a modifier whose press reached the device without being recorded as forwarded, and the
 trace alone tells which.
 */
module CleanTap {
  import opened Bits
  import opened Hid
  import opened Engine
  import opened Emission
  import opened Device
  import opened NoStuckModifiers
  import opened KeyFate

  // ---------------------------------------------------------------------------
  // Monitors of the modifier bits
  // ---------------------------------------------------------------------------

  /** The bits recorded as forwarded. */
  ghost function ForwardedIn(layout: Layout, trace: seq<Seen>): (bits: Mask) {
    if trace == [] then NONE
    else
      var init := trace[..|trace| - 1];
      var before := ForwardedIn(layout, init);
      match trace[|trace| - 1]
      case Started(Noted(key)) => SetOwn(before, layout(key))
      case Started(Unnoted(key)) => ClearOwn(before, layout(key))
      case Saw(event, decision) =>
        var first := FateIn(layout, init, event.key) == IsUp;
        match decision
        case Emit(release, _) => before - release
        case Pass =>
          if event.kind == Release then (if first then before else ClearOwn(before, layout(event.key)))
          else if first && event.reachable then SetOwn(before, layout(event.key))
          else before
        case _ => before
  }

  /**
   The bits that reached the device by a press that was not recorded as forwarded: a press while the
   emitter was unreachable, or a repeat that arrived as a press.
   */
  ghost function LeakedIn(layout: Layout, trace: seq<Seen>): (bits: Mask) {
    if trace == [] then NONE
    else
      var init := trace[..|trace| - 1];
      var before := LeakedIn(layout, init);
      match trace[|trace| - 1]
      case Started(_) => before
      case Saw(event, decision) =>
        match decision
        case Emit(release, _) => before - release
        case Swallow(release) => before - release
        case ConsumedRelease => before
        case Pass =>
          var recorded := FateIn(layout, init, event.key) == IsUp && event.reachable;
          if event.kind == Release || recorded then ClearOwn(before, layout(event.key))
          else if event.kind == Press then SetOwn(before, layout(event.key)) - ForwardedIn(layout, init)
          else before
  }

  /** The bits that fired triggers took from forwarded modifiers whose release is still to come. */
  ghost function ConsumedIn(layout: Layout, trace: seq<Seen>): (bits: Mask) {
    if trace == [] then NONE
    else
      var init := trace[..|trace| - 1];
      var before := ConsumedIn(layout, init);
      match trace[|trace| - 1]
      case Started(_) => before
      case Saw(event, decision) =>
        match decision
        case Emit(release, _) => before + release * ForwardedIn(layout, init)
        case ConsumedRelease => ClearOwn(before, layout(event.key))
        case Pass =>
          if event.kind != Release && event.reachable && FateIn(layout, init, event.key) == IsUp
          then ClearOwn(before, layout(event.key))
          else before
        case _ => before
  }

  ghost predicate ForwardedAgrees(layout: Layout, trace: seq<Seen>, t: Tracker) {
    && ForwardedIn(layout, trace) == t.forwarded
    && ConsumedIn(layout, trace) == t.consumed
    && LeakedIn(layout, trace) !! t.forwarded
  }

  lemma {:induction false} NotesForward(layout: Layout, notes: seq<Note>)
    ensures ForwardedAgrees(layout, NoteTrace(notes), Noting(layout, notes).tracker)
    ensures LeakedIn(layout, NoteTrace(notes)) == NONE
  {
    if notes != [] {
      var n := |notes| - 1;
      NotesForward(layout, notes[..n]);
      NotingIsConsistent(layout, notes[..n]);
      NoteTraceSnoc(notes);
      LastSeen(NoteTrace(notes[..n]), Started(notes[n]));
    }
  }

  lemma StepForwards(layout: Layout, s: State, trace: seq<Seen>, e: Event)
    requires Consistent(layout, s) && FateAgrees(layout, trace, s.tracker, e.key) && ForwardedAgrees(layout, trace, s.tracker)
    ensures ForwardedAgrees(layout, trace + [Saw(e, DecisionAt(layout, s, e))], EngineAfter(layout, s, e).tracker)
  {
    LastSeen(trace, Saw(e, DecisionAt(layout, s, e)));
  }

  /** The trace tells which bits are forwarded and which consumed, and leaked bits are not forwarded. */
  lemma {:induction false} RunForwards(layout: Layout, notes: seq<Note>, events: seq<Event>)
    ensures ForwardedAgrees(layout, Trace(layout, notes, events), EngineRun(layout, Noting(layout, notes), events).tracker)
  {
    if events == [] {
      NotesForward(layout, notes);
    } else {
      var n := |events| - 1;
      RunForwards(layout, notes, events[..n]);
      RunAgrees(layout, notes, events[..n], events[n].key);
      StepForwards(layout, EngineRun(layout, Noting(layout, notes), events[..n]), Trace(layout, notes, events[..n]), events[n]);
    }
  }

  /**
   However many keys share a bit: the release of a passing key is a consumed release if and only if
   the trace says that its bit is consumed, and passes otherwise.
   */
  lemma ReleaseIsConsumedExactly(layout: Layout, notes: seq<Note>, events: seq<Event>, i: nat)
    requires i < |events| && events[i].kind == Release
    requires FateIn(layout, Trace(layout, notes, events[..i]), events[i].key) == Passing
    ensures DecisionIn(layout, Noting(layout, notes), events, i) ==
            match BitOf(layout(events[i].key))
            case Some(bit) => if bit in ConsumedIn(layout, Trace(layout, notes, events[..i])) then ConsumedRelease else Pass
            case None => Pass
  {
    RunAgrees(layout, notes, events[..i], events[i].key);
    RunForwards(layout, notes, events[..i]);
  }

  // ---------------------------------------------------------------------------
  // The device is covered by the forwarded, the held and the leaked bits
  // ---------------------------------------------------------------------------

  ghost predicate Tracked(layout: Layout, w: World, trace: seq<Seen>) {
    w.device <= w.engine.tracker.forwarded + HeldBits(w.engine.tracker.held) + LeakedIn(layout, trace)
  }

  lemma FireTracksBit(layout: Layout, w: World, e: Event, leaked: Mask, b: Bit)
    requires Consistent(layout, w.engine) && DecisionAt(layout, w.engine, e).Emit?
    requires w.device <= w.engine.tracker.forwarded + HeldBits(w.engine.tracker.held) + leaked
    requires b in Step(layout, w, e).device
    ensures var t' := EngineAfter(layout, w.engine, e).tracker;
      b in t'.forwarded + HeldBits(t'.held) + (leaked - DecisionAt(layout, w.engine, e).release)
  {
    var decision := DecisionAt(layout, w.engine, e);
    EmitOnDevice(w.device, decision.release, decision.outputs);
    FireChanges(layout, w.engine, e, b);
  }

  lemma FireTracks(layout: Layout, w: World, trace: seq<Seen>, e: Event)
    requires Consistent(layout, w.engine) && Tracked(layout, w, trace) && DecisionAt(layout, w.engine, e).Emit?
    ensures Tracked(layout, Step(layout, w, e), trace + [Saw(e, DecisionAt(layout, w.engine, e))])
  {
    LastSeen(trace, Saw(e, DecisionAt(layout, w.engine, e)));
    forall b: Bit | b in Step(layout, w, e).device { FireTracksBit(layout, w, e, LeakedIn(layout, trace), b); }
  }

  /** Letting a key go takes its own bit, or what only it held, from device and bookkeeping alike. */
  lemma ReleaseTracksBit(layout: Layout, w: World, e: Event, b: Bit)
    requires Consistent(layout, w.engine) && e.kind == Release && b in Step(layout, w, e).device
    ensures b in w.device
    ensures var t, t' := w.engine.tracker, EngineAfter(layout, w.engine, e).tracker;
      b in t.forwarded + HeldBits(t.held) ==> b in t'.forwarded + HeldBits(t'.held)
  {
    assert PerformedAll(w.device, ReleaseFirst(NONE)) == w.device;
    var t := w.engine.tracker;
    if k :| k in t.held && b in t.held[k] && k != e.key {
      assert k in EngineAfter(layout, w.engine, e).tracker.held;
    }
  }

  lemma ReleaseTracks(layout: Layout, w: World, trace: seq<Seen>, e: Event)
    requires Consistent(layout, w.engine) && Tracked(layout, w, trace) && e.kind == Release
    ensures Tracked(layout, Step(layout, w, e), trace + [Saw(e, DecisionAt(layout, w.engine, e))])
  {
    LastSeen(trace, Saw(e, DecisionAt(layout, w.engine, e)));
    assert PerformedAll(w.device, ReleaseFirst(NONE)) == w.device;
    forall b: Bit | b in Step(layout, w, e).device { ReleaseTracksBit(layout, w, e, b); }
  }

  lemma PassTracks(layout: Layout, w: World, trace: seq<Seen>, e: Event)
    requires Consistent(layout, w.engine) && FateAgrees(layout, trace, w.engine.tracker, e.key)
    requires Tracked(layout, w, trace) && ForwardedAgrees(layout, trace, w.engine.tracker)
    requires e.kind != Release && !DecisionAt(layout, w.engine, e).Emit?
    ensures Tracked(layout, Step(layout, w, e), trace + [Saw(e, DecisionAt(layout, w.engine, e))])
  {
    LastSeen(trace, Saw(e, DecisionAt(layout, w.engine, e)));
    assert PerformedAll(w.device, ReleaseFirst(NONE)) == w.device;
  }

  /** In every run, each modifier down on the device is forwarded, held by an output, or leaked. */
  lemma {:induction false} RunTracksDevice(layout: Layout, notes: seq<Note>, pending: set<Key>, events: seq<Event>)
    ensures Tracked(layout, Run(layout, Begin(layout, notes, pending), events), Trace(layout, notes, events))
  {
    var start := Begin(layout, notes, pending);
    if events != [] {
      var n := |events| - 1;
      var w, trace := Run(layout, start, events[..n]), Trace(layout, notes, events[..n]);
      RunTracksDevice(layout, notes, pending, events[..n]);
      EngineOfRun(layout, start, events[..n]);
      RunAgrees(layout, notes, events[..n], events[n].key);
      RunForwards(layout, notes, events[..n]);
      if DecisionAt(layout, w.engine, events[n]).Emit? {
        FireTracks(layout, w, trace, events[n]);
      } else if events[n].kind == Release {
        ReleaseTracks(layout, w, trace, events[n]);
      } else {
        PassTracks(layout, w, trace, events[n]);
      }
    }
  }

  // ---------------------------------------------------------------------------
  // Fired triggers
  // ---------------------------------------------------------------------------

  /** The emitter was always reachable, and auto-repeats arrived as repeats. */
  ghost predicate AllRecorded(layout: Layout, notes: seq<Note>, events: seq<Event>) {
    forall i :: 0 <= i < |events| && events[i].kind == Press ==>
      events[i].reachable && FateIn(layout, Trace(layout, notes, events[..i]), events[i].key) == IsUp
  }

  lemma {:induction false} RecordedDoesNotLeak(layout: Layout, notes: seq<Note>, events: seq<Event>)
    requires AllRecorded(layout, notes, events)
    ensures LeakedIn(layout, Trace(layout, notes, events)) == NONE
  {
    if events == [] {
      NotesForward(layout, notes);
    } else {
      var n := |events| - 1;
      forall i | 0 <= i < n ensures events[..n][..i] == events[..i] {}
      RecordedDoesNotLeak(layout, notes, events[..n]);
      LastSeen(Trace(layout, notes, events[..n]), Saw(events[n], DecisionIn(layout, Noting(layout, notes), events, n)));
    }
  }

  /** What a fired trigger leaves down of the modifiers it was matched under. */
  ghost function LeftOfTrigger(w: World, decision: Decision): (mask: Mask)
    requires decision.Emit?
  {
    (w.device - decision.release) * w.engine.modifiers
  }

  lemma FiringLeaves(layout: Layout, w: World, e: Event, leaked: Mask)
    requires DecisionAt(layout, w.engine, e).Emit?
    requires w.device <= w.engine.tracker.forwarded + HeldBits(w.engine.tracker.held) + leaked
    requires leaked !! w.engine.tracker.forwarded
    ensures LeftOfTrigger(w, DecisionAt(layout, w.engine, e)) ==
            w.device * w.engine.modifiers * leaked - HeldBits(w.engine.tracker.held)
  {}

  /**
   When the i-th event of any run fires a trigger: after its release mask, the modifiers of the
   trigger that are still down are exactly the leaked ones that no output holds, so the tap is clean
   exactly when there is none; and none leaks while every press is recorded.
   */
  lemma FiredTriggerTapsCleanly(layout: Layout, notes: seq<Note>, pending: set<Key>, events: seq<Event>, i: nat)
    requires i < |events| && DecisionIn(layout, Noting(layout, notes), events, i).Emit?
    ensures var w := Run(layout, Begin(layout, notes, pending), events[..i]);
      var left := LeftOfTrigger(w, DecisionIn(layout, Noting(layout, notes), events, i));
      && left == w.device * w.engine.modifiers * LeakedIn(layout, Trace(layout, notes, events[..i])) - HeldBits(w.engine.tracker.held)
      && (AllRecorded(layout, notes, events[..i]) ==> left == NONE)
  {
    var start, past := Begin(layout, notes, pending), events[..i];
    RunTracksDevice(layout, notes, pending, past);
    RunForwards(layout, notes, past);
    EngineOfRun(layout, start, past);
    FiringLeaves(layout, Run(layout, start, past), events[i], LeakedIn(layout, Trace(layout, notes, past)));
    if AllRecorded(layout, notes, past) {
      RecordedDoesNotLeak(layout, notes, past);
    }
  }
}
