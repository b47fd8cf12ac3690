/**
 The fate of a key, told from the trace alone: what the notes at the start, the events and the
 decisions so far say about one key decides what its next repeat or release becomes, whatever the
 rule tables, the reachability flag and the other keys did in between.
 */
module KeyFate {
  import opened Wrappers
  import opened Bits
  import opened Hid
  import opened Engine
  import opened Emission
  import opened Device
  import opened NoStuckModifiers

  /** A note of a key held before the stream, or an event with the decision that was taken on it. */
  datatype Seen = Started(note: Note) | Saw(event: Event, decision: Decision)

  function NoteTrace(notes: seq<Note>): (trace: seq<Seen>)
    ensures |trace| == |notes|
  {
    seq(|notes|, i requires 0 <= i < |notes| => Started(notes[i]))
  }

  ghost function Trace(layout: Layout, notes: seq<Note>, events: seq<Event>): (trace: seq<Seen>)
    ensures |trace| == |notes| + |events|
  {
    if events == [] then NoteTrace(notes)
    else
      var n := |events| - 1;
      Trace(layout, notes, events[..n]) + [Saw(events[n], DecisionIn(layout, Noting(layout, notes), events, n))]
  }

  lemma LastSeen(trace: seq<Seen>, seen: Seen)
    ensures (trace + [seen])[..|trace + [seen]| - 1] == trace
  {}

  lemma NoteTraceSnoc(notes: seq<Note>)
    requires notes != []
    ensures NoteTrace(notes) == NoteTrace(notes[..|notes| - 1]) + [Started(notes[|notes| - 1])]
  {}

  // ---------------------------------------------------------------------------
  // Monitors that read nothing but the trace
  // ---------------------------------------------------------------------------

  /** Stale is a held non-modifier whose key-down was consumed before the stream. */
  datatype Fate = IsUp | Passing | Mapped | Stale

  ghost function FateIn(layout: Layout, trace: seq<Seen>, key: Key): (fate: Fate) {
    if trace == [] then IsUp
    else
      var before := FateIn(layout, trace[..|trace| - 1], key);
      match trace[|trace| - 1]
      case Started(note) =>
        if note.key != key then before
        else if note.Unnoted? then IsUp
        else if BitOf(layout(key)).Some? then Passing else Stale
      case Saw(event, decision) =>
        if event.key != key then before
        else if event.kind == Release then IsUp
        else if before != IsUp then before
        else if decision.Emit? then Mapped else Passing
  }

  /**
   The modifier bits that the outputs of a mapped key still hold: all that they pressed, less what
   the release masks of later triggers took away.
   */
  ghost function HoldIn(layout: Layout, trace: seq<Seen>, key: Key): (mask: Mask) {
    if trace == [] then NONE
    else
      var init := trace[..|trace| - 1];
      match trace[|trace| - 1]
      case Started(_) => HoldIn(layout, init, key)
      case Saw(event, decision) =>
        if event.key == key then
          if event.kind == Release then NONE
          else if FateIn(layout, init, key) == IsUp && decision.Emit? then HeldByOutputs(decision.outputs)
          else HoldIn(layout, init, key)
        else if decision.Emit? then HoldIn(layout, init, key) - decision.release
        else HoldIn(layout, init, key)
  }

  /** How a modifier key that passed is followed: from its press until a release mask takes its bit. */
  datatype Track = Untracked | Forwarding | Taken

  ghost function TrackIn(layout: Layout, trace: seq<Seen>, key: Key, bit: Bit): (track: Track) {
    if trace == [] then Untracked
    else
      var init := trace[..|trace| - 1];
      var before := TrackIn(layout, init, key, bit);
      match trace[|trace| - 1]
      case Started(note) => if note.key != key then before else if note.Noted? then Forwarding else Untracked
      case Saw(event, decision) =>
        if event.key == key then
          if event.kind == Release then Untracked
          else if FateIn(layout, init, key) == IsUp then (if decision.Pass? && event.reachable then Forwarding else Untracked)
          else before
        else if decision.Emit? && bit in decision.release && before == Forwarding then Taken
        else before
  }

  // ---------------------------------------------------------------------------
  // The engine agrees with the monitors
  // ---------------------------------------------------------------------------

  ghost predicate FateAgrees(layout: Layout, trace: seq<Seen>, t: Tracker, key: Key) {
    && (FateIn(layout, trace, key) == IsUp <==> key !in t.pressed)
    && (FateIn(layout, trace, key) == Mapped <==> key in t.swallowed)
    && (FateIn(layout, trace, key) == Stale <==> key in t.stale)
    && HoldIn(layout, trace, key) == (if key in t.held then t.held[key] else NONE)
  }

  lemma NoteAgrees(layout: Layout, s: State, trace: seq<Seen>, note: Note, key: Key)
    requires Consistent(layout, s) && s.tracker.swallowed == {} && FateAgrees(layout, trace, s.tracker, key)
    ensures FateAgrees(layout, trace + [Started(note)], NoteAfter(layout, s, note).tracker, key)
  {
    LastSeen(trace, Started(note));
  }

  lemma {:induction false} NotesAgree(layout: Layout, notes: seq<Note>, key: Key)
    ensures FateAgrees(layout, NoteTrace(notes), Noting(layout, notes).tracker, key)
  {
    if notes != [] {
      var n := |notes| - 1;
      NotesAgree(layout, notes[..n], key);
      NotingIsConsistent(layout, notes[..n]);
      NoteTraceSnoc(notes);
      NoteAgrees(layout, Noting(layout, notes[..n]), NoteTrace(notes[..n]), notes[n], key);
    }
  }

  lemma FireAgrees(layout: Layout, s: State, trace: seq<Seen>, e: Event, key: Key)
    requires Consistent(layout, s) && FateAgrees(layout, trace, s.tracker, key)
    requires DecisionAt(layout, s, e).Emit?
    ensures FateAgrees(layout, trace + [Saw(e, DecisionAt(layout, s, e))], EngineAfter(layout, s, e).tracker, key)
  {
    LastSeen(trace, Saw(e, DecisionAt(layout, s, e)));
    var t, release := s.tracker, DecisionAt(layout, s, e).release;
    if key in t.held {
      assert t.held[key] <= HeldBits(t.held);
      assert t.held[key] - release == t.held[key] - s.modifiers;
    }
    assert e.key !in t.held;
  }

  lemma StepAgrees(layout: Layout, s: State, trace: seq<Seen>, e: Event, key: Key)
    requires Consistent(layout, s) && FateAgrees(layout, trace, s.tracker, key)
    ensures FateAgrees(layout, trace + [Saw(e, DecisionAt(layout, s, e))], EngineAfter(layout, s, e).tracker, key)
  {
    LastSeen(trace, Saw(e, DecisionAt(layout, s, e)));
    if DecisionAt(layout, s, e).Emit? {
      FireAgrees(layout, s, trace, e, key);
    }
  }

  /** What the trace says about a key is what the tracker records, after any notes and any events. */
  lemma {:induction false} RunAgrees(layout: Layout, notes: seq<Note>, events: seq<Event>, key: Key)
    ensures Consistent(layout, EngineRun(layout, Noting(layout, notes), events))
    ensures FateAgrees(layout, Trace(layout, notes, events), EngineRun(layout, Noting(layout, notes), events).tracker, key)
  {
    EngineIsConsistent(layout, notes, events);
    if events == [] {
      NotesAgree(layout, notes, key);
    } else {
      var n := |events| - 1;
      RunAgrees(layout, notes, events[..n], key);
      StepAgrees(layout, EngineRun(layout, Noting(layout, notes), events[..n]), Trace(layout, notes, events[..n]), events[n], key);
    }
  }

  /** What the trace so far allows for an event. */
  ghost predicate DecidedByTrace(layout: Layout, trace: seq<Seen>, e: Event, decision: Decision) {
    match FateIn(layout, trace, e.key)
    case IsUp => if e.kind == Release then decision == Pass else decision.Pass? || decision.Emit?
    case Mapped => decision == Swallow(if e.kind == Release then HoldIn(layout, trace, e.key) else NONE)
    case Stale => decision == if e.kind == Release then Pass else Swallow(NONE)
    case Passing =>
      decision == Pass || (decision == ConsumedRelease && e.kind == Release && BitOf(layout(e.key)).Some?)
  }

  /**
   Key-fate pairing: in every run, the first key-down decides everything until the key is let go. A
   mapped key's repeats and release are swallowed, the release with exactly the modifier bits its
   outputs still hold; a passing key's repeats and release pass, or are a consumed release; a key
   held since before the stream is released natively and its repeats are swallowed.
   */
  lemma FatesArePaired(layout: Layout, notes: seq<Note>, events: seq<Event>, i: nat)
    requires i < |events|
    ensures DecidedByTrace(layout, Trace(layout, notes, events[..i]), events[i], DecisionIn(layout, Noting(layout, notes), events, i))
  {
    RunAgrees(layout, notes, events[..i], events[i].key);
  }

  /** The fresh key-down of an unpressed key emits exactly when its rule table has outputs for it. */
  lemma FreshDownFollowsTheRules(layout: Layout, notes: seq<Note>, events: seq<Event>, i: nat)
    requires i < |events| && events[i].kind != Release
    requires FateIn(layout, Trace(layout, notes, events[..i]), events[i].key) == IsUp
    ensures var s := Noting(layout, notes);
      var found := events[i].lookup(layout(events[i].key), EngineRun(layout, s, events[..i]).modifiers);
      var decision := DecisionIn(layout, s, events, i);
      if events[i].reachable && found.Some? then decision.Emit? && decision.outputs == found.value else decision == Pass
  {
    RunAgrees(layout, notes, events[..i], events[i].key);
  }

  // ---------------------------------------------------------------------------
  // A forwarded modifier is released exactly once
  // ---------------------------------------------------------------------------

  ghost predicate OneKeyPerBit(layout: Layout) {
    forall k, l :: BitOf(layout(k)).Some? && BitOf(layout(k)) == BitOf(layout(l)) ==> k == l
  }

  ghost predicate TrackAgrees(layout: Layout, trace: seq<Seen>, t: Tracker, key: Key, bit: Bit) {
    && (TrackIn(layout, trace, key, bit) == Forwarding <==> bit in t.forwarded)
    && (TrackIn(layout, trace, key, bit) == Taken <==> bit in t.consumed)
  }

  lemma {:induction false} NotesTrack(layout: Layout, notes: seq<Note>, key: Key, bit: Bit)
    requires OneKeyPerBit(layout) && BitOf(layout(key)) == Some(bit)
    ensures TrackAgrees(layout, NoteTrace(notes), Noting(layout, notes).tracker, key, bit)
  {
    if notes != [] {
      var n := |notes| - 1;
      NotesTrack(layout, notes[..n], key, bit);
      NotingIsConsistent(layout, notes[..n]);
      NoteTraceSnoc(notes);
      LastSeen(NoteTrace(notes[..n]), Started(notes[n]));
      assert notes[n].key != key ==> BitOf(layout(notes[n].key)) != Some(bit);
    }
  }

  lemma {:induction false} RunTracks(layout: Layout, notes: seq<Note>, events: seq<Event>, key: Key, bit: Bit)
    requires OneKeyPerBit(layout) && BitOf(layout(key)) == Some(bit)
    ensures TrackAgrees(layout, Trace(layout, notes, events), EngineRun(layout, Noting(layout, notes), events).tracker, key, bit)
  {
    if events == [] {
      NotesTrack(layout, notes, key, bit);
    } else {
      var n := |events| - 1;
      RunTracks(layout, notes, events[..n], key, bit);
      RunAgrees(layout, notes, events[..n], key);
      StepTracks(layout, EngineRun(layout, Noting(layout, notes), events[..n]), Trace(layout, notes, events[..n]), events[n], key, bit);
    }
  }

  lemma StepTracks(layout: Layout, s: State, trace: seq<Seen>, e: Event, key: Key, bit: Bit)
    requires OneKeyPerBit(layout) && BitOf(layout(key)) == Some(bit)
    requires Consistent(layout, s) && FateAgrees(layout, trace, s.tracker, key) && TrackAgrees(layout, trace, s.tracker, key, bit)
    ensures TrackAgrees(layout, trace + [Saw(e, DecisionAt(layout, s, e))], EngineAfter(layout, s, e).tracker, key, bit)
  {
    LastSeen(trace, Saw(e, DecisionAt(layout, s, e)));
    assert Live(layout, s.tracker, bit) <= {key};
    assert e.key != key ==> BitOf(layout(e.key)) != Some(bit);
  }

  /**
   With one key per bit, the release of a modifier that was pressed and passed is a consumed release
   if and only if its press was forwarded while the emitter was reachable, or noted at the start, and
   the release mask of some trigger fired since then carried its bit. Otherwise it passes.
   */
  lemma ModifierIsReleasedOnce(layout: Layout, notes: seq<Note>, events: seq<Event>, i: nat, bit: Bit)
    requires OneKeyPerBit(layout)
    requires i < |events| && events[i].kind == Release && BitOf(layout(events[i].key)) == Some(bit)
    requires FateIn(layout, Trace(layout, notes, events[..i]), events[i].key) == Passing
    ensures DecisionIn(layout, Noting(layout, notes), events, i) ==
            if TrackIn(layout, Trace(layout, notes, events[..i]), events[i].key, bit) == Taken then ConsumedRelease else Pass
  {
    RunAgrees(layout, notes, events[..i], events[i].key);
    RunTracks(layout, notes, events[..i], events[i].key, bit);
  }

  // ---------------------------------------------------------------------------
  // Where forwarded events never reach the output device
  // ---------------------------------------------------------------------------

  /**
   The keys the application has seen go down and not up, when consumed releases pass through. It saw
   the keys that were held at the start go down, and the ones whose note was undone go up.
   */
  ghost function SeenByApplication(trace: seq<Seen>): (keys: set<Key>) {
    if trace == [] then {}
    else
      var before := SeenByApplication(trace[..|trace| - 1]);
      match trace[|trace| - 1]
      case Started(Noted(key)) => before + {key}
      case Started(Unnoted(key)) => before - {key}
      case Saw(event, decision) =>
        if PlanOf(decision, PassThrough).input != Forward then before
        else if event.kind == Release then before - {event.key}
        else before + {event.key}
  }

  lemma {:induction false} NotesAreSeen(layout: Layout, notes: seq<Note>)
    ensures SeenByApplication(NoteTrace(notes)) == Noting(layout, notes).tracker.pressed
  {
    if notes != [] {
      var n := |notes| - 1;
      NotesAreSeen(layout, notes[..n]);
      NoteTraceSnoc(notes);
      LastSeen(NoteTrace(notes[..n]), Started(notes[n]));
    }
  }

  lemma StepIsSeen(layout: Layout, s: State, e: Event, trace: seq<Seen>)
    requires Consistent(layout, s) && SeenByApplication(trace) == s.tracker.pressed - s.tracker.swallowed
    ensures var t' := EngineAfter(layout, s, e).tracker;
      SeenByApplication(trace + [Saw(e, DecisionAt(layout, s, e))]) == t'.pressed - t'.swallowed
  {
    LastSeen(trace, Saw(e, DecisionAt(layout, s, e)));
  }

  /** The application sees down exactly the pressed keys that were not mapped. */
  lemma {:induction false} ApplicationSeesPassingKeys(layout: Layout, notes: seq<Note>, events: seq<Event>)
    ensures var t := EngineRun(layout, Noting(layout, notes), events).tracker;
      SeenByApplication(Trace(layout, notes, events)) == t.pressed - t.swallowed
  {
    if events == [] {
      NotesAreSeen(layout, notes);
      NotingIsConsistent(layout, notes);
    } else {
      var n := |events| - 1;
      ApplicationSeesPassingKeys(layout, notes, events[..n]);
      EngineIsConsistent(layout, notes, events[..n]);
      StepIsSeen(layout, EngineRun(layout, Noting(layout, notes), events[..n]), events[n], Trace(layout, notes, events[..n]));
    }
  }
}
