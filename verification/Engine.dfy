/**
 The key-mapping engine: the fate of every key event is decided from the record of the
 key's own key-down, and modifiers taken by a fired trigger are released exactly once.

 The classes KeyTracker and MappingEngine update their fields in place. Each method is tied
 to a function on the value of those fields; the properties of whole runs are proved about
 these functions in NoStuckModifiers, KeyFate, CleanTap and TapOnly.
 */
module Engine {
  import opened Wrappers
  import opened Bits
  import opened Hid

  datatype Decision =
    | Pass
    | Emit(release: Mask, outputs: seq<NativeKey>)
    | Swallow(release: Mask)
    | ConsumedRelease

  datatype ReleaseFate = SwallowRelease(mask: Mask) | Consumed

  // ---------------------------------------------------------------------------
  // Values of the tracker's and the engine's fields
  // ---------------------------------------------------------------------------

  type HeldMap = map<Key, Mask>

  datatype Tracker = Tracker(
    pressed: set<Key>,
    swallowed: set<Key>,
    held: HeldMap,
    forwarded: Mask,
    consumed: Mask,
    stale: set<Key>)

  datatype State = State(modifiers: Mask, tracker: Tracker)

  const EMPTY_TRACKER := Tracker({}, {}, map[], NONE, NONE, {})
  const INITIAL := State(NONE, EMPTY_TRACKER)

  /** The union of all held masks. */
  function HeldBits(held: HeldMap): (bits: Mask) {
    set k, b | k in held && b in held[k] :: b
  }

  /** Take the bits of `modifiers` out of every held mask and drop the masks that become empty. */
  function WithoutBits(held: HeldMap, modifiers: Mask): (r: HeldMap) {
    map k | k in held && held[k] - modifiers != NONE :: held[k] - modifiers
  }

  function RecordForwardedDown(t: Tracker, bit: Bit): (after: Tracker) {
    t.(forwarded := t.forwarded + {bit}, consumed := t.consumed - {bit})
  }

  function ConsumeTriggered(t: Tracker, modifiers: Mask): (after: Tracker) {
    var hit := modifiers * t.forwarded;
    t.(forwarded := t.forwarded - hit, consumed := t.consumed + hit, held := WithoutBits(t.held, modifiers))
  }

  function HoldOutput(t: Tracker, key: Key, mask: Mask): (after: Tracker) {
    if mask == NONE then t
    else t.(held := t.held[key := (if key in t.held then t.held[key] else NONE) + mask])
  }

  function ReleaseKey(t: Tracker, key: Key, usage: HidUsage): (r: (Tracker, Option<ReleaseFate>)) {
    if key in t.swallowed then
      (t.(swallowed := t.swallowed - {key}, held := t.held - {key}),
       Some(SwallowRelease(if key in t.held then t.held[key] else NONE)))
    else match BitOf(usage)
      case None => (t, None)
      case Some(bit) =>
        if bit in t.consumed then (t.(consumed := t.consumed - {bit}), Some(Consumed))
        else (t.(forwarded := t.forwarded - {bit}), None)
  }

  /** The union of the masks that the outputs hold. */
  function HeldByOutputs(outputs: seq<NativeKey>): (bits: Mask) {
    if outputs == [] then NONE
    else
      HeldByOutputs(outputs[..|outputs| - 1]) +
      (match HeldMask(outputs[|outputs| - 1]) case Some(mask) => mask case None => NONE)
  }

  /** A mask without the bit of a modifier usage; unchanged for other usages. */
  function ClearOwn(m: Mask, usage: HidUsage): (bits: Mask) {
    match BitOf(usage) case Some(bit) => m - {bit} case None => m
  }

  function SetOwn(m: Mask, usage: HidUsage): (bits: Mask) {
    match BitOf(usage) case Some(bit) => m + {bit} case None => m
  }

  /** The decision of a key-down that fires a rule, under the modifiers the lookup saw. */
  ghost function Fire(s: State, key: Key, usage: HidUsage, outputs: seq<NativeKey>): (r: (State, Decision)) {
    var t := s.tracker.(pressed := s.tracker.pressed + {key}, swallowed := s.tracker.swallowed + {key});
    var fromHeld := HeldBits(t.held) * s.modifiers;
    var release := (s.modifiers * t.forwarded) + fromHeld;
    var holds := HeldByOutputs(outputs);
    var modifiers := ClearOwn(SetOwn(s.modifiers, usage) - fromHeld, usage) + holds;
    (State(modifiers, HoldOutput(ConsumeTriggered(t, s.modifiers), key, holds)), Emit(release, outputs))
  }

  ghost function DecideDown(s: State, key: Key, usage: HidUsage, reachable: bool, lookup: Lookup): (r: (State, Decision)) {
    if key in s.tracker.pressed then
      (s, if key in s.tracker.swallowed || key in s.tracker.stale then Swallow(NONE) else Pass)
    else
      var t := s.tracker.(pressed := s.tracker.pressed + {key});
      var modifiers := SetOwn(s.modifiers, usage);
      if !reachable then (State(modifiers, t), Pass)
      else match lookup(usage, s.modifiers)
        case Some(outputs) => Fire(s, key, usage, outputs)
        case None =>
          match BitOf(usage)
          case Some(bit) => (State(modifiers, RecordForwardedDown(t, bit)), Pass)
          case None => (State(modifiers, t), Pass)
  }

  function DecideUp(s: State, key: Key, usage: HidUsage): (r: (State, Decision)) {
    if key !in s.tracker.pressed then (s, Pass)
    else
      var t := s.tracker.(pressed := s.tracker.pressed - {key}, stale := s.tracker.stale - {key});
      var (after, fate) := ReleaseKey(t, key, usage);
      var modifiers := ClearOwn(s.modifiers, usage);
      match fate
      case Some(SwallowRelease(mask)) => (State(modifiers - mask, after), Swallow(mask))
      case Some(Consumed) => (State(modifiers, after), ConsumedRelease)
      case None => (State(modifiers, after), Pass)
  }

  ghost function Decide(s: State, key: Key, usage: HidUsage, isDown: bool, reachable: bool, lookup: Lookup)
    : (result: (State, Decision))
  {
    if isDown then DecideDown(s, key, usage, reachable, lookup) else DecideUp(s, key, usage)
  }

  /** A key found held before the event stream starts. */
  function NoteHeld(s: State, key: Key, usage: HidUsage): (after: State) {
    var t := s.tracker.(pressed := s.tracker.pressed + {key});
    match BitOf(usage)
    case Some(bit) => State(s.modifiers + {bit}, RecordForwardedDown(t, bit))
    case None => State(s.modifiers, t.(stale := t.stale + {key}))
  }

  /** The undoing of a note whose key was released before the stream starts. */
  function UnnoteHeld(s: State, key: Key, usage: HidUsage): (after: State) {
    var t := s.tracker.(pressed := s.tracker.pressed - {key});
    match BitOf(usage)
    case Some(bit) => State(s.modifiers - {bit}, t.(forwarded := t.forwarded - {bit}))
    case None => State(s.modifiers, t.(stale := t.stale - {key}))
  }

  // ---------------------------------------------------------------------------
  // The classes
  // ---------------------------------------------------------------------------

  class KeyTracker {
    var pressedKeys: set<Key>
    var swallowedKeys: set<Key>
    var heldOutputModifiers: HeldMap
    var forwardedModifiers: Mask
    var consumedModifiers: Mask
    var staleKeys: set<Key>

    function Value(): (value: Tracker)
      reads this
    {
      Tracker(pressedKeys, swallowedKeys, heldOutputModifiers, forwardedModifiers, consumedModifiers, staleKeys)
    }

    constructor ()
      ensures Value() == EMPTY_TRACKER
    {
      pressedKeys, swallowedKeys, heldOutputModifiers := {}, {}, map[];
      forwardedModifiers, consumedModifiers, staleKeys := NONE, NONE, {};
    }

    method RecordForwarded(bit: Bit)
      modifies this
      ensures Value() == RecordForwardedDown(old(Value()), bit)
    {
      forwardedModifiers := forwardedModifiers + {bit};
      consumedModifiers := consumedModifiers - {bit};
    }

    method Consume(modifiers: Mask) returns (released: Mask, held: Mask)
      modifies this
      ensures Value() == ConsumeTriggered(old(Value()), modifiers)
      ensures held == HeldBits(old(heldOutputModifiers)) * modifiers
      ensures released == (modifiers * old(forwardedModifiers)) + held
    {
      var forwarded := modifiers * forwardedModifiers;
      forwardedModifiers := forwardedModifiers - forwarded;
      consumedModifiers := consumedModifiers + forwarded;

      // Visit every held mask once, keeping the masks that are not used up.
      held := NONE;
      var rest: HeldMap := map[];
      var todo := heldOutputModifiers.Keys;
      while todo != {}
        invariant todo <= heldOutputModifiers.Keys
        invariant rest == map k | k in heldOutputModifiers && k !in todo && heldOutputModifiers[k] - modifiers != NONE
                              :: heldOutputModifiers[k] - modifiers
        invariant held == set k, b | k in heldOutputModifiers && k !in todo && b in heldOutputModifiers[k] * modifiers :: b
        decreases todo
      {
        var key :| key in todo;
        var mask := heldOutputModifiers[key];
        var hit := mask * modifiers;
        held := held + hit;
        assert mask - hit == mask - modifiers;
        if mask - hit != NONE {
          rest := rest[key := mask - hit];
        }
        todo := todo - {key};
      }
      forall b ensures b in held <==> b in HeldBits(heldOutputModifiers) * modifiers {
        assert b in held <==> exists k :: k in heldOutputModifiers && b in heldOutputModifiers[k] * modifiers;
        assert b in HeldBits(heldOutputModifiers) <==> exists k :: k in heldOutputModifiers && b in heldOutputModifiers[k];
      }
      heldOutputModifiers := rest;
      released := forwarded + held;
    }

    method Hold(key: Key, mask: Mask)
      modifies this
      ensures Value() == HoldOutput(old(Value()), key, mask)
    {
      if mask != NONE {
        if key in heldOutputModifiers {
          heldOutputModifiers := heldOutputModifiers[key := heldOutputModifiers[key] + mask];
        } else {
          assert NONE + mask == mask;
          heldOutputModifiers := heldOutputModifiers[key := mask];
        }
      }
    }

    method Release(key: Key, usage: HidUsage) returns (fate: Option<ReleaseFate>)
      modifies this
      ensures (Value(), fate) == ReleaseKey(old(Value()), key, usage)
    {
      if key in swallowedKeys {
        swallowedKeys := swallowedKeys - {key};
        var mask := if key in heldOutputModifiers then heldOutputModifiers[key] else NONE;
        heldOutputModifiers := heldOutputModifiers - {key};
        return Some(SwallowRelease(mask));
      }
      match BitOf(usage) {
        case Some(bit) =>
          if bit in consumedModifiers {
            consumedModifiers := consumedModifiers - {bit};
            return Some(Consumed);
          }
          forwardedModifiers := forwardedModifiers - {bit};
        case None =>
      }
      return None;
    }
  }

  class MappingEngine {
    var modifierState: Mask
    const tracker: KeyTracker

    function Value(): (value: State)
      reads this, tracker
    {
      State(modifierState, tracker.Value())
    }

    constructor ()
      ensures fresh(tracker)
      ensures Value() == INITIAL
    {
      modifierState := NONE;
      tracker := new KeyTracker();
    }

    method NoteHeldKey(key: Key, usage: HidUsage)
      modifies this, tracker
      ensures Value() == NoteHeld(old(Value()), key, usage)
    {
      tracker.pressedKeys := tracker.pressedKeys + {key};
      match BitOf(usage) {
        case Some(bit) =>
          modifierState := modifierState + {bit};
          tracker.RecordForwarded(bit);
        case None =>
          tracker.staleKeys := tracker.staleKeys + {key};
      }
    }

    method UnnoteHeldKey(key: Key, usage: HidUsage)
      modifies this, tracker
      ensures Value() == UnnoteHeld(old(Value()), key, usage)
    {
      tracker.pressedKeys := tracker.pressedKeys - {key};
      match BitOf(usage) {
        case Some(bit) =>
          modifierState := modifierState - {bit};
          tracker.forwardedModifiers := tracker.forwardedModifiers - {bit};
        case None =>
          tracker.staleKeys := tracker.staleKeys - {key};
      }
    }

    method DecideEvent(key: Key, usage: HidUsage, isDown: bool, reachable: bool, lookup: Lookup)
      returns (decision: Decision)
      modifies this, tracker
      ensures (Value(), decision) == Decide(old(Value()), key, usage, isDown, reachable, lookup)
    {
      if isDown {
        decision := Down(key, usage, reachable, lookup);
      } else {
        decision := Up(key, usage);
      }
    }

    method Down(key: Key, usage: HidUsage, reachable: bool, lookup: Lookup) returns (decision: Decision)
      modifies this, tracker
      ensures (Value(), decision) == DecideDown(old(Value()), key, usage, reachable, lookup)
    {
      if key in tracker.pressedKeys {
        return if key in tracker.swallowedKeys || key in tracker.staleKeys then Swallow(NONE) else Pass;
      }
      tracker.pressedKeys := tracker.pressedKeys + {key};

      // The lookup sees the modifiers without this key's own bit.
      var lookupModifiers := modifierState;
      modifierState := SetOwn(modifierState, usage);
      if !reachable {
        return Pass;
      }
      match lookup(usage, lookupModifiers) {
        case Some(outputs) =>
          tracker.swallowedKeys := tracker.swallowedKeys + {key};
          var released, heldConsumed := tracker.Consume(lookupModifiers);
          modifierState := modifierState - heldConsumed;
          modifierState := ClearOwn(modifierState, usage);
          HoldOutputs(key, outputs);
          return Emit(released, outputs);
        case None =>
          match BitOf(usage) {
            case Some(bit) => tracker.RecordForwarded(bit);
            case None =>
          }
          return Pass;
      }
    }

    /** Hold every output whose base is a modifier key until the physical key-up of `key`. */
    method HoldOutputs(key: Key, outputs: seq<NativeKey>)
      modifies this, tracker
      ensures Value() == State(old(modifierState) + HeldByOutputs(outputs),
                               HoldOutput(old(tracker.Value()), key, HeldByOutputs(outputs)))
    {
      var heldMask: Mask := NONE;
      for i := 0 to |outputs|
        invariant heldMask == HeldByOutputs(outputs[..i])
        invariant modifierState == old(modifierState)
        invariant tracker.Value() == HoldOutput(old(tracker.Value()), key, heldMask)
      {
        assert outputs[..i + 1][..i] == outputs[..i];
        match HeldMask(outputs[i]) {
          case Some(mask) =>
            HoldTwice(old(tracker.Value()), key, heldMask, mask);
            tracker.Hold(key, mask);
            heldMask := heldMask + mask;
          case None =>
        }
      }
      assert outputs[..|outputs|] == outputs;
      if heldMask != NONE {
        modifierState := modifierState + heldMask;
      }
    }

    method Up(key: Key, usage: HidUsage) returns (decision: Decision)
      modifies this, tracker
      ensures (Value(), decision) == DecideUp(old(Value()), key, usage)
    {
      if key !in tracker.pressedKeys {
        return Pass;
      }
      tracker.pressedKeys := tracker.pressedKeys - {key};
      tracker.staleKeys := tracker.staleKeys - {key};
      modifierState := ClearOwn(modifierState, usage);
      var fate := tracker.Release(key, usage);
      match fate {
        case Some(SwallowRelease(release)) =>
          assert modifierState - NONE == modifierState;
          if release != NONE {
            modifierState := modifierState - release;
          }
          return Swallow(release);
        case Some(Consumed) => return ConsumedRelease;
        case None => return Pass;
      }
    }
  }

  /** Holding two masks one after the other holds their union. */
  lemma HoldTwice(t: Tracker, key: Key, m: Mask, n: Mask)
    ensures HoldOutput(HoldOutput(t, key, m), key, n) == HoldOutput(t, key, m + n)
  {
    var was := if key in t.held then t.held[key] else NONE;
    assert (was + m) + n == was + (m + n);
    assert m == NONE ==> m + n == n;
    assert n == NONE ==> m + n == m;
  }
}
