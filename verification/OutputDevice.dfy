/**
 What the outputs of a fired trigger do to the output device, bit by bit and exactly, and which bits
 are down on it at least.
 */
module OutputDevice {
  import opened Wrappers
  import opened Bits
  import opened Hid
  import opened Engine
  import opened Emission
  import opened Device
  import opened Prefixes
  import opened NoStuckModifiers

  /** A modifier-key output presses its own bit and its modifiers, and keeps them down. */
  predicate Presses(output: NativeKey, b: Bit) {
    BitOf(output.usage).Some? && (BitOf(output.usage) == Some(b) || b in output.modifiers)
  }

  /** Any other output lets its modifiers go again. */
  predicate Lifts(output: NativeKey, b: Bit) {
    BitOf(output.usage).None? && b in output.modifiers
  }

  predicate PressedLast(outputs: seq<NativeKey>, b: Bit) {
    exists i :: 0 <= i < |outputs| && Presses(outputs[i], b) && forall j :: i < j < |outputs| ==> !Lifts(outputs[j], b)
  }

  predicate LiftedLast(outputs: seq<NativeKey>, b: Bit) {
    exists i :: 0 <= i < |outputs| && Lifts(outputs[i], b) && forall j :: i < j < |outputs| ==> !Presses(outputs[j], b)
  }

  lemma LastPress(outputs: seq<NativeKey>, last: NativeKey, b: Bit)
    ensures PressedLast(outputs + [last], b) <==> Presses(last, b) || (PressedLast(outputs, b) && !Lifts(last, b))
  {
    var all, n := outputs + [last], |outputs|;
    if Presses(last, b) {
      assert Presses(all[n], b);
    } else if PressedLast(outputs, b) && !Lifts(last, b) {
      var i :| 0 <= i < n && Presses(outputs[i], b) && forall j :: i < j < n ==> !Lifts(outputs[j], b);
      assert Presses(all[i], b);
      forall j | i < j < |all| ensures !Lifts(all[j], b) {
        assert j < n ==> all[j] == outputs[j];
      }
    } else if PressedLast(all, b) {
      var i :| 0 <= i < |all| && Presses(all[i], b) && forall j :: i < j < |all| ==> !Lifts(all[j], b);
      assert i < n && Presses(outputs[i], b) && !Lifts(all[n], b);
      forall j | i < j < n ensures !Lifts(outputs[j], b) {
        assert all[j] == outputs[j];
      }
      assert false;
    }
  }

  lemma LastLift(outputs: seq<NativeKey>, last: NativeKey, b: Bit)
    ensures LiftedLast(outputs + [last], b) <==> Lifts(last, b) || (LiftedLast(outputs, b) && !Presses(last, b))
  {
    var all, n := outputs + [last], |outputs|;
    if Lifts(last, b) {
      assert Lifts(all[n], b);
    } else if LiftedLast(outputs, b) && !Presses(last, b) {
      var i :| 0 <= i < n && Lifts(outputs[i], b) && forall j :: i < j < n ==> !Presses(outputs[j], b);
      assert Lifts(all[i], b);
      forall j | i < j < |all| ensures !Presses(all[j], b) {
        assert j < n ==> all[j] == outputs[j];
      }
    } else if LiftedLast(all, b) {
      var i :| 0 <= i < |all| && Lifts(all[i], b) && forall j :: i < j < |all| ==> !Presses(all[j], b);
      assert i < n && Lifts(outputs[i], b) && !Presses(all[n], b);
      forall j | i < j < n ensures !Presses(outputs[j], b) {
        assert all[j] == outputs[j];
      }
      assert false;
    }
  }

  /** The bits that the outputs hold are those that some modifier-key output presses. */
  lemma {:induction false} HeldByOutputsIsExact(outputs: seq<NativeKey>, b: Bit)
    ensures b in HeldByOutputs(outputs) <==> exists i :: 0 <= i < |outputs| && Presses(outputs[i], b)
  {
    if outputs != [] {
      var n := |outputs| - 1;
      HeldByOutputsIsExact(outputs[..n], b);
      forall i | 0 <= i < n ensures outputs[..n][i] == outputs[i] {}
      if i :| 0 <= i < n && Presses(outputs[..n][i], b) {
        assert Presses(outputs[i], b);
      }
    }
  }

  /** After the outputs a bit is down if one pressed it and none lifted it later, or if it was and none lifted it. */
  lemma {:induction false} OutputsSetExactly(device: Mask, outputs: seq<NativeKey>, b: Bit)
    ensures b in PerformedAll(device, ActionsOf(outputs)) <==>
            PressedLast(outputs, b) || (b in device && !LiftedLast(outputs, b))
  {
    if outputs != [] {
      var n := |outputs| - 1;
      OutputsSetExactly(device, outputs[..n], b);
      LastPress(outputs[..n], outputs[n], b);
      LastLift(outputs[..n], outputs[n], b);
      assert outputs == outputs[..n] + [outputs[n]];
      assert ActionsOf(outputs)[..n] == ActionsOf(outputs[..n]);
    }
  }

  /**
   A fired trigger on the device, exactly: a bit is down afterwards if and only if an output presses
   it and none lifts it later, or it was down, was not released, and no output lifts it for good.
   */
  lemma FireOnDevice(layout: Layout, w: World, e: Event, b: Bit)
    requires DecisionAt(layout, w.engine, e).Emit?
    ensures var decision := DecisionAt(layout, w.engine, e);
      b in Step(layout, w, e).device <==>
      PressedLast(decision.outputs, b) || (b in w.device - decision.release && !LiftedLast(decision.outputs, b))
  {
    var decision := DecisionAt(layout, w.engine, e);
    PerformedAllConcat(w.device, ReleaseFirst(decision.release), ActionsOf(decision.outputs));
    assert PerformedAll(w.device, ReleaseFirst(decision.release)) == w.device - decision.release;
    OutputsSetExactly(w.device - decision.release, decision.outputs, b);
  }

  /** Every bit that the outputs hold is down after the fire unless a later tap of the same plan lifts it. */
  lemma HoldsAreDown(layout: Layout, w: World, e: Event, b: Bit)
    requires DecisionAt(layout, w.engine, e).Emit?
    requires b in HeldByOutputs(DecisionAt(layout, w.engine, e).outputs)
    ensures b in Step(layout, w, e).device <==> !LiftedLast(DecisionAt(layout, w.engine, e).outputs, b)
  {
    var outputs := DecisionAt(layout, w.engine, e).outputs;
    FireOnDevice(layout, w, e, b);
    HeldByOutputsIsExact(outputs, b);
    PressedOrLifted(outputs, b);
  }

  /** A bit that the outputs touch was pressed last or lifted last. */
  lemma {:induction false} PressedOrLifted(outputs: seq<NativeKey>, b: Bit)
    ensures PressedLast(outputs, b) ==> !LiftedLast(outputs, b)
    ensures (exists i :: 0 <= i < |outputs| && Presses(outputs[i], b)) ==> PressedLast(outputs, b) || LiftedLast(outputs, b)
  {
    if outputs != [] {
      var n := |outputs| - 1;
      PressedOrLifted(outputs[..n], b);
      LastPress(outputs[..n], outputs[n], b);
      LastLift(outputs[..n], outputs[n], b);
      assert outputs == outputs[..n] + [outputs[n]];
      if i :| 0 <= i < n && Presses(outputs[i], b) {
        assert Presses(outputs[..n][i], b);
      }
    }
  }

  // ---------------------------------------------------------------------------
  // Forwarded and held bits are down
  // ---------------------------------------------------------------------------

  ghost predicate RecordsAreDown(w: World) {
    w.engine.tracker.forwarded + HeldBits(w.engine.tracker.held) <= w.device
  }

  /** What a release takes from the device. */
  function TakenBy(usage: HidUsage, decision: Decision): (bits: Mask) {
    match decision
    case Swallow(mask) => mask
    case Pass => SetOwn(NONE, usage)
    case _ => NONE
  }

  /**
   The event takes a bit from the device that is still recorded: a release takes it while another key
   holds or forwards it, a tap lifts it for good, or a first event that is a repeat is not replayed.
   */
  ghost predicate Drops(layout: Layout, w: World, e: Event) {
    var decision, t' := DecisionAt(layout, w.engine, e), EngineAfter(layout, w.engine, e).tracker;
    var recorded := t'.forwarded + HeldBits(t'.held);
    if e.kind == Release then TakenBy(layout(e.key), decision) * recorded != NONE
    else if decision.Emit? then exists b: Bit :: b in recorded && LiftedLast(decision.outputs, b)
    else e.kind == Repeat && !(SetOwn(NONE, layout(e.key)) * recorded <= w.device)
  }

  lemma ReleaseKeepsDown(layout: Layout, w: World, e: Event)
    requires Consistent(layout, w.engine) && RecordsAreDown(w) && e.kind == Release
    ensures RecordsAreDown(Step(layout, w, e)) <==> !Drops(layout, w, e)
  {
    var decision, t, t' := DecisionAt(layout, w.engine, e), w.engine.tracker, EngineAfter(layout, w.engine, e).tracker;
    var recorded, taken := t'.forwarded + HeldBits(t'.held), TakenBy(layout(e.key), decision);
    assert PerformedAll(w.device, ReleaseFirst(NONE)) == w.device;
    assert Step(layout, w, e).device == w.device - taken;
    forall b: Bit | b in recorded ensures b in w.device {
      WitnessesAfterRelease(layout, w.engine, e, b);
    }
    TakenFrom(recorded, w.device, taken);
  }

  lemma TakenFrom(recorded: Mask, device: Mask, taken: Mask)
    requires recorded <= device
    ensures recorded <= device - taken <==> taken * recorded == NONE
  {
    if recorded <= device - taken {
      forall b: Bit ensures b !in taken * recorded {}
    }
    if taken * recorded == NONE {
      forall b: Bit | b in recorded ensures b in device - taken {
        assert b !in taken * recorded;
      }
    }
  }

  lemma FireKeepsDown(layout: Layout, w: World, e: Event)
    requires Consistent(layout, w.engine) && RecordsAreDown(w) && DecisionAt(layout, w.engine, e).Emit?
    ensures RecordsAreDown(Step(layout, w, e)) <==> !Drops(layout, w, e)
  {
    var decision, t' := DecisionAt(layout, w.engine, e), EngineAfter(layout, w.engine, e).tracker;
    forall b: Bit | b in t'.forwarded + HeldBits(t'.held)
      ensures b in Step(layout, w, e).device <==> !LiftedLast(decision.outputs, b)
    {
      FireChanges(layout, w.engine, e, b);
      FireOnDevice(layout, w, e, b);
      PressedOrLifted(decision.outputs, b);
      if b in HeldByOutputs(decision.outputs) {
        HoldsAreDown(layout, w, e, b);
      }
    }
  }

  lemma PassKeepsDown(layout: Layout, w: World, e: Event)
    requires Consistent(layout, w.engine) && RecordsAreDown(w)
    requires e.kind != Release && !DecisionAt(layout, w.engine, e).Emit?
    ensures RecordsAreDown(Step(layout, w, e)) <==> !Drops(layout, w, e)
  {
    assert PerformedAll(w.device, ReleaseFirst(NONE)) == w.device;
  }

  /**
   Forwarded bits and held bits are down on the device through exactly the events that do not take a
   bit which is still recorded.
   */
  lemma StepKeepsDown(layout: Layout, w: World, e: Event)
    requires Consistent(layout, w.engine) && RecordsAreDown(w)
    ensures RecordsAreDown(Step(layout, w, e)) <==> !Drops(layout, w, e)
  {
    if e.kind == Release {
      ReleaseKeepsDown(layout, w, e);
    } else if DecisionAt(layout, w.engine, e).Emit? {
      FireKeepsDown(layout, w, e);
    } else {
      PassKeepsDown(layout, w, e);
    }
  }

  /** In every run, the forwarded and held bits are down after every event if and only if no event drops one. */
  lemma RecordsStayDown(layout: Layout, w: World, events: seq<Event>)
    requires Consistent(layout, w.engine) && RecordsAreDown(w)
    ensures AtAllPrefixes((past: seq<Event>) => RecordsAreDown(Run(layout, w, past)), events) <==>
            AtNoStep((past: seq<Event>, e: Event) => Drops(layout, Run(layout, w, past), e), events)
  {
    var holds := (past: seq<Event>) => RecordsAreDown(Run(layout, w, past));
    var breaks := (past: seq<Event>, e: Event) => Drops(layout, Run(layout, w, past), e);
    forall past: seq<Event>, e: Event | holds(past) ensures holds(past + [e]) <==> !breaks(past, e) {
      RunIsConsistent(layout, w, past);
      RunSnoc(layout, w, past, e);
      StepKeepsDown(layout, Run(layout, w, past), e);
    }
    HoldsUntilBroken(holds, breaks, events);
  }
}
