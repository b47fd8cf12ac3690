/** What a decision means: the ordered actions on the output device and the fate of the input event. */
module Emission {
  import opened Bits
  import opened Hid
  import opened Engine

  datatype EmitAction =
    | ReleaseConsumed(mask: Mask)
    | Tap(output: NativeKey)
    | Hold(output: NativeKey)

  datatype InputFate = Forward | SwallowInput | Silent

  /** Whether the physical release of a consumed modifier is swallowed or passed through. */
  datatype ConsumedReleaseFate = SwallowIt | PassThrough

  datatype EmissionPlan = EmissionPlan(input: InputFate, actions: seq<EmitAction>)

  function ActionOf(output: NativeKey): (action: EmitAction) {
    if HeldMask(output).Some? then Hold(output) else Tap(output)
  }

  function ReleaseFirst(mask: Mask): (r: seq<EmitAction>) {
    if mask == NONE then [] else [ReleaseConsumed(mask)]
  }

  function ActionsOf(outputs: seq<NativeKey>): (actions: seq<EmitAction>)
    ensures |actions| == |outputs|
  {
    seq(|outputs|, i requires 0 <= i < |outputs| => ActionOf(outputs[i]))
  }

  function PlanOf(decision: Decision, fate: ConsumedReleaseFate): (plan: EmissionPlan) {
    match decision
    case Pass => EmissionPlan(Forward, [])
    case Emit(release, outputs) => EmissionPlan(Silent, ReleaseFirst(release) + ActionsOf(outputs))
    case Swallow(release) => EmissionPlan(SwallowInput, ReleaseFirst(release))
    case ConsumedRelease => EmissionPlan(if fate == SwallowIt then SwallowInput else Forward, [])
  }

  /**
   Besides being the plan that the device theorems are about: a mask is released first and only when
   there is one, then each output is held exactly if its base is a modifier key, else tapped.
   */
  method BuildPlan(decision: Decision, fate: ConsumedReleaseFate) returns (plan: EmissionPlan)
    ensures plan == PlanOf(decision, fate)
    ensures decision.Emit? ==>
              var first := if decision.release == NONE then 0 else 1;
              && plan.input == Silent && |plan.actions| == first + |decision.outputs|
              && (first == 1 ==> plan.actions[0] == ReleaseConsumed(decision.release))
              && forall i :: 0 <= i < |decision.outputs| ==>
                   plan.actions[first + i] ==
                   if BitOf(decision.outputs[i].usage).Some? then Hold(decision.outputs[i]) else Tap(decision.outputs[i])
    ensures decision.Swallow? ==>
              && plan.input == SwallowInput && |plan.actions| == (if decision.release == NONE then 0 else 1)
              && forall a :: a in plan.actions ==> a == ReleaseConsumed(decision.release)
    ensures decision.Pass? ==> plan.input == Forward && plan.actions == []
    ensures decision.ConsumedRelease? ==> (plan.input == Forward <==> fate == PassThrough) && plan.input != Silent && plan.actions == []
  {
    match decision {
      case Pass => plan := EmissionPlan(Forward, []);
      case Emit(release, outputs) =>
        var actions: seq<EmitAction> := [];
        if release != NONE {
          actions := actions + [ReleaseConsumed(release)];
        }
        for i := 0 to |outputs|
          invariant actions == ReleaseFirst(release) + ActionsOf(outputs[..i])
        {
          assert ActionsOf(outputs[..i + 1]) == ActionsOf(outputs[..i]) + [ActionOf(outputs[i])];
          actions := actions + [if HeldMask(outputs[i]).Some? then Hold(outputs[i]) else Tap(outputs[i])];
        }
        assert outputs[..|outputs|] == outputs;
        plan := EmissionPlan(Silent, actions);
      case Swallow(release) =>
        plan := EmissionPlan(SwallowInput, if release != NONE then [ReleaseConsumed(release)] else []);
      case ConsumedRelease =>
        plan := EmissionPlan(match fate case SwallowIt => SwallowInput case PassThrough => Forward, []);
    }
  }
}
