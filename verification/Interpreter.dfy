/**
 What a configuration means: a direct interpreter that scans the groups and their mappings in
 definition order and knows no compiled rules.
 */
module Interpreter {
  import opened Wrappers
  import opened Bits
  import opened Hid
  import opened Config
  import opened Expand

  /** Application names are folded to lowercase before they are compared. */
  type Fold = string -> string

  function ModifierBits(tokens: seq<HidUsage>): (bits: Mask) {
    set i | 0 <= i < |tokens| && BitOf(tokens[i]).Some? :: BitOf(tokens[i]).value
  }

  function BitOrLeftCtrl(token: HidUsage): (r: Bit) {
    if BitOf(token).Some? then BitOf(token).value else 0
  }

  lemma WrittenSidesMatch(tokens: seq<HidUsage>)
    requires (forall token :: token in tokens ==> BitOf(token).Some?) || 0 in ModifierBits(tokens)
    ensures Matches(tokens, ModifierBits(tokens))
  {
    var mask := ModifierBits(tokens);
    var pick := seq(|tokens|, i requires 0 <= i < |tokens| => BitOrLeftCtrl(tokens[i]));
    forall b: Bit ensures b in BitsPicked(pick) <==> b in mask {
      if b in mask {
        var i :| 0 <= i < |tokens| && BitOf(tokens[i]) == Some(b);
        assert pick[i] == b;
      }
      if i :| 0 <= i < |pick| && pick[i] == b {
        assert tokens[i] in tokens;
      }
    }
    assert Picks(tokens, pick) && BitsPicked(pick) == mask;
  }

  lemma NonModifierIsLeftCtrl(tokens: seq<HidUsage>, token: HidUsage, mask: Mask)
    requires token in tokens && BitOf(token).None? && Matches(tokens, mask)
    ensures 0 in mask
  {}

  /**
   A chord pressed exactly as written is among the variants of its tokens, unless a token is no
   modifier: such a token counts as left Ctrl in a trigger and as nothing in an output.
   */
  lemma WrittenSidesAreAVariant(tokens: seq<HidUsage>)
    ensures ModifierBits(tokens) in ExpandSet(tokens) <==>
            (forall token :: token in tokens ==> BitOf(token).Some?) || 0 in ModifierBits(tokens)
  {
    ExpansionIsExact(tokens, ModifierBits(tokens));
    if (forall token :: token in tokens ==> BitOf(token).Some?) || 0 in ModifierBits(tokens) {
      WrittenSidesMatch(tokens);
    }
    if token :| token in tokens && BitOf(token).None? && Matches(tokens, ModifierBits(tokens)) {
      NonModifierIsLeftCtrl(tokens, token, ModifierBits(tokens));
    }
  }

  /** The tokens name the left key of a modifier, and the same modifier again on either side. */
  ghost predicate NamesTwice(tokens: seq<HidUsage>, p: Pair) {
    var counts := multiset(tokens);
    Lefts(counts, p) >= 2 || (Lefts(counts, p) == 1 && (RightForced(counts, p) || LeftForced(counts, p)))
  }

  lemma OtherPairsStay(tokens: seq<HidUsage>, mask: Mask, extra: Bit, p: Pair)
    requires PairOf(extra) != p
    ensures PairMatches(multiset(tokens), mask + {extra}, p) <==> PairMatches(multiset(tokens), mask, p)
  {
    assert p in mask + {extra} <==> p in mask;
    assert p + 4 in mask + {extra} <==> p + 4 in mask;
  }

  lemma OwnPairChanges(tokens: seq<HidUsage>, mask: Mask, extra: Bit)
    requires PairMatches(multiset(tokens), mask, PairOf(extra)) && extra !in mask
    ensures PairMatches(multiset(tokens), mask + {extra}, PairOf(extra)) <==> NamesTwice(tokens, PairOf(extra))
  {}

  /**
   Matching is exact: one more modifier held than a mask that matches prevents the match, unless the
   tokens name that very modifier twice.
   */
  lemma ExtraModifierPreventsMatch(tokens: seq<HidUsage>, mask: Mask, extra: Bit)
    requires Matches(tokens, mask) && extra !in mask
    ensures Matches(tokens, mask + {extra}) <==> NamesTwice(tokens, PairOf(extra))
  {
    MatchesInClosedForm(tokens, mask);
    MatchesInClosedForm(tokens, mask + {extra});
    assert PairMatches(multiset(tokens), mask, PairOf(extra));
    OwnPairChanges(tokens, mask, extra);
    forall p: Pair | p != PairOf(extra) ensures PairMatches(multiset(tokens), mask + {extra}, p) {
      assert PairMatches(multiset(tokens), mask, p);
      OtherPairsStay(tokens, mask, extra, p);
    }
  }

  lemma MatchesInClosedForm(tokens: seq<HidUsage>, mask: Mask)
    ensures Matches(tokens, mask) <==> ClosedForm(multiset(tokens), mask)
  {
    ExpansionIsExact(tokens, mask);
    ExpansionHasClosedForm(tokens, mask);
  }

  const H: HidUsage := 0x07000B

  /** A rule for Ctrl+H is not for Ctrl+Shift+H. */
  lemma ShiftPreventsCtrlH(outputs: seq<KeyEvent>)
    ensures var table := [Mapping(KeyEvent([LEFT_CONTROL], H), outputs)];
      InMappings(table, H, {0}) == Some(Natives(outputs)) && InMappings(table, H, {0, 1}) == None
  {
    var tokens := [LEFT_CONTROL];
    WrittenSidesMatch(tokens);
    assert BitOf(tokens[0]) == Some(0);
    assert ModifierBits(tokens) == {0};
    ExtraModifierPreventsMatch(tokens, {0}, 1);
    assert {0} + {1} == {0, 1} && PairOf(1) == 1;
    assert forall token :: token in tokens ==> token == LEFT_CONTROL;
  }

  function Native(event: KeyEvent): (r: NativeKey) {
    NativeKey(ModifierBits(event.modifiers), event.base)
  }

  function Natives(events: seq<KeyEvent>): (natives: seq<NativeKey>)
    ensures |natives| == |events|
  {
    seq(|events|, i requires 0 <= i < |events| => Native(events[i]))
  }

  /** The output as it was written: its base, and the bits of exactly its modifier tokens. */
  ghost predicate SameKey(native: NativeKey, event: KeyEvent) {
    && native.usage == event.base
    && forall b: Bit :: b in native.modifiers <==> exists token :: token in event.modifiers && token == LEFT_CONTROL + b
  }

  lemma TokensGiveBits(tokens: seq<HidUsage>, b: Bit)
    ensures b in ModifierBits(tokens) <==> exists token :: token in tokens && token == LEFT_CONTROL + b
  {
    BitsHaveOneUsage(LEFT_CONTROL + b, b);
    if LEFT_CONTROL + b in tokens {
      var i :| 0 <= i < |tokens| && tokens[i] == LEFT_CONTROL + b;
      assert BitOf(tokens[i]) == Some(b);
    }
    if b in ModifierBits(tokens) {
      var i :| 0 <= i < |tokens| && BitOf(tokens[i]) == Some(b);
      BitsHaveOneUsage(tokens[i], b);
      assert tokens[i] in tokens;
    }
  }

  /** Outputs are compiled one by one, in order, as they were written. */
  lemma NativesAreTheEvents(events: seq<KeyEvent>)
    ensures |Natives(events)| == |events|
    ensures forall i :: 0 <= i < |events| ==> SameKey(Natives(events)[i], events[i])
  {
    forall i | 0 <= i < |events| ensures SameKey(Natives(events)[i], events[i]) {
      forall b: Bit ensures b in Natives(events)[i].modifiers <==> exists token :: token in events[i].modifiers && token == LEFT_CONTROL + b {
        TokensGiveBits(events[i].modifiers, b);
      }
    }
  }

  function OrElse<T>(first: Option<T>, second: Option<T>): (r: Option<T>) {
    if first.Some? then first else second
  }

  ghost predicate Triggers(trigger: KeyEvent, usage: HidUsage, mask: Mask) {
    trigger.base == usage && Matches(trigger.modifiers, mask)
  }

  ghost function InMappings(mappings: MappingTable, usage: HidUsage, mask: Mask): (outputs: Option<seq<NativeKey>>) {
    if mappings == [] then None
    else if Triggers(mappings[0].trigger, usage, mask) then Some(Natives(mappings[0].outputs))
    else InMappings(mappings[1..], usage, mask)
  }

  /** Which groups are scanned. */
  type Scope = RuleGroup -> bool

  ghost function InGroup(group: RuleGroup, scope: Scope, usage: HidUsage, mask: Mask): (outputs: Option<seq<NativeKey>>) {
    if scope(group) then InMappings(group.mappings, usage, mask) else None
  }

  ghost function InGroups(groups: seq<RuleGroup>, scope: Scope, usage: HidUsage, mask: Mask): (outputs: Option<seq<NativeKey>>) {
    if groups == [] then None
    else OrElse(InGroup(groups[0], scope, usage, mask), InGroups(groups[1..], scope, usage, mask))
  }

  predicate ListsApp(group: RuleGroup, fold: Fold, folded: string) {
    exists app :: app in group.apps && fold(app) == folded
  }

  /** Groups for an application, on a keyboard the group allows. */
  function AppScope(fold: Fold, app: string, registry: Registry, device: Option<string>): (scope: Scope) {
    (group: RuleGroup) => ListsApp(group, fold, fold(app)) && Allowed(FilterOf(group.keyboards), registry, device)
  }

  /** Groups for all applications, on a keyboard the group allows. */
  function GlobalScope(registry: Registry, device: Option<string>): (scope: Scope) {
    (group: RuleGroup) => group.apps == [] && Allowed(FilterOf(group.keyboards), registry, device)
  }

  function GlobalFilter(config: Config): (filter: Filter) {
    if config.keyboards.Some? then FilterOf(config.keyboards.value) else None
  }

  /** The outputs a configuration has for a key: application groups first, then the global ones. */
  ghost function Meaning(config: Config, fold: Fold, registry: Registry,
                         app: string, usage: HidUsage, mask: Mask, device: Option<string>): (outputs: Option<seq<NativeKey>>) {
    if !Allowed(GlobalFilter(config), registry, device) then None
    else OrElse(InGroups(config.groups, AppScope(fold, app, registry, device), usage, mask),
                InGroups(config.groups, GlobalScope(registry, device), usage, mask))
  }

  lemma {:induction false} InMappingsConcat(xs: MappingTable, ys: MappingTable, usage: HidUsage, mask: Mask)
    ensures InMappings(xs + ys, usage, mask) == OrElse(InMappings(xs, usage, mask), InMappings(ys, usage, mask))
  {
    if xs == [] {
      assert xs + ys == ys;
    } else {
      InMappingsConcat(xs[1..], ys, usage, mask);
      assert (xs + ys)[1..] == xs[1..] + ys;
    }
  }

  lemma {:induction false} InGroupsConcat(xs: seq<RuleGroup>, ys: seq<RuleGroup>, scope: Scope, usage: HidUsage, mask: Mask)
    ensures InGroups(xs + ys, scope, usage, mask) == OrElse(InGroups(xs, scope, usage, mask), InGroups(ys, scope, usage, mask))
  {
    if xs == [] {
      assert xs + ys == ys;
    } else {
      InGroupsConcat(xs[1..], ys, scope, usage, mask);
      assert (xs + ys)[1..] == xs[1..] + ys;
    }
  }
}
