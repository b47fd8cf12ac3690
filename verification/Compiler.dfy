/**
 The rule compiler: groups, mappings, variants and applications flattened into linear rule lists,
 and the proof that scanning those lists gives what the interpreter gives.
 */
module Compiler {
  import opened Wrappers
  import opened Bits
  import opened Hid
  import opened Config
  import opened Expand
  import opened Interpreter

  datatype CompiledRule = CompiledRule(usage: HidUsage, modifiers: Mask, outputs: seq<NativeKey>, keyboards: Filter)

  type ProcessRules = map<string, seq<CompiledRule>>

  datatype Rules = Rules(process: ProcessRules, global: seq<CompiledRule>)

  datatype Cache = Cache(rules: Rules, globalKeyboards: Filter)

  const NO_RULES := Rules(map[], [])

  function ListFor(process: ProcessRules, folded: string): (r: seq<CompiledRule>) {
    if folded in process then process[folded] else []
  }

  // ---------------------------------------------------------------------------
  // The lists that the compiler's loops build
  // ---------------------------------------------------------------------------

  /** The rule pushed for the first n applications. */
  function PushedForApps(process: ProcessRules, apps: seq<string>, n: nat, rule: CompiledRule, fold: Fold): (pushed: ProcessRules)
    requires n <= |apps|
  {
    if n == 0 then process
    else
      var before, folded := PushedForApps(process, apps, n - 1, rule, fold), fold(apps[n - 1]);
      before[folded := ListFor(before, folded) + [rule]]
  }

  function Pushed(rules: Rules, apps: seq<string>, rule: CompiledRule, fold: Fold): (pushed: Rules) {
    if apps == [] then rules.(global := rules.global + [rule])
    else rules.(process := PushedForApps(rules.process, apps, |apps|, rule, fold))
  }

  function RuleOf(group: RuleGroup, mapping: Mapping, variant: Mask): (rule: CompiledRule) {
    CompiledRule(mapping.trigger.base, variant, Natives(mapping.outputs), FilterOf(group.keyboards))
  }

  /** The rules with those of the first n variants of a mapping. */
  function WithVariants(rules: Rules, group: RuleGroup, mapping: Mapping, variants: seq<Mask>, n: nat, fold: Fold): (after: Rules)
    requires n <= |variants|
  {
    if n == 0 then rules
    else Pushed(WithVariants(rules, group, mapping, variants, n - 1, fold), group.apps, RuleOf(group, mapping, variants[n - 1]), fold)
  }

  ghost function WithMapping(rules: Rules, group: RuleGroup, mapping: Mapping, fold: Fold): (after: Rules) {
    var variants := Variants(mapping.trigger.modifiers);
    WithVariants(rules, group, mapping, variants, |variants|, fold)
  }

  /** The rules with those of the first n mappings of a group. */
  ghost function WithMappings(rules: Rules, group: RuleGroup, n: nat, fold: Fold): (after: Rules)
    requires n <= |group.mappings|
  {
    if n == 0 then rules else WithMapping(WithMappings(rules, group, n - 1, fold), group, group.mappings[n - 1], fold)
  }

  ghost function WithGroup(rules: Rules, group: RuleGroup, fold: Fold): (after: Rules) {
    WithMappings(rules, group, |group.mappings|, fold)
  }

  /** The rules of the first n groups. */
  ghost function RulesUpTo(groups: seq<RuleGroup>, n: nat, fold: Fold): (rules: Rules)
    requires n <= |groups|
  {
    if n == 0 then NO_RULES else WithGroup(RulesUpTo(groups, n - 1, fold), groups[n - 1], fold)
  }

  ghost function RulesOf(groups: seq<RuleGroup>, fold: Fold): (rules: Rules) {
    RulesUpTo(groups, |groups|, fold)
  }

  ghost function CacheOf(config: Config, fold: Fold): (cache: Cache) {
    Cache(RulesOf(config.groups, fold), GlobalFilter(config))
  }

  // ---------------------------------------------------------------------------
  // The compiler
  // ---------------------------------------------------------------------------

  method CompileModifierBits(tokens: seq<HidUsage>) returns (bits: Mask)
    ensures bits == ModifierBits(tokens)
    ensures forall b: Bit :: b in bits <==> exists token :: token in tokens && BitOf(token) == Some(b)
  {
    bits := NONE;
    for i := 0 to |tokens|
      invariant bits == ModifierBits(tokens[..i])
    {
      ModifierBitsSnoc(tokens, i);
      match BitOf(tokens[i]) {
        case Some(bit) => bits := bits + {bit};
        case None =>
      }
    }
    assert tokens[..|tokens|] == tokens;
    BitsComeFromTokens(tokens);
  }

  lemma BitsComeFromTokens(tokens: seq<HidUsage>)
    ensures forall b: Bit :: b in ModifierBits(tokens) <==> exists token :: token in tokens && BitOf(token) == Some(b)
  {
    forall b: Bit ensures b in ModifierBits(tokens) <==> exists token :: token in tokens && BitOf(token) == Some(b) {
      if token :| token in tokens && BitOf(token) == Some(b) {
        var i :| 0 <= i < |tokens| && tokens[i] == token;
        assert BitOf(tokens[i]) == Some(b);
      }
      if b in ModifierBits(tokens) {
        var i :| 0 <= i < |tokens| && BitOf(tokens[i]) == Some(b);
        assert tokens[i] in tokens;
      }
    }
  }

  lemma ModifierBitsSnoc(tokens: seq<HidUsage>, i: nat)
    requires i < |tokens|
    ensures ModifierBits(tokens[..i + 1]) ==
            ModifierBits(tokens[..i]) + match BitOf(tokens[i]) case Some(bit) => {bit} case None => {}
  {}

  method CompileOutputs(events: seq<KeyEvent>) returns (natives: seq<NativeKey>)
    ensures natives == Natives(events)
    ensures |natives| == |events|
    ensures forall i :: 0 <= i < |events| ==>
              && natives[i].usage == events[i].base
              && forall b: Bit :: b in natives[i].modifiers <==> exists token :: token in events[i].modifiers && BitOf(token) == Some(b)
  {
    natives := [];
    for i := 0 to |events|
      invariant natives == Natives(events[..i])
    {
      var bits := CompileModifierBits(events[i].modifiers);
      natives := natives + [NativeKey(bits, events[i].base)];
    }
    assert events[..|events|] == events;
  }

  method PushRule(process: ProcessRules, global: seq<CompiledRule>, apps: seq<string>, rule: CompiledRule, fold: Fold)
      returns (processRules: ProcessRules, globalRules: seq<CompiledRule>)
    ensures Rules(processRules, globalRules) == Pushed(Rules(process, global), apps, rule, fold)
  {
    processRules, globalRules := process, global;
    if apps == [] {
      globalRules := globalRules + [rule];
      return;
    }
    for a := 0 to |apps|
      invariant processRules == PushedForApps(process, apps, a, rule, fold)
    {
      var key := fold(apps[a]);
      var rules := if key in processRules then processRules[key] else [];
      processRules := processRules[key := rules + [rule]];
    }
  }

  method CompileMapping(process: ProcessRules, global: seq<CompiledRule>, group: RuleGroup, mapping: Mapping, fold: Fold)
      returns (processRules: ProcessRules, globalRules: seq<CompiledRule>)
    ensures Rules(processRules, globalRules) == WithMapping(Rules(process, global), group, mapping, fold)
  {
    processRules, globalRules := process, global;
    var groupKeyboards := if group.keyboards == [] then None else Some(group.keyboards);
    var nativeOutputs := CompileOutputs(mapping.outputs);
    var variants := ExpandModifierBits(mapping.trigger.modifiers);
    for v := 0 to |variants|
      invariant Rules(processRules, globalRules) == WithVariants(Rules(process, global), group, mapping, variants, v, fold)
    {
      var rule := CompiledRule(mapping.trigger.base, variants[v], nativeOutputs, groupKeyboards);
      processRules, globalRules := PushRule(processRules, globalRules, group.apps, rule, fold);
    }
  }

  method CompileFromConfig(config: Config, fold: Fold) returns (cache: Cache)
    ensures cache == CacheOf(config, fold)
  {
    var processRules: ProcessRules := map[];
    var globalRules: seq<CompiledRule> := [];
    var globalKeyboards: Filter := None;
    if config.keyboards.Some? && config.keyboards.value != [] {
      globalKeyboards := config.keyboards;
    }

    for g := 0 to |config.groups|
      invariant Rules(processRules, globalRules) == RulesUpTo(config.groups, g, fold)
    {
      var group := config.groups[g];
      ghost var atGroup := Rules(processRules, globalRules);
      if group.mappings == [] {
        continue;
      }
      for m := 0 to |group.mappings|
        invariant Rules(processRules, globalRules) == WithMappings(atGroup, group, m, fold)
      {
        processRules, globalRules := CompileMapping(processRules, globalRules, group, group.mappings[m], fold);
      }
    }
    cache := Cache(Rules(processRules, globalRules), globalKeyboards);
  }

  // ---------------------------------------------------------------------------
  // Scanning the compiled lists
  // ---------------------------------------------------------------------------

  predicate RuleMatches(rule: CompiledRule, usage: HidUsage, mask: Mask, allows: Filter -> bool) {
    rule.usage == usage && rule.modifiers == mask && allows(rule.keyboards)
  }

  /** The outputs of the first rule that matches exactly and whose keyboard filter allows it. */
  function FindMatch(rules: seq<CompiledRule>, usage: HidUsage, mask: Mask, allows: Filter -> bool): (outputs: Option<seq<NativeKey>>) {
    if rules == [] then None
    else if RuleMatches(rules[0], usage, mask, allows) then Some(rules[0].outputs)
    else FindMatch(rules[1..], usage, mask, allows)
  }

  lemma {:induction false} FindMatchConcat(xs: seq<CompiledRule>, ys: seq<CompiledRule>, usage: HidUsage, mask: Mask, allows: Filter -> bool)
    ensures FindMatch(xs + ys, usage, mask, allows) ==
            OrElse(FindMatch(xs, usage, mask, allows), FindMatch(ys, usage, mask, allows))
  {
    if xs == [] {
      assert xs + ys == ys;
    } else {
      FindMatchConcat(xs[1..], ys, usage, mask, allows);
      assert (xs + ys)[1..] == xs[1..] + ys;
    }
  }

  /** The lists that are scanned: the one of a folded application name, or the global one. */
  datatype Target = ForApp(folded: string) | Everywhere

  function ListOf(rules: Rules, target: Target): (r: seq<CompiledRule>) {
    match target
    case ForApp(folded) => ListFor(rules.process, folded)
    case Everywhere => rules.global
  }

  predicate Reaches(group: RuleGroup, target: Target, fold: Fold) {
    match target
    case ForApp(folded) => ListsApp(group, fold, folded)
    case Everywhere => group.apps == []
  }

  datatype Query = Query(target: Target, usage: HidUsage, mask: Mask, allows: Filter -> bool)

  function Scan(rules: Rules, q: Query): (outputs: Option<seq<NativeKey>>) {
    FindMatch(ListOf(rules, q.target), q.usage, q.mask, q.allows)
  }

  function Hit(rule: CompiledRule, q: Query): (outputs: Option<seq<NativeKey>>) {
    if RuleMatches(rule, q.usage, q.mask, q.allows) then Some(rule.outputs) else None
  }

  lemma ScanAppended(xs: seq<CompiledRule>, rule: CompiledRule, q: Query)
    ensures FindMatch(xs + [rule], q.usage, q.mask, q.allows) == OrElse(FindMatch(xs, q.usage, q.mask, q.allows), Hit(rule, q))
  {
    FindMatchConcat(xs, [rule], q.usage, q.mask, q.allows);
    assert [rule][1..] == [];
  }

  lemma {:induction false} PushedForAppsScans(process: ProcessRules, apps: seq<string>, n: nat, rule: CompiledRule, fold: Fold, q: Query)
    requires q.target.ForApp? && n <= |apps|
    ensures FindMatch(ListFor(PushedForApps(process, apps, n, rule, fold), q.target.folded), q.usage, q.mask, q.allows) ==
            OrElse(FindMatch(ListFor(process, q.target.folded), q.usage, q.mask, q.allows),
                   if exists i :: 0 <= i < n && fold(apps[i]) == q.target.folded then Hit(rule, q) else None)
  {
    if n > 0 {
      PushedForAppsScans(process, apps, n - 1, rule, fold, q);
      ScanAppended(ListFor(PushedForApps(process, apps, n - 1, rule, fold), q.target.folded), rule, q);
    }
  }

  lemma PushedScans(rules: Rules, group: RuleGroup, rule: CompiledRule, fold: Fold, q: Query)
    ensures Scan(Pushed(rules, group.apps, rule, fold), q) ==
            OrElse(Scan(rules, q), if Reaches(group, q.target, fold) then Hit(rule, q) else None)
  {
    match q.target
    case ForApp(folded) =>
      PushedForAppsScans(rules.process, group.apps, |group.apps|, rule, fold, q);
      if ListsApp(group, fold, folded) {
        var app :| app in group.apps && fold(app) == folded;
        var i :| 0 <= i < |group.apps| && group.apps[i] == app;
        assert fold(group.apps[i]) == folded;
      }
    case Everywhere => ScanAppended(rules.global, rule, q);
  }

  /** A query hits a group that its list comes from and whose keyboard filter it passes. */
  function ScopeOf(q: Query, fold: Fold): (scope: Scope) {
    (group: RuleGroup) => Reaches(group, q.target, fold) && q.allows(FilterOf(group.keyboards))
  }

  lemma {:induction false} VariantsScan(rules: Rules, group: RuleGroup, mapping: Mapping, variants: seq<Mask>, n: nat, fold: Fold, q: Query)
    requires n <= |variants|
    ensures Scan(WithVariants(rules, group, mapping, variants, n, fold), q) ==
            OrElse(Scan(rules, q),
                   if ScopeOf(q, fold)(group) && mapping.trigger.base == q.usage && exists i :: 0 <= i < n && variants[i] == q.mask
                   then Some(Natives(mapping.outputs)) else None)
  {
    if n > 0 {
      VariantsScan(rules, group, mapping, variants, n - 1, fold, q);
      PushedScans(WithVariants(rules, group, mapping, variants, n - 1, fold), group, RuleOf(group, mapping, variants[n - 1]), fold, q);
    }
  }

  lemma MappingScan(rules: Rules, group: RuleGroup, mapping: Mapping, fold: Fold, q: Query)
    ensures Scan(WithMapping(rules, group, mapping, fold), q) ==
            OrElse(Scan(rules, q),
                   if ScopeOf(q, fold)(group) && Triggers(mapping.trigger, q.usage, q.mask) then Some(Natives(mapping.outputs)) else None)
  {
    var variants := Variants(mapping.trigger.modifiers);
    VariantsScan(rules, group, mapping, variants, |variants|, fold, q);
    VariantsAreTheMatches(mapping.trigger.modifiers, q.mask);
    assert q.mask in variants <==> exists i :: 0 <= i < |variants| && variants[i] == q.mask;
  }

  lemma OneMoreMapping(mappings: MappingTable, n: nat, usage: HidUsage, mask: Mask)
    requires 0 < n <= |mappings|
    ensures InMappings(mappings[..n], usage, mask) ==
            OrElse(InMappings(mappings[..n - 1], usage, mask),
                   if Triggers(mappings[n - 1].trigger, usage, mask) then Some(Natives(mappings[n - 1].outputs)) else None)
  {
    assert mappings[..n] == mappings[..n - 1] + [mappings[n - 1]];
    InMappingsConcat(mappings[..n - 1], [mappings[n - 1]], usage, mask);
    assert [mappings[n - 1]][1..] == [];
  }

  lemma {:induction false} MappingsScan(rules: Rules, group: RuleGroup, n: nat, fold: Fold, q: Query)
    requires n <= |group.mappings|
    ensures Scan(WithMappings(rules, group, n, fold), q) ==
            OrElse(Scan(rules, q), if ScopeOf(q, fold)(group) then InMappings(group.mappings[..n], q.usage, q.mask) else None)
  {
    if n > 0 {
      MappingsScan(rules, group, n - 1, fold, q);
      MappingScan(WithMappings(rules, group, n - 1, fold), group, group.mappings[n - 1], fold, q);
      OneMoreMapping(group.mappings, n, q.usage, q.mask);
    }
  }

  lemma GroupScan(rules: Rules, group: RuleGroup, fold: Fold, q: Query)
    ensures Scan(WithGroup(rules, group, fold), q) == OrElse(Scan(rules, q), InGroup(group, ScopeOf(q, fold), q.usage, q.mask))
  {
    MappingsScan(rules, group, |group.mappings|, fold, q);
    assert group.mappings[..|group.mappings|] == group.mappings;
  }

  lemma OneMoreGroup(groups: seq<RuleGroup>, n: nat, scope: Scope, usage: HidUsage, mask: Mask)
    requires 0 < n <= |groups|
    ensures InGroups(groups[..n], scope, usage, mask) ==
            OrElse(InGroups(groups[..n - 1], scope, usage, mask), InGroup(groups[n - 1], scope, usage, mask))
  {
    assert groups[..n] == groups[..n - 1] + [groups[n - 1]];
    InGroupsConcat(groups[..n - 1], [groups[n - 1]], scope, usage, mask);
    assert [groups[n - 1]][1..] == [];
  }

  lemma {:induction false} GroupsScan(groups: seq<RuleGroup>, n: nat, fold: Fold, q: Query)
    requires n <= |groups|
    ensures Scan(RulesUpTo(groups, n, fold), q) == InGroups(groups[..n], ScopeOf(q, fold), q.usage, q.mask)
  {
    if n > 0 {
      GroupsScan(groups, n - 1, fold, q);
      GroupScan(RulesUpTo(groups, n - 1, fold), groups[n - 1], fold, q);
      OneMoreGroup(groups, n, ScopeOf(q, fold), q.usage, q.mask);
    }
  }

  /** Scanning the compiled list of a target is interpreting the groups that reach the target. */
  lemma ScanIsInterpretation(groups: seq<RuleGroup>, fold: Fold, q: Query)
    ensures Scan(RulesOf(groups, fold), q) == InGroups(groups, ScopeOf(q, fold), q.usage, q.mask)
  {
    GroupsScan(groups, |groups|, fold, q);
    assert groups[..|groups|] == groups;
  }
}
