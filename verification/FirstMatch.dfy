/**
 What a configuration means, said without recursion: a key is answered by the first place that
 answers it, and who gets through a keyboard filter is told field by field.
 */
module FirstMatch {
  import opened Wrappers
  import opened Bits
  import opened Hid
  import opened Config
  import opened Expand
  import opened Interpreter

  // ---------------------------------------------------------------------------
  // Keyboard filters
  // ---------------------------------------------------------------------------

  /** The same letter, or the two cases of one ASCII letter. */
  predicate SameLetter(c: char, d: char) {
    c == d || ('A' <= c <= 'Z' && d as int == c as int + 32) || ('A' <= d <= 'Z' && c as int == d as int + 32)
  }

  predicate SameText(s: string, t: string) {
    |s| == |t| && forall i :: 0 <= i < |s| ==> SameLetter(s[i], t[i])
  }

  lemma EqualMeansSameText(s: string, t: string)
    ensures EqualIgnoringAsciiCase(s, t) <==> SameText(s, t)
  {
    forall c: char, d: char ensures AsciiLower(c) == AsciiLower(d) <==> SameLetter(c, d) {}
  }

  /** Every field that is given fits; a given port fits no keyboard without one. */
  predicate Fits(spec: KeyboardSpecifier, info: KeyboardInfo) {
    && (spec.name == None || SameText(spec.name.value, info.name))
    && (spec.vendor == None || SameText(spec.vendor.value, info.vendor))
    && (spec.model == None || SameText(spec.model.value, info.model))
    && (spec.port == None || (info.port != None && SameText(spec.port.value, info.port.value)))
  }

  /** No filter, no known keyboard, or a specifier that fits it. */
  predicate Passes(keyboards: seq<KeyboardSpecifier>, registry: Registry, device: Option<string>) {
    || keyboards == []
    || device == None
    || device.value !in registry
    || exists i :: 0 <= i < |keyboards| && Fits(keyboards[i], registry[device.value])
  }

  lemma MatchingIsFitting(spec: KeyboardSpecifier, info: KeyboardInfo)
    ensures SpecifierMatches(spec, info) <==> Fits(spec, info)
  {
    if spec.name.Some? { EqualMeansSameText(spec.name.value, info.name); }
    if spec.vendor.Some? { EqualMeansSameText(spec.vendor.value, info.vendor); }
    if spec.model.Some? { EqualMeansSameText(spec.model.value, info.model); }
    if spec.port.Some? && info.port.Some? { EqualMeansSameText(spec.port.value, info.port.value); }
  }

  /** Who gets through a filter. */
  lemma AllowedIsPassing(keyboards: seq<KeyboardSpecifier>, registry: Registry, device: Option<string>)
    ensures Allowed(FilterOf(keyboards), registry, device) <==> Passes(keyboards, registry, device)
  {
    if keyboards != [] && device.Some? && device.value in registry {
      var info := registry[device.value];
      forall spec { MatchingIsFitting(spec, info); }
      if i :| 0 <= i < |keyboards| && Fits(keyboards[i], info) {
        assert keyboards[i] in keyboards;
      }
      if spec :| spec in keyboards && SpecifierMatches(spec, info) {
        var i :| 0 <= i < |keyboards| && keyboards[i] == spec;
        assert Fits(keyboards[i], info);
      }
    }
  }

  // ---------------------------------------------------------------------------
  // The first match
  // ---------------------------------------------------------------------------

  lemma {:induction false} SilentMappings(mappings: MappingTable, usage: HidUsage, mask: Mask)
    ensures InMappings(mappings, usage, mask) == None <==>
            forall i :: 0 <= i < |mappings| ==> !Triggers(mappings[i].trigger, usage, mask)
  {
    if mappings != [] {
      SilentMappings(mappings[1..], usage, mask);
      assert forall i :: 0 < i < |mappings| ==> mappings[i] == mappings[1..][i - 1];
      forall i | 0 <= i < |mappings| - 1 ensures mappings[1..][i] == mappings[i + 1] {}
    }
  }

  lemma {:induction false} FirstMapping(mappings: MappingTable, usage: HidUsage, mask: Mask, i: nat)
    requires i < |mappings| && Triggers(mappings[i].trigger, usage, mask)
    requires forall j :: 0 <= j < i ==> !Triggers(mappings[j].trigger, usage, mask)
    ensures InMappings(mappings, usage, mask) == Some(Natives(mappings[i].outputs))
  {
    if i > 0 {
      forall j | 0 <= j < |mappings| - 1 ensures mappings[1..][j] == mappings[j + 1] {}
      assert !Triggers(mappings[0].trigger, usage, mask);
      FirstMapping(mappings[1..], usage, mask, i - 1);
    }
  }

  lemma {:induction false} SilentGroups(groups: seq<RuleGroup>, scope: Scope, usage: HidUsage, mask: Mask)
    ensures InGroups(groups, scope, usage, mask) == None <==>
            forall g :: 0 <= g < |groups| ==> InGroup(groups[g], scope, usage, mask) == None
  {
    if groups != [] {
      SilentGroups(groups[1..], scope, usage, mask);
      assert forall g :: 0 < g < |groups| ==> groups[g] == groups[1..][g - 1];
      forall g | 0 <= g < |groups| - 1 ensures groups[1..][g] == groups[g + 1] {}
    }
  }

  lemma {:induction false} FirstGroup(groups: seq<RuleGroup>, scope: Scope, usage: HidUsage, mask: Mask, g: nat)
    requires g < |groups| && InGroup(groups[g], scope, usage, mask) != None
    requires forall h :: 0 <= h < g ==> InGroup(groups[h], scope, usage, mask) == None
    ensures InGroups(groups, scope, usage, mask) == InGroup(groups[g], scope, usage, mask)
  {
    if g > 0 {
      forall h | 0 <= h < |groups| - 1 ensures groups[1..][h] == groups[h + 1] {}
      assert InGroup(groups[0], scope, usage, mask) == None;
      FirstGroup(groups[1..], scope, usage, mask, g - 1);
    }
  }

  /** A lookup: the focused application, the key, the exact modifiers and the keyboard. */
  datatype Question = Question(app: string, usage: HidUsage, mask: Mask, device: Option<string>)

  /** A place in a configuration: a mapping of a group that is for the application, or for all. */
  datatype Place = Place(forApp: bool, group: nat, mapping: nat)

  /** Rules for the application come first, then the order of definition. */
  predicate Earlier(p: Place, q: Place) {
    || (p.forApp && !q.forApp)
    || (p.forApp == q.forApp && (p.group < q.group || (p.group == q.group && p.mapping < q.mapping)))
  }

  predicate InScope(group: RuleGroup, fold: Fold, app: string, forApp: bool) {
    if forApp then exists i :: 0 <= i < |group.apps| && fold(group.apps[i]) == fold(app) else group.apps == []
  }

  ghost predicate Answers(config: Config, fold: Fold, registry: Registry, q: Question, p: Place) {
    && p.group < |config.groups| && p.mapping < |config.groups[p.group].mappings|
    && var group := config.groups[p.group];
      && InScope(group, fold, q.app, p.forApp)
      && Passes(group.keyboards, registry, q.device)
      && group.mappings[p.mapping].trigger.base == q.usage
      && ClosedForm(multiset(group.mappings[p.mapping].trigger.modifiers), q.mask)
  }

  ghost predicate FirstAnswers(config: Config, fold: Fold, registry: Registry, q: Question, p: Place) {
    Answers(config, fold, registry, q, p) && forall o :: Earlier(o, p) ==> !Answers(config, fold, registry, q, o)
  }

  ghost predicate NobodyAnswers(config: Config, fold: Fold, registry: Registry, q: Question, forApp: bool) {
    forall g: nat, m: nat :: !Answers(config, fold, registry, q, Place(forApp, g, m))
  }

  function ScopeFor(fold: Fold, registry: Registry, q: Question, forApp: bool): (scope: Scope) {
    if forApp then AppScope(fold, q.app, registry, q.device) else GlobalScope(registry, q.device)
  }

  lemma PlaceAnswers(config: Config, fold: Fold, registry: Registry, q: Question, p: Place)
    requires p.group < |config.groups| && p.mapping < |config.groups[p.group].mappings|
    ensures Answers(config, fold, registry, q, p) <==>
            && ScopeFor(fold, registry, q, p.forApp)(config.groups[p.group])
            && Triggers(config.groups[p.group].mappings[p.mapping].trigger, q.usage, q.mask)
  {
    var group := config.groups[p.group];
    AllowedIsPassing(group.keyboards, registry, q.device);
    MatchesInClosedForm(group.mappings[p.mapping].trigger.modifiers, q.mask);
    ListsAppByIndex(group, fold, q.app);
  }

  lemma ListsAppByIndex(group: RuleGroup, fold: Fold, app: string)
    ensures ListsApp(group, fold, fold(app)) <==> InScope(group, fold, app, true)
  {
    if name :| name in group.apps && fold(name) == fold(app) {
      var i :| 0 <= i < |group.apps| && group.apps[i] == name;
      assert fold(group.apps[i]) == fold(app);
    }
    if i :| 0 <= i < |group.apps| && fold(group.apps[i]) == fold(app) {
      assert group.apps[i] in group.apps;
    }
  }

  lemma GroupIsSilent(config: Config, fold: Fold, registry: Registry, q: Question, forApp: bool, g: nat)
    requires g < |config.groups|
    ensures InGroup(config.groups[g], ScopeFor(fold, registry, q, forApp), q.usage, q.mask) == None <==>
            forall m: nat :: !Answers(config, fold, registry, q, Place(forApp, g, m))
  {
    var mappings := config.groups[g].mappings;
    SilentMappings(mappings, q.usage, q.mask);
    forall m: nat | m < |mappings|
      ensures Answers(config, fold, registry, q, Place(forApp, g, m)) <==>
              ScopeFor(fold, registry, q, forApp)(config.groups[g]) && Triggers(mappings[m].trigger, q.usage, q.mask)
    {
      PlaceAnswers(config, fold, registry, q, Place(forApp, g, m));
    }
  }

  lemma ScopeIsSilent(config: Config, fold: Fold, registry: Registry, q: Question, forApp: bool)
    ensures InGroups(config.groups, ScopeFor(fold, registry, q, forApp), q.usage, q.mask) == None <==>
            NobodyAnswers(config, fold, registry, q, forApp)
  {
    SilentGroups(config.groups, ScopeFor(fold, registry, q, forApp), q.usage, q.mask);
    forall g: nat | g < |config.groups|
      ensures InGroup(config.groups[g], ScopeFor(fold, registry, q, forApp), q.usage, q.mask) == None <==>
              forall m: nat :: !Answers(config, fold, registry, q, Place(forApp, g, m))
    {
      GroupIsSilent(config, fold, registry, q, forApp, g);
    }
  }

  lemma FirstInScope(config: Config, fold: Fold, registry: Registry, q: Question, p: Place)
    requires FirstAnswers(config, fold, registry, q, p)
    ensures InGroups(config.groups, ScopeFor(fold, registry, q, p.forApp), q.usage, q.mask) ==
            Some(Natives(config.groups[p.group].mappings[p.mapping].outputs))
  {
    var scope, group := ScopeFor(fold, registry, q, p.forApp), config.groups[p.group];
    PlaceAnswers(config, fold, registry, q, p);
    forall m: nat | m < p.mapping ensures !Triggers(group.mappings[m].trigger, q.usage, q.mask) {
      assert Earlier(Place(p.forApp, p.group, m), p);
      PlaceAnswers(config, fold, registry, q, Place(p.forApp, p.group, m));
    }
    FirstMapping(group.mappings, q.usage, q.mask, p.mapping);
    forall g: nat | g < p.group ensures InGroup(config.groups[g], scope, q.usage, q.mask) == None {
      forall m: nat ensures !Answers(config, fold, registry, q, Place(p.forApp, g, m)) {
        assert Earlier(Place(p.forApp, g, m), p);
      }
      GroupIsSilent(config, fold, registry, q, p.forApp, g);
    }
    FirstGroup(config.groups, scope, q.usage, q.mask, p.group);
  }

  /** The global keyboards of a configuration; none given and an empty list are the same. */
  function GlobalKeyboards(config: Config): (keyboards: seq<KeyboardSpecifier>) {
    match config.keyboards case Some(keyboards) => keyboards case None => []
  }

  /**
   If the keyboard passes the global filter, a key means the outputs at the first place that answers
   it, compiled one by one as they were written.
   */
  lemma MeaningIsTheFirstAnswer(config: Config, fold: Fold, registry: Registry, q: Question, p: Place)
    requires Passes(GlobalKeyboards(config), registry, q.device) && FirstAnswers(config, fold, registry, q, p)
    ensures var outputs := config.groups[p.group].mappings[p.mapping].outputs;
      var meaning := Meaning(config, fold, registry, q.app, q.usage, q.mask, q.device);
      && meaning.Some? && |meaning.value| == |outputs|
      && forall i :: 0 <= i < |outputs| ==> SameKey(meaning.value[i], outputs[i])
  {
    AllowedIsPassing(GlobalKeyboards(config), registry, q.device);
    FirstInScope(config, fold, registry, q, p);
    NativesAreTheEvents(config.groups[p.group].mappings[p.mapping].outputs);
    if !p.forApp {
      forall g: nat, m: nat ensures !Answers(config, fold, registry, q, Place(true, g, m)) {
        assert Earlier(Place(true, g, m), p);
      }
      ScopeIsSilent(config, fold, registry, q, true);
    }
  }

  /** A key means nothing exactly if the keyboard is filtered out or no place answers it. */
  lemma NoAnswerNoMeaning(config: Config, fold: Fold, registry: Registry, q: Question)
    ensures Meaning(config, fold, registry, q.app, q.usage, q.mask, q.device) == None <==>
            !Passes(GlobalKeyboards(config), registry, q.device) || forall p :: !Answers(config, fold, registry, q, p)
  {
    AllowedIsPassing(GlobalKeyboards(config), registry, q.device);
    ScopeIsSilent(config, fold, registry, q, true);
    ScopeIsSilent(config, fold, registry, q, false);
    if NobodyAnswers(config, fold, registry, q, true) && NobodyAnswers(config, fold, registry, q, false) {
      forall p ensures !Answers(config, fold, registry, q, p) {
        assert !Answers(config, fold, registry, q, Place(p.forApp, p.group, p.mapping));
      }
    }
  }
}
