/** The live lookup state, and the end-to-end meaning of a configuration for a typed key. */
module Runtime {
  import opened Wrappers
  import opened Bits
  import opened Hid
  import opened Config
  import opened Interpreter
  import opened Compiler
  import Engine
  import Device
  import NoStuckModifiers
  import KeyFate
  import ActiveModifiers

  function ScanCache(cache: Cache, registry: Registry, target: Target,
                     usage: HidUsage, mask: Mask, device: Option<string>): (outputs: Option<seq<NativeKey>>) {
    if !Allowed(cache.globalKeyboards, registry, device) then None
    else FindMatch(ListOf(cache.rules, target), usage, mask, (filter: Filter) => Allowed(filter, registry, device))
  }

  class RuntimeState {
    var lookupCache: Cache
    const keyboardRegistry: Registry
    const fold: Fold

    constructor (cache: Cache, registry: Registry, fold: Fold)
      ensures lookupCache == cache && keyboardRegistry == registry && this.fold == fold
    {
      lookupCache, keyboardRegistry, this.fold := cache, registry, fold;
    }

    function LookupForApp(app: string, usage: HidUsage, mask: Mask, device: Option<string>): (outputs: Option<seq<NativeKey>>)
      reads this
    {
      ScanCache(lookupCache, keyboardRegistry, ForApp(fold(app)), usage, mask, device)
    }

    function LookupGlobal(usage: HidUsage, mask: Mask, device: Option<string>): (outputs: Option<seq<NativeKey>>)
      reads this
    {
      ScanCache(lookupCache, keyboardRegistry, Everywhere, usage, mask, device)
    }

    method SetLookupCache(cache: Cache)
      modifies this
      ensures lookupCache == cache
    {
      lookupCache := cache;
    }

    /** Compile a configuration and swap it in; every later lookup has the meaning of that configuration. */
    method Reload(config: Config)
      modifies this
      ensures forall app: string, usage: HidUsage, mask: Mask, device: Option<string> ::
                OrElse(LookupForApp(app, usage, mask, device), LookupGlobal(usage, mask, device)) ==
                Meaning(config, fold, keyboardRegistry, app, usage, mask, device)
    {
      var cache := CompileFromConfig(config, fold);
      SetLookupCache(cache);
      forall app: string, usage: HidUsage, mask: Mask, device: Option<string> {
        CompilerKeepsMeaning(config, fold, keyboardRegistry, app, usage, mask, device);
      }
    }
  }

  lemma {:induction false} SameScopesSameGroups(groups: seq<RuleGroup>, scope: Scope, other: Scope, usage: HidUsage, mask: Mask)
    requires forall group :: group in groups ==> scope(group) == other(group)
    ensures InGroups(groups, scope, usage, mask) == InGroups(groups, other, usage, mask)
  {
    if groups != [] {
      SameScopesSameGroups(groups[1..], scope, other, usage, mask);
    }
  }

  lemma ScanKeepsMeaning(config: Config, fold: Fold, registry: Registry, target: Target, scope: Scope,
                         usage: HidUsage, mask: Mask, device: Option<string>)
    requires forall group :: scope(group) == (Reaches(group, target, fold) && Allowed(FilterOf(group.keyboards), registry, device))
    ensures ScanCache(CacheOf(config, fold), registry, target, usage, mask, device) ==
            if Allowed(GlobalFilter(config), registry, device) then InGroups(config.groups, scope, usage, mask) else None
  {
    var q := Query(target, usage, mask, (filter: Filter) => Allowed(filter, registry, device));
    ScanIsInterpretation(config.groups, fold, q);
    SameScopesSameGroups(config.groups, ScopeOf(q, fold), scope, usage, mask);
  }

  /**
   The compiler preserves meaning: for every configuration, application, key, exact modifier mask
   and device, the compiled application rules, then the compiled global rules, give exactly the
   outputs that the interpreter finds in the configuration.
   */
  lemma CompilerKeepsMeaning(config: Config, fold: Fold, registry: Registry,
                             app: string, usage: HidUsage, mask: Mask, device: Option<string>)
    ensures var cache := CacheOf(config, fold);
      OrElse(ScanCache(cache, registry, ForApp(fold(app)), usage, mask, device),
             ScanCache(cache, registry, Everywhere, usage, mask, device)) ==
      Meaning(config, fold, registry, app, usage, mask, device)
  {
    ScanKeepsMeaning(config, fold, registry, ForApp(fold(app)), AppScope(fold, app, registry, device), usage, mask, device);
    ScanKeepsMeaning(config, fold, registry, Everywhere, GlobalScope(registry, device), usage, mask, device);
  }

  /** The rule table the engine asks while `app` is focused and `device` is the source keyboard. */
  function RuleTable(cache: Cache, registry: Registry, fold: Fold, app: string, device: Option<string>): (lookup: Lookup) {
    (usage: HidUsage, mask: Mask) =>
      OrElse(ScanCache(cache, registry, ForApp(fold(app)), usage, mask, device),
             ScanCache(cache, registry, Everywhere, usage, mask, device))
  }

  /**
   From configuration to decision: in every run, with the configuration compiled and live when an
   unpressed key goes down, the key emits the outputs the configuration means for it under the
   modifiers that the trace says are active, and passes if there are none.
   */
  lemma TypedKeyFollowsTheConfig(layout: Device.Layout, notes: seq<NoStuckModifiers.Note>, events: seq<Device.Event>, i: nat,
                                 config: Config, fold: Fold, registry: Registry, app: string, device: Option<string>)
    requires i < |events| && events[i].kind != Device.Release && events[i].reachable
    requires KeyFate.FateIn(layout, KeyFate.Trace(layout, notes, events[..i]), events[i].key) == KeyFate.IsUp
    requires events[i].lookup == RuleTable(CacheOf(config, fold), registry, fold, app, device)
    ensures var trace := KeyFate.Trace(layout, notes, events[..i]);
      var modifiers := ActiveModifiers.ActiveIn(layout, trace);
      var decision := Device.DecisionIn(layout, NoStuckModifiers.Noting(layout, notes), events, i);
      match Meaning(config, fold, registry, app, layout(events[i].key), modifiers, device)
      case Some(outputs) => decision.Emit? && decision.outputs == outputs
      case None => decision == Engine.Pass
  {
    var trace := KeyFate.Trace(layout, notes, events[..i]);
    ActiveModifiers.FreshDownIsToldByTheTrace(layout, notes, events, i);
    CompilerKeepsMeaning(config, fold, registry, app, layout(events[i].key), ActiveModifiers.ActiveIn(layout, trace), device);
  }
}
