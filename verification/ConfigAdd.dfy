/** The `config add` edit, and what it changes in the meaning of a configuration. */
module ConfigAdd {
  import opened Wrappers
  import opened Bits
  import opened Hid
  import opened Config
  import opened Interpreter
  import opened Compiler
  import opened Runtime

  // ---------------------------------------------------------------------------
  // The edit on values
  // ---------------------------------------------------------------------------

  function IndexOf(table: MappingTable, trigger: KeyEvent): (i: nat)
    ensures i <= |table|
    ensures forall j :: 0 <= j < i ==> table[j].trigger != trigger
    ensures i < |table| ==> table[i].trigger == trigger
  {
    if table == [] || table[0].trigger == trigger then 0 else 1 + IndexOf(table[1..], trigger)
  }

  /** An insertion overwrites an existing trigger in place and appends a new one. */
  function Inserted(table: MappingTable, trigger: KeyEvent, outputs: seq<KeyEvent>): (r: MappingTable) {
    var i := IndexOf(table, trigger);
    if i < |table| then table[i := Mapping(trigger, outputs)] else table + [Mapping(trigger, outputs)]
  }

  function IndexNamed(groups: seq<RuleGroup>, name: string): (i: nat)
    ensures i <= |groups|
    ensures forall j :: 0 <= j < i ==> groups[j].name != Some(name)
    ensures i < |groups| ==> groups[i].name == Some(name)
  {
    if groups == [] || groups[0].name == Some(name) then 0 else 1 + IndexNamed(groups[1..], name)
  }

  /** The arguments of an add, without the global keyboard filter. */
  datatype Addition = Addition(
    trigger: KeyEvent,
    output: KeyEvent,
    groupName: string,
    apps: Option<seq<string>>,
    keyboards: Option<seq<KeyboardSpecifier>>)

  function OrEmpty<T>(xs: Option<seq<T>>): (r: seq<T>) {
    if xs.Some? then xs.value else []
  }

  /** A scope that is given applies to a group that has none yet. */
  function Scoped(group: RuleGroup, add: Addition): (r: RuleGroup) {
    group.(apps := if group.apps == [] then OrEmpty(add.apps) else group.apps,
           keyboards := if group.keyboards == [] then OrEmpty(add.keyboards) else group.keyboards)
  }

  function Edited(group: RuleGroup, add: Addition): (r: RuleGroup) {
    Scoped(group, add).(mappings := Inserted(group.mappings, add.trigger, [add.output]))
  }

  function NewGroup(add: Addition): (group: RuleGroup) {
    RuleGroup(Some(add.groupName), OrEmpty(add.apps), OrEmpty(add.keyboards), [])
  }

  function AddedTo(groups: seq<RuleGroup>, add: Addition): (r: seq<RuleGroup>) {
    var i := IndexNamed(groups, add.groupName);
    if i < |groups| then groups[i := Edited(groups[i], add)] else groups + [Edited(NewGroup(add), add)]
  }

  // ---------------------------------------------------------------------------
  // The edit in place
  // ---------------------------------------------------------------------------

  class AppConfig {
    var keyboards: Option<seq<KeyboardSpecifier>>
    var groups: seq<RuleGroup>

    function Value(): (value: Config)
      reads this
    {
      Config(keyboards, groups)
    }

    constructor (config: Config)
      ensures Value() == config
    {
      keyboards, groups := config.keyboards, config.groups;
    }

    method ApplyAdd(add: Addition, globalKeyboards: Option<seq<KeyboardSpecifier>>)
      modifies this
      ensures groups == AddedTo(old(groups), add)
      ensures keyboards == if globalKeyboards.Some? then globalKeyboards else old(keyboards)
    {
      if globalKeyboards.Some? {
        keyboards := globalKeyboards;
      }

      // Find or create the target group.
      var target := 0;
      while target < |groups| && groups[target].name != Some(add.groupName)
        invariant target <= |groups|
        invariant forall j :: 0 <= j < target ==> groups[j].name != Some(add.groupName)
      {
        target := target + 1;
      }
      if target == |groups| {
        groups := groups + [NewGroup(add)];
      }

      var group := groups[target];
      if add.apps.Some? && group.apps == [] {
        group := group.(apps := add.apps.value);
      }
      if add.keyboards.Some? && group.keyboards == [] {
        group := group.(keyboards := add.keyboards.value);
      }
      group := group.(mappings := Inserted(group.mappings, add.trigger, [add.output]));
      groups := groups[target := group];
    }
  }

  // ---------------------------------------------------------------------------
  // What the edit changes
  // ---------------------------------------------------------------------------

  /** The place of the group: the first one of its name, or a new one at the end. */
  ghost predicate IsTarget(groups: seq<RuleGroup>, name: string, i: nat) {
    && i <= |groups| && (i < |groups| ==> groups[i].name == Some(name))
    && forall j :: 0 <= j < i ==> groups[j].name != Some(name)
  }

  /** A scope that is there stays; one that is not becomes what is given, if anything is. */
  ghost predicate KeepsOrTakes<T>(before: seq<T>, given: Option<seq<T>>, after: seq<T>) {
    if before != [] then after == before
    else match given case Some(scope) => after == scope case None => after == []
  }

  /** The outputs that a table has for a trigger. */
  ghost predicate Holds(table: MappingTable, trigger: KeyEvent, outputs: seq<KeyEvent>) {
    exists i :: 0 <= i < |table| && table[i] == Mapping(trigger, outputs)
  }

  ghost predicate AddsTo(before: RuleGroup, after: RuleGroup, add: Addition) {
    && after.name == before.name
    && KeepsOrTakes(before.apps, add.apps, after.apps)
    && KeepsOrTakes(before.keyboards, add.keyboards, after.keyboards)
    && Holds(after.mappings, add.trigger, [add.output])
    && (forall t, o :: t != add.trigger ==> (Holds(after.mappings, t, o) <==> Holds(before.mappings, t, o)))
  }

  lemma InsertedHolds(table: MappingTable, trigger: KeyEvent, outputs: seq<KeyEvent>)
    ensures Holds(Inserted(table, trigger, outputs), trigger, outputs)
    ensures forall t, o :: t != trigger ==> (Holds(Inserted(table, trigger, outputs), t, o) <==> Holds(table, t, o))
  {
    var after, i := Inserted(table, trigger, outputs), IndexOf(table, trigger);
    assert after[i] == Mapping(trigger, outputs);
    forall t, o | t != trigger ensures Holds(after, t, o) <==> Holds(table, t, o) {
      if j :| 0 <= j < |table| && table[j] == Mapping(t, o) {
        assert after[j] == Mapping(t, o);
      }
      if j :| 0 <= j < |after| && after[j] == Mapping(t, o) {
        assert table[j] == Mapping(t, o);
      }
    }
  }

  /**
   An add changes one group: the first of its name, or a new group of that name with the given scopes
   and nothing else. The group keeps every scope it has and every other mapping, and maps the trigger.
   */
  lemma AddChangesOneGroup(groups: seq<RuleGroup>, add: Addition, i: nat)
    requires IsTarget(groups, add.groupName, i)
    ensures var after := AddedTo(groups, add);
      && |after| == (if i < |groups| then |groups| else |groups| + 1)
      && (forall j :: 0 <= j < |groups| && j != i ==> after[j] == groups[j])
      && AddsTo(if i < |groups| then groups[i] else RuleGroup(Some(add.groupName), [], [], []), after[i], add)
      && (i == |groups| ==> after[i].mappings == [Mapping(add.trigger, [add.output])])
  {
    assert i == IndexNamed(groups, add.groupName);
    InsertedHolds(if i < |groups| then groups[i].mappings else [], add.trigger, [add.output]);
  }

  // ---------------------------------------------------------------------------
  // What an insertion does to a table
  // ---------------------------------------------------------------------------

  function Others(table: MappingTable, trigger: KeyEvent): (r: MappingTable) {
    if table == [] then []
    else (if table[0].trigger == trigger then [] else [table[0]]) + Others(table[1..], trigger)
  }

  lemma InsertionStaysUnique(table: MappingTable, trigger: KeyEvent, outputs: seq<KeyEvent>)
    requires OneEntryPerTrigger(table)
    ensures OneEntryPerTrigger(Inserted(table, trigger, outputs))
    ensures Mapping(trigger, outputs) in Inserted(table, trigger, outputs)
  {
    var after, i := Inserted(table, trigger, outputs), IndexOf(table, trigger);
    assert after[i] == Mapping(trigger, outputs);
    forall j | 0 <= j < |table| ensures after[j].trigger == table[j].trigger {}
  }

  lemma {:induction false} OthersStay(table: MappingTable, trigger: KeyEvent, outputs: seq<KeyEvent>)
    ensures Others(Inserted(table, trigger, outputs), trigger) == Others(table, trigger)
  {
    var after := Inserted(table, trigger, outputs);
    if table == [] {
      assert after[1..] == [];
    } else if table[0].trigger == trigger {
      assert after[1..] == table[1..];
    } else {
      OthersStay(table[1..], trigger, outputs);
      assert after[1..] == Inserted(table[1..], trigger, outputs);
    }
  }

  /** An insertion keeps the order of all other entries, and the table stays one entry per trigger. */
  lemma InsertionKeepsTheOthers(table: MappingTable, trigger: KeyEvent, outputs: seq<KeyEvent>)
    requires OneEntryPerTrigger(table)
    ensures Others(Inserted(table, trigger, outputs), trigger) == Others(table, trigger)
    ensures OneEntryPerTrigger(Inserted(table, trigger, outputs))
    ensures Mapping(trigger, outputs) in Inserted(table, trigger, outputs)
  {
    InsertionStaysUnique(table, trigger, outputs);
    OthersStay(table, trigger, outputs);
  }

  lemma {:induction false} InsertionIsLocal(table: MappingTable, trigger: KeyEvent, outputs: seq<KeyEvent>, usage: HidUsage, mask: Mask)
    requires !Triggers(trigger, usage, mask)
    ensures InMappings(Inserted(table, trigger, outputs), usage, mask) == InMappings(table, usage, mask)
  {
    var after := Inserted(table, trigger, outputs);
    if table == [] {
      assert after[1..] == [];
    } else if table[0].trigger == trigger {
      assert after[1..] == table[1..];
    } else {
      InsertionIsLocal(table[1..], trigger, outputs, usage, mask);
      assert after[1..] == Inserted(table[1..], trigger, outputs);
    }
  }

  /** Where the inserted trigger matches, the table now has its outputs or those of an earlier entry. */
  lemma {:induction false} InsertionTakesEffect(table: MappingTable, trigger: KeyEvent, outputs: seq<KeyEvent>, usage: HidUsage, mask: Mask)
    requires Triggers(trigger, usage, mask)
    ensures InMappings(Inserted(table, trigger, outputs), usage, mask) ==
            OrElse(InMappings(table[..IndexOf(table, trigger)], usage, mask), Some(Natives(outputs)))
  {
    var i := IndexOf(table, trigger);
    var after := Inserted(table, trigger, outputs);
    var rest := if i < |table| then table[i + 1..] else [];
    assert after == table[..i] + ([Mapping(trigger, outputs)] + rest);
    InMappingsConcat(table[..i], [Mapping(trigger, outputs)] + rest, usage, mask);
  }

  // ---------------------------------------------------------------------------
  // Locality
  // ---------------------------------------------------------------------------

  /** The add gives a scope to an existing group that has none. */
  predicate Rescopes(groups: seq<RuleGroup>, add: Addition) {
    var i := IndexNamed(groups, add.groupName);
    i < |groups| && Scoped(groups[i], add) != groups[i]
  }

  /** A scope that looks at the applications and keyboards of a group only. */
  ghost predicate SeesOnlyScopes(scope: Scope) {
    forall g: RuleGroup, h: RuleGroup :: g.apps == h.apps && g.keyboards == h.keyboards ==> scope(g) == scope(h)
  }

  lemma ReplacedGroup(groups: seq<RuleGroup>, i: nat, group: RuleGroup, scope: Scope, usage: HidUsage, mask: Mask)
    requires i < |groups|
    ensures InGroups(groups[i := group], scope, usage, mask) ==
            OrElse(InGroups(groups[..i], scope, usage, mask),
                   OrElse(InGroup(group, scope, usage, mask), InGroups(groups[i + 1..], scope, usage, mask)))
  {
    assert groups[i := group] == groups[..i] + ([group] + groups[i + 1..]);
    InGroupsConcat(groups[..i], [group] + groups[i + 1..], scope, usage, mask);
    assert ([group] + groups[i + 1..])[1..] == groups[i + 1..];
  }

  /** The groups with the scopes that an add gives, and without its mapping. */
  function Rescoped(groups: seq<RuleGroup>, add: Addition): (rescoped: seq<RuleGroup>) {
    var i := IndexNamed(groups, add.groupName);
    if i < |groups| then groups[i := Scoped(groups[i], add)] else groups
  }

  lemma GroupsKeepMeaning(groups: seq<RuleGroup>, add: Addition, scope: Scope, usage: HidUsage, mask: Mask)
    requires !Triggers(add.trigger, usage, mask) && SeesOnlyScopes(scope)
    ensures InGroups(AddedTo(groups, add), scope, usage, mask) == InGroups(Rescoped(groups, add), scope, usage, mask)
  {
    var i := IndexNamed(groups, add.groupName);
    if i < |groups| {
      InsertionIsLocal(groups[i].mappings, add.trigger, [add.output], usage, mask);
      assert scope(Edited(groups[i], add)) == scope(Scoped(groups[i], add));
      ReplacedGroup(groups, i, Edited(groups[i], add), scope, usage, mask);
      ReplacedGroup(groups, i, Scoped(groups[i], add), scope, usage, mask);
    } else {
      var group := Edited(NewGroup(add), add);
      InsertionIsLocal([], add.trigger, [add.output], usage, mask);
      InGroupsConcat(groups, [group], scope, usage, mask);
      assert [group][1..] == [];
    }
  }

  /**
   For every key that the added trigger does not match, an add is nothing but its rescoping, whatever
   the application and the device.
   */
  lemma AddIsItsRescoping(config: Config, add: Addition, fold: Fold, registry: Registry,
                          app: string, usage: HidUsage, mask: Mask, device: Option<string>)
    requires !Triggers(add.trigger, usage, mask)
    ensures Meaning(config.(groups := AddedTo(config.groups, add)), fold, registry, app, usage, mask, device) ==
            Meaning(config.(groups := Rescoped(config.groups, add)), fold, registry, app, usage, mask, device)
  {
    GroupsKeepMeaning(config.groups, add, AppScope(fold, app, registry, device), usage, mask);
    GroupsKeepMeaning(config.groups, add, GlobalScope(registry, device), usage, mask);
  }

  /** So an add that rescopes no existing group is local. */
  lemma AddIsLocal(config: Config, add: Addition, fold: Fold, registry: Registry,
                   app: string, usage: HidUsage, mask: Mask, device: Option<string>)
    requires !Rescopes(config.groups, add)
    requires !Triggers(add.trigger, usage, mask)
    ensures Meaning(config.(groups := AddedTo(config.groups, add)), fold, registry, app, usage, mask, device) ==
            Meaning(config, fold, registry, app, usage, mask, device)
  {
    AddIsItsRescoping(config, add, fold, registry, app, usage, mask, device);
    assert Rescoped(config.groups, add) == config.groups;
  }

  /** The same of the compiled rules: recompiling after an add changes no lookup the trigger does not match. */
  lemma RecompiledLookupIsLocal(config: Config, add: Addition, fold: Fold, registry: Registry,
                                app: string, usage: HidUsage, mask: Mask, device: Option<string>)
    requires !Rescopes(config.groups, add)
    requires !Triggers(add.trigger, usage, mask)
    ensures var after := config.(groups := AddedTo(config.groups, add));
      RuleTable(CacheOf(after, fold), registry, fold, app, device)(usage, mask) ==
      RuleTable(CacheOf(config, fold), registry, fold, app, device)(usage, mask)
  {
    AddIsLocal(config, add, fold, registry, app, usage, mask, device);
    CompilerKeepsMeaning(config, fold, registry, app, usage, mask, device);
    CompilerKeepsMeaning(config.(groups := AddedTo(config.groups, add)), fold, registry, app, usage, mask, device);
  }

  /** Without a scope in the arguments, no group is rescoped. */
  lemma PlainAddRescopesNothing(groups: seq<RuleGroup>, add: Addition)
    requires OrEmpty(add.apps) == [] && OrEmpty(add.keyboards) == []
    ensures !Rescopes(groups, add)
  {}

  /** The added rule is live: a key it matches, in a scope the group has, means something afterwards. */
  lemma AddedRuleFires(groups: seq<RuleGroup>, add: Addition, scope: Scope, usage: HidUsage, mask: Mask)
    requires Triggers(add.trigger, usage, mask)
    requires var i := IndexNamed(groups, add.groupName);
      scope(Edited(if i < |groups| then groups[i] else NewGroup(add), add))
    ensures var i := IndexNamed(groups, add.groupName);
      var earlier := if i < |groups| then groups[i].mappings[..IndexOf(groups[i].mappings, add.trigger)] else [];
      InGroups(AddedTo(groups, add), scope, usage, mask) ==
      OrElse(InGroups(groups[..i], scope, usage, mask),
             OrElse(InMappings(earlier, usage, mask), Some(Natives([add.output]))))
  {
    var i := IndexNamed(groups, add.groupName);
    if i < |groups| {
      InsertionTakesEffect(groups[i].mappings, add.trigger, [add.output], usage, mask);
      ReplacedGroup(groups, i, Edited(groups[i], add), scope, usage, mask);
    } else {
      var group := Edited(NewGroup(add), add);
      InsertionTakesEffect([], add.trigger, [add.output], usage, mask);
      InGroupsConcat(groups, [group], scope, usage, mask);
      assert groups[..i] == groups && [group][1..] == [];
    }
  }

  // ---------------------------------------------------------------------------
  // Adds that rescope a group
  // ---------------------------------------------------------------------------

  function Without(groups: seq<RuleGroup>, i: nat): (rest: seq<RuleGroup>)
    requires i < |groups|
  {
    groups[..i] + groups[i + 1..]
  }

  lemma RejectedGroupIsGone(groups: seq<RuleGroup>, i: nat, group: RuleGroup, scope: Scope, usage: HidUsage, mask: Mask)
    requires i < |groups| && !scope(group)
    ensures InGroups(groups[i := group], scope, usage, mask) == InGroups(Without(groups, i), scope, usage, mask)
  {
    ReplacedGroup(groups, i, group, scope, usage, mask);
    InGroupsConcat(groups[..i], groups[i + 1..], scope, usage, mask);
  }

  /**
   An add that gives applications to a group that had none removes the whole group, as far as every
   other application is concerned: all its rules, on every key and device.
   */
  lemma RescopingToAppsRemovesTheGroup(config: Config, add: Addition, fold: Fold, registry: Registry,
                                       app: string, usage: HidUsage, mask: Mask, device: Option<string>)
    requires var i := IndexNamed(config.groups, add.groupName);
      i < |config.groups| && config.groups[i].apps == []
    requires OrEmpty(add.apps) != [] && forall other :: other in OrEmpty(add.apps) ==> fold(other) != fold(app)
    ensures var i := IndexNamed(config.groups, add.groupName);
      Meaning(config.(groups := AddedTo(config.groups, add)), fold, registry, app, usage, mask, device) ==
      Meaning(config.(groups := Without(config.groups, i)), fold, registry, app, usage, mask, device)
  {
    var i := IndexNamed(config.groups, add.groupName);
    var edited := Edited(config.groups[i], add);
    RejectedGroupIsGone(config.groups, i, edited, AppScope(fold, app, registry, device), usage, mask);
    RejectedGroupIsGone(config.groups, i, edited, GlobalScope(registry, device), usage, mask);
  }

  /** An add that gives keyboards to a group that had none removes it on every known keyboard they do not match. */
  lemma RescopingToKeyboardsRemovesTheGroup(config: Config, add: Addition, fold: Fold, registry: Registry,
                                            app: string, usage: HidUsage, mask: Mask, device: Option<string>)
    requires var i := IndexNamed(config.groups, add.groupName);
      i < |config.groups| && config.groups[i].keyboards == []
    requires OrEmpty(add.keyboards) != [] && !Allowed(Some(OrEmpty(add.keyboards)), registry, device)
    ensures var i := IndexNamed(config.groups, add.groupName);
      Meaning(config.(groups := AddedTo(config.groups, add)), fold, registry, app, usage, mask, device) ==
      Meaning(config.(groups := Without(config.groups, i)), fold, registry, app, usage, mask, device)
  {
    var i := IndexNamed(config.groups, add.groupName);
    var edited := Edited(config.groups[i], add);
    RejectedGroupIsGone(config.groups, i, edited, AppScope(fold, app, registry, device), usage, mask);
    RejectedGroupIsGone(config.groups, i, edited, GlobalScope(registry, device), usage, mask);
  }

  /** Such an add is not local: the only group of a configuration answered before, and no longer does. */
  lemma RescopingSilencesTheGroup(group: RuleGroup, add: Addition, fold: Fold, registry: Registry,
                                  app: string, usage: HidUsage, mask: Mask, device: Option<string>)
    requires group.name == Some(add.groupName) && group.apps == []
    requires OrEmpty(add.apps) != [] && forall other :: other in OrEmpty(add.apps) ==> fold(other) != fold(app)
    ensures Rescopes([group], add)
    ensures Meaning(Config(None, AddedTo([group], add)), fold, registry, app, usage, mask, device) == None
    ensures Meaning(Config(None, [group]), fold, registry, app, usage, mask, device) ==
            if Allowed(FilterOf(group.keyboards), registry, device) then InMappings(group.mappings, usage, mask) else None
  {
    assert IndexNamed([group], add.groupName) == 0 && Without([group], 0) == [];
    RescopingToAppsRemovesTheGroup(Config(None, [group]), add, fold, registry, app, usage, mask, device);
    assert [group][1..] == [] && !ListsApp(group, fold, fold(app));
    assert InGroups([group], AppScope(fold, app, registry, device), usage, mask) == None;
  }
}
