/** The advisory check of a configuration: sound, complete, and saying everything once. */
module Diagnostics {
  import opened Wrappers
  import opened Hid
  import opened Config

  datatype Diagnostic =
    | NoRuleGroups
    | EmptyGlobalKeyboardSpecifier(index: nat)
    | EmptyGroup(group: string)
    | EmptyGroupKeyboardSpecifier(group: string, index: nat)
    | NoOpMapping(group: string, trigger: KeyEvent)
    | DuplicateTrigger(trigger: KeyEvent, groups: string)
    | CircularPair(first: KeyEvent, second: KeyEvent)

  /** The tables of a configuration are keyed by trigger. */
  ghost predicate WellFormed(config: Config) {
    forall g :: g in config.groups ==> OneEntryPerTrigger(g.mappings)
  }

  // ---------------------------------------------------------------------------
  // The order of key events
  // ---------------------------------------------------------------------------

  predicate LessModifiers(xs: seq<HidUsage>, ys: seq<HidUsage>) {
    if ys == [] then false
    else if xs == [] then true
    else xs[0] < ys[0] || (xs[0] == ys[0] && LessModifiers(xs[1..], ys[1..]))
  }

  predicate Less(a: KeyEvent, b: KeyEvent) {
    LessModifiers(a.modifiers, b.modifiers) || (a.modifiers == b.modifiers && a.base < b.base)
  }

  lemma {:induction false} ModifiersAreOrdered(xs: seq<HidUsage>, ys: seq<HidUsage>)
    ensures xs == ys || LessModifiers(xs, ys) || LessModifiers(ys, xs)
    ensures !(LessModifiers(xs, ys) && LessModifiers(ys, xs))
    ensures xs == ys ==> !LessModifiers(xs, ys)
  {
    if xs != [] && ys != [] {
      ModifiersAreOrdered(xs[1..], ys[1..]);
      assert xs == [xs[0]] + xs[1..] && ys == [ys[0]] + ys[1..];
    }
  }

  lemma {:induction false} ModifiersAreTransitive(xs: seq<HidUsage>, ys: seq<HidUsage>, zs: seq<HidUsage>)
    requires LessModifiers(xs, ys) && LessModifiers(ys, zs)
    ensures LessModifiers(xs, zs)
  {
    if xs != [] && xs[0] == ys[0] == zs[0] {
      ModifiersAreTransitive(xs[1..], ys[1..], zs[1..]);
    }
  }

  /** Key events are strictly and totally ordered. */
  lemma EventsAreTransitive(a: KeyEvent, b: KeyEvent, c: KeyEvent)
    requires Less(a, b) && Less(b, c)
    ensures Less(a, c)
  {
    if LessModifiers(a.modifiers, b.modifiers) && LessModifiers(b.modifiers, c.modifiers) {
      ModifiersAreTransitive(a.modifiers, b.modifiers, c.modifiers);
    }
  }

  lemma EventsAreOrdered(a: KeyEvent, b: KeyEvent)
    ensures a == b || Less(a, b) || Less(b, a)
    ensures !(Less(a, b) && Less(b, a))
    ensures !Less(a, a)
  {
    ModifiersAreOrdered(a.modifiers, b.modifiers);
    ModifiersAreOrdered(a.modifiers, a.modifiers);
  }

  /** The modifiers differ first at k, where those of a are smaller or end. */
  predicate SmallerAt(xs: seq<HidUsage>, ys: seq<HidUsage>, k: nat) {
    k <= |xs| && k < |ys| && xs[..k] == ys[..k] && (k == |xs| || xs[k] < ys[k])
  }

  lemma {:induction false} LessAtFirstDifference(xs: seq<HidUsage>, ys: seq<HidUsage>)
    ensures LessModifiers(xs, ys) <==> exists k: nat :: SmallerAt(xs, ys, k)
  {
    if ys != [] && xs == [] {
      assert SmallerAt(xs, ys, 0);
    } else if ys != [] && xs[0] < ys[0] {
      assert SmallerAt(xs, ys, 0);
    } else if ys != [] {
      LessAtFirstDifference(xs[1..], ys[1..]);
      if k: nat :| SmallerAt(xs[1..], ys[1..], k) && xs[0] == ys[0] {
        assert xs[..k + 1] == [xs[0]] + xs[1..][..k] && ys[..k + 1] == [ys[0]] + ys[1..][..k];
        assert SmallerAt(xs, ys, k + 1);
      }
      if k: nat :| SmallerAt(xs, ys, k) {
        assert k > 0 ==> xs[0] == xs[..k][0] == ys[..k][0] == ys[0];
        assert k > 0 ==> xs[1..][..k - 1] == xs[..k][1..] && ys[1..][..k - 1] == ys[..k][1..];
        assert k > 0 ==> SmallerAt(xs[1..], ys[1..], k - 1);
      }
    }
  }

  /** Events are ordered by their modifiers as words over the usages, then by their bases. */
  lemma OrderIsLexicographic(a: KeyEvent, b: KeyEvent)
    ensures Less(a, b) <==>
            (exists k: nat :: SmallerAt(a.modifiers, b.modifiers, k)) || (a.modifiers == b.modifiers && a.base < b.base)
  {
    LessAtFirstDifference(a.modifiers, b.modifiers);
  }

  // ---------------------------------------------------------------------------
  // Findings of single groups
  // ---------------------------------------------------------------------------

  predicate IsEmptySpecifier(spec: KeyboardSpecifier) {
    spec.name.None? && spec.vendor.None? && spec.model.None? && spec.port.None?
  }

  /** The decimal digits of a number. */
  function Digits(n: nat): (s: string) {
    if n < 10 then [('0' as int + n) as char] else Digits(n / 10) + [('0' as int + n % 10) as char]
  }

  function Label(group: RuleGroup, index: nat): (s: string) {
    if group.name.Some? then group.name.value else "group " + Digits(index + 1)
  }

  /** The finding of an empty specifier, global or of a group. */
  function EmptySpecifierAt(group: Option<string>, index: nat): (finding: Diagnostic) {
    match group
    case None => EmptyGlobalKeyboardSpecifier(index)
    case Some(name) => EmptyGroupKeyboardSpecifier(name, index)
  }

  function EmptySpecifiers(specs: seq<KeyboardSpecifier>, group: Option<string>): (findings: seq<Diagnostic>) {
    if specs == [] then []
    else
      var n := |specs| - 1;
      EmptySpecifiers(specs[..n], group) + if IsEmptySpecifier(specs[n]) then [EmptySpecifierAt(group, n)] else []
  }

  function NoOps(mappings: MappingTable, name: string): (findings: seq<Diagnostic>) {
    if mappings == [] then []
    else
      var n := |mappings| - 1;
      NoOps(mappings[..n], name) +
      if mappings[n].outputs == [mappings[n].trigger] then [NoOpMapping(name, mappings[n].trigger)] else []
  }

  function GroupFindings(group: RuleGroup, index: nat): (findings: seq<Diagnostic>) {
    var name := Label(group, index);
    (if group.mappings == [] then [EmptyGroup(name)] else []) +
    EmptySpecifiers(group.keyboards, Some(name)) +
    NoOps(group.mappings, name)
  }

  function AllGroupFindings(groups: seq<RuleGroup>): (findings: seq<Diagnostic>) {
    if groups == [] then []
    else
      var n := |groups| - 1;
      AllGroupFindings(groups[..n]) + GroupFindings(groups[n], n)
  }

  method FindEmptySpecifiers(specs: seq<KeyboardSpecifier>, group: Option<string>) returns (findings: seq<Diagnostic>)
    ensures findings == EmptySpecifiers(specs, group)
  {
    findings := [];
    for i := 0 to |specs|
      invariant findings == EmptySpecifiers(specs[..i], group)
    {
      assert specs[..i + 1][..i] == specs[..i];
      if IsEmptySpecifier(specs[i]) {
        findings := findings + [EmptySpecifierAt(group, i)];
      }
    }
    assert specs[..|specs|] == specs;
  }

  // ---------------------------------------------------------------------------
  // Which findings of single groups there are
  // ---------------------------------------------------------------------------

  function DigitValue(c: char): (n: int) {
    c as int - '0' as int
  }

  function ValueOf(digits: string): (n: int) {
    if digits == "" then 0 else 10 * ValueOf(digits[..|digits| - 1]) + DigitValue(digits[|digits| - 1])
  }

  /** A number is written in decimal digits without a leading zero. */
  lemma {:induction false} DigitsWriteTheNumber(n: nat)
    ensures var digits := Digits(n);
      && digits != "" && ValueOf(digits) == n
      && (forall i :: 0 <= i < |digits| ==> '0' <= digits[i] <= '9')
      && (n > 0 ==> digits[0] != '0')
  {
    if n >= 10 {
      DigitsWriteTheNumber(n / 10);
    }
    var digits := Digits(n);
    assert digits[..|digits| - 1] == if n < 10 then "" else Digits(n / 10);
  }

  /** A group goes by its name, or by its position counted from one. */
  lemma LabelIsNameOrPosition(group: RuleGroup, index: nat)
    ensures group.name.Some? ==> Label(group, index) == group.name.value
    ensures group.name.None? ==>
              && |Label(group, index)| > 6 && Label(group, index)[..6] == "group "
              && ValueOf(Label(group, index)[6..]) == index + 1
  {
    if group.name.None? {
      DigitsWriteTheNumber(index + 1);
      assert Label(group, index)[6..] == Digits(index + 1);
    }
  }

  predicate Blank(spec: KeyboardSpecifier) {
    spec == KeyboardSpecifier(None, None, None, None)
  }

  lemma {:induction false} SpecifierFindingsAreExact(specs: seq<KeyboardSpecifier>, group: Option<string>, d: Diagnostic)
    ensures d in EmptySpecifiers(specs, group) <==>
            exists i :: 0 <= i < |specs| && Blank(specs[i]) &&
              d == match group case Some(name) => EmptyGroupKeyboardSpecifier(name, i) case None => EmptyGlobalKeyboardSpecifier(i)
  {
    if specs != [] {
      var n := |specs| - 1;
      SpecifierFindingsAreExact(specs[..n], group, d);
      forall i | 0 <= i < n ensures specs[..n][i] == specs[i] {}
      assert IsEmptySpecifier(specs[n]) <==> Blank(specs[n]);
    }
  }

  lemma {:induction false} NoOpFindingsAreExact(mappings: MappingTable, name: string, d: Diagnostic)
    ensures d in NoOps(mappings, name) <==>
            exists i :: 0 <= i < |mappings| && mappings[i].outputs == [mappings[i].trigger] && d == NoOpMapping(name, mappings[i].trigger)
  {
    if mappings != [] {
      var n := |mappings| - 1;
      NoOpFindingsAreExact(mappings[..n], name, d);
      forall i | 0 <= i < n ensures mappings[..n][i] == mappings[i] {}
    }
  }

  /** What can be found in one group. */
  ghost predicate FoundInGroup(group: RuleGroup, name: string, d: Diagnostic) {
    || (group.mappings == [] && d == EmptyGroup(name))
    || (exists i :: 0 <= i < |group.keyboards| && Blank(group.keyboards[i]) && d == EmptyGroupKeyboardSpecifier(name, i))
    || (exists i :: 0 <= i < |group.mappings| && group.mappings[i].outputs == [group.mappings[i].trigger]
                    && d == NoOpMapping(name, group.mappings[i].trigger))
  }

  lemma GroupFindingsAreExact(group: RuleGroup, index: nat, d: Diagnostic)
    ensures d in GroupFindings(group, index) <==> FoundInGroup(group, Label(group, index), d)
  {
    SpecifierFindingsAreExact(group.keyboards, Some(Label(group, index)), d);
    NoOpFindingsAreExact(group.mappings, Label(group, index), d);
  }

  /** What can be found in one of the first n groups. */
  ghost predicate FoundUpTo(groups: seq<RuleGroup>, n: nat, d: Diagnostic)
    requires n <= |groups|
  {
    exists g :: 0 <= g < n && FoundInGroup(groups[g], Label(groups[g], g), d)
  }

  lemma {:induction false} AllGroupFindingsAreExact(groups: seq<RuleGroup>, n: nat, d: Diagnostic)
    requires n <= |groups|
    ensures d in AllGroupFindings(groups[..n]) <==> FoundUpTo(groups, n, d)
  {
    if n > 0 {
      AllGroupFindingsAreExact(groups, n - 1, d);
      GroupFindingsAreExact(groups[n - 1], n - 1, d);
      assert groups[..n][..n - 1] == groups[..n - 1];
      assert AllGroupFindings(groups[..n]) == AllGroupFindings(groups[..n - 1]) + GroupFindings(groups[n - 1], n - 1);
      OneMoreFound(groups, n, d);
    }
  }

  lemma OneMoreFound(groups: seq<RuleGroup>, n: nat, d: Diagnostic)
    requires 0 < n <= |groups|
    ensures FoundUpTo(groups, n, d) <==>
            FoundUpTo(groups, n - 1, d) || FoundInGroup(groups[n - 1], Label(groups[n - 1], n - 1), d)
  {}

  /** The findings before groups are compared: each is reported exactly where its cause is. */
  lemma LocalFindingsAreExact(config: Config, d: Diagnostic)
    ensures d in LocalFindings(config) <==>
            || (config.groups == [] && d == NoRuleGroups)
            || (config.keyboards.Some? && exists i :: 0 <= i < |config.keyboards.value| && Blank(config.keyboards.value[i])
                                                       && d == EmptyGlobalKeyboardSpecifier(i))
            || FoundUpTo(config.groups, |config.groups|, d)
  {
    AllGroupFindingsAreExact(config.groups, |config.groups|, d);
    assert config.groups[..|config.groups|] == config.groups;
    if config.keyboards.Some? {
      SpecifierFindingsAreExact(config.keyboards.value, None, d);
    }
  }

  // ---------------------------------------------------------------------------
  // Triggers in several groups
  // ---------------------------------------------------------------------------

  predicate HasTrigger(mappings: MappingTable, trigger: KeyEvent) {
    exists i :: 0 <= i < |mappings| && mappings[i].trigger == trigger
  }

  /** The labels of the groups that have a trigger, in order. */
  function LabelsWith(groups: seq<RuleGroup>, trigger: KeyEvent): (r: seq<string>) {
    if groups == [] then []
    else
      var n := |groups| - 1;
      var before := LabelsWith(groups[..n], trigger);
      if HasTrigger(groups[n].mappings, trigger) then before + [Label(groups[n], n)] else before
  }

  function JoinLabels(labels: seq<string>): (s: string) {
    if labels == [] then "" else if |labels| == 1 then labels[0] else labels[0] + ", " + JoinLabels(labels[1..])
  }

  /** Labels are joined in order with a comma and a space between any two. */
  lemma {:induction false} JoinedWithCommas(labels: seq<string>, last: string)
    ensures JoinLabels(labels + [last]) == if labels == [] then last else JoinLabels(labels) + ", " + last
  {
    if labels != [] {
      JoinedWithCommas(labels[1..], last);
      assert (labels + [last])[1..] == labels[1..] + [last];
      if |labels| > 1 {
        assert labels[0] + ", " + (JoinLabels(labels[1..]) + ", " + last) == (labels[0] + ", " + JoinLabels(labels[1..])) + ", " + last;
      }
    }
  }

  /** The places below n where something is, in increasing order. */
  ghost predicate Enumerates(places: seq<nat>, n: nat, there: nat -> bool) {
    && (forall i :: 0 <= i < |places| ==> places[i] < n && there(places[i]))
    && (forall i, j :: 0 <= i < j < |places| ==> places[i] < places[j])
    && (forall g: nat :: g < n && there(g) ==> g in places)
  }

  lemma EnumeratesOneMore(places: seq<nat>, n: nat, there: nat -> bool)
    requires Enumerates(places, n, there)
    ensures Enumerates(if there(n) then places + [n] else places, n + 1, there)
  {}

  /** The labels of the groups at some places, in order. */
  ghost predicate LabelsAt(groups: seq<RuleGroup>, places: seq<nat>, labels: seq<string>) {
    && |labels| == |places|
    && forall i :: 0 <= i < |places| ==> places[i] < |groups| && labels[i] == Label(groups[places[i]], places[i])
  }

  function HasTriggerAt(groups: seq<RuleGroup>, trigger: KeyEvent): (there: nat -> bool) {
    (g: nat) => g < |groups| && HasTrigger(groups[g].mappings, trigger)
  }

  lemma LabelsWithOneMore(groups: seq<RuleGroup>, n: nat, trigger: KeyEvent)
    requires n < |groups|
    ensures LabelsWith(groups[..n + 1], trigger) ==
            LabelsWith(groups[..n], trigger) + if HasTriggerAt(groups, trigger)(n) then [Label(groups[n], n)] else []
  {
    assert groups[..n + 1][..n] == groups[..n];
  }

  /** The places of a trigger below n, and the labels of its groups there. */
  ghost predicate InOrder(groups: seq<RuleGroup>, n: nat, there: nat -> bool, places: seq<nat>, labels: seq<string>) {
    Enumerates(places, n, there) && LabelsAt(groups, places, labels)
  }

  lemma InOrderOneMore(groups: seq<RuleGroup>, n: nat, there: nat -> bool, places: seq<nat>, labels: seq<string>)
    requires n < |groups| && InOrder(groups, n, there, places, labels)
    ensures if there(n) then InOrder(groups, n + 1, there, places + [n], labels + [Label(groups[n], n)])
            else InOrder(groups, n + 1, there, places, labels)
  {
    EnumeratesOneMore(places, n, there);
  }

  lemma {:induction false} LabelsInOrderUpTo(groups: seq<RuleGroup>, n: nat, trigger: KeyEvent) returns (places: seq<nat>)
    requires n <= |groups|
    ensures InOrder(groups, n, HasTriggerAt(groups, trigger), places, LabelsWith(groups[..n], trigger))
  {
    if n == 0 {
      places := [];
    } else {
      places := LabelsInOrderUpTo(groups, n - 1, trigger);
      InOrderOneMore(groups, n - 1, HasTriggerAt(groups, trigger), places, LabelsWith(groups[..n - 1], trigger));
      LabelsWithOneMore(groups, n - 1, trigger);
      if HasTriggerAt(groups, trigger)(n - 1) {
        places := places + [n - 1];
      }
    }
  }

  /** The labels of a trigger are those of exactly the groups that have it, in the order of the groups. */
  lemma LabelsInOrder(groups: seq<RuleGroup>, trigger: KeyEvent) returns (places: seq<nat>)
    ensures InOrder(groups, |groups|, HasTriggerAt(groups, trigger), places, LabelsWith(groups, trigger))
  {
    places := LabelsInOrderUpTo(groups, |groups|, trigger);
    assert groups[..|groups|] == groups;
  }

  ghost predicate InTwoGroups(groups: seq<RuleGroup>, trigger: KeyEvent) {
    exists i, j :: 0 <= i < j < |groups| && HasTrigger(groups[i].mappings, trigger) && HasTrigger(groups[j].mappings, trigger)
  }

  lemma {:induction false} LabelsCountGroups(groups: seq<RuleGroup>, trigger: KeyEvent)
    ensures |LabelsWith(groups, trigger)| >= 1 <==> exists i :: 0 <= i < |groups| && HasTrigger(groups[i].mappings, trigger)
    ensures |LabelsWith(groups, trigger)| > 1 <==> InTwoGroups(groups, trigger)
  {
    if groups != [] {
      var n := |groups| - 1;
      var init := groups[..n];
      LabelsCountGroups(init, trigger);
      forall i | 0 <= i < n ensures init[i] == groups[i] {}
      if i :| 0 <= i < n && HasTrigger(init[i].mappings, trigger) {
        assert HasTrigger(groups[i].mappings, trigger);
      }
    }
  }

  /** Triggers with the labels of their groups, in the order the triggers were first seen. */
  datatype SeenTriggers = SeenTriggers(order: seq<KeyEvent>, labels: map<KeyEvent, seq<string>>)

  function Adding<T(==)>(xs: seq<T>, x: T): (longer: seq<T>) {
    if x in xs then xs else xs + [x]
  }

  function FirstSeenIn(order: seq<KeyEvent>, mappings: MappingTable): (longer: seq<KeyEvent>) {
    if mappings == [] then order
    else Adding(FirstSeenIn(order, mappings[..|mappings| - 1]), mappings[|mappings| - 1].trigger)
  }

  /** The triggers of all groups in the order in which they are first seen. */
  function FirstSeen(groups: seq<RuleGroup>): (order: seq<KeyEvent>) {
    if groups == [] then []
    else FirstSeenIn(FirstSeen(groups[..|groups| - 1]), groups[|groups| - 1].mappings)
  }

  ghost predicate Distinct<T>(xs: seq<T>) {
    forall i, j :: 0 <= i < j < |xs| ==> xs[i] != xs[j]
  }

  /** The labels of a trigger in whole groups and in the first mappings of a further group. */
  function LabelsSoFar(groups: seq<RuleGroup>, mappings: MappingTable, name: string, trigger: KeyEvent): (r: seq<string>) {
    if HasTrigger(mappings, trigger) then LabelsWith(groups, trigger) + [name] else LabelsWith(groups, trigger)
  }

  ghost predicate LabelsCollected(labels: map<KeyEvent, seq<string>>, groups: seq<RuleGroup>, mappings: MappingTable, name: string) {
    && (forall t :: t in labels <==> LabelsSoFar(groups, mappings, name, t) != [])
    && (forall t :: t in labels ==> labels[t] == LabelsSoFar(groups, mappings, name, t))
  }

  ghost predicate Collected(seen: SeenTriggers, groups: seq<RuleGroup>, mappings: MappingTable, name: string) {
    && seen.order == FirstSeenIn(FirstSeen(groups), mappings)
    && (forall t :: t in seen.order <==> t in seen.labels)
    && LabelsCollected(seen.labels, groups, mappings, name)
  }

  method Note(seen: SeenTriggers, trigger: KeyEvent, name: string) returns (after: SeenTriggers)
    ensures after.labels == seen.labels[trigger := (if trigger in seen.labels then seen.labels[trigger] else []) + [name]]
    ensures after.order == if trigger in seen.labels then seen.order else seen.order + [trigger]
  {
    if trigger in seen.labels {
      after := seen.(labels := seen.labels[trigger := seen.labels[trigger] + [name]]);
    } else {
      assert [] + [name] == [name];
      after := SeenTriggers(seen.order + [trigger], seen.labels[trigger := [name]]);
    }
  }

  lemma NameIsUnused(groups: seq<RuleGroup>, seen: SeenTriggers, name: string)
    requires Collected(seen, groups, [], "")
    ensures Collected(seen, groups, [], name)
  {}

  method NoteNext(ghost groups: seq<RuleGroup>, mappings: MappingTable, m: nat, name: string, seen: SeenTriggers)
      returns (after: SeenTriggers)
    requires m < |mappings| && OneEntryPerTrigger(mappings)
    requires Collected(seen, groups, mappings[..m], name)
    ensures Collected(after, groups, mappings[..m + 1], name)
  {
    after := Note(seen, mappings[m].trigger, name);
    NotingCollects(groups, mappings, m, name, seen, after);
  }

  lemma NoOpsSnoc(mappings: MappingTable, m: nat, name: string)
    requires m < |mappings|
    ensures NoOps(mappings[..m + 1], name) ==
            NoOps(mappings[..m], name) +
            if |mappings[m].outputs| == 1 && mappings[m].outputs[0] == mappings[m].trigger
            then [NoOpMapping(name, mappings[m].trigger)] else []
  {
    assert mappings[..m + 1][..m] == mappings[..m];
  }

  /** Note the triggers of a group's mappings, and find those that map to themselves. */
  method CheckMappings(ghost groups: seq<RuleGroup>, mappings: MappingTable, name: string, seen: SeenTriggers)
      returns (noOps: seq<Diagnostic>, after: SeenTriggers)
    requires OneEntryPerTrigger(mappings)
    requires Collected(seen, groups, [], "")
    ensures noOps == NoOps(mappings, name)
    ensures Collected(after, groups, mappings, name)
  {
    NameIsUnused(groups, seen, name);
    noOps, after := [], seen;
    for m := 0 to |mappings|
      invariant noOps == NoOps(mappings[..m], name)
      invariant Collected(after, groups, mappings[..m], name)
    {
      after := NoteNext(groups, mappings, m, name, after);
      NoOpsSnoc(mappings, m, name);
      if |mappings[m].outputs| == 1 && mappings[m].outputs[0] == mappings[m].trigger {
        noOps := noOps + [NoOpMapping(name, mappings[m].trigger)];
      }
    }
    assert mappings[..|mappings|] == mappings;
  }

  /** Check one group and note its triggers. */
  method CheckGroup(groups: seq<RuleGroup>, g: nat, seen: SeenTriggers) returns (findings: seq<Diagnostic>, after: SeenTriggers)
    requires g < |groups| && OneEntryPerTrigger(groups[g].mappings)
    requires Collected(seen, groups[..g], [], "")
    ensures findings == GroupFindings(groups[g], g)
    ensures Collected(after, groups[..g], groups[g].mappings, Label(groups[g], g))
  {
    var group := groups[g];
    var name := Label(group, g);
    findings := if group.mappings == [] then [EmptyGroup(name)] else [];
    var empties := FindEmptySpecifiers(group.keyboards, Some(name));
    var noOps: seq<Diagnostic>;
    noOps, after := CheckMappings(groups[..g], group.mappings, name, seen);
    findings := findings + empties + noOps;
  }

  lemma GroupClosed(groups: seq<RuleGroup>, g: nat, seen: SeenTriggers)
    requires g < |groups|
    requires Collected(seen, groups[..g], groups[g].mappings, Label(groups[g], g))
    ensures Collected(seen, groups[..g + 1], [], "")
  {
    forall t ensures LabelsSoFar(groups[..g + 1], [], "", t) == LabelsSoFar(groups[..g], groups[g].mappings, Label(groups[g], g), t) {
      assert groups[..g + 1][..g] == groups[..g];
    }
    assert groups[..g + 1][..g] == groups[..g];
  }

  method CheckGroups(groups: seq<RuleGroup>) returns (findings: seq<Diagnostic>, seen: SeenTriggers)
    requires forall g :: g in groups ==> OneEntryPerTrigger(g.mappings)
    ensures findings == AllGroupFindings(groups)
    ensures Collected(seen, groups, [], "")
  {
    findings, seen := [], SeenTriggers([], map[]);
    for g := 0 to |groups|
      invariant findings == AllGroupFindings(groups[..g])
      invariant Collected(seen, groups[..g], [], "")
    {
      assert groups[..g + 1][..g] == groups[..g];
      var own: seq<Diagnostic>;
      own, seen := CheckGroup(groups, g, seen);
      findings := findings + own;
      GroupClosed(groups, g, seen);
    }
    assert groups[..|groups|] == groups;
  }

  lemma NotingCollects(groups: seq<RuleGroup>, mappings: MappingTable, m: nat, name: string, before: SeenTriggers, after: SeenTriggers)
    requires m < |mappings| && OneEntryPerTrigger(mappings)
    requires Collected(before, groups, mappings[..m], name)
    requires var trigger := mappings[m].trigger;
      && after.labels == before.labels[trigger := (if trigger in before.labels then before.labels[trigger] else []) + [name]]
      && after.order == if trigger in before.labels then before.order else before.order + [trigger]
    ensures Collected(after, groups, mappings[..m + 1], name)
  {
    assert mappings[..m + 1][..m] == mappings[..m];
    NotingCollectsLabels(groups, mappings, m, name, before.labels, after.labels);
  }

  lemma NotingCollectsLabels(groups: seq<RuleGroup>, mappings: MappingTable, m: nat, name: string,
                             before: map<KeyEvent, seq<string>>, after: map<KeyEvent, seq<string>>)
    requires m < |mappings| && OneEntryPerTrigger(mappings)
    requires LabelsCollected(before, groups, mappings[..m], name)
    requires var trigger := mappings[m].trigger;
      after == before[trigger := (if trigger in before then before[trigger] else []) + [name]]
    ensures LabelsCollected(after, groups, mappings[..m + 1], name)
  {
    forall t
      ensures t in after <==> LabelsSoFar(groups, mappings[..m + 1], name, t) != []
      ensures t in after ==> after[t] == LabelsSoFar(groups, mappings[..m + 1], name, t)
    {
      LabelsSnoc(groups, mappings, m, name, t);
    }
  }

  lemma LabelsSnoc(groups: seq<RuleGroup>, mappings: MappingTable, m: nat, name: string, trigger: KeyEvent)
    requires m < |mappings| && OneEntryPerTrigger(mappings)
    ensures var labels := LabelsSoFar(groups, mappings[..m], name, trigger);
      LabelsSoFar(groups, mappings[..m + 1], name, trigger) == if trigger == mappings[m].trigger then labels + [name] else labels
  {}

  // ---------------------------------------------------------------------------
  // Swaps
  // ---------------------------------------------------------------------------

  /** The group has a rule from a to the single output b. */
  ghost predicate Maps(mappings: MappingTable, a: KeyEvent, b: KeyEvent) {
    exists i :: 0 <= i < |mappings| && mappings[i] == Mapping(a, [b])
  }

  ghost predicate Swaps(mappings: MappingTable, a: KeyEvent, b: KeyEvent) {
    a != b && Maps(mappings, a, b) && Maps(mappings, b, a)
  }

  ghost predicate SwapsSomewhere(groups: seq<RuleGroup>, a: KeyEvent, b: KeyEvent) {
    exists g :: 0 <= g < |groups| && Swaps(groups[g].mappings, a, b)
  }

  datatype Pair = Pair(first: KeyEvent, second: KeyEvent)

  method SingleRules(mappings: MappingTable) returns (singles: map<KeyEvent, KeyEvent>)
    requires OneEntryPerTrigger(mappings)
    ensures forall a, b :: (a in singles && singles[a] == b) <==> Maps(mappings, a, b)
  {
    singles := map[];
    for i := 0 to |mappings|
      invariant forall a, b :: (a in singles && singles[a] == b) <==> Maps(mappings[..i], a, b)
    {
      var trigger, outputs := mappings[i].trigger, mappings[i].outputs;
      forall a, b ensures Maps(mappings[..i + 1], a, b) <==> Maps(mappings[..i], a, b) || mappings[i] == Mapping(a, [b]) {
        MapsSnoc(mappings, i, a, b);
      }
      assert forall b :: !Maps(mappings[..i], trigger, b);
      if |outputs| == 1 {
        assert outputs == [outputs[0]];
        singles := singles[trigger := outputs[0]];
      }
    }
    assert mappings[..|mappings|] == mappings;
  }

  lemma MapsSnoc(mappings: MappingTable, i: nat, a: KeyEvent, b: KeyEvent)
    requires i < |mappings|
    ensures Maps(mappings[..i + 1], a, b) <==> Maps(mappings[..i], a, b) || mappings[i] == Mapping(a, [b])
  {}

  function Ordered(a: KeyEvent, b: KeyEvent): (r: Pair) {
    if Less(a, b) then Pair(a, b) else Pair(b, a)
  }

  /** The pair of the i-th mapping, if it is one half of a swap. */
  ghost function SwapOf(mappings: MappingTable, i: nat): (pair: Option<Pair>)
    requires i < |mappings|
  {
    var Mapping(trigger, outputs) := mappings[i];
    if |outputs| == 1 && Swaps(mappings, trigger, outputs[0]) then Some(Ordered(trigger, outputs[0])) else None
  }

  /** The pairs with the new ones of the first n mappings. */
  ghost function SwapsUpTo(pairs: seq<Pair>, mappings: MappingTable, n: nat): (longer: seq<Pair>)
    requires n <= |mappings|
  {
    if n == 0 then pairs
    else
      var before := SwapsUpTo(pairs, mappings, n - 1);
      match SwapOf(mappings, n - 1)
      case Some(pair) => Adding(before, pair)
      case None => before
  }

  /** The swapped pairs of all groups in the order in which they are first seen. */
  ghost function SwapsIn(groups: seq<RuleGroup>): (pairs: seq<Pair>) {
    if groups == [] then []
    else
      var mappings := groups[|groups| - 1].mappings;
      SwapsUpTo(SwapsIn(groups[..|groups| - 1]), mappings, |mappings|)
  }

  method FindSwaps(groups: seq<RuleGroup>) returns (pairs: seq<Pair>)
    requires forall g :: g in groups ==> OneEntryPerTrigger(g.mappings)
    ensures pairs == SwapsIn(groups)
  {
    pairs := [];
    for g := 0 to |groups|
      invariant pairs == SwapsIn(groups[..g])
    {
      assert groups[..g + 1][..g] == groups[..g];
      var mappings := groups[g].mappings;
      var singles := SingleRules(mappings);
      ghost var before := pairs;
      for i := 0 to |mappings|
        invariant pairs == SwapsUpTo(before, mappings, i)
      {
        var trigger := mappings[i].trigger;
        SwapsAreInSingles(mappings, singles, i);
        if trigger in singles && singles[trigger] != trigger
           && singles[trigger] in singles && singles[singles[trigger]] == trigger
        {
          var pair := Ordered(trigger, singles[trigger]);
          if pair !in pairs {
            pairs := pairs + [pair];
          }
        }
      }
    }
    assert groups[..|groups|] == groups;
  }

  lemma SwapsAreInSingles(mappings: MappingTable, singles: map<KeyEvent, KeyEvent>, i: nat)
    requires i < |mappings| && OneEntryPerTrigger(mappings)
    requires forall a, b :: (a in singles && singles[a] == b) <==> Maps(mappings, a, b)
    ensures var t := mappings[i].trigger;
      SwapOf(mappings, i) ==
      if t in singles && singles[t] != t && singles[t] in singles && singles[singles[t]] == t then Some(Ordered(t, singles[t]))
      else None
  {
    var Mapping(t, outputs) := mappings[i];
    if |outputs| == 1 {
      assert mappings[i] == Mapping(t, [outputs[0]]);
      assert Maps(mappings, t, outputs[0]);
    }
    if t in singles {
      assert Maps(mappings, t, singles[t]);
      var j :| 0 <= j < |mappings| && mappings[j] == Mapping(t, [singles[t]]);
      assert j == i;
    }
  }

  lemma {:induction false} SwapsUpToAdds(pairs: seq<Pair>, mappings: MappingTable, n: nat, p: Pair)
    requires n <= |mappings| && Distinct(pairs)
    ensures Distinct(SwapsUpTo(pairs, mappings, n))
    ensures p in SwapsUpTo(pairs, mappings, n) <==> p in pairs || exists i :: 0 <= i < n && SwapOf(mappings, i) == Some(p)
  {
    if n > 0 {
      SwapsUpToAdds(pairs, mappings, n - 1, p);
    }
  }

  lemma SwapsAreFound(mappings: MappingTable, a: KeyEvent, b: KeyEvent)
    ensures (exists i :: 0 <= i < |mappings| && SwapOf(mappings, i) == Some(Pair(a, b))) <==> Less(a, b) && Swaps(mappings, a, b)
  {
    EventsAreOrdered(a, b);
    if Less(a, b) && Swaps(mappings, a, b) {
      var i :| 0 <= i < |mappings| && mappings[i] == Mapping(a, [b]);
      assert SwapOf(mappings, i) == Some(Pair(a, b));
    }
    if i :| 0 <= i < |mappings| && SwapOf(mappings, i) == Some(Pair(a, b)) {
      EventsAreOrdered(mappings[i].trigger, mappings[i].outputs[0]);
    }
  }

  lemma SwapsSnoc(groups: seq<RuleGroup>, g: nat, a: KeyEvent, b: KeyEvent)
    requires g < |groups|
    ensures SwapsSomewhere(groups[..g + 1], a, b) <==> SwapsSomewhere(groups[..g], a, b) || Swaps(groups[g].mappings, a, b)
  {}

  /** The pairs are exactly the swaps inside some group, smaller trigger first, none twice. */
  lemma {:induction false} SwapsInAreTheSwaps(groups: seq<RuleGroup>, a: KeyEvent, b: KeyEvent)
    ensures Distinct(SwapsIn(groups))
    ensures Pair(a, b) in SwapsIn(groups) <==> Less(a, b) && SwapsSomewhere(groups, a, b)
  {
    if groups != [] {
      var n := |groups| - 1;
      var mappings := groups[n].mappings;
      SwapsInAreTheSwaps(groups[..n], a, b);
      SwapsUpToAdds(SwapsIn(groups[..n]), mappings, |mappings|, Pair(a, b));
      SwapsAreFound(mappings, a, b);
      SwapsSnoc(groups, n, a, b);
      assert groups[..n + 1] == groups;
    }
  }

  // ---------------------------------------------------------------------------
  // The whole check
  // ---------------------------------------------------------------------------

  function DuplicatesOf(order: seq<KeyEvent>, groups: seq<RuleGroup>): (findings: seq<Diagnostic>) {
    if order == [] then []
    else
      var n := |order| - 1;
      var labels := LabelsWith(groups, order[n]);
      DuplicatesOf(order[..n], groups) + if |labels| > 1 then [DuplicateTrigger(order[n], JoinLabels(labels))] else []
  }

  function CircularPairs(pairs: seq<Pair>): (findings: seq<Diagnostic>)
    ensures |findings| == |pairs|
  {
    seq(|pairs|, i requires 0 <= i < |pairs| => CircularPair(pairs[i].first, pairs[i].second))
  }

  /** What the check finds before it compares groups. */
  function LocalFindings(config: Config): (findings: seq<Diagnostic>) {
    (if config.groups == [] then [NoRuleGroups] else []) +
    (if config.keyboards.Some? then EmptySpecifiers(config.keyboards.value, None) else []) +
    AllGroupFindings(config.groups)
  }

  method FindDuplicates(groups: seq<RuleGroup>, seen: SeenTriggers) returns (duplicates: seq<Diagnostic>)
    requires Collected(seen, groups, [], "")
    ensures duplicates == DuplicatesOf(seen.order, groups)
  {
    duplicates := [];
    for i := 0 to |seen.order|
      invariant duplicates == DuplicatesOf(seen.order[..i], groups)
    {
      var trigger := seen.order[i];
      assert seen.order[..i + 1][..i] == seen.order[..i];
      assert trigger in seen.order;
      if |seen.labels[trigger]| > 1 {
        duplicates := duplicates + [DuplicateTrigger(trigger, JoinLabels(seen.labels[trigger]))];
      }
    }
    assert seen.order[..|seen.order|] == seen.order;
  }

  /** Everything a check reports, in order. */
  ghost function ReportOf(config: Config): (diagnostics: seq<Diagnostic>) {
    LocalFindings(config) + DuplicatesOf(FirstSeen(config.groups), config.groups) + CircularPairs(SwapsIn(config.groups))
  }

  method Check(config: Config) returns (diagnostics: seq<Diagnostic>)
    requires WellFormed(config)
    ensures diagnostics == ReportOf(config)
  {
    diagnostics := if config.groups == [] then [NoRuleGroups] else [];
    if config.keyboards.Some? {
      var empties := FindEmptySpecifiers(config.keyboards.value, None);
      diagnostics := diagnostics + empties;
    }
    var findings, seen := CheckGroups(config.groups);
    diagnostics := diagnostics + findings;
    var duplicates := FindDuplicates(config.groups, seen);
    var pairs := FindSwaps(config.groups);
    diagnostics := diagnostics + duplicates + CircularPairs(pairs);
  }

  lemma LastHasTrigger(mappings: MappingTable, trigger: KeyEvent)
    requires mappings != []
    ensures HasTrigger(mappings, trigger) <==>
            HasTrigger(mappings[..|mappings| - 1], trigger) || mappings[|mappings| - 1].trigger == trigger
  {
    var n := |mappings| - 1;
    forall i | 0 <= i < n ensures mappings[..n][i] == mappings[i] {}
    if i :| 0 <= i < n && mappings[..n][i].trigger == trigger {
      assert mappings[i].trigger == trigger;
    }
  }

  lemma {:induction false} FirstSeenInAdds(order: seq<KeyEvent>, mappings: MappingTable, trigger: KeyEvent)
    requires Distinct(order)
    ensures Distinct(FirstSeenIn(order, mappings))
    ensures trigger in FirstSeenIn(order, mappings) <==> trigger in order || HasTrigger(mappings, trigger)
  {
    if mappings != [] {
      FirstSeenInAdds(order, mappings[..|mappings| - 1], trigger);
      LastHasTrigger(mappings, trigger);
    }
  }

  lemma {:induction false} FirstSeenAreTheTriggers(groups: seq<RuleGroup>, trigger: KeyEvent)
    ensures Distinct(FirstSeen(groups))
    ensures trigger in FirstSeen(groups) <==> LabelsWith(groups, trigger) != []
  {
    if groups != [] {
      var n := |groups| - 1;
      FirstSeenAreTheTriggers(groups[..n], trigger);
      FirstSeenInAdds(FirstSeen(groups[..n]), groups[n].mappings, trigger);
    }
  }

  predicate Compares(d: Diagnostic) {
    d.DuplicateTrigger? || d.CircularPair?
  }

  lemma {:induction false} SpecifierFindings(specs: seq<KeyboardSpecifier>, group: Option<string>, d: Diagnostic)
    requires Compares(d)
    ensures d !in EmptySpecifiers(specs, group)
  {
    if specs != [] {
      SpecifierFindings(specs[..|specs| - 1], group, d);
    }
  }

  lemma {:induction false} NoOpFindings(mappings: MappingTable, name: string, d: Diagnostic)
    requires Compares(d)
    ensures d !in NoOps(mappings, name)
  {
    if mappings != [] {
      NoOpFindings(mappings[..|mappings| - 1], name, d);
    }
  }

  lemma {:induction false} GroupFindingsAreLocal(groups: seq<RuleGroup>, d: Diagnostic)
    requires Compares(d)
    ensures d !in AllGroupFindings(groups)
  {
    if groups != [] {
      var n := |groups| - 1;
      var name := Label(groups[n], n);
      GroupFindingsAreLocal(groups[..n], d);
      SpecifierFindings(groups[n].keyboards, Some(name), d);
      NoOpFindings(groups[n].mappings, name, d);
    }
  }

  lemma LocalFindingsAreLocal(config: Config, d: Diagnostic)
    requires Compares(d)
    ensures d !in LocalFindings(config)
  {
    if config.keyboards.Some? {
      SpecifierFindings(config.keyboards.value, None, d);
    }
    GroupFindingsAreLocal(config.groups, d);
  }

  // ---------------------------------------------------------------------------
  // Soundness, completeness, and no repetition
  // ---------------------------------------------------------------------------

  function Occurrences(diagnostics: seq<Diagnostic>, d: Diagnostic): (n: nat) {
    multiset(diagnostics)[d]
  }

  lemma {:induction false} DuplicatesOccur(order: seq<KeyEvent>, groups: seq<RuleGroup>, trigger: KeyEvent, names: string)
    requires Distinct(order)
    ensures Occurrences(DuplicatesOf(order, groups), DuplicateTrigger(trigger, names)) ==
            if trigger in order && InTwoGroups(groups, trigger) && names == JoinLabels(LabelsWith(groups, trigger)) then 1 else 0
  {
    if order != [] {
      var n := |order| - 1;
      DuplicatesOccur(order[..n], groups, trigger, names);
      LabelsCountGroups(groups, order[n]);
      assert order == order[..n] + [order[n]];
      assert order[n] !in order[..n];
    }
  }

  lemma {:induction false} NoPairsAmongDuplicates(order: seq<KeyEvent>, groups: seq<RuleGroup>, d: Diagnostic)
    requires !d.DuplicateTrigger?
    ensures d !in DuplicatesOf(order, groups)
  {
    if order != [] {
      NoPairsAmongDuplicates(order[..|order| - 1], groups, d);
    }
  }

  lemma {:induction false} PairsOccur(pairs: seq<Pair>, a: KeyEvent, b: KeyEvent)
    requires Distinct(pairs)
    ensures Occurrences(CircularPairs(pairs), CircularPair(a, b)) == if Pair(a, b) in pairs then 1 else 0
  {
    if pairs != [] {
      var n := |pairs| - 1;
      PairsOccur(pairs[..n], a, b);
      assert CircularPairs(pairs) == CircularPairs(pairs[..n]) + [CircularPair(pairs[n].first, pairs[n].second)];
      assert pairs == pairs[..n] + [pairs[n]];
      assert pairs[n] !in pairs[..n];
    }
  }

  /**
   A circular pair is reported exactly once if some group has two single-output rules that map its
   two different triggers to each other, smaller trigger first, and not at all otherwise.
   */
  lemma CircularPairsAreExact(config: Config, a: KeyEvent, b: KeyEvent)
    ensures Occurrences(ReportOf(config), CircularPair(a, b)) ==
            if Less(a, b) && SwapsSomewhere(config.groups, a, b) then 1 else 0
  {
    var order, pairs := FirstSeen(config.groups), SwapsIn(config.groups);
    SwapsInAreTheSwaps(config.groups, a, b);
    LocalFindingsAreLocal(config, CircularPair(a, b));
    NoPairsAmongDuplicates(order, config.groups, CircularPair(a, b));
    PairsOccur(pairs, a, b);
    OccurInThree(LocalFindings(config), DuplicatesOf(order, config.groups), CircularPairs(pairs), CircularPair(a, b));
  }

  /** A trigger is reported as duplicate, with all its groups, exactly once if it occurs in two groups, else not at all. */
  lemma DuplicateTriggersAreExact(config: Config, trigger: KeyEvent, names: string)
    ensures Occurrences(ReportOf(config), DuplicateTrigger(trigger, names)) ==
            if InTwoGroups(config.groups, trigger) && names == JoinLabels(LabelsWith(config.groups, trigger)) then 1 else 0
  {
    var order, pairs := FirstSeen(config.groups), SwapsIn(config.groups);
    FirstSeenAreTheTriggers(config.groups, trigger);
    LocalFindingsAreLocal(config, DuplicateTrigger(trigger, names));
    DuplicatesOccur(order, config.groups, trigger, names);
    LabelsCountGroups(config.groups, trigger);
    assert DuplicateTrigger(trigger, names) !in CircularPairs(pairs);
    OccurInThree(LocalFindings(config), DuplicatesOf(order, config.groups), CircularPairs(pairs), DuplicateTrigger(trigger, names));
  }

  lemma OccurInThree(xs: seq<Diagnostic>, ys: seq<Diagnostic>, zs: seq<Diagnostic>, d: Diagnostic)
    ensures Occurrences(xs + ys + zs, d) == Occurrences(xs, d) + Occurrences(ys, d) + Occurrences(zs, d)
    ensures d !in xs ==> Occurrences(xs, d) == 0
    ensures d !in ys ==> Occurrences(ys, d) == 0
    ensures d !in zs ==> Occurrences(zs, d) == 0
  {}
}
