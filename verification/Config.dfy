/** The configuration model: ordered rule groups, scoped to applications and keyboards. */
module Config {
  import opened Wrappers
  import opened Hid

  datatype KeyEvent = KeyEvent(modifiers: seq<HidUsage>, base: HidUsage)

  datatype Mapping = Mapping(trigger: KeyEvent, outputs: seq<KeyEvent>)

  /** An insertion-ordered table. */
  type MappingTable = seq<Mapping>

  /** A table has one entry per trigger. */
  ghost predicate OneEntryPerTrigger(table: MappingTable) {
    forall i, j :: 0 <= i < j < |table| ==> table[i].trigger != table[j].trigger
  }

  datatype KeyboardSpecifier = KeyboardSpecifier(
    name: Option<string>,
    vendor: Option<string>,
    model: Option<string>,
    port: Option<string>)

  datatype KeyboardInfo = KeyboardInfo(name: string, vendor: string, model: string, device: string, port: Option<string>)

  datatype RuleGroup = RuleGroup(
    name: Option<string>,
    apps: seq<string>,
    keyboards: seq<KeyboardSpecifier>,
    mappings: MappingTable)

  datatype Config = Config(keyboards: Option<seq<KeyboardSpecifier>>, groups: seq<RuleGroup>)

  // ---------------------------------------------------------------------------
  // Keyboard filters
  // ---------------------------------------------------------------------------

  function AsciiLower(c: char): (r: char) {
    if 'A' <= c <= 'Z' then c - 'A' + 'a' else c
  }

  predicate EqualIgnoringAsciiCase(s: string, t: string) {
    |s| == |t| && forall i :: 0 <= i < |s| ==> AsciiLower(s[i]) == AsciiLower(t[i])
  }

  predicate FieldMatches(wanted: Option<string>, actual: string) {
    wanted.Some? ==> EqualIgnoringAsciiCase(wanted.value, actual)
  }

  predicate SpecifierMatches(spec: KeyboardSpecifier, info: KeyboardInfo) {
    && FieldMatches(spec.name, info.name)
    && FieldMatches(spec.vendor, info.vendor)
    && FieldMatches(spec.model, info.model)
    && (spec.port.Some? ==> info.port.Some? && EqualIgnoringAsciiCase(spec.port.value, info.port.value))
  }

  /** A filter as it is compiled: none, or at least one specifier. */
  type Filter = Option<seq<KeyboardSpecifier>>

  function FilterOf(keyboards: seq<KeyboardSpecifier>): (filter: Filter) {
    if keyboards == [] then None else Some(keyboards)
  }

  type Registry = map<string, KeyboardInfo>

  /** Events from unknown devices, and without a device, get through every filter. */
  predicate Allowed(filter: Filter, registry: Registry, device: Option<string>) {
    filter.None? || device.None? || device.value !in registry ||
    exists spec :: spec in filter.value && SpecifierMatches(spec, registry[device.value])
  }
}
