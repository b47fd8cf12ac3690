/** Key identities and the events, outputs and lookups built from them. */
module Hid {
  import opened Wrappers
  import opened Bits

  const PAGE_KEYBOARD: nat := 0x07

  /** A combined usage code: (page << 16) | id, 32 bits wide. */
  type HidUsage = code: nat | code < 0x1_0000_0000

  const LEFT_CONTROL: HidUsage := 0x0700E0

  function Page(usage: HidUsage): (n: nat) {
    usage / 0x1_0000
  }

  function Id(usage: HidUsage): (n: nat) {
    usage % 0x1_0000
  }

  /** The role table of the modifier layout: usages 0xE0..0xE7 of the keyboard page. */
  function BitOf(usage: HidUsage): (r: Option<Bit>) {
    if Page(usage) != PAGE_KEYBOARD then None
    else if Id(usage) == 0xE0 then Some(0)
    else if Id(usage) == 0xE1 then Some(1)
    else if Id(usage) == 0xE2 then Some(2)
    else if Id(usage) == 0xE3 then Some(3)
    else if Id(usage) == 0xE4 then Some(4)
    else if Id(usage) == 0xE5 then Some(5)
    else if Id(usage) == 0xE6 then Some(6)
    else if Id(usage) == 0xE7 then Some(7)
    else None
  }

  /** The modifiers are the eight usages from left Control on, bit by bit. */
  lemma ModifiersAreEightUsages(usage: HidUsage, b: Bit)
    ensures BitOf(usage) == Some(b) <==> usage == 0x0700E0 + b
    ensures BitOf(usage) == None <==> !(0x0700E0 <= usage <= 0x0700E7)
  {}

  /** The platform's identity of a physical key: an evdev code, a (scan, extended) pair or a usage id. */
  datatype Key = Key(code: nat, extended: bool)

  /** An output key: modifiers held together with a base key. */
  datatype NativeKey = NativeKey(modifiers: Mask, usage: HidUsage)

  /**
   The mask a modifier-key output holds on the output device until the physical key-up:
   its own bit and its modifiers. None for regular keys, which are tapped.
   */
  function HeldMask(output: NativeKey): (r: Option<Mask>)
    ensures r.Some? ==> r.value != NONE
  {
    match BitOf(output.usage)
    case None => None
    case Some(bit) =>
      assert bit in {bit} + output.modifiers;
      Some({bit} + output.modifiers)
  }

  /** What the rule table answers for a key pressed under an exact modifier mask. */
  type Lookup = (HidUsage, Mask) -> Option<seq<NativeKey>>
}
