/** The "either side" expansion of the modifier tokens of a trigger into exact masks. */
module Expand {
  import opened Wrappers
  import opened Bits
  import opened Hid

  /** The bits one token may stand for. A token that is no modifier stands for bit 0. */
  function Choices(token: HidUsage): (bits: set<Bit>)
    ensures bits != {}
  {
    match BitOf(token)
    case Some(bit) => if bit <= 3 then {bit, bit + 4} else {bit}
    case None => {0}
  }

  ghost predicate Picks(tokens: seq<HidUsage>, pick: seq<Bit>) {
    |pick| == |tokens| && forall i :: 0 <= i < |tokens| ==> pick[i] in Choices(tokens[i])
  }

  function BitsPicked(pick: seq<Bit>): (bits: Mask) {
    set i | 0 <= i < |pick| :: pick[i]
  }

  /** A mask matches the tokens if it is the union of one permitted bit per token. */
  ghost predicate Matches(tokens: seq<HidUsage>, mask: Mask) {
    exists pick :: Picks(tokens, pick) && BitsPicked(pick) == mask
  }

  /** Every mask of a set with one of the given bits added. */
  function WithEach(masks: set<Mask>, bits: set<Bit>): (r: set<Mask>) {
    set m, b | m in masks && b in bits :: m + {b}
  }

  function ExpandSet(tokens: seq<HidUsage>): (masks: set<Mask>) {
    if tokens == [] then {NONE}
    else WithEach(ExpandSet(tokens[..|tokens| - 1]), Choices(tokens[|tokens| - 1]))
  }

  lemma MemberOfWithEach(masks: set<Mask>, bits: set<Bit>, mask: Mask) returns (m: Mask, b: Bit)
    requires mask in WithEach(masks, bits)
    ensures m in masks && b in bits && mask == m + {b}
  {
    m, b :| m in masks && b in bits && mask == m + {b};
  }

  lemma {:induction false} ExpandedIsMatched(tokens: seq<HidUsage>, mask: Mask) returns (pick: seq<Bit>)
    requires mask in ExpandSet(tokens)
    ensures Picks(tokens, pick) && BitsPicked(pick) == mask
  {
    if tokens == [] {
      pick := [];
    } else {
      var n := |tokens| - 1;
      var m, b := MemberOfWithEach(ExpandSet(tokens[..n]), Choices(tokens[n]), mask);
      var init := ExpandedIsMatched(tokens[..n], m);
      OneMorePick(tokens, init, b);
      pick := init + [b];
    }
  }

  lemma OneMorePick(tokens: seq<HidUsage>, init: seq<Bit>, b: Bit)
    requires tokens != [] && Picks(tokens[..|tokens| - 1], init) && b in Choices(tokens[|tokens| - 1])
    ensures Picks(tokens, init + [b]) && BitsPicked(init + [b]) == BitsPicked(init) + {b}
  {
    PickSnoc(init, b);
  }

  lemma {:induction false} PickedIsExpanded(tokens: seq<HidUsage>, pick: seq<Bit>)
    requires Picks(tokens, pick)
    ensures BitsPicked(pick) in ExpandSet(tokens)
  {
    if tokens == [] {
      assert BitsPicked(pick) == NONE;
    } else {
      var n := |tokens| - 1;
      PickedIsExpanded(tokens[..n], pick[..n]);
      PickSnoc(pick[..n], pick[n]);
      assert pick == pick[..n] + [pick[n]];
    }
  }

  lemma ExpansionIsExact(tokens: seq<HidUsage>, mask: Mask)
    ensures mask in ExpandSet(tokens) <==> Matches(tokens, mask)
  {
    if mask in ExpandSet(tokens) {
      var pick := ExpandedIsMatched(tokens, mask);
    }
    if Matches(tokens, mask) {
      var pick :| Picks(tokens, pick) && BitsPicked(pick) == mask;
      PickedIsExpanded(tokens, pick);
    }
  }

  lemma PickSnoc(pick: seq<Bit>, b: Bit)
    ensures BitsPicked(pick + [b]) == BitsPicked(pick) + {b}
  {
    var longer := pick + [b];
    forall c ensures c in BitsPicked(longer) <==> c in BitsPicked(pick) + {b} {
      if c in BitsPicked(pick) {
        var i :| 0 <= i < |pick| && pick[i] == c;
        assert longer[i] == c;
      }
      if c == b {
        assert longer[|pick|] == c;
      }
    }
  }

  // ---------------------------------------------------------------------------
  // Masks in the order of their bytes
  // ---------------------------------------------------------------------------

  function Weight(m: Mask, b: Bit, weight: nat): (n: nat) {
    if b in m then weight else 0
  }

  /** The number of the byte of a mask. */
  function Number(m: Mask): (n: nat)
    ensures n < 256
  {
    Weight(m, 0, 1) + Weight(m, 1, 2) + Weight(m, 2, 4) + Weight(m, 3, 8) +
    Weight(m, 4, 16) + Weight(m, 5, 32) + Weight(m, 6, 64) + Weight(m, 7, 128)
  }

  lemma NumberIsInjective(m: Mask, n: Mask)
    requires Number(m) == Number(n)
    ensures m == n
  {}

  /** It is the byte itself, read as a number. */
  lemma NumberIsTheByte(m: Mask)
    ensures Number(m) == ByteOf(m) as nat
  {
    assert ByteIf(m, 0) as nat == Weight(m, 0, 1) && ByteIf(m, 1) as nat == Weight(m, 1, 2);
    assert ByteIf(m, 2) as nat == Weight(m, 2, 4) && ByteIf(m, 3) as nat == Weight(m, 3, 8);
    assert ByteIf(m, 4) as nat == Weight(m, 4, 16) && ByteIf(m, 5) as nat == Weight(m, 5, 32);
    assert ByteIf(m, 6) as nat == Weight(m, 6, 64) && ByteIf(m, 7) as nat == Weight(m, 7, 128);
  }

  ghost predicate Ascending(masks: seq<Mask>) {
    forall i, j :: 0 <= i < j < |masks| ==> Number(masks[i]) < Number(masks[j])
  }

  /** The masks of a set whose numbers are below n, ascending. */
  ghost function AscendingBelow(masks: set<Mask>, n: nat): (sorted: seq<Mask>) {
    if n == 0 then []
    else if m :| m in masks && Number(m) == n - 1 then AscendingBelow(masks, n - 1) + [m]
    else AscendingBelow(masks, n - 1)
  }

  lemma {:induction false} AscendingBelowIsSorted(masks: set<Mask>, n: nat)
    ensures Ascending(AscendingBelow(masks, n))
    ensures forall i :: 0 <= i < |AscendingBelow(masks, n)| ==> Number(AscendingBelow(masks, n)[i]) < n
  {
    if n > 0 {
      AscendingBelowIsSorted(masks, n - 1);
    }
  }

  lemma {:induction false} AscendingBelowHasTheMasks(masks: set<Mask>, n: nat, mask: Mask)
    ensures mask in AscendingBelow(masks, n) <==> mask in masks && Number(mask) < n
  {
    if n > 0 {
      AscendingBelowHasTheMasks(masks, n - 1, mask);
      if mask in masks && Number(mask) == n - 1 {
        var sorted := AscendingBelow(masks, n);
        NumberIsInjective(mask, sorted[|sorted| - 1]);
      }
    }
  }

  /** The variants of a trigger: its masks, ascending by byte. */
  ghost function Variants(tokens: seq<HidUsage>): (variants: seq<Mask>) {
    AscendingBelow(ExpandSet(tokens), 256)
  }

  /** The variants are ascending, and exactly the masks that match. */
  lemma VariantsAreTheMatches(tokens: seq<HidUsage>, mask: Mask)
    ensures Ascending(Variants(tokens))
    ensures mask in Variants(tokens) <==> Matches(tokens, mask)
  {
    AscendingBelowIsSorted(ExpandSet(tokens), 256);
    AscendingBelowHasTheMasks(ExpandSet(tokens), 256, mask);
    ExpansionIsExact(tokens, mask);
  }

  method Sorted(masks: set<Mask>) returns (sorted: seq<Mask>)
    ensures sorted == AscendingBelow(masks, 256)
  {
    sorted := [];
    for n := 0 to 256
      invariant sorted == AscendingBelow(masks, n)
    {
      if m :| m in masks && Number(m) == n {
        forall other | other in masks && Number(other) == n ensures other == m {
          NumberIsInjective(other, m);
        }
        sorted := sorted + [m];
      }
    }
  }

  lemma WithEachUnion(xs: set<Mask>, ys: set<Mask>, bits: set<Bit>)
    ensures WithEach(xs + ys, bits) == WithEach(xs, bits) + WithEach(ys, bits)
  {}

  /** Expand the modifier tokens into the ascending list of the masks they match. */
  method ExpandModifierBits(tokens: seq<HidUsage>) returns (result: seq<Mask>)
    ensures result == Variants(tokens)
  {
    var results: set<Mask> := {NONE};
    for i := 0 to |tokens|
      invariant results == ExpandSet(tokens[..i])
    {
      assert tokens[..i + 1][..i] == tokens[..i];
      var choice := Choices(tokens[i]);
      var next: set<Mask> := {};
      var todo := results;
      while todo != {}
        invariant todo <= results
        invariant next == WithEach(results - todo, choice)
        decreases todo
      {
        var acc :| acc in todo;
        var bits := choice;
        while bits != {}
          invariant bits <= choice
          invariant next == WithEach(results - todo, choice) + WithEach({acc}, choice - bits)
          decreases bits
        {
          var bit :| bit in bits;
          next := next + {acc + {bit}};
          bits := bits - {bit};
        }
        WithEachUnion(results - todo, {acc}, choice);
        assert results - (todo - {acc}) == results - todo + {acc} && choice - bits == choice;
        todo := todo - {acc};
      }
      assert results - todo == results;
      results := next;
    }
    assert tokens[..|tokens|] == tokens;
    result := Sorted(results);
  }

  // ---------------------------------------------------------------------------
  // The closed form
  // ---------------------------------------------------------------------------

  /** The usage of modifier bit b. */
  function ModifierUsage(b: Bit): (r: HidUsage) {
    LEFT_CONTROL + b
  }

  lemma BitsHaveOneUsage(usage: HidUsage, b: Bit)
    ensures BitOf(usage) == Some(b) <==> usage == ModifierUsage(b)
  {}

  type Pair = p: nat | p < 4

  /**
   What the counts of left tokens, right tokens and other tokens leave open for the two sides of one
   modifier: a right token forces the right side, another token forces the left side, one left
   token adds either side, and two or more add any side or both.
   */
  predicate PairAllows(lefts: nat, rightForced: bool, leftForced: bool, left: bool, right: bool) {
    && (rightForced ==> right)
    && (leftForced ==> left)
    && (lefts == 0 ==> left == leftForced && right == rightForced)
    && (lefts == 1 ==> (left && right == rightForced) || (right && left == leftForced))
    && (lefts >= 2 ==> left || right)
  }

  function Lefts(tokens: multiset<HidUsage>, p: Pair): (n: nat) {
    tokens[ModifierUsage(p)]
  }

  predicate RightForced(tokens: multiset<HidUsage>, p: Pair) {
    ModifierUsage(p + 4) in tokens
  }

  ghost predicate LeftForced(tokens: multiset<HidUsage>, p: Pair) {
    p == 0 && exists token :: token in tokens && BitOf(token).None?
  }

  ghost predicate PairMatches(tokens: multiset<HidUsage>, mask: Mask, p: Pair) {
    PairAllows(Lefts(tokens, p), RightForced(tokens, p), LeftForced(tokens, p), p in mask, p + 4 in mask)
  }

  ghost predicate ClosedForm(tokens: multiset<HidUsage>, mask: Mask) {
    forall p: Pair :: PairMatches(tokens, mask, p)
  }

  function PairOf(b: Bit): (r: Pair) {
    if b < 4 then b else b - 4
  }

  /** One more token changes only its own pair. */
  lemma OtherPairsKeep(tokens: multiset<HidUsage>, token: HidUsage, m: Mask, mask: Mask, p: Pair)
    requires forall b: Bit :: PairOf(b) == p ==> b !in Choices(token)
    requires (p in m <==> p in mask) && (p + 4 in m <==> p + 4 in mask)
    ensures PairMatches(tokens + multiset{token}, mask, p) <==> PairMatches(tokens, m, p)
  {
    BitsHaveOneUsage(token, p);
    BitsHaveOneUsage(token, p + 4);
    assert PairOf(p) == p && PairOf(p + 4) == p;
  }

  lemma TokenAddsBit(tokens: multiset<HidUsage>, token: HidUsage, m: Mask, b: Bit)
    requires b in Choices(token) && PairMatches(tokens, m, PairOf(b))
    ensures PairMatches(tokens + multiset{token}, m + {b}, PairOf(b))
  {}

  /** A pair allowed with one more token was allowed before it, up to one of the token's bits. */
  lemma TokenExplainsPair(tokens: multiset<HidUsage>, token: HidUsage, mask: Mask, p: Pair) returns (m: Mask, b: Bit)
    requires exists b: Bit :: b in Choices(token) && PairOf(b) == p
    requires PairMatches(tokens + multiset{token}, mask, p)
    ensures b in Choices(token) && PairOf(b) == p && m + {b} == mask && mask - m <= {b}
    ensures PairMatches(tokens, m, p)
  {
    BitsHaveOneUsage(token, p);
    BitsHaveOneUsage(token, p + 4);
    var lefts, right, left := Lefts(tokens, p), RightForced(tokens, p), LeftForced(tokens, p);
    if BitOf(token) == Some(p) && p in mask && PairAllows(lefts, right, left, true, p + 4 in mask) {
      m, b := mask, p;
    } else if BitOf(token) == Some(p) && p in mask && PairAllows(lefts, right, left, false, p + 4 in mask) {
      m, b := mask - {p}, p;
    } else if BitOf(token) == Some(p) && PairAllows(lefts, right, left, p in mask, true) {
      m, b := mask, p + 4;
    } else if BitOf(token) == Some(p) {
      m, b := mask - {p + 4}, p + 4;
    } else if BitOf(token) == Some(p + 4) {
      b := p + 4;
      m := if PairAllows(lefts, right, left, p in mask, true) then mask else mask - {b};
    } else {
      b := 0;
      m := if PairAllows(lefts, right, left, true, 4 in mask) then mask else mask - {b};
    }
  }

  lemma OneBitFallsInItsPair(token: HidUsage, b: Bit, p: Pair)
    requires b in Choices(token) && PairOf(b) != p
    ensures forall c: Bit :: PairOf(c) == p ==> c !in Choices(token)
  {}

  lemma TokenAdds(tokens: multiset<HidUsage>, token: HidUsage, m: Mask, b: Bit)
    requires b in Choices(token) && ClosedForm(tokens, m)
    ensures ClosedForm(tokens + multiset{token}, m + {b})
  {
    forall p: Pair ensures PairMatches(tokens + multiset{token}, m + {b}, p) {
      assert PairMatches(tokens, m, p);
      if PairOf(b) == p {
        TokenAddsBit(tokens, token, m, b);
      } else {
        OneBitFallsInItsPair(token, b, p);
        OtherPairsKeep(tokens, token, m, m + {b}, p);
      }
    }
  }

  lemma TokenExplains(tokens: multiset<HidUsage>, token: HidUsage, mask: Mask) returns (m: Mask, b: Bit)
    requires ClosedForm(tokens + multiset{token}, mask)
    ensures b in Choices(token) && m + {b} == mask && ClosedForm(tokens, m)
  {
    var any: Bit :| any in Choices(token);
    m, b := TokenExplainsPair(tokens, token, mask, PairOf(any));
    forall p: Pair ensures PairMatches(tokens, m, p) {
      if PairOf(b) != p {
        OneBitFallsInItsPair(token, b, p);
        assert PairMatches(tokens + multiset{token}, mask, p);
        OtherPairsKeep(tokens, token, m, mask, p);
      }
    }
  }

  /** The masks of a trigger depend only on how often each token occurs, pair by pair. */
  lemma {:induction false} ExpansionHasClosedForm(tokens: seq<HidUsage>, mask: Mask)
    ensures mask in ExpandSet(tokens) <==> ClosedForm(multiset(tokens), mask)
  {
    if tokens == [] {
      EmptyClosedForm(mask);
    } else {
      var n := |tokens| - 1;
      assert tokens == tokens[..n] + [tokens[n]];
      assert multiset(tokens) == multiset(tokens[..n]) + multiset{tokens[n]};
      if mask in ExpandSet(tokens) {
        var m, b := MemberOfWithEach(ExpandSet(tokens[..n]), Choices(tokens[n]), mask);
        ExpansionHasClosedForm(tokens[..n], m);
        TokenAdds(multiset(tokens[..n]), tokens[n], m, b);
      }
      if ClosedForm(multiset(tokens), mask) {
        var m, b := TokenExplains(multiset(tokens[..n]), tokens[n], mask);
        ExpansionHasClosedForm(tokens[..n], m);
      }
    }
  }

  lemma EmptyClosedForm(mask: Mask)
    ensures mask == NONE <==> ClosedForm(multiset{}, mask)
  {
    if ClosedForm(multiset{}, mask) {
      forall b: Bit ensures b !in mask {
        assert PairMatches(multiset{}, mask, PairOf(b));
      }
    }
  }

  lemma OrderOfTokensIsIrrelevant(tokens: seq<HidUsage>, others: seq<HidUsage>, mask: Mask)
    requires multiset(tokens) == multiset(others)
    ensures Matches(tokens, mask) <==> Matches(others, mask)
  {
    ExpansionIsExact(tokens, mask);
    ExpansionIsExact(others, mask);
    ExpansionHasClosedForm(tokens, mask);
    ExpansionHasClosedForm(others, mask);
  }

  // ---------------------------------------------------------------------------
  // The size of an expansion
  // ---------------------------------------------------------------------------

  function Power2(n: nat): (r: nat) {
    if n == 0 then 1 else 2 * Power2(n - 1)
  }

  lemma {:induction false} AddingOneBit(masks: set<Mask>, b: Bit)
    ensures |WithEach(masks, {b})| <= |masks|
  {
    if masks != {} {
      var m :| m in masks;
      AddingOneBit(masks - {m}, b);
      assert masks == masks - {m} + {m};
      WithEachUnion(masks - {m}, {m}, {b});
      assert WithEach({m}, {b}) == {m + {b}};
    }
  }

  lemma AddingOneOfTwoBits(masks: set<Mask>, b: Bit, c: Bit)
    ensures |WithEach(masks, {b, c})| <= 2 * |masks|
  {
    AddingOneBit(masks, b);
    AddingOneBit(masks, c);
    assert WithEach(masks, {b, c}) == WithEach(masks, {b}) + WithEach(masks, {c});
  }

  lemma ChoosingDoublesAtMost(masks: set<Mask>, token: HidUsage)
    requires masks != {}
    ensures WithEach(masks, Choices(token)) != {}
    ensures |WithEach(masks, Choices(token))| <= 2 * |masks|
  {
    var m :| m in masks;
    var b :| b in Choices(token);
    assert m + {b} in WithEach(masks, Choices(token));
    match BitOf(token)
    case Some(bit) =>
      AddingOneOfTwoBits(masks, bit, if bit <= 3 then bit + 4 else bit);
      assert Choices(token) == {bit, if bit <= 3 then bit + 4 else bit};
    case None =>
      AddingOneOfTwoBits(masks, 0, 0);
      assert Choices(token) == {0, 0};
  }

  lemma {:induction false} AtMostDoubledPerToken(tokens: seq<HidUsage>)
    ensures ExpandSet(tokens) != {}
    ensures |ExpandSet(tokens)| <= Power2(|tokens|)
  {
    if tokens != [] {
      var n := |tokens| - 1;
      AtMostDoubledPerToken(tokens[..n]);
      ChoosingDoublesAtMost(ExpandSet(tokens[..n]), tokens[n]);
    }
  }

  lemma OneMoreTime(n: nat, k: nat)
    requires n > 0
    ensures n * k == (n - 1) * k + k
  {}

  function Unions(xs: set<Mask>, ys: set<Mask>): (masks: set<Mask>) {
    set x, y | x in xs && y in ys :: x + y
  }

  lemma {:induction false} UnionsAreFew(xs: set<Mask>, ys: set<Mask>)
    ensures |Unions(xs, ys)| <= |xs| * |ys|
  {
    if xs == {} {
      assert Unions(xs, ys) == {};
    } else {
      var x :| x in xs;
      UnionsAreFew(xs - {x}, ys);
      UnionsSplit(x, xs, ys);
      UnionsWithOne(x, ys);
      OneMoreTime(|xs|, |ys|);
    }
  }

  lemma UnionsSplit(x: Mask, xs: set<Mask>, ys: set<Mask>)
    requires x in xs
    ensures |Unions(xs, ys)| <= |Unions(xs - {x}, ys)| + |Unions({x}, ys)|
  {
    assert Unions(xs, ys) == Unions(xs - {x}, ys) + Unions({x}, ys);
  }

  lemma {:induction false} UnionsWithOne(x: Mask, ys: set<Mask>)
    ensures |Unions({x}, ys)| <= |ys|
  {
    if ys == {} {
      assert Unions({x}, ys) == {};
    } else {
      var y :| y in ys;
      UnionsWithOne(x, ys - {y});
      assert Unions({x}, ys) == Unions({x}, ys - {y}) + {x + y};
    }
  }

  /** The sides of pair p that the masks of a trigger use. */
  function SidesUsed(masks: set<Mask>, p: Pair): (r: set<Mask>) {
    set m | m in masks :: m * {p, p + 4}
  }

  lemma BareMeansNoToken(tokens: seq<HidUsage>, p: Pair, bare: Mask, m: Mask)
    requires bare in ExpandSet(tokens) && m in ExpandSet(tokens)
    requires bare * {p, p + 4} == NONE
    ensures m * {p, p + 4} == NONE
  {
    ExpansionHasClosedForm(tokens, bare);
    ExpansionHasClosedForm(tokens, m);
    assert PairMatches(multiset(tokens), bare, p) && PairMatches(multiset(tokens), m, p);
    assert p !in bare * {p, p + 4} && p + 4 !in bare * {p, p + 4};
  }

  function Sides(p: Pair): (masks: set<Mask>) {
    {{p}, {p + 4}, {p, p + 4}}
  }

  lemma SidesAreThree(p: Pair, m: Mask)
    requires m * {p, p + 4} != NONE
    ensures m * {p, p + 4} in Sides(p)
  {
    var sides := m * {p, p + 4};
    if p !in m {
      assert sides == {p + 4};
    } else if p + 4 !in m {
      assert sides == {p};
    } else {
      assert sides == {p, p + 4};
    }
  }

  lemma ThreeSidesAtMost(tokens: seq<HidUsage>, p: Pair)
    ensures |SidesUsed(ExpandSet(tokens), p)| <= 3
  {
    var masks := ExpandSet(tokens);
    var used := SidesUsed(masks, p);
    if bare :| bare in masks && bare * {p, p + 4} == NONE {
      forall m | m in masks { BareMeansNoToken(tokens, p, bare, m); }
      SubsetIsSmaller(used, {NONE});
    } else {
      forall m | m in masks { SidesAreThree(p, m); }
      SubsetIsSmaller(used, Sides(p));
    }
  }

  lemma MaskIsUnionOfPairs(masks: set<Mask>, m: Mask)
    requires m in masks
    ensures m in Unions(Unions(SidesUsed(masks, 0), SidesUsed(masks, 1)), Unions(SidesUsed(masks, 2), SidesUsed(masks, 3)))
  {
    var m0, m1, m2, m3 := m * {0, 4}, m * {1, 5}, m * {2, 6}, m * {3, 7};
    assert m0 + m1 in Unions(SidesUsed(masks, 0), SidesUsed(masks, 1));
    assert m2 + m3 in Unions(SidesUsed(masks, 2), SidesUsed(masks, 3));
    forall b: Bit ensures b in m <==> b in (m0 + m1) + (m2 + m3) {}
    assert m == (m0 + m1) + (m2 + m3);
  }

  /** A trigger expands to at least one mask, to at most two per token, and never to more than 81. */
  lemma ExpansionIsSmall(tokens: seq<HidUsage>)
    ensures ExpandSet(tokens) != {}
    ensures |ExpandSet(tokens)| <= Power2(|tokens|)
    ensures |ExpandSet(tokens)| <= 81
  {
    AtMostDoubledPerToken(tokens);
    ThreeSidesAtMost(tokens, 0);
    ThreeSidesAtMost(tokens, 1);
    ThreeSidesAtMost(tokens, 2);
    ThreeSidesAtMost(tokens, 3);
    FewSidesFewMasks(ExpandSet(tokens));
  }

  lemma FewSidesFewMasks(masks: set<Mask>)
    requires |SidesUsed(masks, 0)| <= 3 && |SidesUsed(masks, 1)| <= 3
    requires |SidesUsed(masks, 2)| <= 3 && |SidesUsed(masks, 3)| <= 3
    ensures |masks| <= 81
  {
    var front := Unions(SidesUsed(masks, 0), SidesUsed(masks, 1));
    var back := Unions(SidesUsed(masks, 2), SidesUsed(masks, 3));
    UnionsAreBounded(SidesUsed(masks, 0), SidesUsed(masks, 1), 3, 3);
    UnionsAreBounded(SidesUsed(masks, 2), SidesUsed(masks, 3), 3, 3);
    UnionsAreBounded(front, back, 9, 9);
    assert masks <= Unions(front, back) by {
      forall m | m in masks ensures m in Unions(front, back) {
        MaskIsUnionOfPairs(masks, m);
      }
    }
    SubsetIsSmaller(masks, Unions(front, back));
  }

  lemma UnionsAreBounded(xs: set<Mask>, ys: set<Mask>, m: nat, n: nat)
    requires |xs| <= m && |ys| <= n
    ensures |Unions(xs, ys)| <= m * n
  {
    UnionsAreFew(xs, ys);
    MulMono(|xs|, m, |ys|, n);
  }

  lemma MulMono(a: nat, x: nat, b: nat, y: nat)
    requires a <= x && b <= y
    ensures a * b <= x * y
  {}
}
