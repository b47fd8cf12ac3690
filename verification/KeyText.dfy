/** Key events as text: `+`-separated key names, the base key last. */
module KeyText {
  import opened Wrappers
  import opened Hid
  import opened Config

  /** The name table: the canonical name of every known usage, and every name that is understood. */
  datatype Names = Names(canonical: map<HidUsage, string>, understood: map<string, HidUsage>)

  /** Canonical names are understood; names are non-empty, trimmed and free of `+`; they name known usages. */
  ghost predicate Consistent(names: Names) {
    && (forall u :: u in names.canonical ==> names.canonical[u] in names.understood && names.understood[names.canonical[u]] == u)
    && (forall n :: n in names.understood ==>
          n != "" && '+' !in n && Trim(n) == n && names.understood[n] in names.canonical)
  }

  datatype ParseError = Empty | EmptyToken | UnknownKey(name: string) | TooManyModifiers(count: nat)

  const MAX_MODIFIERS := 8

  // ---------------------------------------------------------------------------
  // Strings
  // ---------------------------------------------------------------------------

  predicate IsWhite(c: char) {
    || '\t' <= c <= '\r' || c == ' ' || c == '\U{85}' || c == '\U{A0}' || c == '\U{1680}' || '\U{2000}' <= c <= '\U{200A}'
    || c == '\U{2028}' || c == '\U{2029}' || c == '\U{202F}' || c == '\U{205F}' || c == '\U{3000}'
  }

  function TrimStart(s: string): (r: string) {
    if s != "" && IsWhite(s[0]) then TrimStart(s[1..]) else s
  }

  function TrimEnd(s: string): (r: string) {
    if s != "" && IsWhite(s[|s| - 1]) then TrimEnd(s[..|s| - 1]) else s
  }

  function Trim(s: string): (r: string) {
    TrimEnd(TrimStart(s))
  }

  function Split(s: string): (parts: seq<string>)
    ensures parts != []
  {
    if s == "" then [""]
    else
      var rest := Split(s[1..]);
      if s[0] == '+' then [""] + rest else [[s[0]] + rest[0]] + rest[1..]
  }

  function Join(parts: seq<string>): (s: string)
    requires parts != []
  {
    if |parts| == 1 then parts[0] else parts[0] + "+" + Join(parts[1..])
  }

  lemma {:induction false} SplitToken(token: string, rest: string)
    requires '+' !in token
    ensures Split(token) == [token]
    ensures Split(token + "+" + rest) == [token] + Split(rest)
  {
    var s := token + "+" + rest;
    if token == "" {
      assert s[1..] == rest;
    } else {
      SplitToken(token[1..], rest);
      assert s[1..] == token[1..] + "+" + rest;
      assert [token[0]] + token[1..] == token;
    }
  }

  lemma {:induction false} SplitUndoesJoin(parts: seq<string>)
    requires parts != [] && forall p :: p in parts ==> '+' !in p
    ensures Split(Join(parts)) == parts
  {
    if |parts| == 1 {
      SplitToken(parts[0], "");
    } else {
      SplitToken(parts[0], Join(parts[1..]));
      SplitUndoesJoin(parts[1..]);
    }
  }

  lemma {:induction false} JoinUndoesSplit(s: string)
    ensures Join(Split(s)) == s
    ensures forall p :: p in Split(s) ==> '+' !in p
  {
    if s != "" {
      JoinUndoesSplit(s[1..]);
      var rest, parts := Split(s[1..]), Split(s);
      if s[0] == '+' {
        assert parts[1..] == rest;
      } else {
        assert parts[1..] == rest[1..];
      }
    }
  }

  // ---------------------------------------------------------------------------
  // Parsing and printing
  // ---------------------------------------------------------------------------

  function ParseKey(names: Names, token: string): (r: Result<HidUsage, ParseError>) {
    var trimmed := Trim(token);
    if trimmed == "" then Err(EmptyToken)
    else if trimmed in names.understood then Ok(names.understood[trimmed])
    else Err(UnknownKey(trimmed))
  }

  /** The keys of all tokens, or the error of the first token that has none. */
  function ParseKeys(names: Names, tokens: seq<string>): (r: Result<seq<HidUsage>, ParseError>) {
    if tokens == [] then Ok([])
    else match ParseKey(names, tokens[0])
      case Err(error) => Err(error)
      case Ok(key) =>
        match ParseKeys(names, tokens[1..])
        case Err(error) => Err(error)
        case Ok(keys) => Ok([key] + keys)
  }

  function Parse(names: Names, s: string): (r: Result<KeyEvent, ParseError>) {
    ParseTokens(names, Split(s))
  }

  function ParseTokens(names: Names, parts: seq<string>): (r: Result<KeyEvent, ParseError>)
    requires parts != []
  {
    if |parts| == 1 && Trim(parts[0]) == "" then Err(Empty)
    else if |parts| > MAX_MODIFIERS + 1 then Err(TooManyModifiers(|parts| - 1))
    else match ParseKey(names, parts[|parts| - 1])
      case Err(error) => Err(error)
      case Ok(base) =>
        match ParseKeys(names, parts[..|parts| - 1])
        case Err(error) => Err(error)
        case Ok(modifiers) => Ok(KeyEvent(modifiers, base))
  }

  predicate AllKnown(names: Names, usages: seq<HidUsage>) {
    forall u :: u in usages ==> u in names.canonical
  }

  predicate Known(names: Names, event: KeyEvent) {
    event.base in names.canonical && AllKnown(names, event.modifiers)
  }

  function NamesOf(names: Names, usages: seq<HidUsage>): (tokens: seq<string>)
    requires AllKnown(names, usages)
    ensures |tokens| == |usages|
  {
    seq(|usages|, i requires 0 <= i < |usages| => names.canonical[usages[i]])
  }

  /** The held modifiers in order and the base key last, in canonical names. */
  function Print(names: Names, event: KeyEvent): (s: string)
    requires Known(names, event)
  {
    Join(NamesOf(names, event.modifiers) + [names.canonical[event.base]])
  }

  lemma TokensOfPrint(names: Names, event: KeyEvent)
    requires Consistent(names) && Known(names, event)
    ensures Split(Print(names, event)) == NamesOf(names, event.modifiers) + [names.canonical[event.base]]
  {
    var parts := NamesOf(names, event.modifiers) + [names.canonical[event.base]];
    forall p | p in parts ensures '+' !in p {
      var i :| 0 <= i < |parts| && parts[i] == p;
      assert p in names.understood;
    }
    SplitUndoesJoin(parts);
  }

  lemma {:induction false} ParsingNames(names: Names, usages: seq<HidUsage>)
    requires Consistent(names) && AllKnown(names, usages)
    ensures ParseKeys(names, NamesOf(names, usages)) == Ok(usages)
  {
    if usages != [] {
      ParsingNames(names, usages[1..]);
      assert NamesOf(names, usages)[1..] == NamesOf(names, usages[1..]);
      assert NamesOf(names, usages)[0] == names.canonical[usages[0]];
      assert [usages[0]] + usages[1..] == usages;
    }
  }

  /** Parsing undoes printing exactly for the events that parsing accepts at all: up to eight modifiers. */
  lemma ParseUndoesPrint(names: Names, event: KeyEvent)
    requires Consistent(names) && Known(names, event)
    ensures Parse(names, Print(names, event)) ==
            if |event.modifiers| <= MAX_MODIFIERS then Ok(event) else Err(TooManyModifiers(|event.modifiers|))
  {
    TokensOfPrint(names, event);
    ParsingNames(names, event.modifiers);
    var tokens := NamesOf(names, event.modifiers) + [names.canonical[event.base]];
    assert tokens[..|tokens| - 1] == NamesOf(names, event.modifiers);
    assert names.canonical[event.base] in names.understood;
  }

  lemma {:induction false} ParsedKeysAreKnown(names: Names, tokens: seq<string>)
    requires Consistent(names) && ParseKeys(names, tokens).Ok?
    ensures |ParseKeys(names, tokens).value| == |tokens|
    ensures AllKnown(names, ParseKeys(names, tokens).value)
  {
    if tokens != [] {
      ParsedKeysAreKnown(names, tokens[1..]);
    }
  }

  lemma ParsedTokensAreKnown(names: Names, parts: seq<string>)
    requires Consistent(names) && parts != [] && ParseTokens(names, parts).Ok?
    ensures var event := ParseTokens(names, parts).value;
      Known(names, event) && |event.modifiers| <= MAX_MODIFIERS
  {
    ParsedKeysAreKnown(names, parts[..|parts| - 1]);
    assert Known(names, ParseTokens(names, parts).value);
  }

  lemma ParsedEventIsKnown(names: Names, s: string)
    requires Consistent(names) && Parse(names, s).Ok?
    ensures Known(names, Parse(names, s).value) && |Parse(names, s).value.modifiers| <= MAX_MODIFIERS
  {
    ParsedTokensAreKnown(names, Split(s));
  }

  /** Whatever spelling is accepted, with aliases and spaces, its printed form parses to the same event. */
  lemma PrintingNormalizes(names: Names, s: string)
    requires Consistent(names) && Parse(names, s).Ok?
    ensures var event := Parse(names, s).value;
      Known(names, event) && Parse(names, Print(names, event)) == Ok(event)
  {
    ParsedEventIsKnown(names, s);
    ParseUndoesPrint(names, Parse(names, s).value);
  }

  lemma {:induction false} NamesAreInjective(names: Names, xs: seq<HidUsage>, ys: seq<HidUsage>)
    requires Consistent(names)
    requires AllKnown(names, xs) && AllKnown(names, ys)
    requires NamesOf(names, xs) == NamesOf(names, ys)
    ensures xs == ys
  {
    ParsingNames(names, xs);
    ParsingNames(names, ys);
  }

  /** Different events print differently, however many modifiers they have. */
  lemma PrintIsInjective(names: Names, e: KeyEvent, f: KeyEvent)
    requires Consistent(names) && Known(names, e) && Known(names, f)
    requires Print(names, e) == Print(names, f)
    ensures e == f
  {
    TokensOfPrint(names, e);
    TokensOfPrint(names, f);
    var tokens := Split(Print(names, e));
    assert tokens[..|tokens| - 1] == NamesOf(names, e.modifiers) == NamesOf(names, f.modifiers);
    assert tokens[|tokens| - 1] == names.canonical[e.base] == names.canonical[f.base];
    NamesAreInjective(names, e.modifiers, f.modifiers);
    NamesAreInjective(names, [e.base], [f.base]);
  }

  predicate Understood(names: Names, token: string) {
    Trim(token) != "" && Trim(token) in names.understood
  }

  lemma {:induction false} KeysParseExactly(names: Names, tokens: seq<string>)
    ensures ParseKeys(names, tokens).Ok? <==> forall t :: t in tokens ==> Understood(names, t)
  {
    if tokens != [] {
      KeysParseExactly(names, tokens[1..]);
      assert ParseKey(names, tokens[0]).Ok? <==> Understood(names, tokens[0]);
      FirstApart(names, tokens);
    }
  }

  lemma FirstApart(names: Names, tokens: seq<string>)
    requires tokens != []
    ensures (forall t :: t in tokens ==> Understood(names, t)) <==>
            Understood(names, tokens[0]) && (forall t :: t in tokens[1..] ==> Understood(names, t))
  {}

  lemma LastApart(names: Names, tokens: seq<string>)
    requires tokens != []
    ensures var n := |tokens| - 1;
      (forall t :: t in tokens ==> Understood(names, t)) <==>
      (forall t :: t in tokens[..n] ==> Understood(names, t)) && Understood(names, tokens[n])
  {}

  lemma TokensAcceptedExactly(names: Names, parts: seq<string>)
    requires parts != []
    ensures ParseTokens(names, parts).Ok? <==>
            |parts| <= MAX_MODIFIERS + 1 && forall t :: t in parts ==> Understood(names, t)
  {
    KeysParseExactly(names, parts[..|parts| - 1]);
    LastApart(names, parts);
    assert parts[|parts| - 1] in parts;
  }

  /** A string is accepted exactly when it has one to nine tokens and each, trimmed, is an understood name. */
  lemma AcceptsExactly(names: Names, s: string)
    ensures Parse(names, s).Ok? <==>
            |Split(s)| <= MAX_MODIFIERS + 1 && forall t :: t in Split(s) ==> Understood(names, t)
  {
    TokensAcceptedExactly(names, Split(s));
  }

  // ---------------------------------------------------------------------------
  // What a string is parsed to
  // ---------------------------------------------------------------------------

  predicate AllWhite(s: string) {
    forall i :: 0 <= i < |s| ==> IsWhite(s[i])
  }

  lemma {:induction false} TrimStartTakesWhite(s: string) returns (before: string)
    ensures AllWhite(before) && s == before + TrimStart(s)
    ensures TrimStart(s) != "" ==> !IsWhite(TrimStart(s)[0])
  {
    if s != "" && IsWhite(s[0]) {
      var rest := TrimStartTakesWhite(s[1..]);
      before := [s[0]] + rest;
    } else {
      before := "";
    }
  }

  lemma {:induction false} TrimEndTakesWhite(s: string) returns (after: string)
    ensures AllWhite(after) && s == TrimEnd(s) + after
    ensures TrimEnd(s) != "" ==> !IsWhite(TrimEnd(s)[|TrimEnd(s)| - 1])
  {
    if s != "" && IsWhite(s[|s| - 1]) {
      var rest := TrimEndTakesWhite(s[..|s| - 1]);
      after := rest + [s[|s| - 1]];
    } else {
      after := "";
    }
  }

  /** Trimming takes white space off both ends and nothing else. */
  lemma TrimTakesWhiteEnds(s: string) returns (before: string, after: string)
    ensures s == before + Trim(s) + after && AllWhite(before) && AllWhite(after)
    ensures Trim(s) != "" ==> !IsWhite(Trim(s)[0]) && !IsWhite(Trim(s)[|Trim(s)| - 1])
  {
    before := TrimStartTakesWhite(s);
    after := TrimEndTakesWhite(TrimStart(s));
    if Trim(s) != "" {
      assert Trim(s)[0] == TrimStart(s)[0];
    }
  }

  /** The error of a token on its own, if it has one. */
  function TokenError(names: Names, token: string): (error: Option<ParseError>) {
    if Trim(token) == "" then Some(EmptyToken)
    else if Trim(token) !in names.understood then Some(UnknownKey(Trim(token)))
    else None
  }

  /** The i-th token is the first one in error. */
  ghost predicate FirstError(names: Names, tokens: seq<string>, i: nat, error: ParseError) {
    && i < |tokens| && TokenError(names, tokens[i]) == Some(error)
    && forall j :: 0 <= j < i ==> TokenError(names, tokens[j]) == None
  }

  ghost predicate HasFirstError(names: Names, tokens: seq<string>, error: ParseError) {
    exists i: nat :: FirstError(names, tokens, i, error)
  }

  lemma {:induction false} KeysOfTokens(names: Names, tokens: seq<string>)
    ensures match ParseKeys(names, tokens)
            case Ok(keys) =>
              |keys| == |tokens| && forall i :: 0 <= i < |tokens| ==>
                TokenError(names, tokens[i]) == None && keys[i] == names.understood[Trim(tokens[i])]
            case Err(error) => HasFirstError(names, tokens, error)
  {
    if tokens != [] {
      KeysOfTokens(names, tokens[1..]);
      if ParseKey(names, tokens[0]).Err? {
        assert FirstError(names, tokens, 0, ParseKey(names, tokens[0]).error);
        assert HasFirstError(names, tokens, ParseKeys(names, tokens).error);
      } else if ParseKeys(names, tokens[1..]).Err? {
        var error := ParseKeys(names, tokens[1..]).error;
        var i: nat :| FirstError(names, tokens[1..], i, error);
        FirstErrorBehind(names, tokens, i, error);
        assert HasFirstError(names, tokens, error);
      } else {
        forall i | 0 < i < |tokens| ensures tokens[i] == tokens[1..][i - 1] {}
      }
    }
  }

  lemma FirstErrorBehind(names: Names, tokens: seq<string>, i: nat, error: ParseError)
    requires tokens != [] && TokenError(names, tokens[0]) == None && FirstError(names, tokens[1..], i, error)
    ensures FirstError(names, tokens, i + 1, error)
  {
    forall j | 0 <= j < i + 1 ensures TokenError(names, tokens[j]) == None {
      assert j > 0 ==> tokens[j] == tokens[1..][j - 1];
    }
  }

  /** The event of an accepted string, token by token: the last is the base, the others the modifiers in order. */
  lemma ParsedTokenByToken(names: Names, s: string)
    requires Parse(names, s).Ok?
    ensures var parts, event := Split(s), Parse(names, s).value;
      var n := |parts| - 1;
      && n <= 8 && |event.modifiers| == n
      && (forall i :: 0 <= i <= n ==> TokenError(names, parts[i]) == None)
      && event.base == names.understood[Trim(parts[n])]
      && (forall i :: 0 <= i < n ==> event.modifiers[i] == names.understood[Trim(parts[i])])
  {
    TokensGiveEvent(names, Split(s));
  }

  lemma TokensGiveEvent(names: Names, parts: seq<string>)
    requires parts != [] && ParseTokens(names, parts).Ok?
    ensures var event, n := ParseTokens(names, parts).value, |parts| - 1;
      && n <= 8 && |event.modifiers| == n
      && (forall i :: 0 <= i <= n ==> TokenError(names, parts[i]) == None)
      && event.base == names.understood[Trim(parts[n])]
      && (forall i :: 0 <= i < n ==> event.modifiers[i] == names.understood[Trim(parts[i])])
  {
    var n := |parts| - 1;
    KeysOfTokens(names, parts[..n]);
    forall i | 0 <= i < n ensures parts[..n][i] == parts[i] {}
  }

  /**
   Which error a rejected string gets: empty, then too many modifiers, then the error of the base, then
   that of the first modifier in error.
   */
  ghost predicate Rejects(names: Names, s: string, error: ParseError) {
    var parts := Split(s);
    var n := |parts| - 1;
    if n == 0 && Trim(s) == "" then error == Empty
    else if n > 8 then error == TooManyModifiers(n)
    else if TokenError(names, parts[n]).Some? then TokenError(names, parts[n]) == Some(error)
    else HasFirstError(names, parts[..n], error)
  }

  lemma RejectedWithItsError(names: Names, s: string)
    requires Parse(names, s).Err?
    ensures Rejects(names, s, Parse(names, s).error)
  {
    var parts := Split(s);
    if |parts| == 1 {
      SingleToken(s);
    }
    KeysOfTokens(names, parts[..|parts| - 1]);
  }

  lemma SingleToken(s: string)
    requires |Split(s)| == 1
    ensures Split(s)[0] == s
  {
    JoinUndoesSplit(s);
  }
}
