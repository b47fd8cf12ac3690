/**
 Typing one output key on the virtual keyboard: the sequence of state reports, one transition each,
 and the bounded command queue that such sequences enter whole or not at all.
 */
module Reports {
  import opened Wrappers
  import opened Bits
  import opened Hid

  /** A snapshot of the keyboard page: the modifiers and keys that are down. */
  datatype Report = Report(modifiers: Mask, usages: seq<nat>)

  const RELEASED := Report(NONE, [])

  function BitsBelow(modifiers: Mask, k: nat): (bits: Mask) {
    set b | b in modifiers && b < k
  }

  /** Pressing the modifiers below bit k, in ascending order. */
  function Presses(modifiers: Mask, k: nat): (reports: seq<Report>) {
    if k == 0 then []
    else if k - 1 in modifiers then Presses(modifiers, k - 1) + [Report(BitsBelow(modifiers, k), [])]
    else Presses(modifiers, k - 1)
  }

  /** Releasing the modifiers below bit k, in descending order. */
  function Lifts(modifiers: Mask, k: nat): (reports: seq<Report>) {
    if k == 0 then []
    else if k - 1 in modifiers then [Report(BitsBelow(modifiers, k - 1), [])] + Lifts(modifiers, k - 1)
    else Lifts(modifiers, k - 1)
  }

  function ReportsOf(key: NativeKey): (reports: seq<Report>) {
    Presses(key.modifiers, 8) + [Report(key.modifiers, [Id(key.usage)]), Report(key.modifiers, [])] + Lifts(key.modifiers, 8)
  }

  method KeyboardReportSequence(key: NativeKey) returns (reports: seq<Report>)
    ensures reports == ReportsOf(key)
  {
    reports := [];
    var modifiers: Mask := NONE;
    for bit := 0 to 8
      invariant modifiers == BitsBelow(key.modifiers, bit)
      invariant reports == Presses(key.modifiers, bit)
    {
      if bit in key.modifiers {
        modifiers := modifiers + {bit};
        reports := reports + [Report(modifiers, [])];
      }
      assert BitsBelow(key.modifiers, bit + 1) == BitsBelow(key.modifiers, bit) + if bit in key.modifiers then {bit} else {};
    }
    assert modifiers == key.modifiers;
    reports := reports + [Report(modifiers, [Id(key.usage)])];
    reports := reports + [Report(modifiers, [])];
    ghost var pressed := reports;
    for bit := 8 downto 0
      invariant modifiers == BitsBelow(key.modifiers, bit)
      invariant reports + Lifts(key.modifiers, bit) == pressed + Lifts(key.modifiers, 8)
    {
      if bit in key.modifiers {
        modifiers := modifiers - {bit};
        assert modifiers == BitsBelow(key.modifiers, bit);
        ghost var before := reports;
        reports := reports + [Report(modifiers, [])];
        assert reports + Lifts(key.modifiers, bit) == before + Lifts(key.modifiers, bit + 1);
      } else {
        assert BitsBelow(key.modifiers, bit + 1) == BitsBelow(key.modifiers, bit);
      }
    }
    assert Presses(key.modifiers, 8) + [Report(key.modifiers, [Id(key.usage)]), Report(key.modifiers, [])] == pressed;
  }

  // ---------------------------------------------------------------------------
  // What a report sequence does to the keyboard
  // ---------------------------------------------------------------------------

  /** Exactly one key changes: one modifier bit, or the base key. */
  ghost predicate OneTransition(r: Report, s: Report) {
    || (r.usages == s.usages && exists b: Bit ::
          (b in r.modifiers <==> b !in s.modifiers) && r.modifiers - {b} == s.modifiers - {b})
    || (r.modifiers == s.modifiers && ((r.usages == [] && |s.usages| == 1) || (s.usages == [] && |r.usages| == 1)))
  }

  function Previous(start: Report, reports: seq<Report>, i: nat): (report: Report)
    requires i <= |reports|
  {
    if i == 0 then start else reports[i - 1]
  }

  ghost predicate OneAtATime(start: Report, reports: seq<Report>) {
    forall i :: 0 <= i < |reports| ==> OneTransition(Previous(start, reports, i), reports[i])
  }

  function Final(start: Report, reports: seq<Report>): (report: Report) {
    if reports == [] then start else reports[|reports| - 1]
  }

  lemma OneAtATimeConcat(start: Report, xs: seq<Report>, ys: seq<Report>)
    requires OneAtATime(start, xs) && OneAtATime(Final(start, xs), ys)
    ensures OneAtATime(start, xs + ys) && Final(start, xs + ys) == Final(Final(start, xs), ys)
  {
    forall i | 0 <= i < |xs + ys| ensures OneTransition(Previous(start, xs + ys, i), (xs + ys)[i]) {
      if i < |xs| {
        assert OneTransition(Previous(start, xs, i), xs[i]);
      } else {
        assert OneTransition(Previous(Final(start, xs), ys, i - |xs|), ys[i - |xs|]);
      }
    }
  }

  ghost predicate NoKeys(reports: seq<Report>) {
    forall r :: r in reports ==> r.usages == []
  }

  lemma {:induction false} PressesAreOneAtATime(modifiers: Mask, k: nat)
    requires k <= 8
    ensures OneAtATime(RELEASED, Presses(modifiers, k)) && NoKeys(Presses(modifiers, k))
    ensures Final(RELEASED, Presses(modifiers, k)) == Report(BitsBelow(modifiers, k), [])
    ensures |Presses(modifiers, k)| == |BitsBelow(modifiers, k)|
  {
    if k == 0 {
      assert BitsBelow(modifiers, 0) == NONE;
    } else {
      PressesAreOneAtATime(modifiers, k - 1);
      AddedBit(modifiers, k);
      var next := Report(BitsBelow(modifiers, k), []);
      if k - 1 in modifiers {
        OneAtATimeConcat(RELEASED, Presses(modifiers, k - 1), [next]);
      }
    }
  }

  lemma AddedBit(modifiers: Mask, k: nat)
    requires 0 < k <= 8
    ensures BitsBelow(modifiers, k) == BitsBelow(modifiers, k - 1) + if k - 1 in modifiers then {k - 1} else {}
    ensures |BitsBelow(modifiers, k)| == |BitsBelow(modifiers, k - 1)| + if k - 1 in modifiers then 1 else 0
    ensures k - 1 in modifiers ==> OneTransition(Report(BitsBelow(modifiers, k - 1), []), Report(BitsBelow(modifiers, k), []))
    ensures k - 1 in modifiers ==> OneTransition(Report(BitsBelow(modifiers, k), []), Report(BitsBelow(modifiers, k - 1), []))
  {}

  lemma {:induction false} LiftsAreOneAtATime(modifiers: Mask, k: nat)
    requires k <= 8
    ensures OneAtATime(Report(BitsBelow(modifiers, k), []), Lifts(modifiers, k)) && NoKeys(Lifts(modifiers, k))
    ensures Final(Report(BitsBelow(modifiers, k), []), Lifts(modifiers, k)) == RELEASED
    ensures |Lifts(modifiers, k)| == |BitsBelow(modifiers, k)|
  {
    if k == 0 {
      assert BitsBelow(modifiers, 0) == NONE;
    } else {
      LiftsAreOneAtATime(modifiers, k - 1);
      AddedBit(modifiers, k);
      if k - 1 in modifiers {
        OneAtATimeConcat(Report(BitsBelow(modifiers, k), []), [Report(BitsBelow(modifiers, k - 1), [])], Lifts(modifiers, k - 1));
      }
    }
  }

  /** The modifiers that are down are always the lowest of those requested. */
  ghost predicate LowestOf(down: Mask, modifiers: Mask) {
    down <= modifiers && forall b, c :: b in down && c in modifiers - down ==> b < c
  }

  lemma {:induction false} LowestFirst(modifiers: Mask, k: nat)
    ensures forall r :: r in Presses(modifiers, k) + Lifts(modifiers, k) ==> LowestOf(r.modifiers, modifiers)
  {
    if k != 0 {
      LowestFirst(modifiers, k - 1);
    }
  }

  /**
   From an all-released keyboard, every report changes exactly one key, the base key is down in
   exactly one report and there with exactly the requested modifiers, and the last report releases all.
   */
  lemma KeyIsTypedCleanly(key: NativeKey)
    ensures var reports := ReportsOf(key);
      && |reports| == 2 * |key.modifiers| + 2
      && OneAtATime(RELEASED, reports)
      && reports[|reports| - 1] == RELEASED
      && reports[|key.modifiers|] == Report(key.modifiers, [Id(key.usage)])
      && (forall i :: 0 <= i < |reports| && reports[i].usages != [] ==> i == |key.modifiers|)
  {
    var m := key.modifiers;
    assert BitsBelow(m, 8) == m;
    PressesAreOneAtATime(m, 8);
    LiftsAreOneAtATime(m, 8);
    var base := [Report(m, [Id(key.usage)]), Report(m, [])];
    assert OneTransition(Report(m, []), base[0]) && OneTransition(base[0], base[1]);
    OneAtATimeConcat(RELEASED, Presses(m, 8), base);
    OneAtATimeConcat(RELEASED, Presses(m, 8) + base, Lifts(m, 8));
    var reports := ReportsOf(key);
    forall i | 0 <= i < |reports| && i != |m| ensures reports[i].usages == [] {
      if i < |m| {
        assert reports[i] in Presses(m, 8);
      } else if i >= |m| + 2 {
        assert reports[i] == Lifts(m, 8)[i - |m| - 2];
        assert reports[i] in Lifts(m, 8);
      }
    }
  }

  /** Modifiers go down lowest first and come up highest first. */
  lemma ModifiersGoInOrder(key: NativeKey)
    ensures forall r :: r in ReportsOf(key) ==> LowestOf(r.modifiers, key.modifiers)
  {
    LowestFirst(key.modifiers, 8);
    forall r | r in ReportsOf(key) ensures LowestOf(r.modifiers, key.modifiers) {
      assert r in Presses(key.modifiers, 8) + Lifts(key.modifiers, 8) || r.modifiers == key.modifiers;
    }
  }

  // ---------------------------------------------------------------------------
  // The bounded queue
  // ---------------------------------------------------------------------------

  datatype Command = KeyboardReport(report: Report) | ConsumerPress(usage: nat) | ConsumerRelease

  function KeyboardCommands(reports: seq<Report>): (commands: seq<Command>)
    ensures |commands| == |reports|
  {
    seq(|reports|, i requires 0 <= i < |reports| => KeyboardReport(reports[i]))
  }

  function CommandsOf(key: NativeKey): (commands: seq<Command>) {
    if Page(key.usage) == PAGE_KEYBOARD then KeyboardCommands(ReportsOf(key))
    else [ConsumerPress(Id(key.usage)), ConsumerRelease]
  }

  /** What is down after a list of commands. */
  datatype Keyboard = Keyboard(report: Report, media: Option<nat>)

  const AT_REST := Keyboard(RELEASED, None)

  function After(keyboard: Keyboard, commands: seq<Command>): (r: Keyboard) {
    if commands == [] then keyboard
    else
      var before := After(keyboard, commands[..|commands| - 1]);
      match commands[|commands| - 1]
      case KeyboardReport(report) => before.(report := report)
      case ConsumerPress(usage) => before.(media := Some(usage))
      case ConsumerRelease => before.(media := None)
  }

  lemma {:induction false} AfterConcat(keyboard: Keyboard, xs: seq<Command>, ys: seq<Command>)
    ensures After(keyboard, xs + ys) == After(After(keyboard, xs), ys)
  {
    if ys == [] {
      assert xs + ys == xs;
    } else {
      var n := |ys| - 1;
      AfterConcat(keyboard, xs, ys[..n]);
      assert (xs + ys)[..|xs + ys| - 1] == xs + ys[..n];
    }
  }

  lemma {:induction false} AfterReports(keyboard: Keyboard, reports: seq<Report>)
    ensures After(keyboard, KeyboardCommands(reports)) == keyboard.(report := Final(keyboard.report, reports))
  {
    if reports != [] {
      var n := |reports| - 1;
      AfterReports(keyboard, reports[..n]);
      assert KeyboardCommands(reports)[..n] == KeyboardCommands(reports[..n]);
    }
  }

  lemma KeyLeavesKeyboardAtRest(key: NativeKey)
    ensures After(AT_REST, CommandsOf(key)) == AT_REST
  {
    if Page(key.usage) == PAGE_KEYBOARD {
      KeyIsTypedCleanly(key);
      AfterReports(AT_REST, ReportsOf(key));
    } else {
      var press, commands := [ConsumerPress(Id(key.usage))], CommandsOf(key);
      assert press[..0] == [] && After(AT_REST, press) == AT_REST.(media := Some(Id(key.usage)));
      assert commands[..1] == press && commands[1] == ConsumerRelease;
    }
  }

  /** What is down after the first i commands. */
  function AfterFirst(commands: seq<Command>, i: nat): (keyboard: Keyboard)
    requires i <= |commands|
  {
    After(AT_REST, commands[..i])
  }

  /** Exactly one prefix of the commands puts the keyboard where the condition says. */
  ghost predicate ExactlyOnce(commands: seq<Command>, there: Keyboard -> bool) {
    && (exists i :: 0 <= i <= |commands| && there(AfterFirst(commands, i)))
    && (forall i, j :: 0 <= i <= |commands| && 0 <= j <= |commands| && there(AfterFirst(commands, i)) && there(AfterFirst(commands, j)) ==> i == j)
  }

  /**
   A key of page 7 is typed on the keyboard: with exactly its modifiers at exactly one moment, and no
   media key ever. A key of any other page is a media key at exactly one moment, and the keyboard
   stays released.
   */
  ghost predicate TypedOnItsPage(key: NativeKey, commands: seq<Command>) {
    var page, id := key.usage / 0x1_0000, key.usage % 0x1_0000;
    if page == 7 then
      && (forall i :: 0 <= i <= |commands| ==> AfterFirst(commands, i).media == None)
      && ExactlyOnce(commands, (k: Keyboard) => k.report == Report(key.modifiers, [id]))
      && (forall i :: 0 <= i <= |commands| && AfterFirst(commands, i).report.usages != [] ==>
            AfterFirst(commands, i).report == Report(key.modifiers, [id]))
    else
      && (forall i :: 0 <= i <= |commands| ==> AfterFirst(commands, i).report == Report({}, []))
      && ExactlyOnce(commands, (k: Keyboard) => k.media == Some(id))
      && (forall i :: 0 <= i <= |commands| && AfterFirst(commands, i).media != None ==> AfterFirst(commands, i).media == Some(id))
  }

  lemma AfterFirstReports(reports: seq<Report>, i: nat)
    requires i <= |reports|
    ensures AfterFirst(KeyboardCommands(reports), i) == AT_REST.(report := if i == 0 then RELEASED else reports[i - 1])
  {
    assert KeyboardCommands(reports)[..i] == KeyboardCommands(reports[..i]);
    AfterReports(AT_REST, reports[..i]);
  }

  lemma KeyboardMoment(key: NativeKey, i: nat)
    requires key.usage / 0x1_0000 == 7 && i <= |CommandsOf(key)|
    ensures AfterFirst(CommandsOf(key), i).media == None
    ensures AfterFirst(CommandsOf(key), i).report.usages != [] <==> i == |key.modifiers| + 1
    ensures i == |key.modifiers| + 1 ==>
              AfterFirst(CommandsOf(key), i).report == Report(key.modifiers, [key.usage % 0x1_0000])
  {
    KeyIsTypedCleanly(key);
    AfterFirstReports(ReportsOf(key), i);
  }

  lemma KeyboardKeyIsTyped(key: NativeKey)
    requires key.usage / 0x1_0000 == 7
    ensures TypedOnItsPage(key, CommandsOf(key))
  {
    var commands, n := CommandsOf(key), |key.modifiers| + 1;
    var there := (k: Keyboard) => k.report == Report(key.modifiers, [key.usage % 0x1_0000]);
    KeyIsTypedCleanly(key);
    forall i | 0 <= i <= |commands|
      ensures AfterFirst(commands, i).media == None
      ensures AfterFirst(commands, i).report.usages != [] <==> i == n
    {
      KeyboardMoment(key, i);
    }
    KeyboardMoment(key, n);
    assert there(AfterFirst(commands, n));
    forall i | 0 <= i <= |commands| && there(AfterFirst(commands, i)) ensures i == n {}
  }

  lemma MediaKeyIsTyped(key: NativeKey)
    requires key.usage / 0x1_0000 != 7
    ensures TypedOnItsPage(key, CommandsOf(key))
  {
    var id, commands := key.usage % 0x1_0000, CommandsOf(key);
    assert commands == [ConsumerPress(id), ConsumerRelease];
    assert commands[..0] == [] && commands[..1] == [ConsumerPress(id)] && commands[..2] == commands;
    assert [ConsumerPress(id)][..0] == [];
    assert AfterFirst(commands, 0) == AT_REST && AfterFirst(commands, 1) == Keyboard(RELEASED, Some(id));
    assert AfterFirst(commands, 2) == AT_REST;
  }

  /** Every key is typed on its page, by the commands that emitting it enters. */
  lemma KeyIsTypedOnItsPage(key: NativeKey)
    ensures TypedOnItsPage(key, CommandsOf(key))
  {
    if key.usage / 0x1_0000 == 7 {
      KeyboardKeyIsTyped(key);
    } else {
      MediaKeyIsTyped(key);
    }
  }

  /** What the background thread does between two steps of the producer: deliver some commands, or die. */
  datatype Turn = Delivers(count: nat) | Dies

  /** The client at a moment when no key is being emitted. */
  datatype Snapshot = Snapshot(queue: seq<Command>, delivered: seq<Command>, dropped: nat, alive: bool)

  class Client {
    const capacity: nat
    var queue: seq<Command>
    var alive: bool
    var dropped: nat
    ghost var delivered: seq<Command>

    /** Everything that ever entered the queue. */
    ghost function Entered(): (commands: seq<Command>)
      reads this
    {
      delivered + queue
    }

    ghost function Now(): (r: Snapshot)
      reads this
    {
      Snapshot(queue, delivered, dropped, alive)
    }

    constructor (capacity: nat)
      ensures this.capacity == capacity && queue == [] && alive && dropped == 0 && delivered == []
    {
      this.capacity, queue, alive, dropped, delivered := capacity, [], true, 0, [];
    }

    method BackgroundTurn(turn: Turn)
      modifies this
      ensures Entered() == old(Entered()) && |queue| <= old(|queue|)
      ensures old(delivered) <= delivered && (!old(alive) || turn == Dies ==> !alive && delivered == old(delivered))
      ensures alive == (old(alive) && turn != Dies) && dropped == old(dropped)
      ensures alive && turn.Delivers? && turn.count >= old(|queue|) ==> queue == []
    {
      match turn {
        case Dies => alive := false;
        case Delivers(count) =>
          if alive {
            var n := if count < |queue| then count else |queue|;
            delivered := delivered + queue[..n];
            queue := queue[n..];
          }
      }
    }

    method HasRoom(n: nat) returns (room: bool)
      requires |queue| <= capacity
      ensures room == (capacity - |queue| >= n)
    {
      return capacity - |queue| >= n;
    }

    method TrySend(command: Command) returns (sent: bool)
      modifies this
      ensures sent == (old(alive) && old(|queue|) < capacity)
      ensures queue == if sent then old(queue) + [command] else old(queue)
      ensures delivered == old(delivered) && alive == old(alive) && dropped == old(dropped)
    {
      sent := alive && |queue| < capacity;
      if sent {
        queue := queue + [command];
      }
    }

    /** Send commands that fit; the loop stops at the first command that cannot be sent. */
    method SendAll(commands: seq<Command>, turns: nat -> Turn)
      requires |queue| + |commands| <= capacity
      modifies this
      ensures |queue| <= capacity && old(delivered) <= delivered && dropped == old(dropped)
      ensures (alive ==> old(alive)) && ((forall j :: turns(j).Delivers?) ==> alive == old(alive))
      ensures if alive then Entered() == old(Entered()) + commands
              else exists n :: 0 <= n <= |commands| && Entered() == old(Entered()) + commands[..n]
    {
      ghost var steady, start := forall j :: turns(j).Delivers?, Entered();
      for i := 0 to |commands|
        invariant |queue| + (|commands| - i) <= capacity
        invariant Entered() == start + commands[..i]
        invariant old(delivered) <= delivered && dropped == old(dropped)
        invariant (alive ==> old(alive)) && (steady ==> alive == old(alive))
      {
        BackgroundTurn(turns(i));
        ghost var entered := Entered();
        var sent := TrySend(commands[i]);
        if !sent {
          return;
        }
        assert Entered() == entered + [commands[i]];
        assert commands[..i + 1] == commands[..i] + [commands[i]];
      }
      assert commands[..|commands|] == commands;
    }

    /**
     Emit one key. With the room checked first and only the background thread taking commands out,
     the key's commands enter all together or not at all, unless the background thread dies.
     */
    method EmitNativeKey(key: NativeKey, turns: nat -> Turn)
      requires |queue| <= capacity
      modifies this
      ensures |queue| <= capacity && old(delivered) <= delivered && (alive ==> old(alive))
      ensures (forall j :: turns(j).Delivers?) ==> alive == old(alive)
      ensures old(capacity - |queue|) < |CommandsOf(key)| ==>
                Entered() == old(Entered()) && dropped == old(dropped) + |CommandsOf(key)| && alive == old(alive)
      ensures old(capacity - |queue|) >= |CommandsOf(key)| ==>
                dropped == old(dropped) && TypedOnItsPage(key, CommandsOf(key)) &&
                if alive then Entered() == old(Entered()) + CommandsOf(key)
                else exists n :: 0 <= n <= |CommandsOf(key)| && Entered() == old(Entered()) + CommandsOf(key)[..n]
    {
      var commands := [ConsumerPress(Id(key.usage)), ConsumerRelease];
      if Page(key.usage) == PAGE_KEYBOARD {
        var reports := KeyboardReportSequence(key);
        commands := KeyboardCommands(reports);
      }
      KeyIsTypedOnItsPage(key);
      var room := HasRoom(|commands|);
      if room {
        SendAll(commands, turns);
      } else {
        dropped := dropped + |commands|;
      }
    }
  }

  function AllCommands(keys: seq<NativeKey>): (commands: seq<Command>) {
    if keys == [] then [] else AllCommands(keys[..|keys| - 1]) + CommandsOf(keys[|keys| - 1])
  }

  lemma {:induction false} KeysLeaveKeyboardAtRest(keys: seq<NativeKey>)
    ensures After(AT_REST, AllCommands(keys)) == AT_REST
  {
    if keys != [] {
      var n := |keys| - 1;
      KeysLeaveKeyboardAtRest(keys[..n]);
      KeyLeavesKeyboardAtRest(keys[n]);
      AfterConcat(AT_REST, AllCommands(keys[..n]), CommandsOf(keys[n]));
    }
  }

  /** The keys that were taken. */
  function Chosen(keys: seq<NativeKey>, taken: seq<bool>): (chosen: seq<NativeKey>)
    requires |taken| == |keys|
    ensures |chosen| <= |keys|
  {
    if keys == [] then []
    else
      var n := |keys| - 1;
      Chosen(keys[..n], taken[..n]) + if taken[n] then [keys[n]] else []
  }

  /** The queue took in the chosen keys, each whole and in order, and every other command was dropped. */
  ghost predicate Accounted(entered: seq<Command>, dropped: int, keys: seq<NativeKey>, taken: seq<bool>) {
    && |taken| == |keys|
    && entered == AllCommands(Chosen(keys, taken))
    && dropped == |AllCommands(keys)| - |entered|
  }

  lemma OneMoreKey(entered: seq<Command>, dropped: int, keys: seq<NativeKey>, key: NativeKey, taken: seq<bool>, next: bool)
    requires Accounted(entered, dropped, keys, taken)
    ensures next ==> Accounted(entered + CommandsOf(key), dropped, keys + [key], taken + [next])
    ensures !next ==> Accounted(entered, dropped + |CommandsOf(key)|, keys + [key], taken + [next])
  {
    ChosenSnoc(keys, key, taken, next);
    AllCommandsSnoc(keys, key);
    AllCommandsSnoc(Chosen(keys, taken), key);
  }

  lemma ChosenSnoc(keys: seq<NativeKey>, key: NativeKey, taken: seq<bool>, next: bool)
    requires |taken| == |keys|
    ensures Chosen(keys + [key], taken + [next]) == if next then Chosen(keys, taken) + [key] else Chosen(keys, taken)
  {}

  lemma AllCommandsSnoc(keys: seq<NativeKey>, key: NativeKey)
    ensures AllCommands(keys + [key]) == AllCommands(keys) + CommandsOf(key)
  {}

  /** Every key so far is in the queue or delivered, whole, or dropped; a drained keyboard is all-released. */
  ghost predicate Sound(at: Snapshot, droppedBefore: nat, keys: seq<NativeKey>, taken: seq<bool>) {
    at.alive ==>
      && Accounted(at.delivered + at.queue, at.dropped - droppedBefore, keys, taken)
      && (at.queue == [] ==> After(AT_REST, at.delivered) == AT_REST)
  }

  lemma DrainedIsAtRest(at: Snapshot, droppedBefore: nat, keys: seq<NativeKey>, taken: seq<bool>)
    requires at.alive ==> Accounted(at.delivered + at.queue, at.dropped - droppedBefore, keys, taken)
    ensures Sound(at, droppedBefore, keys, taken)
  {
    if at.alive && at.queue == [] {
      assert at.delivered + at.queue == at.delivered;
      KeysLeaveKeyboardAtRest(Chosen(keys, taken));
    }
  }

  /** No key has more commands than one modifier report per bit down and up, and two for the base. */
  const MOST_COMMANDS := 18

  lemma KeysAreShort(key: NativeKey)
    ensures |CommandsOf(key)| <= MOST_COMMANDS
  {
    KeyIsTypedCleanly(key);
    BitsAreFew(key.modifiers);
  }

  lemma BitsAreFew(m: Mask)
    ensures |m| <= 8
  {
    assert m <= ALL_BITS by {
      forall b: Bit | b in m ensures b in ALL_BITS {}
    }
    SubsetIsSmaller(m, ALL_BITS);
  }

  /** The background thread empties the queue before a key and does not die while the key is emitted. */
  ghost predicate CatchesUp(capacity: nat, before: Turn, turns: nat -> Turn) {
    before.Delivers? && before.count >= capacity && forall j :: turns(j).Delivers?
  }

  /** The background thread catches up in each of the first n turns between keys. */
  ghost predicate KeepsUp(capacity: nat, between: nat -> Turn, turns: nat -> nat -> Turn, n: nat) {
    n == 0 || (KeepsUp(capacity, between, turns, n - 1) && CatchesUp(capacity, between(n - 1), turns(n - 1)))
  }

  /** Between any two keys, and at the end, the keys so far are accounted for. */
  ghost predicate AllSound(moments: seq<Snapshot>, droppedBefore: nat, keys: seq<NativeKey>, taken: seq<bool>) {
    |moments| <= |keys| + 1 && |moments| <= |taken| + 1 &&
    forall i :: 0 <= i < |moments| ==> Sound(moments[i], droppedBefore, keys[..i], taken[..i])
  }

  /** Between any two keys, everything emitted so far is delivered. */
  ghost predicate Lossless(moments: seq<Snapshot>, keys: seq<NativeKey>) {
    |moments| <= |keys| + 1 &&
    forall i :: 0 <= i < |moments| ==>
      moments[i].alive && moments[i].queue == [] && moments[i].delivered == AllCommands(keys[..i])
  }

  /** What holds before each next key: the moments so far, and the account of the client as it is. */
  ghost predicate SoFar(at: Snapshot, droppedBefore: nat, keys: seq<NativeKey>, taken: seq<bool>, moments: seq<Snapshot>) {
    && |moments| == |taken| == |keys|
    && (at.alive ==> Accounted(at.delivered + at.queue, at.dropped - droppedBefore, keys, taken))
    && AllSound(moments, droppedBefore, keys, taken)
  }

  lemma OneMoreMoment(at: Snapshot, droppedBefore: nat, keys: seq<NativeKey>, key: NativeKey, taken: seq<bool>, next: bool,
                      moments: seq<Snapshot>, now: Snapshot)
    requires |moments| == |taken| == |keys| && AllSound(moments, droppedBefore, keys, taken)
    requires Sound(now, droppedBefore, keys, taken)
    requires at.alive ==> Accounted(at.delivered + at.queue, at.dropped - droppedBefore, keys + [key], taken + [next])
    ensures SoFar(at, droppedBefore, keys + [key], taken + [next], moments + [now])
  {
    forall i | 0 <= i <= |keys|
      ensures (taken + [next])[..i] == taken[..i] && (keys + [key])[..i] == keys[..i]
    {}
    assert taken[..|taken|] == taken && keys[..|keys|] == keys;
  }

  lemma LastMoment(droppedBefore: nat, keys: seq<NativeKey>, taken: seq<bool>, moments: seq<Snapshot>, now: Snapshot)
    requires |moments| == |taken| == |keys| && AllSound(moments, droppedBefore, keys, taken)
    requires Sound(now, droppedBefore, keys, taken)
    ensures AllSound(moments + [now], droppedBefore, keys, taken)
  {
    assert taken[..|taken|] == taken && keys[..|keys|] == keys;
  }

  lemma OneMoreDelivered(moments: seq<Snapshot>, now: Snapshot, keys: seq<NativeKey>, longer: seq<NativeKey>)
    requires |moments| == |keys| && Lossless(moments, keys) && keys <= longer
    requires now.alive && now.queue == [] && now.delivered == AllCommands(keys)
    ensures Lossless(moments + [now], longer)
  {
    forall i | 0 <= i <= |keys| ensures longer[..i] == keys[..i] {}
    assert keys[..|keys|] == keys;
  }

  /** The client has lost nothing and between any two keys everything was delivered. */
  ghost predicate CaughtUp(at: Snapshot, keys: seq<NativeKey>, moments: seq<Snapshot>) {
    at.alive && at.delivered + at.queue == AllCommands(keys) && |moments| == |keys| && Lossless(moments, keys)
  }

  method EmitNext(client: Client, key: NativeKey, before: Turn, turns: nat -> Turn,
                  ghost droppedBefore: nat, ghost keys: seq<NativeKey>, ghost taken: seq<bool>, ghost moments: seq<Snapshot>)
      returns (ghost keys': seq<NativeKey>, ghost taken': seq<bool>, ghost moments': seq<Snapshot>)
    requires |client.queue| <= client.capacity
    requires SoFar(client.Now(), droppedBefore, keys, taken, moments)
    modifies client
    ensures |client.queue| <= client.capacity
    ensures keys' == keys + [key] && SoFar(client.Now(), droppedBefore, keys', taken', moments')
    ensures client.capacity >= MOST_COMMANDS && CatchesUp(client.capacity, before, turns) && old(CaughtUp(client.Now(), keys, moments)) ==>
              CaughtUp(client.Now(), keys', moments')
  {
    client.BackgroundTurn(before);
    ghost var now := client.Now();
    DrainedIsAtRest(now, droppedBefore, keys, taken);
    ghost var room := client.capacity - |client.queue| >= |CommandsOf(key)|;
    KeysAreShort(key);
    client.EmitNativeKey(key, turns);
    keys', taken', moments' := keys + [key], taken + [room], moments + [now];
    if client.alive {
      OneMoreKey(now.delivered + now.queue, now.dropped - droppedBefore, keys, key, taken, room);
    }
    OneMoreMoment(client.Now(), droppedBefore, keys, key, taken, room, moments, now);
    if client.capacity >= MOST_COMMANDS && CatchesUp(client.capacity, before, turns) && old(CaughtUp(client.Now(), keys, moments)) {
      AllCommandsSnoc(keys, key);
      OneMoreDelivered(moments, now, keys, keys');
    }
  }

  /**
   Emit keys one after the other. The background thread has a turn before every key, before each of
   its commands and after the last key; it delivers any number of commands or dies at any of them.
   At each moment between two keys, while the thread lives, the keys so far were each taken in whole
   and in order or dropped and counted, and a drained queue leaves the keyboard all-released. If the
   thread catches up before every key and the queue holds the longest key, no key is lost.
   */
  method EmitKeys(client: Client, keys: seq<NativeKey>, between: nat -> Turn, turns: nat -> nat -> Turn)
      returns (ghost taken: seq<bool>, ghost moments: seq<Snapshot>)
    requires client.queue == [] && client.delivered == []
    modifies client
    ensures |taken| == |keys| && |moments| == |keys| + 1
    ensures AllSound(moments, old(client.dropped), keys, taken)
    ensures moments[|keys|] == client.Now()
    ensures old(client.alive) && client.capacity >= MOST_COMMANDS && KeepsUp(client.capacity, between, turns, |keys| + 1) ==>
              Lossless(moments, keys)
  {
    ghost var droppedBefore, done := client.dropped, [];
    ghost var roomy := client.alive && client.capacity >= MOST_COMMANDS;
    taken, moments := [], [];
    for i := 0 to |keys|
      invariant done == keys[..i] && |client.queue| <= client.capacity
      invariant SoFar(client.Now(), droppedBefore, done, taken, moments)
      invariant roomy && KeepsUp(client.capacity, between, turns, i) ==> CaughtUp(client.Now(), done, moments)
    {
      done, taken, moments := EmitNext(client, keys[i], between(i), turns(i), droppedBefore, done, taken, moments);
    }
    assert done == keys;
    ghost var keptUp := roomy && KeepsUp(client.capacity, between, turns, |keys| + 1);
    moments := EmitLast(client, between(|keys|), droppedBefore, keys, taken, moments, keptUp);
  }

  method EmitLast(client: Client, last: Turn, ghost droppedBefore: nat, ghost keys: seq<NativeKey>, ghost taken: seq<bool>,
                  ghost moments: seq<Snapshot>, ghost caughtUp: bool)
      returns (ghost all: seq<Snapshot>)
    requires |client.queue| <= client.capacity
    requires SoFar(client.Now(), droppedBefore, keys, taken, moments)
    requires caughtUp ==> CaughtUp(client.Now(), keys, moments)
    requires caughtUp ==> last.Delivers? && last.count >= client.capacity
    modifies client
    ensures |all| == |keys| + 1 && AllSound(all, droppedBefore, keys, taken) && all[|keys|] == client.Now()
    ensures caughtUp ==> Lossless(all, keys)
  {
    client.BackgroundTurn(last);
    DrainedIsAtRest(client.Now(), droppedBefore, keys, taken);
    LastMoment(droppedBefore, keys, taken, moments, client.Now());
    if caughtUp {
      OneMoreDelivered(moments, client.Now(), keys, keys);
    }
    all := moments + [client.Now()];
  }
}
