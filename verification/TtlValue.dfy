/**
 The short-TTL cache with single-flight refresh: its atomic operations as a class, and every
 interleaving of any number of calling threads as a state machine over those operations.
 */
module Ttl {
  import opened Wrappers

  // ---------------------------------------------------------------------------
  // The shared fields and the atomic operations on them
  // ---------------------------------------------------------------------------

  datatype Shared<T> = Shared(value: T, expiresAt: int, claimed: bool)

  function Published<T>(s: Shared<T>, value: T, expiresAt: int): (r: Shared<T>) {
    s.(value := value, expiresAt := expiresAt)
  }

  /** What a caller gets at once: the value, if it is still fresh. */
  function IfFresh<T>(s: Shared<T>, now: int): (current: Option<T>) {
    if now < s.expiresAt then Some(s.value) else None
  }

  class TtlValue<T> {
    const ttl: nat
    var entryValue: T
    var expiresAt: int
    var refreshing: bool

    function Value(): (value: Shared<T>)
      reads this
    {
      Shared(entryValue, expiresAt, refreshing)
    }

    constructor (ttl: nat, initial: T, now: int)
      ensures this.ttl == ttl && Value() == Shared(initial, now + ttl, false)
    {
      this.ttl, entryValue, expiresAt, refreshing := ttl, initial, now + ttl, false;
    }

    method CheckFresh(now: int) returns (current: Option<T>)
      ensures current == if now < expiresAt then Some(entryValue) else None
    {
      return if now < expiresAt then Some(entryValue) else None;
    }

    method TryClaim() returns (claimed: bool)
      modifies this
      ensures claimed == !old(refreshing) && Value() == old(Value()).(claimed := true)
    {
      claimed := !refreshing;
      refreshing := true;
    }

    method Publish(value: T, now: int)
      modifies this
      ensures Value() == Shared(value, now + ttl, old(refreshing))
    {
      entryValue, expiresAt := value, now + ttl;
    }

    method DropSlot()
      modifies this
      ensures Value() == old(Value()).(claimed := false)
    {
      refreshing := false;
    }

    /**
     A whole call with no step of another thread in between; `sourced` is what the source returns,
     None if it panics. A panic leaves the entry alone and frees the slot. While another thread holds
     the slot the stale value is the answer and the source does not run.
     */
    method GetWith(now: int, sourced: Option<T>, publishedAt: int) returns (result: Option<T>)
      modifies this
      ensures old(now < expiresAt || refreshing) ==> result == Some(old(entryValue)) && Value() == old(Value())
      ensures !old(now < expiresAt || refreshing) ==> result == sourced
      ensures !old(now < expiresAt || refreshing) && sourced.Some? ==> Value() == Shared(sourced.value, publishedAt + ttl, false)
      ensures !old(now < expiresAt || refreshing) && sourced.None? ==> Value() == old(Value())
    {
      result := CheckFresh(now);
      if result.Some? {
        return;
      }
      var claimed := TryClaim();
      if !claimed {
        return Some(entryValue);
      }
      if sourced.Some? {
        Publish(sourced.value, publishedAt);
      }
      DropSlot();
      result := sourced;
    }
  }

  // ---------------------------------------------------------------------------
  // Threads
  // ---------------------------------------------------------------------------

  type Thread = nat

  /** Where a thread is in its call. Runs of the source are numbered in the order they start. */
  datatype Pc<T> =
    | Idle
    | FoundStale
    | Refused
    | Sourcing(run: nat)
    | Sourced(run: nat, value: T)
    | HasPublished(run: nat, value: T)

  /** The atomic steps of a call. Complete and Abort are the source returning and panicking. */
  datatype Action<T> =
    | CheckFresh(now: int)
    | TryClaim
    | ReadStale
    | Complete(value: T)
    | Abort
    | Publish(now: int)
    | Finish

  /** A value handed to a caller, with the run it came from; run 0 is the seed. */
  datatype Answer<T> = Answer(thread: Thread, run: nat, value: T)

  datatype Machine<T> = Machine(
    ttl: nat,
    seed: T,
    shared: Shared<T>,
    pcs: map<Thread, Pc<T>>,
    started: nat,
    completed: map<nat, T>,
    entryRun: nat,
    published: seq<nat>,
    answers: seq<Answer<T>>)
  {
    function At(t: Thread): (r: Pc<T>) {
      if t in pcs then pcs[t] else Idle
    }

    function Moved(t: Thread, pc: Pc<T>): (r: Machine<T>) {
      this.(pcs := pcs[t := pc])
    }

    function Answered(t: Thread, run: nat, value: T): (r: Machine<T>) {
      Moved(t, Idle).(answers := answers + [Answer(t, run, value)])
    }
  }

  function Initial<T>(ttl: nat, seed: T, now: int): (r: Machine<T>) {
    Machine(ttl, seed, Shared(seed, now + ttl, false), map[], 0, map[], 0, [], [])
  }

  /** One atomic step of one thread; a step that its place in the call does not offer changes nothing. */
  function Step<T>(m: Machine<T>, t: Thread, action: Action<T>): (r: Machine<T>) {
    match (m.At(t), action)
    case (Idle, CheckFresh(now)) =>
      (match IfFresh(m.shared, now)
       case Some(value) => m.Answered(t, m.entryRun, value)
       case None => m.Moved(t, FoundStale))
    case (FoundStale, TryClaim) =>
      if m.shared.claimed then m.Moved(t, Refused)
      else m.Moved(t, Sourcing(m.started + 1)).(shared := m.shared.(claimed := true), started := m.started + 1)
    case (Refused, ReadStale) => m.Answered(t, m.entryRun, m.shared.value)
    case (Sourcing(run), Complete(value)) => m.Moved(t, Sourced(run, value)).(completed := m.completed[run := value])
    case (Sourcing(_), Abort) => m.Moved(t, Idle).(shared := m.shared.(claimed := false))
    case (Sourced(run, value), Publish(now)) =>
      m.Moved(t, HasPublished(run, value)).(
        shared := Published(m.shared, value, now + m.ttl), entryRun := run, published := m.published + [run])
    case (HasPublished(run, value), Finish) => m.Answered(t, run, value).(shared := m.shared.(claimed := false))
    case _ => m
  }

  datatype Move<T> = Move(thread: Thread, action: Action<T>)

  function Run<T>(m: Machine<T>, moves: seq<Move<T>>): (r: Machine<T>) {
    if moves == [] then m
    else
      var n := |moves| - 1;
      Step(Run(m, moves[..n]), moves[n].thread, moves[n].action)
  }

  // ---------------------------------------------------------------------------
  // What every interleaving keeps
  // ---------------------------------------------------------------------------

  predicate HoldsSlot<T>(pc: Pc<T>) {
    pc.Sourcing? || pc.Sourced? || pc.HasPublished?
  }

  ghost predicate SlotOwned<T>(m: Machine<T>) {
    && (forall t :: HoldsSlot(m.At(t)) ==> m.shared.claimed)
    && (m.shared.claimed ==> exists t :: HoldsSlot(m.At(t)))
    && (forall t, u :: HoldsSlot(m.At(t)) && HoldsSlot(m.At(u)) ==> t == u)
  }

  /** The run of the slot holder is the latest one, and is published exactly when the thread says so. */
  ghost predicate RunsInOrder<T>(m: Machine<T>) {
    && m.entryRun <= m.started
    && (forall t :: m.At(t).Sourcing? ==>
          m.At(t).run == m.started && m.entryRun < m.started && m.started !in m.completed)
    && (forall t :: m.At(t).Sourced? ==>
          m.At(t).run == m.started && m.entryRun < m.started &&
          m.started in m.completed && m.completed[m.started] == m.At(t).value)
    && (forall t :: m.At(t).HasPublished? ==>
          m.At(t).run == m.started && m.entryRun == m.started && m.At(t).value == m.shared.value)
    && (forall run :: run in m.completed ==> 0 < run <= m.started)
  }

  /** A value with its run is the seed or what that run of the source returned. */
  ghost predicate Genuine<T>(m: Machine<T>, run: nat, value: T) {
    if run == 0 then value == m.seed else run in m.completed && m.completed[run] == value
  }

  ghost predicate AllGenuine<T>(m: Machine<T>) {
    && Genuine(m, m.entryRun, m.shared.value)
    && forall i :: 0 <= i < |m.answers| ==> Genuine(m, m.answers[i].run, m.answers[i].value)
  }

  ghost predicate InRunOrder<T>(m: Machine<T>) {
    && (forall i :: 0 <= i < |m.answers| ==> m.answers[i].run <= m.entryRun)
    && (forall i, j :: 0 <= i < j < |m.answers| ==> m.answers[i].run <= m.answers[j].run)
    && (forall i :: 0 <= i < |m.published| ==> m.published[i] <= m.entryRun)
    && (forall i, j :: 0 <= i < j < |m.published| ==> m.published[i] < m.published[j])
  }

  ghost predicate Good<T>(m: Machine<T>) {
    SlotOwned(m) && RunsInOrder(m) && AllGenuine(m) && InRunOrder(m)
  }

  lemma OthersStay<T>(m: Machine<T>, t: Thread, action: Action<T>, u: Thread)
    requires u != t
    ensures Step(m, t, action).At(u) == m.At(u)
  {}

  lemma StepKeepsSlotOwned<T>(m: Machine<T>, t: Thread, action: Action<T>)
    requires SlotOwned(m)
    ensures SlotOwned(Step(m, t, action))
  {
    var m' := Step(m, t, action);
    forall u | u != t { OthersStay(m, t, action, u); }
    if m'.shared.claimed {
      var owner :| HoldsSlot(if m.shared.claimed then m.At(owner) else m'.At(owner));
      assert HoldsSlot(m'.At(owner)) || HoldsSlot(m'.At(t));
    }
  }

  lemma StepKeepsRunsInOrder<T>(m: Machine<T>, t: Thread, action: Action<T>)
    requires SlotOwned(m) && RunsInOrder(m)
    ensures RunsInOrder(Step(m, t, action))
  {
    forall u | u != t { OthersStay(m, t, action, u); }
    assert HoldsSlot(m.At(t)) ==> forall u :: u != t ==> !HoldsSlot(m.At(u));
  }

  lemma StepKeepsGenuine<T>(m: Machine<T>, t: Thread, action: Action<T>)
    requires RunsInOrder(m) && AllGenuine(m)
    ensures AllGenuine(Step(m, t, action))
  {}

  lemma StepKeepsInRunOrder<T>(m: Machine<T>, t: Thread, action: Action<T>)
    requires RunsInOrder(m) && InRunOrder(m)
    ensures InRunOrder(Step(m, t, action))
  {}

  lemma {:induction false} RunIsGood<T>(ttl: nat, seed: T, now: int, moves: seq<Move<T>>)
    ensures Good(Run(Initial(ttl, seed, now), moves))
  {
    if moves != [] {
      var n := |moves| - 1;
      RunIsGood(ttl, seed, now, moves[..n]);
      var m := Run(Initial(ttl, seed, now), moves[..n]);
      StepKeepsSlotOwned(m, moves[n].thread, moves[n].action);
      StepKeepsRunsInOrder(m, moves[n].thread, moves[n].action);
      StepKeepsGenuine(m, moves[n].thread, moves[n].action);
      StepKeepsInRunOrder(m, moves[n].thread, moves[n].action);
    }
  }

  /** Single flight: in every interleaving at most one source is running. */
  lemma SingleFlight<T>(ttl: nat, seed: T, now: int, moves: seq<Move<T>>, t: Thread, u: Thread)
    ensures var m := Run(Initial(ttl, seed, now), moves);
      m.At(t).Sourcing? && m.At(u).Sourcing? ==> t == u
  {
    RunIsGood(ttl, seed, now, moves);
  }

  /**
   Every answer is the seed or the result of a completed source run, the answers of all threads
   together never go back to an earlier run, and the runs are published in the order they started.
   */
  lemma AnswersNeverGoBack<T>(ttl: nat, seed: T, now: int, moves: seq<Move<T>>, i: nat, j: nat)
    ensures var m := Run(Initial(ttl, seed, now), moves);
      && (i < |m.answers| ==> Genuine(m, m.answers[i].run, m.answers[i].value))
      && (i < j < |m.answers| ==> m.answers[i].run <= m.answers[j].run)
      && (i < j < |m.published| ==> m.published[i] < m.published[j])
  {
    RunIsGood(ttl, seed, now, moves);
  }

  // ---------------------------------------------------------------------------
  // Nobody but the slot holder waits for a source
  // ---------------------------------------------------------------------------

  /** The next step of a thread that does not hold the slot. */
  function NextAction<T>(pc: Pc<T>, now: int): (r: Action<T>)
    requires !HoldsSlot(pc)
  {
    match pc
    case Idle => CheckFresh(now)
    case FoundStale => TryClaim
    case Refused => ReadStale
  }

  function StepsLeft<T>(pc: Pc<T>): (n: nat) {
    match pc
    case Idle => 3
    case FoundStale => 2
    case Refused => 1
    case _ => 0
  }

  /** A thread does its own steps in order, whatever the others do in between. */
  ghost predicate KeepsStepping<T>(m: Machine<T>, t: Thread, moves: seq<Move<T>>) {
    forall i :: 0 <= i < |moves| && moves[i].thread == t ==>
      var pc := Run(m, moves[..i]).At(t);
      !HoldsSlot(pc) ==> exists now :: moves[i].action == NextAction(pc, now)
  }

  function OwnSteps<T>(t: Thread, moves: seq<Move<T>>): (n: nat) {
    if moves == [] then 0
    else OwnSteps(t, moves[..|moves| - 1]) + (if moves[|moves| - 1].thread == t then 1 else 0)
  }

  ghost predicate HeldSlot<T>(m: Machine<T>, t: Thread, moves: seq<Move<T>>) {
    exists i :: 0 <= i <= |moves| && HoldsSlot(Run(m, moves[..i]).At(t))
  }

  ghost predicate NewAnswer<T>(before: seq<Answer<T>>, after: seq<Answer<T>>, t: Thread) {
    exists i :: |before| <= i < |after| && after[i].thread == t
  }

  /** The thread got an answer during the moves, or claimed the slot. */
  ghost predicate Served<T>(m: Machine<T>, t: Thread, moves: seq<Move<T>>) {
    HeldSlot(m, t, moves) || NewAnswer(m.answers, Run(m, moves).answers, t)
  }

  lemma AnswersOnlyGrow<T>(m: Machine<T>, t: Thread, action: Action<T>)
    ensures m.answers <= Step(m, t, action).answers
  {}

  /**
   A thread that starts a call without the slot is answered, or becomes the refresher itself, within
   three steps of its own; no step of any other thread, running source or panic, can delay it.
   */
  lemma {:induction false} OnlyTheRefresherWaits<T>(m: Machine<T>, t: Thread, moves: seq<Move<T>>)
    requires !HoldsSlot(m.At(t)) && KeepsStepping(m, t, moves)
    ensures m.answers <= Run(m, moves).answers
    ensures Served(m, t, moves) || StepsLeft(Run(m, moves).At(t)) + OwnSteps(t, moves) == StepsLeft(m.At(t))
    ensures OwnSteps(t, moves) >= 3 ==> Served(m, t, moves)
  {
    assert moves[..|moves|] == moves;
    if moves != [] {
      var n := |moves| - 1;
      var init, before, last := moves[..n], Run(m, moves[..n]), moves[n];
      forall i | 0 <= i <= n ensures init[..i] == moves[..i] {}
      OnlyTheRefresherWaits(m, t, init);
      AnswersOnlyGrow(before, last.thread, last.action);
      if Served(m, t, init) {
        ServedStays(m, t, moves);
      } else if last.thread != t {
        OthersStay(before, last.thread, last.action, t);
      } else {
        assert init[..n] == init && !HoldsSlot(before.At(t));
        var now :| last.action == NextAction(before.At(t), now);
        StepIsProgress(m, t, moves, now);
      }
    }
  }

  lemma HeldSlotStays<T>(m: Machine<T>, t: Thread, moves: seq<Move<T>>, n: nat)
    requires n <= |moves| && HeldSlot(m, t, moves[..n])
    ensures HeldSlot(m, t, moves)
  {
    var i :| 0 <= i <= n && HoldsSlot(Run(m, moves[..n][..i]).At(t));
    assert moves[..n][..i] == moves[..i];
  }

  lemma NewAnswerStays<T>(before: seq<Answer<T>>, after: seq<Answer<T>>, later: seq<Answer<T>>, t: Thread)
    requires NewAnswer(before, after, t) && after <= later
    ensures NewAnswer(before, later, t)
  {
    var i :| |before| <= i < |after| && after[i].thread == t;
    assert later[i] == after[i];
  }

  lemma ServedStays<T>(m: Machine<T>, t: Thread, moves: seq<Move<T>>)
    requires moves != [] && Served(m, t, moves[..|moves| - 1])
    requires Run(m, moves[..|moves| - 1]).answers <= Run(m, moves).answers
    ensures Served(m, t, moves)
  {
    var n := |moves| - 1;
    if HeldSlot(m, t, moves[..n]) {
      HeldSlotStays(m, t, moves, n);
    } else {
      NewAnswerStays(m.answers, Run(m, moves[..n]).answers, Run(m, moves).answers, t);
    }
  }

  lemma StepIsProgress<T>(m: Machine<T>, t: Thread, moves: seq<Move<T>>, now: int)
    requires moves != [] && moves[|moves| - 1].thread == t
    requires var before := Run(m, moves[..|moves| - 1]);
      !HoldsSlot(before.At(t)) && m.answers <= before.answers && moves[|moves| - 1].action == NextAction(before.At(t), now)
    ensures Served(m, t, moves) || StepsLeft(Run(m, moves).At(t)) + 1 == StepsLeft(Run(m, moves[..|moves| - 1]).At(t))
  {
    var before, after := Run(m, moves[..|moves| - 1]), Run(m, moves);
    if |after.answers| > |before.answers| {
      assert after.answers[|before.answers|].thread == t;
    } else if HoldsSlot(after.At(t)) {
      assert moves[..|moves|] == moves;
    }
  }

  /** A source that panics leaves the entry as it was and the slot free for the next caller. */
  lemma PanicFreesTheSlot<T>(ttl: nat, seed: T, now: int, moves: seq<Move<T>>, t: Thread, u: Thread)
    requires Run(Initial(ttl, seed, now), moves).At(t).Sourcing?
    requires Run(Initial(ttl, seed, now), moves).At(u).FoundStale?
    ensures var m := Run(Initial(ttl, seed, now), moves);
      var after := Step(m, t, Abort);
      && after.shared == m.shared.(claimed := false)
      && (forall other :: !HoldsSlot(after.At(other)))
      && Step(after, u, TryClaim).At(u) == Sourcing(m.started + 1)
  {
    RunIsGood(ttl, seed, now, moves);
    var m := Run(Initial(ttl, seed, now), moves);
    forall other | other != t { OthersStay(m, t, Abort, other); }
  }

  // ---------------------------------------------------------------------------
  // Each step is one operation, and a fresh check ends the call
  // ---------------------------------------------------------------------------

  /** A check of a fresh entry answers with its value and run at once; nobody gets nearer to the slot. */
  lemma FreshCheckIsAnswered<T>(m: Machine<T>, t: Thread, now: int)
    requires m.At(t).Idle? && now < m.shared.expiresAt
    ensures var after := Step(m, t, CheckFresh(now));
      && after.answers == m.answers + [Answer(t, m.entryRun, m.shared.value)]
      && after.shared == m.shared && after.started == m.started && after.completed == m.completed
      && after.published == m.published && after.entryRun == m.entryRun
      && forall u :: after.At(u) == m.At(u)
  {}

  /** What a step does to the shared fields is what the operation of the class does. */
  lemma StepIsTheOperation<T>(m: Machine<T>, t: Thread, action: Action<T>)
    ensures Step(m, t, action).shared ==
            match (m.At(t), action)
            case (FoundStale, TryClaim) => m.shared.(claimed := true)
            case (Sourced(_, value), Publish(now)) => Shared(value, now + m.ttl, m.shared.claimed)
            case (Sourcing(_), Abort) => m.shared.(claimed := false)
            case (HasPublished(_, _), Finish) => m.shared.(claimed := false)
            case _ => m.shared
    ensures Step(m, t, action).answers ==
            m.answers +
            match (m.At(t), action)
            case (Idle, CheckFresh(now)) => if now < m.shared.expiresAt then [Answer(t, m.entryRun, m.shared.value)] else []
            case (Refused, ReadStale) => [Answer(t, m.entryRun, m.shared.value)]
            case (HasPublished(run, value), Finish) => [Answer(t, run, value)]
            case _ => []
    ensures (Step(m, t, action).At(t).Sourcing? && !m.At(t).Sourcing?) <==>
            m.At(t).FoundStale? && action.TryClaim? && !m.shared.claimed
  {}

  /** The i-th move is a check of the thread that found the entry stale. */
  ghost predicate FoundStaleAt<T>(m: Machine<T>, moves: seq<Move<T>>, t: Thread, i: nat) {
    && i < |moves| && moves[i].thread == t && moves[i].action.CheckFresh?
    && Run(m, moves[..i]).At(t).Idle? && Run(m, moves[..i]).shared.expiresAt <= moves[i].action.now
  }

  /** The call that the thread began with the i-th move goes on. */
  ghost predicate GoesOnSince<T>(m: Machine<T>, moves: seq<Move<T>>, t: Thread, i: nat) {
    forall k :: i < k <= |moves| ==> !Run(m, moves[..k]).At(t).Idle?
  }

  ghost predicate StaleSince<T>(m: Machine<T>, moves: seq<Move<T>>, t: Thread, i: nat) {
    FoundStaleAt(m, moves, t, i) && GoesOnSince(m, moves, t, i)
  }

  lemma FoundStaleStays<T>(m: Machine<T>, moves: seq<Move<T>>, t: Thread, i: nat, n: nat)
    requires n <= |moves| && FoundStaleAt(m, moves[..n], t, i)
    ensures FoundStaleAt(m, moves, t, i)
  {
    assert moves[..n][..i] == moves[..i];
  }

  lemma GoesOnStill<T>(m: Machine<T>, moves: seq<Move<T>>, t: Thread, i: nat, n: nat)
    requires |moves| == n + 1 && GoesOnSince(m, moves[..n], t, i) && !Run(m, moves).At(t).Idle?
    ensures GoesOnSince(m, moves, t, i)
  {
    forall k | i < k <= |moves| ensures !Run(m, moves[..k]).At(t).Idle? {
      if k == |moves| {
        assert moves[..k] == moves;
      } else {
        assert moves[..n][..k] == moves[..k];
      }
    }
  }

  lemma StaleSinceNow<T>(m: Machine<T>, moves: seq<Move<T>>, t: Thread)
    requires moves != []
    requires var before, last := Run(m, moves[..|moves| - 1]), moves[|moves| - 1];
      last.thread == t && before.At(t).Idle? && !Run(m, moves).At(t).Idle?
    ensures StaleSince(m, moves, t, |moves| - 1)
  {
    assert moves[..|moves|] == moves;
  }

  /**
   In every run, a thread that is past its check, and so every thread that runs a source, found the
   entry expired at its latest check: no call that finds a fresh value ever goes on to the source.
   */
  lemma {:induction false} OnlyStaleChecksGoOn<T>(ttl: nat, seed: T, now: int, moves: seq<Move<T>>, t: Thread)
    requires !Run(Initial(ttl, seed, now), moves).At(t).Idle?
    ensures exists i :: StaleSince(Initial(ttl, seed, now), moves, t, i)
  {
    var m := Initial(ttl, seed, now);
    var n := |moves| - 1;
    var before, last := Run(m, moves[..n]), moves[n];
    if !before.At(t).Idle? {
      OnlyStaleChecksGoOn(ttl, seed, now, moves[..n], t);
      var i :| StaleSince(m, moves[..n], t, i);
      FoundStaleStays(m, moves, t, i, n);
      GoesOnStill(m, moves, t, i, n);
      assert StaleSince(m, moves, t, i);
    } else {
      if last.thread != t {
        OthersStay(before, last.thread, last.action, t);
      }
      StaleSinceNow(m, moves, t);
    }
  }

  // ---------------------------------------------------------------------------
  // When a source runs although the entry is fresh
  // ---------------------------------------------------------------------------

  function TimeOf<T>(action: Action<T>): (time: Option<int>) {
    match action
    case CheckFresh(now) => Some(now)
    case Publish(now) => Some(now)
    case _ => None
  }

  /** The clock never goes back. */
  ghost predicate Clocked<T>(moves: seq<Move<T>>) {
    forall i, j :: 0 <= i < j < |moves| && TimeOf(moves[i].action).Some? && TimeOf(moves[j].action).Some? ==>
      TimeOf(moves[i].action).value <= TimeOf(moves[j].action).value
  }

  /** The deadline that the k-th move gives the entry, if it publishes. */
  ghost function DeadlineOf<T>(m: Machine<T>, moves: seq<Move<T>>, k: nat): (deadline: Option<int>)
    requires k < |moves|
  {
    if moves[k].action.Publish? && Run(m, moves[..k]).At(moves[k].thread).Sourced? then Some(moves[k].action.now + m.ttl)
    else None
  }

  ghost function Deadlines<T>(m: Machine<T>, moves: seq<Move<T>>): (deadlines: seq<Option<int>>)
    ensures |deadlines| == |moves|
    ensures forall k :: 0 <= k < |moves| ==> deadlines[k] == DeadlineOf(m, moves, k)
  {
    seq(|moves|, k requires 0 <= k < |moves| => DeadlineOf(m, moves, k))
  }

  ghost function Expiries<T>(m: Machine<T>, moves: seq<Move<T>>): (expiries: seq<int>)
    ensures |expiries| == |moves| + 1
    ensures forall k :: 0 <= k <= |moves| ==> expiries[k] == Run(m, moves[..k]).shared.expiresAt
  {
    seq(|moves| + 1, k requires 0 <= k <= |moves| => Run(m, moves[..k]).shared.expiresAt)
  }

  /** Some move strictly between i and j publishes with a deadline beyond `now`. */
  ghost predicate PublishedBeyond(deadlines: seq<Option<int>>, i: nat, j: nat, now: int) {
    exists k :: i < k < j <= |deadlines| && deadlines[k].Some? && now < deadlines[k].value
  }

  ghost predicate PublishedBetween(deadlines: seq<Option<int>>, i: nat, j: nat) {
    exists k :: i < k < j <= |deadlines| && deadlines[k].Some?
  }

  ghost predicate Ascend(deadlines: seq<Option<int>>) {
    forall i, j :: 0 <= i < j < |deadlines| && deadlines[i].Some? && deadlines[j].Some? ==>
      deadlines[i].value <= deadlines[j].value
  }

  /** The expiry after a move is the deadline it publishes, or else the expiry before it. */
  ghost predicate Follows(expiries: seq<int>, deadlines: seq<Option<int>>) {
    |expiries| == |deadlines| + 1 &&
    forall k :: 0 <= k < |deadlines| ==>
      expiries[k + 1] == match deadlines[k] case Some(deadline) => deadline case None => expiries[k]
  }

  lemma {:induction false} LastDeadline(expiries: seq<int>, deadlines: seq<Option<int>>, i: nat, j: nat, now: int)
    requires Follows(expiries, deadlines) && Ascend(deadlines)
    requires i < j <= |deadlines| && deadlines[i].None? && expiries[i] <= now
    ensures now < expiries[j] <==> PublishedBeyond(deadlines, i, j, now)
  {
    var last := j - 1;
    assert expiries[last + 1] == match deadlines[last] case Some(deadline) => deadline case None => expiries[last];
    if last > i {
      LastDeadline(expiries, deadlines, i, last, now);
    }
  }

  lemma {:induction false} TtlIsFixed<T>(m: Machine<T>, moves: seq<Move<T>>)
    ensures Run(m, moves).ttl == m.ttl
  {
    if moves != [] {
      TtlIsFixed(m, moves[..|moves| - 1]);
    }
  }

  lemma RunOneMore<T>(m: Machine<T>, moves: seq<Move<T>>, k: nat)
    requires k < |moves|
    ensures Run(m, moves[..k + 1]) == Step(Run(m, moves[..k]), moves[k].thread, moves[k].action)
  {
    assert moves[..k + 1][..k] == moves[..k];
  }

  lemma ExpiriesFollow<T>(m: Machine<T>, moves: seq<Move<T>>)
    requires Clocked(moves)
    ensures Follows(Expiries(m, moves), Deadlines(m, moves)) && Ascend(Deadlines(m, moves))
  {
    forall k | 0 <= k < |moves|
      ensures Expiries(m, moves)[k + 1] ==
              match Deadlines(m, moves)[k] case Some(deadline) => deadline case None => Expiries(m, moves)[k]
    {
      RunOneMore(m, moves, k);
      TtlIsFixed(m, moves[..k]);
    }
    var deadlines := Deadlines(m, moves);
    forall i, j | 0 <= i < j < |deadlines| && deadlines[i].Some? && deadlines[j].Some?
      ensures deadlines[i].value <= deadlines[j].value
    {
      assert TimeOf(moves[i].action).value <= TimeOf(moves[j].action).value;
    }
  }

  /** With a positive time to live, whatever is published after a check is beyond it. */
  lemma LaterIsBeyond<T>(m: Machine<T>, moves: seq<Move<T>>, i: nat, j: nat, now: int)
    requires i < j <= |moves| && Clocked(moves) && moves[i].action == CheckFresh(now) && m.ttl > 0
    ensures PublishedBetween(Deadlines(m, moves), i, j) ==> PublishedBeyond(Deadlines(m, moves), i, j, now)
  {
    var deadlines := Deadlines(m, moves);
    if k :| i < k < j && deadlines[k].Some? {
      assert TimeOf(moves[i].action).value <= TimeOf(moves[k].action).value;
      assert now < deadlines[k].value;
    }
  }

  lemma FreshAgain<T>(m: Machine<T>, moves: seq<Move<T>>, i: nat, j: nat, now: int)
    requires i < j <= |moves| && Clocked(moves) && moves[i].action == CheckFresh(now)
    requires Run(m, moves[..i]).shared.expiresAt <= now
    ensures now < Run(m, moves[..j]).shared.expiresAt <==> PublishedBeyond(Deadlines(m, moves), i, j, now)
  {
    ExpiriesFollow(m, moves);
    LastDeadline(Expiries(m, moves), Deadlines(m, moves), i, j, now);
  }

  lemma ClaimStarts<T>(m: Machine<T>, t: Thread)
    requires m.At(t).FoundStale? && !m.shared.claimed
    ensures Step(m, t, TryClaim).At(t).Sourcing? && Step(m, t, TryClaim).shared.expiresAt == m.shared.expiresAt
  {}

  /**
   A thread that found the entry stale and later claims the slot starts a source on an entry that is
   fresh by its own check if and only if a run was published in between whose deadline lies beyond
   that check; with a positive time to live, if and only if any run was published in between.
   */
  lemma SourceOnFreshEntry<T>(m: Machine<T>, moves: seq<Move<T>>, t: Thread, i: nat, j: nat, now: int)
    requires i < j < |moves| && Clocked(moves)
    requires moves[i] == Move(t, CheckFresh(now)) && moves[j] == Move(t, TryClaim)
    requires Run(m, moves[..i]).shared.expiresAt <= now
    requires Run(m, moves[..j]).At(t).FoundStale? && !Run(m, moves[..j]).shared.claimed
    ensures Run(m, moves[..j + 1]).At(t).Sourcing?
    ensures now < Run(m, moves[..j + 1]).shared.expiresAt <==> PublishedBeyond(Deadlines(m, moves), i, j, now)
    ensures m.ttl > 0 ==>
              (now < Run(m, moves[..j + 1]).shared.expiresAt <==> PublishedBetween(Deadlines(m, moves), i, j))
  {
    FreshAgain(m, moves, i, j, now);
    RunOneMore(m, moves, j);
    ClaimStarts(Run(m, moves[..j]), t);
    BeyondIsBetween(Deadlines(m, moves), i, j, now);
    if m.ttl > 0 {
      LaterIsBeyond(m, moves, i, j, now);
    }
  }

  lemma BeyondIsBetween(deadlines: seq<Option<int>>, i: nat, j: nat, now: int)
    ensures PublishedBeyond(deadlines, i, j, now) ==> PublishedBetween(deadlines, i, j)
  {}

  const TWICE: seq<Move<int>> := [
    Move(1, CheckFresh(20)), Move(2, CheckFresh(20)), Move(1, TryClaim), Move(1, Complete(7)),
    Move(1, Publish(21)), Move(1, Finish), Move(2, TryClaim)]

  const BOTH_STALE: Machine<int> := Initial(10, 0, 0).(pcs := map[1 := FoundStale, 2 := FoundStale])
  const RAN_ONCE: Machine<int> :=
    Machine(10, 0, Shared(7, 31, false), map[1 := Idle, 2 := FoundStale], 1, map[1 := 7], 1, [1], [Answer(1, 1, 7)])

  lemma BothFindItStale()
    ensures Run(Initial(10, 0, 0), TWICE[..2]) == BOTH_STALE
  {
    assert TWICE[..0] == [];
    RunOneMore(Initial(10, 0, 0), TWICE, 0);
    RunOneMore(Initial(10, 0, 0), TWICE, 1);
    assert Initial(10, 0, 0).Moved(1, FoundStale).Moved(2, FoundStale) == BOTH_STALE;
  }

  lemma FirstRun()
    ensures Step(Step(Step(Step(BOTH_STALE, 1, TryClaim), 1, Complete(7)), 1, Publish(21)), 1, Finish) == RAN_ONCE
  {
    var claimed := BOTH_STALE.(pcs := map[1 := Sourcing(1), 2 := FoundStale], shared := Shared(0, 10, true), started := 1);
    var sourced := claimed.(pcs := map[1 := Sourced(1, 7), 2 := FoundStale], completed := map[1 := 7]);
    assert Step(BOTH_STALE, 1, TryClaim) == claimed;
    assert Step(claimed, 1, Complete(7)) == sourced;
    FirstPublishes(sourced);
  }

  lemma FirstPublishes(sourced: Machine<int>)
    requires sourced == Machine(10, 0, Shared(0, 10, true), map[1 := Sourced(1, 7), 2 := FoundStale], 1, map[1 := 7], 0, [], [])
    ensures Step(Step(sourced, 1, Publish(21)), 1, Finish) == RAN_ONCE
  {
    var published := sourced.(pcs := map[1 := HasPublished(1, 7), 2 := FoundStale], shared := Shared(7, 31, true),
                              entryRun := 1, published := [1]);
    assert Step(sourced, 1, Publish(21)) == published;
  }

  function StepBy<T>(m: Machine<T>, move: Move<T>): (after: Machine<T>) {
    Step(m, move.thread, move.action)
  }

  lemma RunFourMore<T>(m: Machine<T>, moves: seq<Move<T>>, k: nat)
    requires k + 4 <= |moves|
    ensures Run(m, moves[..k + 4]) ==
            StepBy(StepBy(StepBy(StepBy(Run(m, moves[..k]), moves[k]), moves[k + 1]), moves[k + 2]), moves[k + 3])
  {
    RunOneMore(m, moves, k);
    RunOneMore(m, moves, k + 1);
    RunOneMore(m, moves, k + 2);
    RunOneMore(m, moves, k + 3);
  }

  lemma FirstRefreshes()
    ensures Run(Initial(10, 0, 0), TWICE[..6]) == RAN_ONCE
  {
    BothFindItStale();
    RunFourMore(Initial(10, 0, 0), TWICE, 2);
    FirstRun();
  }

  /** Two threads find the entry stale at 20; the second runs its source on an entry fresh until 31. */
  lemma RefreshedTwice()
    ensures var m := Run(Initial(10, 0, 0), TWICE);
      m.At(2).Sourcing? && IfFresh(m.shared, 20) == Some(7) && m.shared.expiresAt == 31
  {
    FirstRefreshes();
    RunOneMore(Initial(10, 0, 0), TWICE, 6);
    assert TWICE[..7] == TWICE;
  }
}
