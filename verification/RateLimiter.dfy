/** The sliding-window rate limiter for connections, against the full history of its admissions. */
module RateLimit {

  datatype Entry = Entry(peer: nat, at: int)

  datatype Attempt = Attempt(peer: nat, now: int)

  predicate Counts(e: Entry, peer: nat, from: int, to: int) {
    e.peer == peer && from <= e.at <= to
  }

  /** The first n entries of a peer that lie in a closed interval of time, counted. */
  function CountUpTo(entries: seq<Entry>, n: nat, peer: nat, from: int, to: int): (count: nat)
    requires n <= |entries|
  {
    if n == 0 then 0
    else CountUpTo(entries, n - 1, peer, from, to) + if Counts(entries[n - 1], peer, from, to) then 1 else 0
  }

  function CountIn(entries: seq<Entry>, peer: nat, from: int, to: int): (count: nat) {
    CountUpTo(entries, |entries|, peer, from, to)
  }

  function OwnUpTo(entries: seq<Entry>, n: nat, peer: nat): (count: nat)
    requires n <= |entries|
  {
    if n == 0 then 0 else OwnUpTo(entries, n - 1, peer) + if entries[n - 1].peer == peer then 1 else 0
  }

  function CountOf(entries: seq<Entry>, peer: nat): (count: nat) {
    OwnUpTo(entries, |entries|, peer)
  }

  function Extended<T>(xs: seq<T>, wanted: bool, x: T): (longer: seq<T>) {
    if wanted then xs + [x] else xs
  }

  function SinceUpTo(entries: seq<Entry>, n: nat, cutoff: int): (recent: seq<Entry>)
    requires n <= |entries|
  {
    if n == 0 then [] else Extended(SinceUpTo(entries, n - 1, cutoff), entries[n - 1].at >= cutoff, entries[n - 1])
  }

  function Since(entries: seq<Entry>, cutoff: int): (recent: seq<Entry>) {
    SinceUpTo(entries, |entries|, cutoff)
  }

  datatype Outcome = Outcome(entries: seq<Entry>, admitted: bool)

  /** One attempt on the pruned entries. */
  function Attempted(entries: seq<Entry>, window: nat, threshold: nat, a: Attempt): (r: Outcome) {
    var recent := Since(entries, a.now - window);
    if CountOf(recent, a.peer) >= threshold then Outcome(recent, false)
    else Outcome(recent + [Entry(a.peer, a.now)], true)
  }

  class RateLimiter {
    const window: nat
    const threshold: nat
    var entries: seq<Entry>

    constructor (window: nat, threshold: nat)
      ensures this.window == window && this.threshold == threshold && entries == []
    {
      this.window, this.threshold, entries := window, threshold, [];
    }

    method CheckAndRecord(peer: nat, now: int) returns (allowed: bool)
      modifies this
      ensures Outcome(entries, allowed) == Attempted(old(entries), window, threshold, Attempt(peer, now))
    {
      var cutoff := now - window;
      var recent: seq<Entry> := [];
      var count := 0;
      for i := 0 to |entries|
        invariant entries == old(entries) && recent == SinceUpTo(entries, i, cutoff)
        invariant count == CountOf(recent, peer)
      {
        if entries[i].at >= cutoff {
          OneMoreOwn(recent, entries[i], peer);
          recent := recent + [entries[i]];
          if entries[i].peer == peer {
            count := count + 1;
          }
        }
      }
      entries := recent;
      if count >= threshold {
        return false;
      }
      entries := entries + [Entry(peer, now)];
      return true;
    }
  }

  // ---------------------------------------------------------------------------
  // Runs of the limiter, and the history that nothing is pruned from
  // ---------------------------------------------------------------------------

  /** All attempts so far, the latest one last. */
  datatype Attempts = Start | Then(earlier: Attempts, a: Attempt)

  datatype Limit = Limit(window: nat, threshold: nat)

  function Entries(limit: Limit, run: Attempts): (r: seq<Entry>) {
    match run
    case Start => []
    case Then(earlier, a) => Attempted(Entries(limit, earlier), limit.window, limit.threshold, a).entries
  }

  /** Whether the limiter admits an attempt after the earlier ones. */
  predicate Admits(limit: Limit, earlier: Attempts, a: Attempt) {
    Attempted(Entries(limit, earlier), limit.window, limit.threshold, a).admitted
  }

  /** Every admission ever made. */
  function History(limit: Limit, run: Attempts): (r: seq<Entry>) {
    match run
    case Start => []
    case Then(earlier, a) => Extended(History(limit, earlier), Admits(limit, earlier, a), Entry(a.peer, a.now))
  }

  predicate NotAfter(run: Attempts, now: int) {
    run.Then? ==> run.a.now <= now
  }

  /** The clock never goes back. */
  predicate Monotone(run: Attempts) {
    match run
    case Start => true
    case Then(earlier, a) => Monotone(earlier) && NotAfter(earlier, a.now)
  }

  lemma {:induction false} OwnUpToStays(entries: seq<Entry>, e: Entry, n: nat, peer: nat)
    requires n <= |entries|
    ensures OwnUpTo(entries + [e], n, peer) == OwnUpTo(entries, n, peer)
  {
    if n > 0 {
      OwnUpToStays(entries, e, n - 1, peer);
    }
  }

  lemma OneMoreOwn(entries: seq<Entry>, e: Entry, peer: nat)
    ensures CountOf(entries + [e], peer) == CountOf(entries, peer) + if e.peer == peer then 1 else 0
  {
    OwnUpToStays(entries, e, |entries|, peer);
  }

  lemma {:induction false} CountUpToStays(entries: seq<Entry>, e: Entry, n: nat, peer: nat, from: int, to: int)
    requires n <= |entries|
    ensures CountUpTo(entries + [e], n, peer, from, to) == CountUpTo(entries, n, peer, from, to)
  {
    if n > 0 {
      CountUpToStays(entries, e, n - 1, peer, from, to);
    }
  }

  lemma OneMoreCounted(entries: seq<Entry>, e: Entry, peer: nat, from: int, to: int)
    ensures CountIn(entries + [e], peer, from, to) == CountIn(entries, peer, from, to) + if Counts(e, peer, from, to) then 1 else 0
  {
    CountUpToStays(entries, e, |entries|, peer, from, to);
  }

  lemma {:induction false} SinceUpToStays(entries: seq<Entry>, e: Entry, n: nat, cutoff: int)
    requires n <= |entries|
    ensures SinceUpTo(entries + [e], n, cutoff) == SinceUpTo(entries, n, cutoff)
  {
    if n > 0 {
      SinceUpToStays(entries, e, n - 1, cutoff);
    }
  }

  lemma OneMoreSince(entries: seq<Entry>, e: Entry, cutoff: int)
    ensures Since(entries + [e], cutoff) == Extended(Since(entries, cutoff), e.at >= cutoff, e)
  {
    SinceUpToStays(entries, e, |entries|, cutoff);
  }

  lemma {:induction false} SinceTwice(entries: seq<Entry>, n: nat, early: int, late: int)
    requires n <= |entries| && early <= late
    ensures Since(SinceUpTo(entries, n, early), late) == SinceUpTo(entries, n, late)
  {
    if n > 0 {
      SinceTwice(entries, n - 1, early, late);
      OneMoreSince(SinceUpTo(entries, n - 1, early), entries[n - 1], late);
    }
  }

  lemma {:induction false} SinceCounts(entries: seq<Entry>, n: nat, peer: nat, from: int, to: int)
    requires n <= |entries| && Past(entries, to)
    ensures CountOf(SinceUpTo(entries, n, from), peer) == CountUpTo(entries, n, peer, from, to)
  {
    if n > 0 {
      SinceCounts(entries, n - 1, peer, from, to);
      OneMoreOwn(SinceUpTo(entries, n - 1, from), entries[n - 1], peer);
    }
  }

  lemma {:induction false} HistoryIsPast(limit: Limit, run: Attempts, now: int)
    requires Monotone(run) && NotAfter(run, now)
    ensures Past(History(limit, run), now)
  {
    if run.Then? {
      HistoryIsPast(limit, run.earlier, run.a.now);
    }
  }

  /** Pruning after one more attempt: both sides gain the same entry. */
  lemma OneMorePruned(recent: seq<Entry>, history: seq<Entry>, e: Entry, admitted: bool, early: int, late: int)
    requires early <= late && recent == Since(history, early)
    ensures Since(Extended(recent, admitted, e), late) == Since(Extended(history, admitted, e), late)
  {
    SinceTwice(history, |history|, early, late);
    OneMoreSince(recent, e, late);
    OneMoreSince(history, e, late);
  }

  /** Pruning the entries for a new attempt leaves exactly the part of the full history in its window. */
  lemma {:induction false} EntriesAreTheRecentHistory(limit: Limit, run: Attempts, now: int)
    requires Monotone(run) && NotAfter(run, now)
    ensures Since(Entries(limit, run), now - limit.window) == Since(History(limit, run), now - limit.window)
  {
    if run.Then? {
      var a, early := run.a, run.a.now - limit.window;
      EntriesAreTheRecentHistory(limit, run.earlier, a.now);
      OneMorePruned(Since(Entries(limit, run.earlier), early), History(limit, run.earlier), Entry(a.peer, a.now),
                    Admits(limit, run.earlier, a), early, now - limit.window);
    }
  }

  ghost predicate Past(entries: seq<Entry>, now: int) {
    forall i :: 0 <= i < |entries| ==> entries[i].at <= now
  }

  lemma SameRecentSameCount(entries: seq<Entry>, history: seq<Entry>, peer: nat, from: int, now: int)
    requires Since(entries, from) == Since(history, from) && Past(history, now)
    ensures CountOf(Since(entries, from), peer) == CountIn(history, peer, from, now)
  {
    SinceCounts(history, |history|, peer, from, now);
  }

  /** What the pruned entries count for a peer is what the full history counts in the window. */
  lemma RecentCounts(limit: Limit, run: Attempts, peer: nat, now: int)
    requires Monotone(run) && NotAfter(run, now)
    ensures CountOf(Since(Entries(limit, run), now - limit.window), peer) ==
            CountIn(History(limit, run), peer, now - limit.window, now)
  {
    EntriesAreTheRecentHistory(limit, run, now);
    HistoryIsPast(limit, run, now);
    SameRecentSameCount(Entries(limit, run), History(limit, run), peer, now - limit.window, now);
  }

  /**
   Exactness: an attempt is admitted if and only if its own peer has fewer than `threshold`
   admissions in the window that ends now. Nothing else plays a role.
   */
  lemma AdmissionIsExact(limit: Limit, run: Attempts, a: Attempt)
    requires Monotone(Then(run, a))
    ensures Admits(limit, run, a) <==>
            CountIn(History(limit, run), a.peer, a.now - limit.window, a.now) < limit.threshold
  {
    RecentCounts(limit, run, a.peer, a.now);
  }

  lemma {:induction false} WiderCountsMore(entries: seq<Entry>, n: nat, peer: nat, from: int, to: int, wideFrom: int, wideTo: int)
    requires n <= |entries| && wideFrom <= from && Past(entries, wideTo)
    ensures CountUpTo(entries, n, peer, from, to) <= CountUpTo(entries, n, peer, wideFrom, wideTo)
  {
    if n > 0 {
      WiderCountsMore(entries, n - 1, peer, from, to, wideFrom, wideTo);
    }
  }

  lemma OneMoreFits(limit: Limit, history: seq<Entry>, e: Entry, peer: nat, from: int)
    requires Past(history, e.at) && CountIn(history, e.peer, e.at - limit.window, e.at) < limit.threshold
    requires CountIn(history, peer, from, from + limit.window) <= limit.threshold
    ensures CountIn(history + [e], peer, from, from + limit.window) <= limit.threshold
  {
    OneMoreCounted(history, e, peer, from, from + limit.window);
    if Counts(e, peer, from, from + limit.window) {
      WiderCountsMore(history, |history|, peer, from, from + limit.window, e.at - limit.window, e.at);
    }
  }

  /** The bound: no closed interval as long as the window holds more than `threshold` admissions of a peer. */
  lemma {:induction false} NoIntervalExceedsTheThreshold(limit: Limit, run: Attempts, peer: nat, from: int)
    requires Monotone(run)
    ensures CountIn(History(limit, run), peer, from, from + limit.window) <= limit.threshold
  {
    if run.Then? {
      var earlier, a := run.earlier, run.a;
      NoIntervalExceedsTheThreshold(limit, earlier, peer, from);
      AdmissionIsExact(limit, earlier, a);
      HistoryIsPast(limit, earlier, a.now);
      if Admits(limit, earlier, a) {
        OneMoreFits(limit, History(limit, earlier), Entry(a.peer, a.now), peer, from);
      }
    }
  }

  // ---------------------------------------------------------------------------
  // Peers do not affect each other
  // ---------------------------------------------------------------------------

  /** The attempts of one peer alone. */
  function Own(run: Attempts, peer: nat): (r: Attempts) {
    match run
    case Start => Start
    case Then(earlier, a) => if a.peer == peer then Then(Own(earlier, peer), a) else Own(earlier, peer)
  }

  lemma {:induction false} OwnIsMonotone(run: Attempts, peer: nat, now: int)
    requires Monotone(run) && NotAfter(run, now)
    ensures Monotone(Own(run, peer)) && NotAfter(Own(run, peer), now)
  {
    if run.Then? {
      OwnIsMonotone(run.earlier, peer, run.a.now);
    }
  }

  /** The number of admissions in an interval after one more attempt. */
  lemma NextCount(limit: Limit, run: Attempts, a: Attempt, peer: nat, from: int, to: int)
    requires Monotone(Then(run, a))
    ensures CountIn(History(limit, Then(run, a)), peer, from, to) ==
            CountIn(History(limit, run), peer, from, to) +
            if Counts(Entry(a.peer, a.now), peer, from, to)
               && CountIn(History(limit, run), a.peer, a.now - limit.window, a.now) < limit.threshold then 1 else 0
  {
    AdmissionIsExact(limit, run, a);
    OneMoreCounted(History(limit, run), Entry(a.peer, a.now), peer, from, to);
  }

  /** A peer's admissions are what a limiter of its own, seeing only its attempts, would have made. */
  lemma {:induction false} PeersAreIsolated(limit: Limit, run: Attempts, peer: nat, from: int, to: int)
    requires Monotone(run)
    ensures CountIn(History(limit, run), peer, from, to) == CountIn(History(limit, Own(run, peer)), peer, from, to)
  {
    if run.Then? {
      var earlier, a := run.earlier, run.a;
      PeersAreIsolated(limit, earlier, peer, from, to);
      NextCount(limit, earlier, a, peer, from, to);
      if a.peer == peer {
        var own := Own(earlier, peer);
        OwnIsMonotone(earlier, peer, a.now);
        NextCount(limit, own, a, peer, from, to);
        PeersAreIsolated(limit, earlier, peer, a.now - limit.window, a.now);
      }
    }
  }
}
