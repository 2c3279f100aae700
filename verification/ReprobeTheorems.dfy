/** What `GatingReprobe` promises, over every run of polls, probe threads, event loops, registry
    writes and clock readings from an empty harness. */
module ReprobeTheorems {
  import opened Optional
  import opened Reprobe
  import opened ReprobeSafety

  /** The states that some interleaving reaches. */
  ghost predicate Reachable(c: Config, s: State) {
    exists now: real, down: set<Name>, run: seq<Action> ::
      IsRun(c, Init(now, down), run) && s == After(c, Init(now, down), run)
  }

  lemma ReachableIsInvariant(c: Config, s: State)
    requires Reachable(c, s)
    ensures Invariant(c, s)
  {
    var now: real, down: set<Name>, run: seq<Action> :|
      IsRun(c, Init(now, down), run) && s == After(c, Init(now, down), run);
    RunKeepsInvariant(c, Init(now, down), run);
  }

  // ----- waiters -----

  /** A joined waiter that is still pending, whose poll has not left and whose loop is open, is
      in its running flight's list, in the batch its finished thread took, or in a callback its
      loop accepted. Once the thread has ended and the loop has run its callbacks, it is resolved. */
  lemma NoWakeUpIsLost(c: Config, s: State, p: nat, k: nat)
    requires Reachable(c, s)
    requires p < |s.polls| && k < |s.polls[p].joined|
    requires !HasLeft(s.polls[p].pc) && s.polls[p].loop !in s.closed
    ensures s.polls[p].joined[k].flight < |s.threads| == |s.table.made|
    ensures s.polls[p].joined[k].status == Pending ==> WillBeWoken(s, p, k)
    ensures s.threads[s.polls[p].joined[k].flight] == Waking([]) && Waiter(p, k) !in s.callbacks ==>
      s.polls[p].joined[k].status == Resolved
  {
    ReachableIsInvariant(c, s);
  }

  /** A poll that is out has every waiter settled, by a result or by its own cancel; a result
      means that the flight's probe had returned and its slot was free again. */
  lemma EveryWaiterSettles(c: Config, s: State, p: nat, k: nat)
    requires Reachable(c, s)
    requires p < |s.polls| && k < |s.polls[p].joined|
    ensures s.polls[p].joined[k].flight < |s.threads|
    ensures IsOut(s.polls[p].pc) ==> Settled(s.polls[p].joined[k])
    ensures s.polls[p].joined[k].status == Cancelled ==> IsOut(s.polls[p].pc)
    ensures s.polls[p].joined[k].status == Resolved ==> s.threads[s.polls[p].joined[k].flight].Waking?
  {
    ReachableIsInvariant(c, s);
  }

  /** The waiter is the same waiter after the step, and how it settled has not changed. */
  predicate SettledStays(s: State, r: State, p: nat, k: nat) {
    && p < |s.polls| && k < |s.polls[p].joined| && p < |r.polls| && k < |r.polls[p].joined|
    && r.polls[p].joined[k].flight == s.polls[p].joined[k].flight
    && (Settled(s.polls[p].joined[k]) ==> r.polls[p].joined[k] == s.polls[p].joined[k])
  }

  lemma PollStepSettlesOnce(c: Config, s: State, q: nat, a: PollStep, p: nat, k: nat)
    requires Shape(s) && PollEnabled(s, q, a)
    requires p < |s.polls| && k < |s.polls[p].joined|
    ensures SettledStays(s, PollApply(c, s, q, a), p, k)
  {
    if MovesNoWaiter(a) { PollIsQuiet(c, s, q, a); }
  }

  lemma ThreadStepSettlesOnce(s: State, f: nat, a: ThreadStep, p: nat, k: nat)
    requires Shape(s) && ThreadEnabled(s, f, a)
    requires p < |s.polls| && k < |s.polls[p].joined|
    ensures SettledStays(s, ThreadApply(s, f, a), p, k)
  {
  }

  lemma WorldStepSettlesOnce(c: Config, s: State, a: WorldStep, p: nat, k: nat)
    requires Shape(s) && WorldEnabled(s, a)
    requires p < |s.polls| && k < |s.polls[p].joined|
    ensures SettledStays(s, WorldApply(c, s, a), p, k)
  {
  }

  lemma StepSettlesOnce(c: Config, s: State, a: Action, p: nat, k: nat)
    requires Shape(s) && Enabled(s, a)
    requires p < |s.polls| && k < |s.polls[p].joined|
    ensures SettledStays(s, Apply(c, s, a), p, k)
  {
    match a
    case ByPoll(q, step) => PollStepSettlesOnce(c, s, q, step, p, k);
    case ByThread(f, step) => ThreadStepSettlesOnce(s, f, step, p, k);
    case ByWorld(step) => WorldStepSettlesOnce(c, s, step, p, k);
  }

  /** Exactly once: no continuation changes how a waiter settled. */
  lemma {:induction false} SettlesOnce(c: Config, s: State, run: seq<Action>, p: nat, k: nat)
    requires Shape(s) && IsRun(c, s, run)
    requires p < |s.polls| && k < |s.polls[p].joined| && Settled(s.polls[p].joined[k])
    ensures var r := After(c, s, run);
      p < |r.polls| && k < |r.polls[p].joined| && r.polls[p].joined[k] == s.polls[p].joined[k]
    decreases |run|
  {
    if run != [] {
      StepSettlesOnce(c, s, run[0], p, k);
      SettlesOnce(c, Apply(c, s, run[0]), run[1..], p, k);
    }
  }

  /** Nothing on the way to a wake-up can get stuck: past its probe, a thread can always take its
      next step until it has woken its whole batch, and an accepted callback can always run. */
  lemma WakeUpsNeverStick(c: Config, s: State)
    requires Reachable(c, s)
    ensures forall f :: 0 <= f < |s.threads| && !s.threads[f].Probing? && s.threads[f] != Waking([]) ==>
      exists step :: ThreadEnabled(s, f, step)
    ensures forall w :: w in s.callbacks ==>
      w.poll < |s.polls| && (s.polls[w.poll].loop !in s.closed ==> WorldEnabled(s, RunCallback(w)))
  {
    ReachableIsInvariant(c, s);
    forall f | 0 <= f < |s.threads| && !s.threads[f].Probing? && s.threads[f] != Waking([])
      ensures exists step :: ThreadEnabled(s, f, step)
    {
      match s.threads[f]
      case ProbeFailed(_) => assert ThreadEnabled(s, f, LogProbeFailed);
      case ProbeSucceeded => assert ThreadEnabled(s, f, RecheckAfterProbe);
      case Recovering => assert ThreadEnabled(s, f, LogProbeRecovered);
      case Noted => assert ThreadEnabled(s, f, ReleaseSlot);
      case Waking(batch) =>
        assert batch[0] in batch;
        assert IssuedFor(s, batch[0], f);
        assert ThreadEnabled(s, f, WakeNext);
    }
  }

  // ----- flights -----

  /** At most one probe per dependency holds the slot, the slot map holds exactly the flights that
      have not released, and the identity test of a releasing thread always succeeds. */
  lemma SingleFlight(c: Config, s: State, f: nat)
    requires Reachable(c, s) && f < |s.threads|
    ensures |s.threads| == |s.table.made|
    ensures forall n :: n in s.table.flights ==>
      s.table.flights[n] < |s.threads| && FlightName(s, s.table.flights[n]) == n
    ensures !s.threads[f].Waking? <==>
      FlightName(s, f) in s.table.flights && s.table.flights[FlightName(s, f)] == f
    ensures forall g :: 0 <= g < |s.threads| && g != f && !s.threads[f].Waking? && !s.threads[g].Waking? ==>
      FlightName(s, g) != FlightName(s, f)
  {
    ReachableIsInvariant(c, s);
  }

  /** Two starts of one dependency are never closer than the minimum interval, whatever happens
      in between, and the earlier probe had returned and given up its slot. */
  lemma StartsKeepTheirDistance(c: Config, s: State, f: nat, g: nat)
    requires Reachable(c, s)
    requires f < g < |s.startedAt| == |s.table.made| == |s.threads| && FlightName(s, f) == FlightName(s, g)
    ensures c.minInterval <= s.startedAt[g] - s.startedAt[f]
    ensures s.threads[f].Waking?
  {
    ReachableIsInvariant(c, s);
  }

  // ----- the outage log -----

  lemma {:induction false} BalanceOfConcat(a: seq<Entry>, b: seq<Entry>, name: Name)
    ensures Balance(a + b, name) == Balance(a, name) + Balance(b, name)
    decreases |b|
  {
    if b == [] {
      assert a + b == a;
    } else {
      assert (a + b)[..|a + b| - 1] == a + b[..|b| - 1];
      BalanceOfConcat(a, b[..|b| - 1], name);
    }
  }

  lemma LastOut(a: seq<Entry>)
    requires a != []
    ensures multiset(a[..|a| - 1]) == multiset(a) - multiset{a[|a| - 1]}
  {
    assert a == a[..|a| - 1] + [a[|a| - 1]];
  }

  lemma OneOut(b: seq<Entry>, j: nat)
    requires j < |b|
    ensures multiset(b[..j] + b[j + 1..]) == multiset(b) - multiset{b[j]}
    ensures b == b[..j] + [b[j]] + b[j + 1..]
  {
    assert b == b[..j] + [b[j]] + b[j + 1..];
  }

  lemma {:induction false} BalanceIgnoresOrder(a: seq<Entry>, b: seq<Entry>, name: Name)
    requires multiset(a) == multiset(b)
    ensures Balance(a, name) == Balance(b, name)
    decreases |a|
  {
    if a == [] {
      assert |multiset(b)| == |b|;
    } else {
      var e, n := a[|a| - 1], |a| - 1;
      LastOut(a);
      assert e in multiset(b);
      var j :| 0 <= j < |b| && b[j] == e;
      OneOut(b, j);
      BalanceIgnoresOrder(a[..n], b[..j] + b[j + 1..], name);
      BalanceOfConcat(b[..j], b[j + 1..], name);
      BalanceOfConcat(b[..j] + [e], b[j + 1..], name);
      BalanceOfConcat(b[..j], [e], name);
    }
  }

  lemma {:induction false} NoneBetween(log: seq<Entry>, i: nat, j: nat, name: Name)
    requires i <= j <= |log|
    requires forall m :: i <= m < j ==> log[m].name != name
    ensures Balance(log[..i], name) == Balance(log[..j], name)
    decreases j
  {
    if i < j {
      assert log[..j][..j - 1] == log[..j - 1];
      NoneBetween(log, i, j - 1, name);
    }
  }

  lemma BalanceOfNext(log: seq<Entry>, i: nat, name: Name)
    requires i < |log|
    ensures Balance(log[..i + 1], name) == Balance(log[..i], name) + Weight(log[i], name)
  {
    assert log[..i + 1][..i] == log[..i];
  }

  /** Per dependency the committed entries go failed, succeeded, failed, ... starting with failed:
      `j` is the next entry of its dependency after `i`, or the first one when `i` is `None`. */
  lemma TransitionsAlternate(c: Config, s: State, i: Option<nat>, j: nat)
    requires Reachable(c, s) && j < |s.commits|
    requires i.Some? ==> i.value < j && s.commits[i.value].name == s.commits[j].name
    requires forall m: nat :: (if i.Some? then i.value + 1 else 0) <= m < j ==> s.commits[m].name != s.commits[j].name
    ensures s.commits[j].outcome.Failed? <==> i.None? || s.commits[i.value].outcome.Succeeded?
  {
    ReachableIsInvariant(c, s);
    var name := s.commits[j].name;
    var from := if i.Some? then i.value + 1 else 0;
    NoneBetween(s.commits, from, j, name);
    BalanceOfNext(s.commits, j, name);
    if i.Some? {
      BalanceOfNext(s.commits, i.value, name);
    }
  }

  /** Emission happens outside the lock and in any order, but loses and invents nothing: with no
      entry still owed, a dependency has one more `failed` than `succeeded` entry in the written
      log exactly when its outage is the one being remembered. */
  lemma WrittenLogMatchesOutages(c: Config, s: State, name: Name)
    requires Reachable(c, s) && s.owed == multiset{}
    ensures multiset(s.written) == multiset(s.commits)
    ensures Balance(s.written, name) == if name in s.table.outage then 1 else 0
  {
    ReachableIsInvariant(c, s);
    BalanceIgnoresOrder(s.written, s.commits, name);
  }

  // ----- what a poll finds -----

  function Unscanned(pc: Pc): seq<Name> {
    match pc
    case Scan(todo) => todo
    case Recheck(_, todo) => todo
    case RecoverLock(_, todo) => todo
    case JoinLock(name, todo) => [name] + todo
    case _ => []
  }

  /** A poll that asks for a probe of `d` now gets one whose outcome is still open. */
  predicate CanProbe(c: Config, s: State, d: Name) {
    && d in c.probed
    && if d in s.table.flights then s.table.flights[d] < |s.threads| && s.threads[s.table.flights[d]].Probing?
       else !TooSoon(s.table, d, s.now, c.minInterval)
  }

  /** A ticket at `k` of a poll waits on a probe of `d` still running. */
  predicate WaitsAt(s: State, p: nat, k: nat, d: Name) {
    && p < |s.polls| && k < |s.polls[p].joined| && |s.threads| == |s.table.made|
    && s.polls[p].joined[k].flight < |s.threads|
    && FlightName(s, s.polls[p].joined[k].flight) == d && s.threads[s.polls[p].joined[k].flight].Probing?
  }

  ghost predicate WaitsOnProbe(s: State, p: nat, d: Name) {
    exists k :: WaitsAt(s, p, k, d)
  }

  ghost predicate OnTheWay(c: Config, s: State, p: nat, d: Name)
    requires Shape(s) && p < |s.polls|
  {
    || d !in s.down
    || (d in Unscanned(s.polls[p].pc) && CanProbe(c, s, d))
    || WaitsOnProbe(s, p, d)
  }

  /** Nothing reports a failure: no probe raises and no real call fails. */
  predicate GoodNews(a: Action) {
    match a
    case ByThread(_, ProbeReturns(error)) => error.None?
    case ByWorld(MarkUnhealthy(_)) => false
    case _ => true
  }

  lemma SitKeepsWait(s: State, q: nat, f: nat, p: nat, k: nat, d: Name)
    requires Shape(s) && CanJoin(s, q) && f < |s.threads| && WaitsAt(s, p, k, d)
    ensures WaitsAt(SatDown(s, q, f), p, k, d)
  {
  }

  lemma StartKeepsWait(s: State, q: nat, p: nat, k: nat, d: Name)
    requires Shape(s) && CanJoin(s, q) && WaitsAt(s, p, k, d)
    ensures WaitsAt(Started(s, q), p, k, d)
  {
  }

  /** Sitting down at a flight whose probe still runs is waiting on it. */
  lemma SitWaits(s: State, p: nat, f: nat)
    requires Shape(s) && CanJoin(s, p) && f < |s.threads| && s.threads[f].Probing?
    ensures WaitsAt(SatDown(s, p, f), p, |s.polls[p].joined|, FlightName(s, f))
  {
  }

  lemma StartWaits(s: State, p: nat)
    requires Shape(s) && CanJoin(s, p)
    ensures WaitsAt(Started(s, p), p, |s.polls[p].joined|, s.polls[p].pc.name)
  {
  }

  lemma SitKeepsOnTheWay(c: Config, s: State, q: nat, p: nat, d: Name)
    requires Safe(s) && CanJoin(s, q) && s.polls[q].pc.name in s.table.flights
    requires p < |s.polls| && OnTheWay(c, s, p, d) && Shape(SatDown(s, q, s.table.flights[s.polls[q].pc.name]))
    ensures OnTheWay(c, SatDown(s, q, s.table.flights[s.polls[q].pc.name]), p, d)
  {
    var f := s.table.flights[s.polls[q].pc.name];
    var r := SatDown(s, q, f);
    if d in s.down {
      if WaitsOnProbe(s, p, d) {
        var k :| WaitsAt(s, p, k, d);
        SitKeepsWait(s, q, f, p, k, d);
      } else if q == p && d == s.polls[p].pc.name {
        SitWaits(s, p, f);
      }
    }
  }

  lemma StartKeepsOnTheWay(c: Config, s: State, q: nat, p: nat, d: Name)
    requires Safe(s) && CanJoin(s, q) && s.polls[q].pc.name !in s.table.flights
    requires p < |s.polls| && OnTheWay(c, s, p, d) && Shape(Started(s, q))
    ensures OnTheWay(c, Started(s, q), p, d)
  {
    var r := Started(s, q);
    if d in s.down {
      if WaitsOnProbe(s, p, d) {
        var k :| WaitsAt(s, p, k, d);
        StartKeepsWait(s, q, p, k, d);
      } else if q == p && d == s.polls[p].pc.name {
        StartWaits(s, p);
      } else {
        StartLeavesProbeable(c, s, q, d);
      }
    }
  }

  /** A new flight is one that others can join too. */
  lemma StartLeavesProbeable(c: Config, s: State, q: nat, d: Name)
    requires Shape(s) && CanJoin(s, q) && CanProbe(c, s, d)
    ensures CanProbe(c, Started(s, q), d)
  {
  }

  lemma RefusalKeepsOnTheWay(c: Config, s: State, q: nat, p: nat, d: Name)
    requires Shape(s) && CanJoin(s, q) && s.polls[q].pc.name !in s.table.flights
    requires TooSoon(s.table, s.polls[q].pc.name, s.now, c.minInterval)
    requires p < |s.polls| && OnTheWay(c, s, p, d)
    ensures OnTheWay(c, SetPc(s, q, Scan(s.polls[q].pc.todo)), p, d)
  {
    var r := SetPc(s, q, Scan(s.polls[q].pc.todo));
    if WaitsOnProbe(s, p, d) {
      var k :| WaitsAt(s, p, k, d);
      assert WaitsAt(r, p, k, d);
    }
  }

  lemma JoinKeepsOnTheWay(c: Config, s: State, q: nat, p: nat, d: Name)
    requires Safe(s) && PollEnabled(s, q, JoinFlight)
    requires p < |s.polls| && OnTheWay(c, s, p, d)
    ensures OnTheWay(c, DoJoin(c, s, q), p, d)
  {
    var name := s.polls[q].pc.name;
    JoinCases(c, s, q);
    if name in s.table.flights {
      SitKeepsOnTheWay(c, s, q, p, d);
    } else if TooSoon(s.table, name, s.now, c.minInterval) {
      RefusalKeepsOnTheWay(c, s, q, p, d);
    } else {
      StartKeepsOnTheWay(c, s, q, p, d);
    }
  }

  /** No flight starts or ends, no probe returns and nothing fails. */
  ghost predicate ProbesUndisturbed(s: State, r: State)
    requires Shape(s) && Shape(r)
  {
    && r.table.flights == s.table.flights && r.table.lastStarted == s.table.lastStarted
    && |r.threads| == |s.threads| && s.now <= r.now && r.down <= s.down
    && (forall f :: 0 <= f < |s.threads| ==> FlightName(r, f) == FlightName(s, f))
    && (forall f :: 0 <= f < |s.threads| && s.threads[f].Probing? ==> r.threads[f].Probing?)
  }

  /** The poll keeps its flights and skips nothing that is down. */
  ghost predicate PollUndisturbed(c: Config, s: State, r: State, p: nat, d: Name)
    requires Shape(s) && Shape(r) && p < |s.polls|
  {
    && |s.polls| <= |r.polls|
    && (d in s.down && d in c.probed && d in Unscanned(s.polls[p].pc) ==> d in Unscanned(r.polls[p].pc))
    && |r.polls[p].joined| == |s.polls[p].joined|
    && (forall k :: 0 <= k < |s.polls[p].joined| ==>
          r.polls[p].joined[k].flight == s.polls[p].joined[k].flight)
  }

  lemma FrameKeepsOnTheWay(c: Config, s: State, r: State, p: nat, d: Name)
    requires Shape(s) && Shape(r) && p < |s.polls|
    requires ProbesUndisturbed(s, r) && PollUndisturbed(c, s, r, p, d) && OnTheWay(c, s, p, d)
    ensures OnTheWay(c, r, p, d)
  {
    if WaitsOnProbe(s, p, d) {
      var k :| WaitsAt(s, p, k, d);
      assert WaitsAt(r, p, k, d);
    }
  }

  /** Steps that move no waiter and no thread disturb no probe. */
  lemma SameThreadsDisturbNoProbe(s: State, r: State)
    requires Shape(s) && Shape(r) && r.threads == s.threads && r.table.made == s.table.made
    requires r.table.flights == s.table.flights && r.table.lastStarted == s.table.lastStarted
    requires s.now <= r.now && r.down <= s.down
    ensures ProbesUndisturbed(s, r)
  {
  }

  lemma LeavingDisturbsNoProbe(c: Config, s: State, q: nat)
    requires Shape(s) && PollEnabled(s, q, LeaveFlights)
    ensures ProbesUndisturbed(s, PollApply(c, s, q, LeaveFlights))
  {
  }

  ghost predicate KeepsThreads(s: State, r: State) {
    && r.threads == s.threads && r.table.made == s.table.made && r.table.flights == s.table.flights
    && r.table.lastStarted == s.table.lastStarted && r.now == s.now && r.down == s.down
  }

  lemma ScanKeepsThreads(c: Config, s: State, q: nat, a: PollStep)
    requires Shape(s) && PollEnabled(s, q, a) && (a.ScanNext? || a.RecheckHealth? || a.LogPollRecovered?)
    ensures KeepsThreads(s, PollApply(c, s, q, a))
  {
  }

  lemma PollKeepsThreads(c: Config, s: State, q: nat, a: PollStep)
    requires Shape(s) && PollEnabled(s, q, a) && !a.JoinFlight? && !a.LeaveFlights?
    ensures KeepsThreads(s, PollApply(c, s, q, a))
  {
    if a.ScanNext? || a.RecheckHealth? || a.LogPollRecovered? { ScanKeepsThreads(c, s, q, a); }
  }

  lemma PollDisturbsNoProbe(c: Config, s: State, q: nat, a: PollStep)
    requires Shape(s) && PollEnabled(s, q, a) && !a.JoinFlight?
    ensures ProbesUndisturbed(s, PollApply(c, s, q, a))
  {
    if a.LeaveFlights? {
      LeavingDisturbsNoProbe(c, s, q);
    } else {
      PollKeepsThreads(c, s, q, a);
      SameThreadsDisturbNoProbe(s, PollApply(c, s, q, a));
    }
  }

  lemma ScanDisturbsNoPoll(c: Config, s: State, q: nat, a: PollStep, p: nat, d: Name)
    requires Shape(s) && PollEnabled(s, q, a) && (a.ScanNext? || a.RecheckHealth? || a.LogPollRecovered?) && p < |s.polls|
    ensures PollUndisturbed(c, s, PollApply(c, s, q, a), p, d)
  {
  }

  lemma WaitDisturbsNoPoll(c: Config, s: State, q: nat, a: PollStep, p: nat, d: Name)
    requires Shape(s) && PollEnabled(s, q, a) && (a.WaitReturns? || a.PollCancelled? || a.LogNextLate?) && p < |s.polls|
    ensures PollUndisturbed(c, s, PollApply(c, s, q, a), p, d)
  {
  }

  lemma LeavingDisturbsNoPoll(c: Config, s: State, q: nat, a: PollStep, p: nat, d: Name)
    requires Shape(s) && PollEnabled(s, q, a) && (a.LeaveFlights? || a.CancelOwnWaiters?) && p < |s.polls|
    ensures PollUndisturbed(c, s, PollApply(c, s, q, a), p, d)
  {
  }

  lemma PollDisturbsNoPoll(c: Config, s: State, q: nat, a: PollStep, p: nat, d: Name)
    requires Shape(s) && PollEnabled(s, q, a) && !a.JoinFlight? && p < |s.polls|
    ensures PollUndisturbed(c, s, PollApply(c, s, q, a), p, d)
  {
    if a.ScanNext? || a.RecheckHealth? || a.LogPollRecovered? {
      ScanDisturbsNoPoll(c, s, q, a, p, d);
    } else if a.LeaveFlights? || a.CancelOwnWaiters? {
      LeavingDisturbsNoPoll(c, s, q, a, p, d);
    } else {
      WaitDisturbsNoPoll(c, s, q, a, p, d);
    }
  }

  lemma PollKeepsOnTheWay(c: Config, s: State, q: nat, a: PollStep, p: nat, d: Name)
    requires Safe(s) && PollEnabled(s, q, a)
    requires p < |s.polls| && OnTheWay(c, s, p, d)
    ensures OnTheWay(c, PollApply(c, s, q, a), p, d)
  {
    if a.JoinFlight? {
      JoinKeepsOnTheWay(c, s, q, p, d);
    } else {
      PollDisturbsNoProbe(c, s, q, a);
      PollDisturbsNoPoll(c, s, q, a, p, d);
      FrameKeepsOnTheWay(c, s, PollApply(c, s, q, a), p, d);
    }
  }

  lemma ProbeKeepsOnTheWay(c: Config, s: State, f: nat, p: nat, d: Name)
    requires Safe(s) && ThreadEnabled(s, f, ProbeReturns(None))
    requires p < |s.polls| && OnTheWay(c, s, p, d)
    ensures OnTheWay(c, DoProbeReturns(s, f, None), p, d)
  {
    var r := DoProbeReturns(s, f, None);
    if d in r.down && WaitsOnProbe(s, p, d) {
      var k :| WaitsAt(s, p, k, d);
      assert WaitsAt(r, p, k, d);
    }
  }

  lemma ReleaseKeepsOnTheWay(c: Config, s: State, f: nat, p: nat, d: Name)
    requires Safe(s) && ThreadEnabled(s, f, ReleaseSlot)
    requires p < |s.polls| && OnTheWay(c, s, p, d)
    ensures OnTheWay(c, DoRelease(s, f), p, d)
  {
    var r := DoRelease(s, f);
    if WaitsOnProbe(s, p, d) {
      var k :| WaitsAt(s, p, k, d);
      assert WaitsAt(r, p, k, d);
    }
  }

  lemma ThreadKeepsTable(s: State, f: nat, a: ThreadStep)
    requires Shape(s) && ThreadEnabled(s, f, a) && !a.ProbeReturns? && !a.ReleaseSlot?
    ensures var r := ThreadApply(s, f, a);
      && r.table.made == s.table.made && r.table.flights == s.table.flights && r.table.lastStarted == s.table.lastStarted
      && r.now == s.now && r.down == s.down && r.polls == s.polls
      && !s.threads[f].Probing? && |r.threads| == |s.threads| && r.threads == s.threads[f := r.threads[f]]
  {
  }

  lemma OneThreadDisturbsNoProbe(s: State, r: State, f: nat, thread: Thread)
    requires Shape(s) && Shape(r) && f < |s.threads| && !s.threads[f].Probing? && r.threads == s.threads[f := thread]
    requires r.table.made == s.table.made && r.table.flights == s.table.flights && r.table.lastStarted == s.table.lastStarted
    requires s.now <= r.now && r.down <= s.down
    ensures ProbesUndisturbed(s, r)
  {
  }

  lemma SamePollsUndisturbed(c: Config, s: State, r: State, p: nat, d: Name)
    requires Shape(s) && Shape(r) && p < |s.polls| && r.polls == s.polls
    ensures PollUndisturbed(c, s, r, p, d)
  {
  }

  lemma ThreadDisturbsNothing(c: Config, s: State, f: nat, a: ThreadStep, p: nat, d: Name)
    requires Shape(s) && ThreadEnabled(s, f, a) && !a.ProbeReturns? && !a.ReleaseSlot? && p < |s.polls|
    ensures ProbesUndisturbed(s, ThreadApply(s, f, a)) && PollUndisturbed(c, s, ThreadApply(s, f, a), p, d)
  {
    var r := ThreadApply(s, f, a);
    ThreadKeepsTable(s, f, a);
    OneThreadDisturbsNoProbe(s, r, f, r.threads[f]);
    SamePollsUndisturbed(c, s, r, p, d);
  }

  lemma ThreadKeepsOnTheWay(c: Config, s: State, f: nat, a: ThreadStep, p: nat, d: Name)
    requires Safe(s) && ThreadEnabled(s, f, a) && GoodNews(ByThread(f, a))
    requires p < |s.polls| && OnTheWay(c, s, p, d)
    ensures OnTheWay(c, ThreadApply(s, f, a), p, d)
  {
    match a
    case ProbeReturns(_) => ProbeKeepsOnTheWay(c, s, f, p, d);
    case ReleaseSlot => ReleaseKeepsOnTheWay(c, s, f, p, d);
    case _ =>
      ThreadDisturbsNothing(c, s, f, a, p, d);
      FrameKeepsOnTheWay(c, s, ThreadApply(s, f, a), p, d);
  }

  lemma WorldKeepsThreads(c: Config, s: State, a: WorldStep)
    requires Shape(s) && WorldEnabled(s, a) && GoodNews(ByWorld(a))
    ensures var r := WorldApply(c, s, a);
      && r.threads == s.threads && r.table == s.table && s.now <= r.now && r.down <= s.down
  {
  }

  lemma WorldDisturbsNoProbe(c: Config, s: State, a: WorldStep)
    requires Shape(s) && WorldEnabled(s, a) && GoodNews(ByWorld(a))
    ensures ProbesUndisturbed(s, WorldApply(c, s, a))
  {
    WorldKeepsThreads(c, s, a);
    SameThreadsDisturbNoProbe(s, WorldApply(c, s, a));
  }

  lemma WorldDisturbsNoPoll(c: Config, s: State, a: WorldStep, p: nat, d: Name)
    requires Shape(s) && WorldEnabled(s, a) && GoodNews(ByWorld(a)) && p < |s.polls|
    ensures PollUndisturbed(c, s, WorldApply(c, s, a), p, d)
  {
  }

  lemma StepKeepsOnTheWay(c: Config, s: State, a: Action, p: nat, d: Name)
    requires Safe(s) && Enabled(s, a) && GoodNews(a)
    requires p < |s.polls| && OnTheWay(c, s, p, d)
    ensures p < |Apply(c, s, a).polls| && OnTheWay(c, Apply(c, s, a), p, d)
  {
    match a
    case ByPoll(q, step) => PollKeepsOnTheWay(c, s, q, step, p, d);
    case ByThread(f, step) => ThreadKeepsOnTheWay(c, s, f, step, p, d);
    case ByWorld(step) =>
      WorldDisturbsNoProbe(c, s, step);
      WorldDisturbsNoPoll(c, s, step, p, d);
      FrameKeepsOnTheWay(c, s, WorldApply(c, s, step), p, d);
  }

  lemma {:induction false} RunKeepsOnTheWay(c: Config, s: State, run: seq<Action>, p: nat, d: Name)
    requires Invariant(c, s) && IsRun(c, s, run)
    requires forall a :: a in run ==> GoodNews(a)
    requires p < |s.polls| && OnTheWay(c, s, p, d)
    ensures Invariant(c, After(c, s, run))
    ensures p < |After(c, s, run).polls| && OnTheWay(c, After(c, s, run), p, d)
    decreases |run|
  {
    if run != [] {
      StepKeepsInvariant(c, s, run[0]);
      StepKeepsOnTheWay(c, s, run[0], p, d);
      RunKeepsOnTheWay(c, Apply(c, s, run[0]), run[1..], p, d);
    }
  }

  ghost predicate AllHealthy(c: Config, s: State) {
    forall d :: d in c.gating ==> d !in s.down
  }

  /** The poll has asked about every dependency, and every probe it waits on has returned: its waits
      may be over, cut at the deadline, or still to be woken. */
  predicate ProbesReturned(s: State, p: nat) {
    && p < |s.polls| && Unscanned(s.polls[p].pc) == []
    && forall t :: t in s.polls[p].joined ==> t.flight < |s.threads| && !s.threads[t.flight].Probing?
  }

  /** A poll that starts when every unhealthy gating dependency can be probed finds all of them
      healthy once its probes have returned and while nothing reported a failure, however other
      polls, threads and registry writes were interleaved with it. */
  lemma PollFindsAllHealthy(c: Config, s: State, p: nat, run: seq<Action>)
    requires Invariant(c, s) && IsRun(c, s, run)
    requires forall a :: a in run ==> GoodNews(a)
    requires p < |s.polls| && s.polls[p].pc == Scan(c.gating) && s.polls[p].joined == []
    requires forall d :: d in c.gating && d in s.down ==> CanProbe(c, s, d)
    requires ProbesReturned(After(c, s, run), p)
    ensures AllHealthy(c, After(c, s, run))
  {
    forall d | d in c.gating
      ensures d !in After(c, s, run).down
    {
      RunKeepsOnTheWay(c, s, run, p, d);
    }
  }
}
