/** That what a probe or a poll finds out reaches the outage log, and that a poll gets every probe it
    may have: over every run, from any state. */
module ProbeReports {
  import opened Optional
  import opened Reprobe
  import opened ReprobeSafety
  import opened ReprobeTheorems

  // ----- one report -----

  /** From `s` to `r` the outcome was reported: with an entry when it is news, and what is remembered
      of the name is the outcome. */
  predicate Reports(s: State, r: State, name: Name, outcome: Outcome) {
    var e := Entry(name, outcome);
    var isNews := if outcome.Failed? then name !in s.table.outage else name in s.table.outage;
    && r.commits == (if isNews then s.commits + [e] else s.commits)
    && r.owed == (if isNews then s.owed + multiset{e} else s.owed)
    && r.table.outage == if outcome.Failed? then s.table.outage + {name} else s.table.outage - {name}
  }

  /** What a step has to report, by where its thread or poll stands. */
  function ToReport(s: State, a: Action): Option<Entry>
    requires Shape(s) && Enabled(s, a)
  {
    match a
    case ByThread(f, _) =>
      (match s.threads[f]
       case ProbeFailed(errorClass) => Some(Entry(FlightName(s, f), Failed(errorClass)))
       case Recovering => Some(Entry(FlightName(s, f), Succeeded))
       case _ => None)
    case ByPoll(p, _) =>
      (match s.polls[p].pc
       case RecoverLock(name, _) => Some(Entry(name, Succeeded))
       case NoteLate(late) => if late == [] then None else Some(Entry(late[0], Failed("TimeoutError")))
       case _ => None)
    case ByWorld(_) => None
  }

  lemma ThreadReports(s: State, f: nat, a: ThreadStep)
    requires Shape(s) && ThreadEnabled(s, f, a)
    ensures var r := ThreadApply(s, f, a);
      match s.threads[f]
      case ProbeFailed(errorClass) => Reports(s, r, FlightName(s, f), Failed(errorClass))
      case Recovering => Reports(s, r, FlightName(s, f), Succeeded)
      case _ => SameLog(s, r)
  {
  }

  lemma PollReports(c: Config, s: State, p: nat, a: PollStep)
    requires Shape(s) && PollEnabled(s, p, a)
    ensures var r := PollApply(c, s, p, a);
      match s.polls[p].pc
      case RecoverLock(name, _) => Reports(s, r, name, Succeeded)
      case NoteLate(late) => if late == [] then SameLog(s, r) else Reports(s, r, late[0], Failed("TimeoutError"))
      case _ => SameLog(s, r)
  {
  }

  lemma WorldReportsNothing(c: Config, s: State, a: WorldStep)
    requires Shape(s) && WorldEnabled(s, a)
    ensures WorldApply(c, s, a).commits == s.commits && WorldApply(c, s, a).table.outage == s.table.outage
  {
  }

  /** Every step reports what it has to report, and nothing else is ever committed. */
  lemma EachStepReports(c: Config, s: State, a: Action)
    requires Shape(s) && Enabled(s, a)
    ensures match ToReport(s, a)
      case Some(e) => Reports(s, Apply(c, s, a), e.name, e.outcome)
      case None => Apply(c, s, a).commits == s.commits && Apply(c, s, a).table.outage == s.table.outage
  {
    match a
    case ByThread(f, step) => ThreadReports(s, f, step);
    case ByPoll(p, step) => PollReports(c, s, p, step);
    case ByWorld(step) => WorldReportsNothing(c, s, step);
  }

  /** What is remembered is the last entry: a name stays in an outage until it is reported back. */
  lemma OutageIsLastEntry(c: Config, s: State, name: Name, j: Option<nat>)
    requires Reachable(c, s)
    requires j.Some? ==> j.value < |s.commits| && s.commits[j.value].name == name
    requires forall m: nat :: (if j.Some? then j.value + 1 else 0) <= m < |s.commits| ==> s.commits[m].name != name
    ensures name in s.table.outage <==> j.Some? && s.commits[j.value].outcome.Failed?
  {
    ReachableIsInvariant(c, s);
    assert s.commits[..|s.commits|] == s.commits;
    NoneBetween(s.commits, if j.Some? then j.value + 1 else 0, |s.commits|, name);
    if j.Some? { BalanceOfNext(s.commits, j.value, name); }
  }

  // ----- leaving a place -----

  lemma TailOfPrefix(run: seq<Action>, j: nat)
    requires 0 < j <= |run|
    ensures run[..j] != [] && run[..j][0] == run[0] && run[..j][1..] == run[1..][..j - 1]
  {
  }

  lemma {:induction false} PrefixRuns(c: Config, s: State, run: seq<Action>, j: nat)
    requires Shape(s) && IsRun(c, s, run) && j <= |run|
    ensures IsRun(c, s, run[..j])
    ensures j < |run| ==> Enabled(After(c, s, run[..j]), run[j])
    decreases j
  {
    if j > 0 {
      TailOfPrefix(run, j);
      PrefixRuns(c, Apply(c, s, run[0]), run[1..], j - 1);
    }
  }

  lemma {:induction false} PrefixGrows(c: Config, s: State, run: seq<Action>, j: nat)
    requires Shape(s) && IsRun(c, s, run) && j < |run|
    requires IsRun(c, s, run[..j]) && Enabled(After(c, s, run[..j]), run[j]) && IsRun(c, s, run[..j + 1])
    ensures After(c, s, run[..j + 1]) == Apply(c, After(c, s, run[..j]), run[j])
    decreases j
  {
    TailOfPrefix(run, j + 1);
    if j > 0 {
      TailOfPrefix(run, j);
      PrefixGrows(c, Apply(c, s, run[0]), run[1..], j - 1);
    }
  }

  /** What holds at the start of a run and not at its end was given up by one of its steps. */
  lemma {:induction false} GivenUpAt(c: Config, s: State, run: seq<Action>, holds: State -> bool) returns (j: nat)
    requires Shape(s) && IsRun(c, s, run) && holds(s) && !holds(After(c, s, run))
    ensures j < |run| && IsRun(c, s, run[..j]) && IsRun(c, s, run[..j + 1])
    ensures holds(After(c, s, run[..j])) && !holds(After(c, s, run[..j + 1]))
    decreases |run|
  {
    var next := Apply(c, s, run[0]);
    if holds(next) {
      j := GivenUpAt(c, next, run[1..], holds);
      ShiftedRun(c, s, run, j);
      j := j + 1;
    } else {
      j := 0;
      assert run[..1] == [run[0]] && [run[0]][1..] == [];
      assert IsRun(c, next, []) && After(c, next, []) == next;
    }
  }

  lemma OneStep(c: Config, s: State, run: seq<Action>, j: nat)
    requires Shape(s) && IsRun(c, s, run) && j < |run|
    ensures IsRun(c, s, run[..j]) && IsRun(c, s, run[..j + 1]) && Enabled(After(c, s, run[..j]), run[j])
    ensures After(c, s, run[..j + 1]) == Apply(c, After(c, s, run[..j]), run[j])
  {
    PrefixRuns(c, s, run, j);
    PrefixRuns(c, s, run, j + 1);
    PrefixGrows(c, s, run, j);
  }

  lemma ShiftedRun(c: Config, s: State, run: seq<Action>, k: nat)
    requires Shape(s) && IsRun(c, s, run) && k < |run| - 1
    ensures IsRun(c, s, run[..k + 1]) && IsRun(c, s, run[..k + 2])
    ensures var next := Apply(c, s, run[0]);
      && IsRun(c, next, run[1..][..k]) && IsRun(c, next, run[1..][..k + 1])
      && After(c, s, run[..k + 1]) == After(c, next, run[1..][..k])
      && After(c, s, run[..k + 2]) == After(c, next, run[1..][..k + 1])
  {
    PrefixRuns(c, s, run, k + 1);
    PrefixRuns(c, s, run, k + 2);
    TailOfPrefix(run, k + 1);
    TailOfPrefix(run, k + 2);
  }

  // ----- who moves a thread or a poll -----

  lemma JoinKeepsThread(c: Config, s: State, p: nat, f: nat)
    requires Shape(s) && PollEnabled(s, p, JoinFlight) && f < |s.threads|
    ensures var r := DoJoin(c, s, p);
      f < |r.threads| && r.threads[f] == s.threads[f] && FlightName(r, f) == FlightName(s, f)
  {
    JoinCases(c, s, p);
  }

  lemma PollKeepsThread(c: Config, s: State, p: nat, a: PollStep, f: nat)
    requires Shape(s) && PollEnabled(s, p, a) && f < |s.threads|
    ensures var r := PollApply(c, s, p, a);
      f < |r.threads| && r.threads[f] == s.threads[f] && FlightName(r, f) == FlightName(s, f)
  {
    if a.JoinFlight? {
      JoinKeepsThread(c, s, p, f);
    } else if !a.LeaveFlights? {
      PollKeepsThreads(c, s, p, a);
    }
  }

  lemma ThreadKeepsOthers(s: State, g: nat, a: ThreadStep, f: nat)
    requires Shape(s) && ThreadEnabled(s, g, a) && f < |s.threads|
    ensures var r := ThreadApply(s, g, a);
      && f < |r.threads| && FlightName(r, f) == FlightName(s, f)
      && (f != g ==> r.threads[f] == s.threads[f])
  {
  }

  /** Names of flights do not change, and a thread's place is changed by its own steps alone. */
  lemma OnlyItsStepsMoveAThread(c: Config, s: State, a: Action, f: nat)
    requires Shape(s) && Enabled(s, a) && f < |s.threads|
    ensures var r := Apply(c, s, a);
      && f < |r.threads| && FlightName(r, f) == FlightName(s, f)
      && (!(a.ByThread? && a.f == f) ==> r.threads[f] == s.threads[f])
  {
    match a
    case ByPoll(p, step) => PollKeepsThread(c, s, p, step, f);
    case ByThread(g, step) => ThreadKeepsOthers(s, g, step, f);
    case ByWorld(step) =>
  }

  lemma PollKeepsOthers(c: Config, s: State, q: nat, a: PollStep, p: nat)
    requires Shape(s) && PollEnabled(s, q, a) && p < |s.polls| && p != q
    ensures var r := PollApply(c, s, q, a); p < |r.polls| && r.polls[p].pc == s.polls[p].pc
  {
  }

  lemma ThreadKeepsPlaces(s: State, f: nat, a: ThreadStep, p: nat)
    requires Shape(s) && ThreadEnabled(s, f, a) && p < |s.polls|
    ensures var r := ThreadApply(s, f, a); p < |r.polls| && r.polls[p].pc == s.polls[p].pc
  {
  }

  lemma OnlyItsStepsMoveAPoll(c: Config, s: State, a: Action, p: nat)
    requires Shape(s) && Enabled(s, a) && p < |s.polls|
    ensures var r := Apply(c, s, a);
      p < |r.polls| && (!(a.ByPoll? && a.p == p) ==> r.polls[p].pc == s.polls[p].pc)
  {
    match a
    case ByPoll(q, step) => if p != q { PollKeepsOthers(c, s, q, step, p); }
    case ByThread(f, step) => ThreadKeepsPlaces(s, f, step, p);
    case ByWorld(step) =>
  }

  // ----- probes that raise or succeed -----

  predicate ThreadAt(s: State, f: nat, name: Name, thread: Thread) {
    f < |s.threads| == |s.table.made| && s.table.made[f].name == name && s.threads[f] == thread
  }

  lemma FailedProbeLeavesReporting(c: Config, s: State, a: Action, f: nat, name: Name, error: string)
    requires Shape(s) && Enabled(s, a) && ThreadAt(s, f, name, ProbeFailed(error))
    requires !ThreadAt(Apply(c, s, a), f, name, ProbeFailed(error))
    ensures a == ByThread(f, LogProbeFailed) && Reports(s, Apply(c, s, a), name, Failed(error))
  {
    OnlyItsStepsMoveAThread(c, s, a, f);
    EachStepReports(c, s, a);
  }

  /** A probe that raises is in the registry at once, and in the log before its thread is past that
      point: one of its own steps in between reports the error's class. */
  lemma RaisedProbeIsLogged(c: Config, s: State, f: nat, error: string, run: seq<Action>) returns (j: nat)
    requires Shape(s) && IsRun(c, s, run) && run != [] && run[0] == ByThread(f, ProbeReturns(Some(error)))
    requires f < |After(c, s, run).threads| && After(c, s, run).threads[f] != ProbeFailed(error)
    ensures FlightName(s, f) in Apply(c, s, run[0]).down
    ensures 0 < j < |run| && run[j] == ByThread(f, LogProbeFailed)
    ensures IsRun(c, s, run[..j]) && IsRun(c, s, run[..j + 1])
    ensures Reports(After(c, s, run[..j]), After(c, s, run[..j + 1]), FlightName(s, f), Failed(error))
  {
    var name := FlightName(s, f);
    var next := Apply(c, s, run[0]);
    OnlyItsStepsMoveAThread(c, s, run[0], f);
    var k := GivenUpAt(c, next, run[1..], r => ThreadAt(r, f, name, ProbeFailed(error)));
    OneStep(c, next, run[1..], k);
    FailedProbeLeavesReporting(c, After(c, next, run[1..][..k]), run[1..][k], f, name, error);
    j := k + 1;
    ShiftedRun(c, s, run, k);
  }

  predicate SeesRecovery(s: State, f: nat, name: Name) {
    ThreadAt(s, f, name, ProbeSucceeded) || ThreadAt(s, f, name, Recovering)
  }

  lemma SuccessLeavesReporting(c: Config, s: State, a: Action, f: nat, name: Name)
    requires Shape(s) && Enabled(s, a) && SeesRecovery(s, f, name) && !SeesRecovery(Apply(c, s, a), f, name)
    ensures (a == ByThread(f, RecheckAfterProbe) && name in s.down)
         || (a == ByThread(f, LogProbeRecovered) && Reports(s, Apply(c, s, a), name, Succeeded))
  {
    OnlyItsStepsMoveAThread(c, s, a, f);
    EachStepReports(c, s, a);
  }

  /** A probe that succeeds is in the registry at once, and its thread is past that point only after it
      found the dependency unhealthy again, or reported it back. */
  lemma SucceededProbeIsLogged(c: Config, s: State, f: nat, run: seq<Action>) returns (j: nat)
    requires Shape(s) && IsRun(c, s, run) && run != [] && run[0] == ByThread(f, ProbeReturns(None))
    requires f < |After(c, s, run).threads|
    requires After(c, s, run).threads[f] != ProbeSucceeded && After(c, s, run).threads[f] != Recovering
    ensures FlightName(s, f) !in Apply(c, s, run[0]).down
    ensures 0 < j < |run| && IsRun(c, s, run[..j]) && IsRun(c, s, run[..j + 1])
    ensures (run[j] == ByThread(f, RecheckAfterProbe) && FlightName(s, f) in After(c, s, run[..j]).down)
         || (run[j] == ByThread(f, LogProbeRecovered)
             && Reports(After(c, s, run[..j]), After(c, s, run[..j + 1]), FlightName(s, f), Succeeded))
  {
    var name := FlightName(s, f);
    var next := Apply(c, s, run[0]);
    OnlyItsStepsMoveAThread(c, s, run[0], f);
    var k := GivenUpAt(c, next, run[1..], r => SeesRecovery(r, f, name));
    OneStep(c, next, run[1..], k);
    SuccessLeavesReporting(c, After(c, next, run[1..][..k]), run[1..][k], f, name);
    j := k + 1;
    ShiftedRun(c, s, run, k);
  }

  // ----- polls that find a dependency healthy, or wait too long -----

  predicate NotesRecovery(s: State, p: nat, name: Name, todo: seq<Name>) {
    p < |s.polls| && (s.polls[p].pc == Recheck(name, todo) || s.polls[p].pc == RecoverLock(name, todo))
  }

  lemma NoticeLeavesReporting(c: Config, s: State, a: Action, p: nat, name: Name, todo: seq<Name>)
    requires Shape(s) && Enabled(s, a) && NotesRecovery(s, p, name, todo) && !NotesRecovery(Apply(c, s, a), p, name, todo)
    ensures (a == ByPoll(p, RecheckHealth) && name in s.down)
         || (a == ByPoll(p, LogPollRecovered) && Reports(s, Apply(c, s, a), name, Succeeded))
    ensures p < |Apply(c, s, a).polls| && Apply(c, s, a).polls[p].pc == Scan(todo)
  {
    OnlyItsStepsMoveAPoll(c, s, a, p);
    EachStepReports(c, s, a);
  }

  /** A poll that comes to a healthy dependency goes on with the next only after it found it unhealthy
      again, or reported it back. */
  lemma HealthyIsReportedBack(c: Config, s: State, p: nat, name: Name, todo: seq<Name>, run: seq<Action>) returns (j: nat)
    requires Shape(s) && IsRun(c, s, run) && run != [] && run[0] == ByPoll(p, ScanNext)
    requires s.polls[p].pc == Scan([name] + todo) && name !in s.down
    requires p < |After(c, s, run).polls| && !NotesRecovery(After(c, s, run), p, name, todo)
    ensures 0 < j < |run| && IsRun(c, s, run[..j]) && IsRun(c, s, run[..j + 1])
    ensures (run[j] == ByPoll(p, RecheckHealth) && name in After(c, s, run[..j]).down)
         || (run[j] == ByPoll(p, LogPollRecovered)
             && Reports(After(c, s, run[..j]), After(c, s, run[..j + 1]), name, Succeeded))
    ensures p < |After(c, s, run[..j + 1]).polls| && After(c, s, run[..j + 1]).polls[p].pc == Scan(todo)
  {
    var next := Apply(c, s, run[0]);
    assert ([name] + todo)[1..] == todo;
    assert next == DoScan(c, s, p);
    var k := GivenUpAt(c, next, run[1..], r => NotesRecovery(r, p, name, todo));
    OneStep(c, next, run[1..], k);
    NoticeLeavesReporting(c, After(c, next, run[1..][..k]), run[1..][k], p, name, todo);
    j := k + 1;
    ShiftedRun(c, s, run, k);
  }

  predicate OwesLate(s: State, p: nat, name: Name) {
    p < |s.polls| &&
    match s.polls[p].pc
    case LeaveLock(late) => name in late
    case CancelWaiters(late) => name in late
    case NoteLate(late) => name in late
    case _ => false
  }

  lemma LatePaidByReporting(c: Config, s: State, a: Action, p: nat, name: Name)
    requires Shape(s) && Enabled(s, a) && OwesLate(s, p, name) && !OwesLate(Apply(c, s, a), p, name)
    ensures a == ByPoll(p, LogNextLate) && Reports(s, Apply(c, s, a), name, Failed("TimeoutError"))
  {
    OnlyItsStepsMoveAPoll(c, s, a, p);
    EachStepReports(c, s, a);
  }

  lemma {:induction false} PendingIsLate(s: State, joined: seq<Ticket>, k: nat)
    requires forall t :: t in joined ==> t.flight < |s.table.made|
    requires k < |joined| && !Settled(joined[k])
    ensures FlightName(s, joined[k].flight) in LateNames(s, joined)
    decreases |joined|
  {
    if k > 0 { PendingIsLate(s, joined[1..], k - 1); }
  }

  /** A poll whose wait ends with a probe still out is done only after one of its steps reported that
      dependency as timed out. */
  lemma LateProbeIsLogged(c: Config, s: State, p: nat, k: nat, run: seq<Action>) returns (j: nat)
    requires Shape(s) && IsRun(c, s, run) && run != [] && run[0] == ByPoll(p, WaitReturns)
    requires k < |s.polls[p].joined| && s.polls[p].joined[k].status == Pending
    requires p < |After(c, s, run).polls| && After(c, s, run).polls[p].pc.Done?
    ensures 0 < j < |run| && run[j] == ByPoll(p, LogNextLate) && IsRun(c, s, run[..j]) && IsRun(c, s, run[..j + 1])
    ensures Reports(After(c, s, run[..j]), After(c, s, run[..j + 1]),
                    FlightName(s, s.polls[p].joined[k].flight), Failed("TimeoutError"))
  {
    var name := FlightName(s, s.polls[p].joined[k].flight);
    var next := Apply(c, s, run[0]);
    PendingIsLate(s, s.polls[p].joined, k);
    assert next.polls[p].pc == LeaveLock(LateNames(s, s.polls[p].joined));
    var i := GivenUpAt(c, next, run[1..], r => OwesLate(r, p, name));
    OneStep(c, next, run[1..], i);
    LatePaidByReporting(c, After(c, next, run[1..][..i]), run[1..][i], p, name);
    j := i + 1;
    ShiftedRun(c, s, run, i);
  }

  // ----- which probes there are -----

  /** The last start of a name is the start of one of its flights. */
  ghost predicate LastStartsAreFlights(s: State)
    requires Shape(s)
  {
    forall n :: n in s.table.lastStarted ==> StartedAt(s, n, s.table.lastStarted[n])
  }

  ghost predicate StartedAt(s: State, name: Name, at: real)
    requires Shape(s)
  {
    exists f :: 0 <= f < |s.startedAt| && FlightName(s, f) == name && s.startedAt[f] == at
  }

  lemma StartStays(s: State, r: State, name: Name, at: real)
    requires Shape(s) && Shape(r) && |s.startedAt| <= |r.startedAt| && StartedAt(s, name, at)
    requires forall f :: 0 <= f < |s.startedAt| ==> FlightName(r, f) == FlightName(s, f) && r.startedAt[f] == s.startedAt[f]
    ensures StartedAt(r, name, at)
  {
    var f :| 0 <= f < |s.startedAt| && FlightName(s, f) == name && s.startedAt[f] == at;
    assert FlightName(r, f) == name && r.startedAt[f] == at;
  }

  /** Only probed dependencies are asked for and have flights. */
  ghost predicate OnlyProbed(c: Config, s: State)
    requires Shape(s)
  {
    && (forall f :: 0 <= f < |s.startedAt| ==> FlightName(s, f) in c.probed)
    && (forall p :: 0 <= p < |s.polls| && s.polls[p].pc.JoinLock? ==> s.polls[p].pc.name in c.probed)
  }

  ghost predicate Starts(c: Config, s: State)
    requires Shape(s)
  {
    LastStartsAreFlights(s) && OnlyProbed(c, s)
  }

  lemma NothingStartedKeepsLast(s: State, r: State)
    requires Shape(s) && Shape(r) && StartsNothing(s, r) && LastStartsAreFlights(s)
    ensures LastStartsAreFlights(r)
  {
    forall n | n in r.table.lastStarted
      ensures StartedAt(r, n, r.table.lastStarted[n])
    {
      StartStays(s, r, n, s.table.lastStarted[n]);
    }
  }

  lemma StartedKeepsLast(s: State, p: nat)
    requires Shape(s) && CanJoin(s, p) && Shape(Started(s, p)) && LastStartsAreFlights(s)
    ensures LastStartsAreFlights(Started(s, p))
  {
    var r, name := Started(s, p), s.polls[p].pc.name;
    assert FlightName(r, |s.startedAt|) == name && r.startedAt[|s.startedAt|] == s.now;
    forall n | n in r.table.lastStarted
      ensures StartedAt(r, n, r.table.lastStarted[n])
    {
      if n != name { StartStays(s, r, n, s.table.lastStarted[n]); }
    }
  }

  lemma JoinKeepsStarts(c: Config, s: State, p: nat)
    requires Shape(s) && PollEnabled(s, p, JoinFlight) && Starts(c, s)
    ensures Starts(c, DoJoin(c, s, p))
  {
    var r, name := DoJoin(c, s, p), s.polls[p].pc.name;
    JoinCases(c, s, p);
    if name in s.table.flights {
      SitStartsNothing(s, p, s.table.flights[name]);
      NothingStartedKeepsLast(s, r);
    } else if TooSoon(s.table, name, s.now, c.minInterval) {
      RefusalIsQuiet(s, p);
      QuietStartsNothing(s, r);
      NothingStartedKeepsLast(s, r);
    } else {
      StartedKeepsLast(s, p);
      assert forall f :: 0 <= f < |s.startedAt| ==> FlightName(r, f) == FlightName(s, f);
    }
  }

  lemma PollAsksForProbedOnly(c: Config, s: State, p: nat, a: PollStep)
    requires Shape(s) && PollEnabled(s, p, a) && !a.JoinFlight?
    requires forall q :: 0 <= q < |s.polls| && s.polls[q].pc.JoinLock? ==> s.polls[q].pc.name in c.probed
    ensures var r := PollApply(c, s, p, a);
      forall q :: 0 <= q < |r.polls| && r.polls[q].pc.JoinLock? ==> r.polls[q].pc.name in c.probed
  {
  }

  lemma ThreadAsksForNothing(s: State, f: nat, a: ThreadStep)
    requires Shape(s) && ThreadEnabled(s, f, a)
    ensures ThreadApply(s, f, a).polls == s.polls
  {
  }

  lemma WorldAsksForNothing(c: Config, s: State, a: WorldStep)
    requires Shape(s) && WorldEnabled(s, a)
    ensures var r := WorldApply(c, s, a);
      forall q :: 0 <= q < |r.polls| && r.polls[q].pc.JoinLock? ==> q < |s.polls| && s.polls[q].pc == r.polls[q].pc
  {
  }

  lemma StepKeepsStarts(c: Config, s: State, a: Action)
    requires Shape(s) && Enabled(s, a) && Starts(c, s)
    ensures Starts(c, Apply(c, s, a))
  {
    if a.ByPoll? && a.poll.JoinFlight? {
      JoinKeepsStarts(c, s, a.p);
    } else {
      match a {
        case ByPoll(p, step) => PollStartsNothing(c, s, p, step); PollAsksForProbedOnly(c, s, p, step);
        case ByThread(f, step) => ThreadStartsNothing(s, f, step); ThreadAsksForNothing(s, f, step);
        case ByWorld(step) => WorldStartsNothing(c, s, step); WorldAsksForNothing(c, s, step);
      }
      NothingStartedKeepsLast(s, Apply(c, s, a));
    }
  }

  lemma {:induction false} RunKeepsStarts(c: Config, s: State, run: seq<Action>)
    requires Shape(s) && IsRun(c, s, run) && Starts(c, s)
    ensures Starts(c, After(c, s, run))
    decreases |run|
  {
    if run != [] {
      StepKeepsStarts(c, s, run[0]);
      RunKeepsStarts(c, Apply(c, s, run[0]), run[1..]);
    }
  }

  lemma ReachableStarts(c: Config, s: State)
    requires Reachable(c, s)
    ensures Invariant(c, s) && Starts(c, s)
  {
    ReachableIsInvariant(c, s);
    var now: real, down: set<Name>, run: seq<Action> :|
      IsRun(c, Init(now, down), run) && s == After(c, Init(now, down), run);
    RunKeepsStarts(c, Init(now, down), run);
  }

  /** A probe of the name that has not given up its slot. */
  ghost predicate Runs(s: State, f: nat, name: Name) {
    f < |s.threads| == |s.table.made| && FlightName(s, f) == name && !s.threads[f].Waking?
  }

  lemma RunsExactlyInSlot(c: Config, s: State, name: Name)
    requires Reachable(c, s)
    ensures (exists f :: Runs(s, f, name)) <==> name in s.table.flights
  {
    ReachableIsInvariant(c, s);
    if name in s.table.flights { assert Runs(s, s.table.flights[name], name); }
  }

  /** The interval has passed since every start of the name. */
  ghost predicate Rested(c: Config, s: State, name: Name)
    requires Shape(s)
  {
    forall f :: 0 <= f < |s.startedAt| && FlightName(s, f) == name ==> c.minInterval <= s.now - s.startedAt[f]
  }

  lemma RestedUnlessTooSoon(c: Config, s: State, name: Name)
    requires Reachable(c, s)
    ensures Shape(s) && (Rested(c, s, name) <==> !TooSoon(s.table, name, s.now, c.minInterval))
  {
    ReachableStarts(c, s);
    if name in s.table.lastStarted {
      assert StartedAt(s, name, s.table.lastStarted[name]);
    }
  }

  /** A poll that asks for a probe is seated exactly when one of that dependency is running, or the
      interval since every earlier start has passed; it starts one exactly when none was running. Its
      seat is a pending waiter at a running flight of that name. */
  lemma JoinSeatsExactly(c: Config, s: State, p: nat)
    requires Reachable(c, s) && PollEnabled(s, p, JoinFlight)
    ensures var r, name, k := PollApply(c, s, p, JoinFlight), s.polls[p].pc.name, |s.polls[p].joined|;
      var isRunning := exists f :: Runs(s, f, name);
      && Shape(s) && name in c.probed
      && r.polls[p].pc == Scan(s.polls[p].pc.todo)
      && (|r.polls[p].joined| == k + 1 <==> isRunning || Rested(c, s, name))
      && (|r.polls[p].joined| != k + 1 ==> r == s.(polls := r.polls) && r.polls[p].joined == s.polls[p].joined)
      && (|r.polls[p].joined| == k + 1 ==>
            && |r.threads| == |s.threads| + (if isRunning then 0 else 1)
            && r.polls[p].joined[..k] == s.polls[p].joined && r.polls[p].joined[k].status == Pending
            && Runs(r, r.polls[p].joined[k].flight, name)
            && Waiter(p, k) in r.table.made[r.polls[p].joined[k].flight].waiters)
  {
    ReachableStarts(c, s);
    RunsExactlyInSlot(c, s, s.polls[p].pc.name);
    RestedUnlessTooSoon(c, s, s.polls[p].pc.name);
    JoinCases(c, s, p);
  }

  /** A poll of an open loop never sticks: it can take a step of its own, other than being cancelled,
      unless it waits for a probe that is still out, before its deadline. */
  lemma PollsGoOn(c: Config, s: State, p: nat)
    requires Reachable(c, s) && Live(s, p) && !s.polls[p].pc.Done?
    ensures (exists a: PollStep :: a != PollCancelled && PollEnabled(s, p, a)) <==>
      !(s.polls[p].pc.Await? && s.now < s.polls[p].deadline && exists t :: t in s.polls[p].joined && t.status == Pending)
  {
    match s.polls[p].pc
    case Scan(_) => assert PollEnabled(s, p, ScanNext);
    case Recheck(_, _) => assert PollEnabled(s, p, RecheckHealth);
    case RecoverLock(_, _) => assert PollEnabled(s, p, LogPollRecovered);
    case JoinLock(_, _) => assert PollEnabled(s, p, JoinFlight);
    case Await =>
      if s.polls[p].deadline <= s.now || forall t :: t in s.polls[p].joined ==> Settled(t) {
        assert PollEnabled(s, p, WaitReturns);
      }
    case LeaveLock(_) => assert PollEnabled(s, p, LeaveFlights);
    case CancelWaiters(_) => assert PollEnabled(s, p, CancelOwnWaiters);
    case NoteLate(_) => assert PollEnabled(s, p, LogNextLate);
  }
}
