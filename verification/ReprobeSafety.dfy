/** What every interleaving of polls and probe threads keeps. */
module ReprobeSafety {
  import opened Reprobe

  // ----- the invariants -----

  /** The slot map holds exactly the flights whose thread has not released its slot. */
  ghost predicate SlotsHoldRunningFlights(s: State)
    requires Shape(s)
  {
    && (forall n :: n in s.table.flights ==>
          FlightName(s, s.table.flights[n]) == n && !s.threads[s.table.flights[n]].Waking?)
    && (forall f :: 0 <= f < |s.threads| && !s.threads[f].Waking? ==>
          FlightName(s, f) in s.table.flights && s.table.flights[FlightName(s, f)] == f)
    && (forall f :: 0 <= f < |s.threads| && s.threads[f].Waking? ==> s.table.made[f].waiters == [])
  }

  predicate IssuedFor(s: State, w: Waiter, f: nat) {
    Issued(s, w) && s.polls[w.poll].joined[w.index].flight == f
  }

  /** Every waiter is recorded where its own flight can reach it, and only there. */
  ghost predicate WaitersBelong(s: State)
    requires Shape(s)
  {
    && (forall f, w :: 0 <= f < |s.table.made| && w in s.table.made[f].waiters ==> IssuedFor(s, w, f))
    && (forall f, w :: 0 <= f < |s.threads| && s.threads[f].Waking? && w in s.threads[f].batch ==>
          IssuedFor(s, w, f))
    && (forall w :: w in s.callbacks ==>
          Issued(s, w) && s.threads[s.polls[w.poll].joined[w.index].flight].Waking?)
  }

  /** A result can only come from a probe that had returned and released its slot. */
  ghost predicate ResultsFollowProbes(s: State)
    requires Shape(s)
  {
    forall p, k :: 0 <= p < |s.polls| && 0 <= k < |s.polls[p].joined| ==>
      s.polls[p].joined[k].status == Resolved ==> s.threads[s.polls[p].joined[k].flight].Waking?
  }

  predicate IsOut(pc: Pc) { pc.NoteLate? || pc.Done? }

  predicate HasLeft(pc: Pc) { pc.CancelWaiters? || IsOut(pc) }

  /** Somebody still holds the waiter and will resolve it: its running flight, the batch that
      its finishing thread took, or a callback its event loop has accepted. */
  predicate WillBeWoken(s: State, p: nat, k: nat)
    requires |s.threads| == |s.table.made|
    requires p < |s.polls| && k < |s.polls[p].joined| && s.polls[p].joined[k].flight < |s.threads|
  {
    var w, f := Waiter(p, k), s.polls[p].joined[k].flight;
    || (w in s.table.made[f].waiters && !s.threads[f].Waking?)
    || (s.threads[f].Waking? && w in s.threads[f].batch)
    || w in s.callbacks
  }

  ghost predicate NoWakeUpLost(s: State)
    requires Shape(s)
  {
    forall p, k :: 0 <= p < |s.polls| && 0 <= k < |s.polls[p].joined| &&
      s.polls[p].joined[k].status == Pending && !HasLeft(s.polls[p].pc) && s.polls[p].loop !in s.closed
      ==> WillBeWoken(s, p, k)
  }

  /** A waiter is cancelled only by its own poll on the way out, and a poll that is out has
      none left pending: each waiter settles, one way or the other. */
  ghost predicate OutMeansSettled(s: State) {
    forall p, k :: 0 <= p < |s.polls| && 0 <= k < |s.polls[p].joined| ==>
      && (IsOut(s.polls[p].pc) ==> Settled(s.polls[p].joined[k]))
      && (s.polls[p].joined[k].status == Cancelled ==> IsOut(s.polls[p].pc))
  }

  ghost predicate Safe(s: State) {
    && Shape(s)
    && SlotsHoldRunningFlights(s)
    && WaitersBelong(s)
    && ResultsFollowProbes(s)
    && NoWakeUpLost(s)
    && OutMeansSettled(s)
  }

  // ----- steps that move no waiter and free no slot -----

  ghost predicate Quiet(s: State, r: State) {
    && r.table.flights == s.table.flights && r.table.made == s.table.made
    && r.callbacks == s.callbacks && s.closed <= r.closed
    && |r.threads| == |s.threads|
    && (forall f :: 0 <= f < |s.threads| ==>
          r.threads[f] == s.threads[f] || (!s.threads[f].Waking? && !r.threads[f].Waking?))
    && |s.polls| <= |r.polls|
    && (forall q :: |s.polls| <= q < |r.polls| ==> r.polls[q].joined == [])
    && (forall q :: 0 <= q < |s.polls| ==>
          && r.polls[q].joined == s.polls[q].joined && r.polls[q].loop == s.polls[q].loop
          && (HasLeft(s.polls[q].pc) ==> HasLeft(r.polls[q].pc))
          && (r.polls[q].joined == [] || (IsOut(s.polls[q].pc) <==> IsOut(r.polls[q].pc))))
  }

  lemma QuietKeepsSlots(s: State, r: State)
    requires Shape(s) && Shape(r) && Quiet(s, r) && SlotsHoldRunningFlights(s)
    ensures SlotsHoldRunningFlights(r)
  {
  }

  lemma QuietKeepsWaiters(s: State, r: State)
    requires Shape(s) && Shape(r) && Quiet(s, r) && WaitersBelong(s)
    ensures WaitersBelong(r)
  {
  }

  lemma QuietKeepsResults(s: State, r: State)
    requires Shape(s) && Shape(r) && Quiet(s, r) && ResultsFollowProbes(s) && OutMeansSettled(s)
    ensures ResultsFollowProbes(r) && OutMeansSettled(r)
  {
  }

  lemma QuietKeepsWakeUps(s: State, r: State)
    requires Shape(s) && Shape(r) && Quiet(s, r) && NoWakeUpLost(s)
    ensures NoWakeUpLost(r)
  {
  }

  lemma QuietKeepsSafe(s: State, r: State)
    requires Safe(s) && Shape(r) && Quiet(s, r)
    ensures Safe(r)
  {
    QuietKeepsSlots(s, r);
    QuietKeepsWaiters(s, r);
    QuietKeepsResults(s, r);
    QuietKeepsWakeUps(s, r);
  }

  predicate MovesNoWaiter(a: PollStep) {
    !a.JoinFlight? && !a.LeaveFlights? && !a.CancelOwnWaiters?
  }

  lemma PcMoveIsQuiet(s: State, r: State, p: nat, pc: Pc)
    requires Shape(s) && p < |s.polls|
    requires r == SetPc(s, p, pc).(table := s.table.(outage := r.table.outage), commits := r.commits, owed := r.owed)
    requires HasLeft(s.polls[p].pc) ==> HasLeft(pc)
    requires s.polls[p].joined == [] || (IsOut(s.polls[p].pc) <==> IsOut(pc))
    ensures Quiet(s, r)
  {
  }

  lemma ScanningIsQuiet(c: Config, s: State, p: nat, a: PollStep)
    requires Shape(s) && PollEnabled(s, p, a) && (a.ScanNext? || a.RecheckHealth? || a.LogPollRecovered?)
    ensures Quiet(s, PollApply(c, s, p, a))
  {
    var r := PollApply(c, s, p, a);
    PcMoveIsQuiet(s, r, p, r.polls[p].pc);
  }

  lemma WaitingIsQuiet(c: Config, s: State, p: nat, a: PollStep)
    requires Shape(s) && PollEnabled(s, p, a) && (a.WaitReturns? || a.PollCancelled? || a.LogNextLate?)
    ensures Quiet(s, PollApply(c, s, p, a))
  {
    var r := PollApply(c, s, p, a);
    PcMoveIsQuiet(s, r, p, r.polls[p].pc);
  }

  lemma PollIsQuiet(c: Config, s: State, p: nat, a: PollStep)
    requires Shape(s) && PollEnabled(s, p, a) && MovesNoWaiter(a)
    ensures Quiet(s, PollApply(c, s, p, a))
  {
    if a.ScanNext? || a.RecheckHealth? || a.LogPollRecovered? {
      ScanningIsQuiet(c, s, p, a);
    } else {
      WaitingIsQuiet(c, s, p, a);
    }
  }

  // ----- joining -----

  predicate CanJoin(s: State, p: nat) {
    p < |s.polls| && s.polls[p].pc.JoinLock?
  }

  function WithTicket(s: State, p: nat, f: nat): seq<Poll>
    requires CanJoin(s, p)
  {
    s.polls[p := s.polls[p].(pc := Scan(s.polls[p].pc.todo), joined := s.polls[p].joined + [Ticket(f, Pending)])]
  }

  /** The poll sits down at the running flight `f`. */
  function SatDown(s: State, p: nat, f: nat): State
    requires CanJoin(s, p) && f < |s.table.made|
  {
    s.(table := s.table.(made := s.table.made[f :=
         Flight(s.table.made[f].name, s.table.made[f].waiters + [Waiter(p, |s.polls[p].joined|)])]),
       polls := WithTicket(s, p, f))
  }

  /** The poll starts a new flight. */
  function Started(s: State, p: nat): State
    requires CanJoin(s, p)
  {
    var name, f := s.polls[p].pc.name, |s.table.made|;
    s.(table := s.table.(lastStarted := s.table.lastStarted[name := s.now],
                         flights := s.table.flights[name := f],
                         made := s.table.made + [Flight(name, [Waiter(p, |s.polls[p].joined|)])]),
       threads := s.threads + [Probing],
       startedAt := s.startedAt + [s.now],
       polls := WithTicket(s, p, f))
  }

  lemma JoinCases(c: Config, s: State, p: nat)
    requires Shape(s) && PollEnabled(s, p, JoinFlight)
    ensures var name := s.polls[p].pc.name;
      DoJoin(c, s, p) ==
        if name in s.table.flights then SatDown(s, p, s.table.flights[name])
        else if TooSoon(s.table, name, s.now, c.minInterval) then SetPc(s, p, Scan(s.polls[p].pc.todo))
        else Started(s, p)
  {
  }

  lemma RefusalIsQuiet(s: State, p: nat)
    requires Shape(s) && CanJoin(s, p)
    ensures Quiet(s, SetPc(s, p, Scan(s.polls[p].pc.todo)))
  {
  }

  lemma SitKeepsSlots(s: State, p: nat, f: nat)
    requires Shape(s) && CanJoin(s, p) && f < |s.threads| && !s.threads[f].Waking?
    requires SlotsHoldRunningFlights(s) && Shape(SatDown(s, p, f))
    ensures SlotsHoldRunningFlights(SatDown(s, p, f))
  {
  }

  lemma SitKeepsWaiters(s: State, p: nat, f: nat)
    requires Shape(s) && CanJoin(s, p) && f < |s.threads| && !s.threads[f].Waking?
    requires WaitersBelong(s) && Shape(SatDown(s, p, f))
    ensures WaitersBelong(SatDown(s, p, f))
  {
  }

  lemma SitKeepsResults(s: State, p: nat, f: nat)
    requires Shape(s) && CanJoin(s, p) && f < |s.threads| && !s.threads[f].Waking?
    requires ResultsFollowProbes(s) && OutMeansSettled(s) && Shape(SatDown(s, p, f))
    ensures ResultsFollowProbes(SatDown(s, p, f)) && OutMeansSettled(SatDown(s, p, f))
  {
  }

  lemma SitKeepsWakeUps(s: State, p: nat, f: nat)
    requires Shape(s) && CanJoin(s, p) && f < |s.threads| && !s.threads[f].Waking?
    requires NoWakeUpLost(s) && Shape(SatDown(s, p, f))
    ensures NoWakeUpLost(SatDown(s, p, f))
  {
  }

  lemma SitKeepsSafe(s: State, p: nat, f: nat)
    requires Safe(s) && CanJoin(s, p) && f < |s.threads| && !s.threads[f].Waking?
    requires Shape(SatDown(s, p, f))
    ensures Safe(SatDown(s, p, f))
  {
    SitKeepsSlots(s, p, f);
    SitKeepsWaiters(s, p, f);
    SitKeepsResults(s, p, f);
    SitKeepsWakeUps(s, p, f);
  }

  lemma StartKeepsSlots(s: State, p: nat)
    requires Shape(s) && CanJoin(s, p) && s.polls[p].pc.name !in s.table.flights
    requires SlotsHoldRunningFlights(s) && Shape(Started(s, p))
    ensures SlotsHoldRunningFlights(Started(s, p))
  {
  }

  lemma StartKeepsWaiters(s: State, p: nat)
    requires Shape(s) && CanJoin(s, p) && WaitersBelong(s) && Shape(Started(s, p))
    ensures WaitersBelong(Started(s, p))
  {
  }

  lemma StartKeepsResults(s: State, p: nat)
    requires Shape(s) && CanJoin(s, p)
    requires ResultsFollowProbes(s) && OutMeansSettled(s) && Shape(Started(s, p))
    ensures ResultsFollowProbes(Started(s, p)) && OutMeansSettled(Started(s, p))
  {
  }

  lemma StartKeepsWakeUps(s: State, p: nat)
    requires Shape(s) && CanJoin(s, p) && NoWakeUpLost(s) && Shape(Started(s, p))
    ensures NoWakeUpLost(Started(s, p))
  {
  }

  lemma StartKeepsSafe(s: State, p: nat)
    requires Safe(s) && CanJoin(s, p) && s.polls[p].pc.name !in s.table.flights && Shape(Started(s, p))
    ensures Safe(Started(s, p))
  {
    StartKeepsSlots(s, p);
    StartKeepsWaiters(s, p);
    StartKeepsResults(s, p);
    StartKeepsWakeUps(s, p);
  }

  lemma JoinKeepsSafe(c: Config, s: State, p: nat)
    requires Safe(s) && PollEnabled(s, p, JoinFlight)
    ensures Safe(DoJoin(c, s, p))
  {
    var name := s.polls[p].pc.name;
    JoinCases(c, s, p);
    if name in s.table.flights {
      SitKeepsSafe(s, p, s.table.flights[name]);
    } else if TooSoon(s.table, name, s.now, c.minInterval) {
      RefusalIsQuiet(s, p);
      QuietKeepsSafe(s, DoJoin(c, s, p));
    } else {
      StartKeepsSafe(s, p);
    }
  }

  // ----- leaving -----

  lemma EmptyOrFirst(ws: seq<Waiter>)
    ensures ws == [] || ws[0] in ws
  {
  }

  lemma LeaveKeepsSlots(s: State, p: nat)
    requires Shape(s) && PollEnabled(s, p, LeaveFlights) && SlotsHoldRunningFlights(s)
    ensures SlotsHoldRunningFlights(DoLeave(s, p))
  {
    var r := DoLeave(s, p);
    forall f | 0 <= f < |s.threads| && s.threads[f].Waking?
      ensures r.table.made[f].waiters == []
    {
      EmptyOrFirst(r.table.made[f].waiters);
    }
  }

  lemma LeaveKeepsWaiters(s: State, p: nat)
    requires Shape(s) && PollEnabled(s, p, LeaveFlights) && WaitersBelong(s)
    ensures WaitersBelong(DoLeave(s, p))
  {
  }

  lemma SeatsAreOwn(p: nat, joined: seq<Ticket>, q: nat, k: nat, f: nat)
    requires q != p
    ensures Seat(f, Waiter(q, k)) !in SeatsOf(p, joined)
  {
  }

  /** Leaving takes out the poll's own waiters and nobody else's. */
  lemma LeaveKeepsWakeUps(s: State, p: nat)
    requires Shape(s) && PollEnabled(s, p, LeaveFlights) && NoWakeUpLost(s)
    ensures NoWakeUpLost(DoLeave(s, p))
  {
    forall q, k | 0 <= q < |s.polls| && 0 <= k < |s.polls[q].joined| && q != p
      ensures Seat(s.polls[q].joined[k].flight, Waiter(q, k)) !in SeatsOf(p, s.polls[p].joined)
    {
      SeatsAreOwn(p, s.polls[p].joined, q, k, s.polls[q].joined[k].flight);
    }
  }

  lemma LeaveKeepsResults(s: State, p: nat)
    requires Shape(s) && PollEnabled(s, p, LeaveFlights) && ResultsFollowProbes(s) && OutMeansSettled(s)
    ensures ResultsFollowProbes(DoLeave(s, p)) && OutMeansSettled(DoLeave(s, p))
  {
  }

  lemma LeaveKeepsSafe(s: State, p: nat)
    requires Safe(s) && PollEnabled(s, p, LeaveFlights)
    ensures Safe(DoLeave(s, p))
  {
    LeaveKeepsSlots(s, p);
    LeaveKeepsWaiters(s, p);
    LeaveKeepsWakeUps(s, p);
    LeaveKeepsResults(s, p);
  }

  function OwnCancelled(s: State, p: nat): State
    requires p < |s.polls| && s.polls[p].pc.CancelWaiters?
  {
    s.(polls := s.polls[p := s.polls[p].(pc := NoteLate(s.polls[p].pc.late), joined := CancelPending(s.polls[p].joined))])
  }

  lemma CancelKeepsSlots(s: State, p: nat)
    requires Shape(s) && p < |s.polls| && s.polls[p].pc.CancelWaiters? && SlotsHoldRunningFlights(s)
    ensures Shape(OwnCancelled(s, p)) && SlotsHoldRunningFlights(OwnCancelled(s, p))
  {
  }

  lemma CancelKeepsWaiters(s: State, p: nat)
    requires Shape(s) && p < |s.polls| && s.polls[p].pc.CancelWaiters? && WaitersBelong(s) && Shape(OwnCancelled(s, p))
    ensures WaitersBelong(OwnCancelled(s, p))
  {
  }

  lemma CancelKeepsResults(s: State, p: nat)
    requires Shape(s) && p < |s.polls| && s.polls[p].pc.CancelWaiters? && Shape(OwnCancelled(s, p))
    requires ResultsFollowProbes(s) && OutMeansSettled(s)
    ensures ResultsFollowProbes(OwnCancelled(s, p)) && OutMeansSettled(OwnCancelled(s, p))
  {
  }

  lemma CancelKeepsWakeUps(s: State, p: nat)
    requires Shape(s) && p < |s.polls| && s.polls[p].pc.CancelWaiters? && NoWakeUpLost(s) && Shape(OwnCancelled(s, p))
    ensures NoWakeUpLost(OwnCancelled(s, p))
  {
  }

  lemma CancelKeepsSafe(c: Config, s: State, p: nat)
    requires Safe(s) && PollEnabled(s, p, CancelOwnWaiters)
    ensures Safe(PollApply(c, s, p, CancelOwnWaiters))
  {
    assert PollApply(c, s, p, CancelOwnWaiters) == OwnCancelled(s, p);
    CancelKeepsSlots(s, p);
    CancelKeepsWaiters(s, p);
    CancelKeepsResults(s, p);
    CancelKeepsWakeUps(s, p);
  }

  // ----- the probe thread -----

  lemma ReleaseKeepsSlots(s: State, f: nat)
    requires Shape(s) && ThreadEnabled(s, f, ReleaseSlot) && SlotsHoldRunningFlights(s)
    ensures SlotsHoldRunningFlights(DoRelease(s, f))
  {
  }

  lemma ReleaseKeepsWaiters(s: State, f: nat)
    requires Shape(s) && ThreadEnabled(s, f, ReleaseSlot) && WaitersBelong(s)
    ensures WaitersBelong(DoRelease(s, f))
  {
  }

  lemma ReleaseKeepsResults(s: State, f: nat)
    requires Shape(s) && ThreadEnabled(s, f, ReleaseSlot) && ResultsFollowProbes(s) && OutMeansSettled(s)
    ensures ResultsFollowProbes(DoRelease(s, f)) && OutMeansSettled(DoRelease(s, f))
  {
  }

  lemma ReleaseKeepsWakeUps(s: State, f: nat)
    requires Shape(s) && ThreadEnabled(s, f, ReleaseSlot) && NoWakeUpLost(s)
    ensures NoWakeUpLost(DoRelease(s, f))
  {
  }

  lemma ReleaseKeepsSafe(s: State, f: nat)
    requires Safe(s) && ThreadEnabled(s, f, ReleaseSlot)
    ensures Safe(DoRelease(s, f))
  {
    ReleaseKeepsSlots(s, f);
    ReleaseKeepsWaiters(s, f);
    ReleaseKeepsResults(s, f);
    ReleaseKeepsWakeUps(s, f);
  }

  lemma FirstAndRest(batch: seq<Waiter>)
    requires batch != []
    ensures forall w :: w in batch <==> w == batch[0] || w in batch[1..]
  {
  }

  lemma WakeKeepsSlots(s: State, f: nat)
    requires Shape(s) && ThreadEnabled(s, f, WakeNext) && SlotsHoldRunningFlights(s)
    ensures SlotsHoldRunningFlights(DoWake(s, f))
  {
  }

  lemma WakeKeepsWaiters(s: State, f: nat)
    requires Shape(s) && ThreadEnabled(s, f, WakeNext) && WaitersBelong(s)
    ensures WaitersBelong(DoWake(s, f))
  {
    FirstAndRest(s.threads[f].batch);
    assert IssuedFor(s, s.threads[f].batch[0], f);
  }

  lemma WakeKeepsResults(s: State, f: nat)
    requires Shape(s) && ThreadEnabled(s, f, WakeNext) && ResultsFollowProbes(s) && OutMeansSettled(s)
    ensures ResultsFollowProbes(DoWake(s, f)) && OutMeansSettled(DoWake(s, f))
  {
  }

  lemma WakeKeepsWakeUps(s: State, f: nat)
    requires Shape(s) && ThreadEnabled(s, f, WakeNext) && NoWakeUpLost(s)
    ensures NoWakeUpLost(DoWake(s, f))
  {
    FirstAndRest(s.threads[f].batch);
  }

  lemma WakeKeepsSafe(s: State, f: nat)
    requires Safe(s) && ThreadEnabled(s, f, WakeNext)
    ensures Safe(DoWake(s, f))
  {
    WakeKeepsSlots(s, f);
    WakeKeepsWaiters(s, f);
    WakeKeepsResults(s, f);
    WakeKeepsWakeUps(s, f);
  }

  lemma ThreadIsQuiet(s: State, f: nat, a: ThreadStep)
    requires Shape(s) && ThreadEnabled(s, f, a) && !a.ReleaseSlot? && !a.WakeNext?
    ensures Quiet(s, ThreadApply(s, f, a))
  {
  }

  lemma ThreadKeepsSafe(s: State, f: nat, a: ThreadStep)
    requires Safe(s) && ThreadEnabled(s, f, a)
    ensures Safe(ThreadApply(s, f, a))
  {
    match a
    case ReleaseSlot => ReleaseKeepsSafe(s, f);
    case WakeNext => WakeKeepsSafe(s, f);
    case _ =>
      ThreadIsQuiet(s, f, a);
      QuietKeepsSafe(s, ThreadApply(s, f, a));
  }

  // ----- everything else -----

  lemma CallbackKeepsIssued(s: State, w: Waiter, v: Waiter)
    requires Shape(s) && WorldEnabled(s, RunCallback(w)) && Issued(s, v)
    ensures var r := DoCallback(s, w);
      Issued(r, v) && r.polls[v.poll].joined[v.index].flight == s.polls[v.poll].joined[v.index].flight
  {
  }

  lemma CallbackKeepsWaiters(s: State, w: Waiter)
    requires Shape(s) && WorldEnabled(s, RunCallback(w)) && WaitersBelong(s)
    ensures WaitersBelong(DoCallback(s, w))
  {
    var r := DoCallback(s, w);
    assert r.table == s.table && r.threads == s.threads;
    forall v | Issued(s, v)
      ensures Issued(r, v) && r.polls[v.poll].joined[v.index].flight == s.polls[v.poll].joined[v.index].flight
    {
      CallbackKeepsIssued(s, w, v);
    }
  }

  lemma CallbackKeepsSlots(s: State, w: Waiter)
    requires Shape(s) && WorldEnabled(s, RunCallback(w)) && SlotsHoldRunningFlights(s)
    ensures SlotsHoldRunningFlights(DoCallback(s, w))
  {
  }

  lemma CallbackKeepsResults(s: State, w: Waiter)
    requires Shape(s) && WorldEnabled(s, RunCallback(w)) && WaitersBelong(s)
    requires ResultsFollowProbes(s) && OutMeansSettled(s)
    ensures ResultsFollowProbes(DoCallback(s, w)) && OutMeansSettled(DoCallback(s, w))
  {
  }

  lemma CallbackKeepsWakeUps(s: State, w: Waiter)
    requires Shape(s) && WorldEnabled(s, RunCallback(w)) && NoWakeUpLost(s)
    ensures NoWakeUpLost(DoCallback(s, w))
  {
  }

  lemma CallbackKeepsSafe(s: State, w: Waiter)
    requires Safe(s) && WorldEnabled(s, RunCallback(w))
    ensures Safe(DoCallback(s, w))
  {
    CallbackKeepsSlots(s, w);
    CallbackKeepsWaiters(s, w);
    CallbackKeepsResults(s, w);
    CallbackKeepsWakeUps(s, w);
  }

  lemma WorldIsQuiet(c: Config, s: State, a: WorldStep)
    requires Shape(s) && WorldEnabled(s, a) && !a.RunCallback?
    ensures Quiet(s, WorldApply(c, s, a))
  {
  }

  lemma WorldKeepsSafe(c: Config, s: State, a: WorldStep)
    requires Safe(s) && WorldEnabled(s, a)
    ensures Safe(WorldApply(c, s, a))
  {
    match a
    case RunCallback(w) => CallbackKeepsSafe(s, w);
    case _ =>
      WorldIsQuiet(c, s, a);
      QuietKeepsSafe(s, WorldApply(c, s, a));
  }

  lemma PollKeepsSafe(c: Config, s: State, p: nat, a: PollStep)
    requires Safe(s) && PollEnabled(s, p, a)
    ensures Safe(PollApply(c, s, p, a))
  {
    match a
    case JoinFlight => JoinKeepsSafe(c, s, p);
    case LeaveFlights => LeaveKeepsSafe(s, p);
    case CancelOwnWaiters => CancelKeepsSafe(c, s, p);
    case _ =>
      PollIsQuiet(c, s, p, a);
      QuietKeepsSafe(s, PollApply(c, s, p, a));
  }

  // ----- the rate limit -----

  /** Every start of a dependency is at least the minimum interval after its earlier ones, and
      happened only after those had released the slot. */
  ghost predicate RateLimited(c: Config, s: State)
    requires Shape(s)
  {
    && (forall f :: 0 <= f < |s.startedAt| ==>
          && FlightName(s, f) in s.table.lastStarted
          && s.startedAt[f] <= s.table.lastStarted[FlightName(s, f)] <= s.now)
    && (forall f, g :: 0 <= f < g < |s.startedAt| && FlightName(s, f) == FlightName(s, g) ==>
          && c.minInterval <= s.startedAt[g] - s.startedAt[f]
          && s.threads[f].Waking?)
  }

  /** No flight is started, and no thread goes back to before its release. */
  ghost predicate StartsNothing(s: State, r: State)
    requires Shape(s) && Shape(r)
  {
    && r.table.lastStarted == s.table.lastStarted && r.startedAt == s.startedAt && s.now <= r.now
    && (forall f :: 0 <= f < |s.startedAt| ==> FlightName(r, f) == FlightName(s, f))
    && (forall f :: 0 <= f < |s.startedAt| && s.threads[f].Waking? ==> r.threads[f].Waking?)
  }

  lemma StartsNothingKeepsRate(c: Config, s: State, r: State)
    requires Shape(s) && Shape(r) && StartsNothing(s, r) && RateLimited(c, s)
    ensures RateLimited(c, r)
  {
  }

  lemma QuietStartsNothing(s: State, r: State)
    requires Shape(s) && Shape(r) && Quiet(s, r)
    requires r.table.lastStarted == s.table.lastStarted && r.startedAt == s.startedAt && s.now <= r.now
    ensures StartsNothing(s, r)
  {
  }

  lemma SitStartsNothing(s: State, p: nat, f: nat)
    requires Shape(s) && CanJoin(s, p) && f < |s.threads| && Shape(SatDown(s, p, f))
    ensures StartsNothing(s, SatDown(s, p, f))
  {
  }

  lemma StartKeepsStarts(c: Config, s: State, p: nat)
    requires Shape(s) && CanJoin(s, p) && Shape(Started(s, p)) && RateLimited(c, s)
    ensures var r := Started(s, p);
      forall f :: 0 <= f < |r.startedAt| ==>
        && FlightName(r, f) in r.table.lastStarted
        && r.startedAt[f] <= r.table.lastStarted[FlightName(r, f)] <= r.now
  {
    var r := Started(s, p);
    assert forall f :: 0 <= f < |s.startedAt| ==>
      FlightName(r, f) == FlightName(s, f) && r.startedAt[f] == s.startedAt[f] && s.startedAt[f] <= s.now;
    assert FlightName(r, |s.startedAt|) == s.polls[p].pc.name && r.startedAt[|s.startedAt|] == s.now;
  }

  lemma StartKeepsRate(c: Config, s: State, p: nat)
    requires Shape(s) && CanJoin(s, p) && Shape(Started(s, p)) && RateLimited(c, s) && SlotsHoldRunningFlights(s)
    requires s.polls[p].pc.name !in s.table.flights && !TooSoon(s.table, s.polls[p].pc.name, s.now, c.minInterval)
    ensures RateLimited(c, Started(s, p))
  {
    var r := Started(s, p);
    StartKeepsStarts(c, s, p);
    forall f, g | 0 <= f < g < |r.startedAt| && FlightName(r, f) == FlightName(r, g)
      ensures c.minInterval <= r.startedAt[g] - r.startedAt[f] && r.threads[f].Waking?
    {
      assert FlightName(r, f) == FlightName(s, f) && r.startedAt[f] == s.startedAt[f] && r.threads[f] == s.threads[f];
      if g < |s.startedAt| { assert FlightName(r, g) == FlightName(s, g) && r.startedAt[g] == s.startedAt[g]; }
    }
  }

  lemma JoinKeepsRate(c: Config, s: State, p: nat)
    requires Shape(s) && PollEnabled(s, p, JoinFlight)
    requires SlotsHoldRunningFlights(s) && RateLimited(c, s)
    ensures RateLimited(c, DoJoin(c, s, p))
  {
    var r := DoJoin(c, s, p);
    var name := s.polls[p].pc.name;
    JoinCases(c, s, p);
    if name in s.table.flights {
      SitStartsNothing(s, p, s.table.flights[name]);
      StartsNothingKeepsRate(c, s, r);
    } else if TooSoon(s.table, name, s.now, c.minInterval) {
      RefusalIsQuiet(s, p);
      QuietStartsNothing(s, r);
      StartsNothingKeepsRate(c, s, r);
    } else {
      StartKeepsRate(c, s, p);
    }
  }

  lemma LeavingStartsNothing(c: Config, s: State, p: nat, a: PollStep)
    requires Shape(s) && PollEnabled(s, p, a) && (a.LeaveFlights? || a.CancelOwnWaiters?)
    ensures StartsNothing(s, PollApply(c, s, p, a))
  {
  }

  predicate SameStarts(s: State, r: State) {
    r.table.lastStarted == s.table.lastStarted && r.startedAt == s.startedAt && s.now == r.now
  }

  lemma PollKeepsStarts(c: Config, s: State, p: nat, a: PollStep)
    requires Shape(s) && PollEnabled(s, p, a) && MovesNoWaiter(a)
    ensures SameStarts(s, PollApply(c, s, p, a))
  {
  }

  lemma PollStartsNothing(c: Config, s: State, p: nat, a: PollStep)
    requires Shape(s) && PollEnabled(s, p, a) && !a.JoinFlight?
    ensures StartsNothing(s, PollApply(c, s, p, a))
  {
    if MovesNoWaiter(a) {
      PollIsQuiet(c, s, p, a);
      PollKeepsStarts(c, s, p, a);
      QuietStartsNothing(s, PollApply(c, s, p, a));
    } else {
      LeavingStartsNothing(c, s, p, a);
    }
  }

  lemma ThreadKeepsStarts(s: State, f: nat, a: ThreadStep)
    requires Shape(s) && ThreadEnabled(s, f, a) && !a.ReleaseSlot? && !a.WakeNext?
    ensures SameStarts(s, ThreadApply(s, f, a))
  {
    match a
    case ProbeReturns(error) => assert SameStarts(s, DoProbeReturns(s, f, error));
    case LogProbeFailed => assert SameStarts(s, CommitFailed(s, FlightName(s, f), s.threads[f].errorClass));
    case RecheckAfterProbe =>
    case LogProbeRecovered => assert SameStarts(s, CommitRecovered(s, FlightName(s, f)));
  }

  lemma ReleaseStartsNothing(s: State, f: nat)
    requires Shape(s) && ThreadEnabled(s, f, ReleaseSlot)
    ensures StartsNothing(s, DoRelease(s, f))
  {
  }

  lemma WakeStartsNothing(s: State, f: nat)
    requires Shape(s) && ThreadEnabled(s, f, WakeNext)
    ensures StartsNothing(s, DoWake(s, f))
  {
  }

  lemma ThreadStartsNothing(s: State, f: nat, a: ThreadStep)
    requires Shape(s) && ThreadEnabled(s, f, a)
    ensures StartsNothing(s, ThreadApply(s, f, a))
  {
    if a.ReleaseSlot? {
      ReleaseStartsNothing(s, f);
    } else if a.WakeNext? {
      WakeStartsNothing(s, f);
    } else {
      ThreadIsQuiet(s, f, a);
      ThreadKeepsStarts(s, f, a);
      QuietStartsNothing(s, ThreadApply(s, f, a));
    }
  }

  lemma CallbackStartsNothing(s: State, w: Waiter)
    requires Shape(s) && WorldEnabled(s, RunCallback(w))
    ensures StartsNothing(s, DoCallback(s, w))
  {
  }

  lemma WorldKeepsStarts(c: Config, s: State, a: WorldStep)
    requires Shape(s) && WorldEnabled(s, a)
    ensures var r := WorldApply(c, s, a);
      r.table.lastStarted == s.table.lastStarted && r.startedAt == s.startedAt && s.now <= r.now
  {
  }

  lemma WorldStartsNothing(c: Config, s: State, a: WorldStep)
    requires Shape(s) && WorldEnabled(s, a)
    ensures StartsNothing(s, WorldApply(c, s, a))
  {
    if a.RunCallback? {
      CallbackStartsNothing(s, a.w);
    } else {
      WorldIsQuiet(c, s, a);
      WorldKeepsStarts(c, s, a);
      QuietStartsNothing(s, WorldApply(c, s, a));
    }
  }

  lemma KeepsRate(c: Config, s: State, a: Action)
    requires Shape(s) && Enabled(s, a)
    requires SlotsHoldRunningFlights(s) && RateLimited(c, s)
    ensures RateLimited(c, Apply(c, s, a))
  {
    if a.ByPoll? && a.poll.JoinFlight? {
      JoinKeepsRate(c, s, a.p);
    } else {
      match a {
        case ByPoll(p, step) => PollStartsNothing(c, s, p, step);
        case ByThread(f, step) => ThreadStartsNothing(s, f, step);
        case ByWorld(step) => WorldStartsNothing(c, s, step);
      }
      StartsNothingKeepsRate(c, s, Apply(c, s, a));
    }
  }

  // ----- the outage log -----

  function Weight(e: Entry, name: Name): int {
    if e.name != name then 0 else if e.outcome.Failed? then 1 else -1
  }

  /** Failed entries less succeeded entries of one dependency. */
  function Balance(log: seq<Entry>, name: Name): int {
    if log == [] then 0 else Balance(log[..|log| - 1], name) + Weight(log[|log| - 1], name)
  }

  ghost predicate OutageLogged(s: State) {
    && (forall name :: Balance(s.commits, name) == if name in s.table.outage then 1 else 0)
    && (forall k, name :: 0 <= k <= |s.commits| ==> 0 <= Balance(s.commits[..k], name) <= 1)
    && multiset(s.written) + s.owed == multiset(s.commits)
  }

  lemma CommitKeepsOutage(s: State, r: State, e: Entry)
    requires OutageLogged(s)
    requires r.commits == s.commits + [e] && r.owed == s.owed + multiset{e} && r.written == s.written
    requires e.outcome.Failed? ==> e.name !in s.table.outage && r.table.outage == s.table.outage + {e.name}
    requires e.outcome.Succeeded? ==> e.name in s.table.outage && r.table.outage == s.table.outage - {e.name}
    ensures OutageLogged(r)
  {
    assert r.commits[..|s.commits|] == s.commits;
    forall k, name | 0 <= k <= |r.commits|
      ensures 0 <= Balance(r.commits[..k], name) <= 1
    {
      if k <= |s.commits| {
        assert r.commits[..k] == s.commits[..k];
      } else {
        assert r.commits[..k] == r.commits;
      }
    }
  }

  lemma EmitKeepsOutage(s: State, r: State, e: Entry)
    requires OutageLogged(s) && e in s.owed
    requires r == s.(owed := s.owed - multiset{e}, written := s.written + [e])
    ensures OutageLogged(r)
  {
  }

  ghost predicate SameLog(s: State, r: State) {
    r.table.outage == s.table.outage && r.commits == s.commits && r.owed == s.owed && r.written == s.written
  }

  lemma FailedKeepsOutage(s: State, name: Name, errorClass: string)
    requires OutageLogged(s)
    ensures OutageLogged(CommitFailed(s, name, errorClass))
  {
    if name !in s.table.outage {
      CommitKeepsOutage(s, CommitFailed(s, name, errorClass), Entry(name, Failed(errorClass)));
    }
  }

  lemma RecoveredKeepsOutage(s: State, name: Name)
    requires OutageLogged(s)
    ensures OutageLogged(CommitRecovered(s, name))
  {
    if name in s.table.outage {
      CommitKeepsOutage(s, CommitRecovered(s, name), Entry(name, Succeeded));
    }
  }

  lemma PollKeepsOutage(c: Config, s: State, p: nat, a: PollStep)
    requires Shape(s) && PollEnabled(s, p, a) && OutageLogged(s)
    ensures OutageLogged(PollApply(c, s, p, a))
  {
    match a
    case LogPollRecovered => RecoveredKeepsOutage(s, s.polls[p].pc.name);
    case LogNextLate =>
      if s.polls[p].pc.late != [] { FailedKeepsOutage(s, s.polls[p].pc.late[0], "TimeoutError"); }
    case _ => assert SameLog(s, PollApply(c, s, p, a));
  }

  lemma KeepsOutage(c: Config, s: State, a: Action)
    requires Shape(s) && Enabled(s, a) && OutageLogged(s)
    ensures OutageLogged(Apply(c, s, a))
  {
    match a
    case ByPoll(p, step) => PollKeepsOutage(c, s, p, step);
    case ByThread(f, LogProbeFailed) => FailedKeepsOutage(s, FlightName(s, f), s.threads[f].errorClass);
    case ByThread(f, LogProbeRecovered) => RecoveredKeepsOutage(s, FlightName(s, f));
    case ByThread(_, _) => assert SameLog(s, Apply(c, s, a));
    case ByWorld(Emit(e)) => EmitKeepsOutage(s, Apply(c, s, a), e);
    case ByWorld(_) => assert SameLog(s, Apply(c, s, a));
  }

  // ----- whole runs -----

  ghost predicate Invariant(c: Config, s: State) {
    Safe(s) && RateLimited(c, s) && OutageLogged(s)
  }

  lemma StepKeepsInvariant(c: Config, s: State, a: Action)
    requires Invariant(c, s) && Enabled(s, a)
    ensures Invariant(c, Apply(c, s, a))
  {
    match a {
      case ByPoll(p, step) => PollKeepsSafe(c, s, p, step);
      case ByThread(f, step) => ThreadKeepsSafe(s, f, step);
      case ByWorld(step) => WorldKeepsSafe(c, s, step);
    }
    KeepsRate(c, s, a);
    KeepsOutage(c, s, a);
  }

  lemma {:induction false} RunKeepsInvariant(c: Config, s: State, run: seq<Action>)
    requires Invariant(c, s) && IsRun(c, s, run)
    ensures Invariant(c, After(c, s, run))
    decreases |run|
  {
    if run != [] {
      StepKeepsInvariant(c, s, run[0]);
      RunKeepsInvariant(c, Apply(c, s, run[0]), run[1..]);
    }
  }
}
