/** The state that `GatingReprobe` keeps under its lock, the four sections of code that run
    while the lock is held, and every interleaving of `/readyz` polls and probe threads.

    A flight is known by its index in `made`, the sequence of all flights ever created; a
    waiter is known by the poll that created it and its position among that poll's waiters. */
module Reprobe {
  import opened Optional

  type Name = string

  // ----- what the lock protects -----

  datatype Waiter = Waiter(poll: nat, index: nat)

  datatype Flight = Flight(name: Name, waiters: seq<Waiter>)

  datatype Table = Table(
    lastStarted: map<Name, real>,
    flights: map<Name, nat>,
    made: seq<Flight>,
    outage: set<Name>)

  const EMPTY_TABLE := Table(map[], map[], [], {})

  ghost predicate WellFormed(t: Table) {
    forall n :: n in t.flights ==> t.flights[n] < |t.made|
  }

  datatype Joined = Refused | Seated(flight: nat, started: bool)

  predicate TooSoon(t: Table, name: Name, now: real, minInterval: real) {
    name in t.lastStarted && now - t.lastStarted[name] < minInterval
  }

  /** The locked section of `_join`. */
  function Join(t: Table, name: Name, now: real, minInterval: real, w: Waiter): (r: (Table, Joined))
    requires WellFormed(t)
    ensures WellFormed(r.0)
  {
    if name in t.flights then
      var f := t.flights[name];
      (t.(made := t.made[f := Flight(t.made[f].name, t.made[f].waiters + [w])]), Seated(f, false))
    else if TooSoon(t, name, now, minInterval) then
      (t, Refused)
    else
      var f := |t.made|;
      (t.(lastStarted := t.lastStarted[name := now],
          flights := t.flights[name := f],
          made := t.made + [Flight(name, [w])]), Seated(f, true))
  }

  datatype Seat = Seat(flight: nat, waiter: Waiter)

  function Without(ws: seq<Waiter>, w: Waiter): (r: seq<Waiter>)
    ensures forall x :: x in r <==> x in ws && x != w
  {
    if ws == [] then []
    else if ws[0] == w then Without(ws[1..], w)
    else [ws[0]] + Without(ws[1..], w)
  }

  /** The locked section of `_leave`: each seat's waiter is taken out of that seat's flight. */
  function LeaveAll(made: seq<Flight>, seats: seq<Seat>): (r: seq<Flight>)
    requires forall seat :: seat in seats ==> seat.flight < |made|
    ensures |r| == |made|
    ensures forall f :: 0 <= f < |made| ==> r[f].name == made[f].name
    ensures forall f, w :: 0 <= f < |made| ==>
      (w in r[f].waiters <==> w in made[f].waiters && Seat(f, w) !in seats)
    decreases |seats|
  {
    if seats == [] then made
    else
      var Seat(f, w) := seats[0];
      assert seats[0] in seats;
      LeaveAll(made[f := Flight(made[f].name, Without(made[f].waiters, w))], seats[1..])
  }

  /** The locked section of `_run`: take the waiters and free the slot if it is still this
      flight's. The second result is the batch that the thread goes on to wake. */
  function Release(t: Table, f: nat): (r: (Table, seq<Waiter>))
    requires WellFormed(t) && f < |t.made|
    ensures WellFormed(r.0)
  {
    var name := t.made[f].name;
    (t.(flights := if name in t.flights && t.flights[name] == f then t.flights - {name} else t.flights,
        made := t.made[f := Flight(name, [])]), t.made[f].waiters)
  }

  // ----- polls and threads -----

  datatype Outcome = Failed(errorClass: string) | Succeeded

  datatype Entry = Entry(name: Name, outcome: Outcome)

  datatype Status = Pending | Resolved | Cancelled

  datatype Ticket = Ticket(flight: nat, status: Status)

  /** Where a poll is inside `refresh`. `Recheck` and `RecoverLock` are inside
      `_note_recovered`, `JoinLock` waits for the lock in `_join`; `LeaveLock` waits for it in
      `_leave`, `CancelWaiters` is the loop after that lock. */
  datatype Pc =
    | Scan(todo: seq<Name>)
    | Recheck(name: Name, todo: seq<Name>)
    | RecoverLock(name: Name, todo: seq<Name>)
    | JoinLock(name: Name, todo: seq<Name>)
    | Await
    | LeaveLock(late: seq<Name>)
    | CancelWaiters(late: seq<Name>)
    | NoteLate(late: seq<Name>)
    | Done

  datatype Poll = Poll(loop: nat, deadline: real, pc: Pc, joined: seq<Ticket>)

  /** Where a flight's probe thread is inside `_run`. `Waking([])` has ended. */
  datatype Thread =
    | Probing
    | ProbeFailed(errorClass: string)
    | ProbeSucceeded
    | Recovering
    | Noted
    | Waking(batch: seq<Waiter>)

  datatype Config = Config(minInterval: real, gating: seq<Name>, probed: set<Name>)

  datatype State = State(
    table: Table,
    threads: seq<Thread>,
    startedAt: seq<real>,
    polls: seq<Poll>,
    callbacks: multiset<Waiter>,
    closed: set<nat>,
    down: set<Name>,
    now: real,
    commits: seq<Entry>,
    owed: multiset<Entry>,
    written: seq<Entry>)

  function Init(now: real, down: set<Name>): State {
    State(EMPTY_TABLE, [], [], [], multiset{}, {}, down, now, [], multiset{}, [])
  }

  datatype PollStep =
    | ScanNext
    | RecheckHealth
    | LogPollRecovered
    | JoinFlight
    | WaitReturns
    | PollCancelled
    | LeaveFlights
    | CancelOwnWaiters
    | LogNextLate

  datatype ThreadStep =
    | ProbeReturns(error: Option<string>)
    | LogProbeFailed
    | RecheckAfterProbe
    | LogProbeRecovered
    | ReleaseSlot
    | WakeNext

  /** New polls, event loops, the log, the health registry and the clock. */
  datatype WorldStep =
    | StartPoll(loop: nat, deadline: real)
    | RunCallback(w: Waiter)
    | CloseLoop(loop: nat)
    | Emit(entry: Entry)
    | MarkHealthy(name: Name)
    | MarkUnhealthy(name: Name)
    | Tick(to: real)

  datatype Action = ByPoll(p: nat, poll: PollStep) | ByThread(f: nat, thread: ThreadStep) | ByWorld(world: WorldStep)

  /** Indices in range: what the steps need in order to be well defined. */
  ghost predicate Shape(s: State) {
    && WellFormed(s.table)
    && |s.threads| == |s.table.made| == |s.startedAt|
    && (forall p, k :: 0 <= p < |s.polls| && 0 <= k < |s.polls[p].joined| ==>
          s.polls[p].joined[k].flight < |s.table.made|)
  }

  predicate Live(s: State, p: nat) {
    p < |s.polls| && s.polls[p].loop !in s.closed
  }

  predicate Settled(t: Ticket) { t.status != Pending }

  predicate Issued(s: State, w: Waiter) {
    w.poll < |s.polls| && w.index < |s.polls[w.poll].joined|
  }

  predicate PollEnabled(s: State, p: nat, a: PollStep) {
    Live(s, p) &&
    var pc := s.polls[p].pc;
    match a
    case ScanNext => pc.Scan?
    case RecheckHealth => pc.Recheck?
    case LogPollRecovered => pc.RecoverLock?
    case JoinFlight => pc.JoinLock?
    case WaitReturns =>
      pc.Await? && (s.polls[p].deadline <= s.now || forall t | t in s.polls[p].joined :: Settled(t))
    case PollCancelled => pc.Await?
    case LeaveFlights => pc.LeaveLock?
    case CancelOwnWaiters => pc.CancelWaiters?
    case LogNextLate => pc.NoteLate?
  }

  predicate ThreadEnabled(s: State, f: nat, a: ThreadStep) {
    f < |s.threads| &&
    var thread := s.threads[f];
    match a
    case ProbeReturns(_) => thread.Probing?
    case LogProbeFailed => thread.ProbeFailed?
    case RecheckAfterProbe => thread.ProbeSucceeded?
    case LogProbeRecovered => thread.Recovering?
    case ReleaseSlot => thread.Noted?
    case WakeNext => thread.Waking? && thread.batch != [] && thread.batch[0].poll < |s.polls|
  }

  predicate WorldEnabled(s: State, a: WorldStep) {
    match a
    case StartPoll(loop, _) => loop !in s.closed
    case RunCallback(w) => w in s.callbacks && Issued(s, w) && s.polls[w.poll].loop !in s.closed
    case CloseLoop(_) => true
    case Emit(e) => e in s.owed
    case MarkHealthy(_) => true
    case MarkUnhealthy(_) => true
    case Tick(to) => s.now <= to
  }

  predicate Enabled(s: State, a: Action) {
    match a
    case ByPoll(p, step) => PollEnabled(s, p, step)
    case ByThread(f, step) => ThreadEnabled(s, f, step)
    case ByWorld(step) => WorldEnabled(s, step)
  }

  function SetPc(s: State, p: nat, pc: Pc): (r: State)
    ensures Shape(s) ==> Shape(r)
    requires p < |s.polls|
  {
    s.(polls := s.polls[p := s.polls[p].(pc := pc)])
  }

  function SetThread(s: State, f: nat, thread: Thread): (r: State)
    requires f < |s.threads|
    ensures Shape(s) ==> Shape(r)
  {
    s.(threads := s.threads[f := thread])
  }

  /** The locked section of `_note_failed`; the entry is owed to the log once committed. */
  function CommitFailed(s: State, name: Name, errorClass: string): (r: State)
    ensures Shape(s) ==> Shape(r)
  {
    if name in s.table.outage then s
    else
      var e := Entry(name, Failed(errorClass));
      s.(table := s.table.(outage := s.table.outage + {name}),
         commits := s.commits + [e], owed := s.owed + multiset{e})
  }

  /** The locked section of `_note_recovered`. */
  function CommitRecovered(s: State, name: Name): (r: State)
    ensures Shape(s) ==> Shape(r)
  {
    if name !in s.table.outage then s
    else
      var e := Entry(name, Succeeded);
      s.(table := s.table.(outage := s.table.outage - {name}),
         commits := s.commits + [e], owed := s.owed + multiset{e})
  }

  function FlightName(s: State, f: nat): Name
    requires f < |s.table.made|
  { s.table.made[f].name }

  /** The names of the joined flights whose waiter is not done. */
  function LateNames(s: State, joined: seq<Ticket>): seq<Name>
    requires forall t :: t in joined ==> t.flight < |s.table.made|
  {
    if joined == [] then []
    else
      assert joined[0] in joined;
      (if Settled(joined[0]) then [] else [FlightName(s, joined[0].flight)]) + LateNames(s, joined[1..])
  }

  function SeatsOf(p: nat, joined: seq<Ticket>): (r: seq<Seat>)
    ensures |r| == |joined|
    ensures forall k :: 0 <= k < |r| ==> r[k] == Seat(joined[k].flight, Waiter(p, k))
  {
    seq(|joined|, k requires 0 <= k < |joined| => Seat(joined[k].flight, Waiter(p, k)))
  }

  function CancelPending(joined: seq<Ticket>): (r: seq<Ticket>)
    ensures |r| == |joined|
    ensures forall k :: 0 <= k < |r| ==>
      r[k] == joined[k].(status := if joined[k].status == Pending then Cancelled else joined[k].status)
  {
    seq(|joined|, k requires 0 <= k < |joined| =>
      joined[k].(status := if joined[k].status == Pending then Cancelled else joined[k].status))
  }

  function DoScan(c: Config, s: State, p: nat): (r: State)
    ensures Shape(s) ==> Shape(r)
    requires p < |s.polls| && s.polls[p].pc.Scan?
  {
    var todo := s.polls[p].pc.todo;
    if todo == [] then
      SetPc(s, p, if s.polls[p].joined == [] then Done else Await)
    else if todo[0] !in s.down then SetPc(s, p, Recheck(todo[0], todo[1..]))
    else if todo[0] in c.probed then SetPc(s, p, JoinLock(todo[0], todo[1..]))
    else SetPc(s, p, Scan(todo[1..]))
  }

  function DoJoin(c: Config, s: State, p: nat): (r: State)
    ensures Shape(s) ==> Shape(r)
    requires Shape(s) && p < |s.polls| && s.polls[p].pc.JoinLock?
  {
    var JoinLock(name, todo) := s.polls[p].pc;
    var w := Waiter(p, |s.polls[p].joined|);
    var (table, outcome) := Join(s.table, name, s.now, c.minInterval, w);
    match outcome
    case Refused => SetPc(s, p, Scan(todo))
    case Seated(f, started) =>
      s.(table := table,
         threads := if started then s.threads + [Probing] else s.threads,
         startedAt := if started then s.startedAt + [s.now] else s.startedAt,
         polls := s.polls[p := s.polls[p].(pc := Scan(todo),
                                           joined := s.polls[p].joined + [Ticket(f, Pending)])])
  }

  function DoLeave(s: State, p: nat): (r: State)
    ensures Shape(s) ==> Shape(r)
    requires Shape(s) && p < |s.polls| && s.polls[p].pc.LeaveLock?
  {
    var seats := SeatsOf(p, s.polls[p].joined);
    SetPc(s.(table := s.table.(made := LeaveAll(s.table.made, seats))), p,
          CancelWaiters(s.polls[p].pc.late))
  }

  /** The probe records its own outcome in the registry, then returns or raises. */
  function DoProbeReturns(s: State, f: nat, error: Option<string>): (r: State)
    ensures Shape(s) ==> Shape(r)
    requires Shape(s) && f < |s.threads|
  {
    match error
    case None => s.(threads := s.threads[f := ProbeSucceeded], down := s.down - {FlightName(s, f)})
    case Some(e) => s.(threads := s.threads[f := ProbeFailed(e)], down := s.down + {FlightName(s, f)})
  }

  function DoRelease(s: State, f: nat): (r: State)
    ensures Shape(s) ==> Shape(r)
    requires Shape(s) && f < |s.threads|
  {
    var (table, batch) := Release(s.table, f);
    s.(table := table, threads := s.threads[f := Waking(batch)])
  }

  /** `call_soon_threadsafe`: refused, and the refusal ignored, once the loop has closed. */
  function DoWake(s: State, f: nat): (r: State)
    ensures Shape(s) ==> Shape(r)
    requires f < |s.threads| && s.threads[f].Waking? && s.threads[f].batch != []
    requires s.threads[f].batch[0].poll < |s.polls|
  {
    var batch := s.threads[f].batch;
    s.(threads := s.threads[f := Waking(batch[1..])],
       callbacks := if s.polls[batch[0].poll].loop in s.closed then s.callbacks
                    else s.callbacks + multiset{batch[0]})
  }

  /** `_resolve`: complete the waiter unless it is done. */
  function DoCallback(s: State, w: Waiter): (r: State)
    ensures Shape(s) ==> Shape(r)
    requires Issued(s, w)
  {
    var poll := s.polls[w.poll];
    var t := poll.joined[w.index];
    var joined := if t.status == Pending then poll.joined[w.index := t.(status := Resolved)] else poll.joined;
    s.(callbacks := s.callbacks - multiset{w}, polls := s.polls[w.poll := poll.(joined := joined)])
  }

  function PollApply(c: Config, s: State, p: nat, a: PollStep): (r: State)
    requires Shape(s) && PollEnabled(s, p, a)
    ensures Shape(r)
  {
    match a
    case ScanNext => DoScan(c, s, p)
    case RecheckHealth =>
      var Recheck(name, todo) := s.polls[p].pc;
      SetPc(s, p, if name in s.down then Scan(todo) else RecoverLock(name, todo))
    case LogPollRecovered =>
      var RecoverLock(name, todo) := s.polls[p].pc;
      SetPc(CommitRecovered(s, name), p, Scan(todo))
    case JoinFlight => DoJoin(c, s, p)
    case WaitReturns => SetPc(s, p, LeaveLock(LateNames(s, s.polls[p].joined)))
    case PollCancelled => SetPc(s, p, LeaveLock([]))
    case LeaveFlights => DoLeave(s, p)
    case CancelOwnWaiters =>
      s.(polls := s.polls[p := s.polls[p].(pc := NoteLate(s.polls[p].pc.late),
                                           joined := CancelPending(s.polls[p].joined))])
    case LogNextLate =>
      var late := s.polls[p].pc.late;
      if late == [] then SetPc(s, p, Done)
      else SetPc(CommitFailed(s, late[0], "TimeoutError"), p, NoteLate(late[1..]))
  }

  function ThreadApply(s: State, f: nat, a: ThreadStep): (r: State)
    requires Shape(s) && ThreadEnabled(s, f, a)
    ensures Shape(r)
  {
    match a
    case ProbeReturns(error) => DoProbeReturns(s, f, error)
    case LogProbeFailed => SetThread(CommitFailed(s, FlightName(s, f), s.threads[f].errorClass), f, Noted)
    case RecheckAfterProbe => SetThread(s, f, if FlightName(s, f) in s.down then Noted else Recovering)
    case LogProbeRecovered => SetThread(CommitRecovered(s, FlightName(s, f)), f, Noted)
    case ReleaseSlot => DoRelease(s, f)
    case WakeNext => DoWake(s, f)
  }

  function WorldApply(c: Config, s: State, a: WorldStep): (r: State)
    requires Shape(s) && WorldEnabled(s, a)
    ensures Shape(r)
  {
    match a
    case StartPoll(loop, deadline) => s.(polls := s.polls + [Poll(loop, deadline, Scan(c.gating), [])])
    case RunCallback(w) => DoCallback(s, w)
    case CloseLoop(loop) => s.(closed := s.closed + {loop})
    case Emit(e) => s.(owed := s.owed - multiset{e}, written := s.written + [e])
    case MarkHealthy(name) => s.(down := s.down - {name})
    case MarkUnhealthy(name) => s.(down := s.down + {name})
    case Tick(to) => s.(now := to)
  }

  function Apply(c: Config, s: State, a: Action): (r: State)
    requires Shape(s) && Enabled(s, a)
    ensures Shape(r)
  {
    match a
    case ByPoll(p, step) => PollApply(c, s, p, step)
    case ByThread(f, step) => ThreadApply(s, f, step)
    case ByWorld(step) => WorldApply(c, s, step)
  }

  // ----- runs -----

  /** `run` is one interleaving that can happen from `s`. */
  ghost predicate IsRun(c: Config, s: State, run: seq<Action>)
    requires Shape(s)
    decreases |run|
  {
    run == [] || (Enabled(s, run[0]) && IsRun(c, Apply(c, s, run[0]), run[1..]))
  }

  ghost function After(c: Config, s: State, run: seq<Action>): (r: State)
    requires Shape(s) && IsRun(c, s, run)
    ensures Shape(r)
    decreases |run|
  {
    if run == [] then s else After(c, Apply(c, s, run[0]), run[1..])
  }
}
