/** Stopping the graph gateway at shutdown: three stops on one deadline, two of them run on their
    own threads and handed over to a loop that may have stopped waiting or may have closed. */
module Shutdown {
  import opened Optional

  datatype Stop = Drift | Replay | Reconciler

  /** `monitored`: the gateway has a drift check; `task`: a startup replay was started. */
  datatype Config = Config(gateway: bool, monitored: bool, task: bool)

  predicate Applies(c: Config, stop: Stop) {
    match stop
    case Drift => c.gateway && c.monitored
    case Replay => c.gateway && c.task
    case Reconciler => c.gateway
  }

  /** The coroutine between its awaits. `Granted` has read the clock for the time left and is about
      to signal the stop; `Waiting` has signalled it. */
  datatype Pc =
    | Next(stop: Stop)
    | Granted(stop: Stop, at: real, wait: real)
    | Waiting(stop: Stop, at: real, wait: real, begun: real)
    | Finished

  datatype Thread =
    | NotStarted
    | Started
    | Calling
    | Returned(result: bool, error: Option<string>)
    | Ended(result: bool, error: Option<string>)

  datatype Future = Open | Result(stopped: bool) | Raised(error: string) | Abandoned

  /** A stop that runs on its own thread: the thread, the future the coroutine waits on, and
      whether the loop has accepted a callback that it has not run yet. */
  datatype Job = Job(thread: Thread, future: Future, posted: bool)

  datatype Jobs = Jobs(drift: Job, reconciler: Job) {
    function Of(stop: Stop): Job
      requires Threaded(stop)
    {
      if stop == Drift then drift else reconciler
    }

    function With(stop: Stop, job: Job): Jobs
      requires Threaded(stop)
    {
      if stop == Drift then this.(drift := job) else this.(reconciler := job)
    }
  }

  predicate Threaded(stop: Stop) { stop != Replay }

  datatype Entry = Failure(stop: Stop, error: string) | NotStopped(stop: Stop)

  datatype State = State(
    now: real,
    deadline: real,
    pc: Pc,
    jobs: Jobs,
    loopOpen: bool,
    taskDone: bool,
    signals: seq<Stop>,
    calls: seq<Stop>,
    log: seq<Entry>)

  const IDLE := Job(NotStarted, Open, false)

  function Init(now: real, budget: real, taskDone: bool): State {
    State(now, now + budget, Next(Drift), Jobs(IDLE, IDLE), true, taskDone, [], [], [])
  }

  datatype Action =
    | Grant
    | Signal(error: Option<string>)
    | Resume
    | CallStop(stop: Stop)
    | StopReturns(stop: Stop, result: bool, error: Option<string>)
    | HandOver(stop: Stop)
    | Deliver(stop: Stop)
    | ReplayEnds
    | CloseLoop
    | Tick(to: real)

  function After(stop: Stop): Pc {
    match stop
    case Drift => Next(Replay)
    case Replay => Next(Reconciler)
    case Reconciler => Finished
  }

  /** `_remaining_seconds`. */
  function Remaining(deadline: real, now: real): real {
    if deadline < now then 0.0 else deadline - now
  }

  predicate Enabled(s: State, a: Action) {
    match a
    case Grant => s.loopOpen && s.pc.Next?
    case Signal(error) => s.loopOpen && s.pc.Granted? && (Threaded(s.pc.stop) ==> error.None?)
    case Resume =>
      s.loopOpen && s.pc.Waiting? &&
      (s.pc.begun + s.pc.wait <= s.now ||
       if Threaded(s.pc.stop) then s.jobs.Of(s.pc.stop).future != Open else s.taskDone)
    case CallStop(stop) => Threaded(stop) && s.jobs.Of(stop).thread.Started?
    case StopReturns(stop, _, _) => Threaded(stop) && s.jobs.Of(stop).thread.Calling?
    case HandOver(stop) => Threaded(stop) && s.jobs.Of(stop).thread.Returned?
    case Deliver(stop) =>
      s.loopOpen && Threaded(stop) && s.jobs.Of(stop).posted && s.jobs.Of(stop).thread.Ended?
    case ReplayEnds => true
    case CloseLoop => s.pc.Finished?
    case Tick(to) => s.now <= to
  }

  function One(b: bool): nat { if b then 1 else 0 }

  /** How many failures of `stop` the log holds. */
  function Logged(log: seq<Entry>, stop: Stop): nat {
    if log == [] then 0
    else Logged(log[..|log| - 1], stop) + One(log[|log| - 1].Failure? && log[|log| - 1].stop == stop)
  }

  function Write(log: seq<Entry>, e: Option<Entry>): (r: seq<Entry>)
    ensures forall stop ::
      Logged(r, stop) == Logged(log, stop) + One(e.Some? && e.value.Failure? && e.value.stop == stop)
    ensures forall x :: x in r <==> x in log || e == Some(x)
  {
    match e
    case None => log
    case Some(entry) => assert (log + [entry])[..|log|] == log; log + [entry]
  }

  function FailureOf(stop: Stop, error: Option<string>): Option<Entry> {
    if error.Some? then Some(Failure(stop, error.value)) else None
  }

  function DoGrant(c: Config, s: State): State
    requires s.pc.Next?
  {
    if Applies(c, s.pc.stop) then s.(pc := Granted(s.pc.stop, s.now, Remaining(s.deadline, s.now)))
    else s.(pc := After(s.pc.stop))
  }

  /** Starts the stop's thread, or calls `stop_replay` here and now. */
  function DoSignal(s: State, error: Option<string>): State
    requires s.pc.Granted?
  {
    var Granted(stop, at, wait) := s.pc;
    var r := s.(pc := Waiting(stop, at, wait, s.now), signals := s.signals + [stop]);
    if Threaded(stop) then r.(jobs := s.jobs.With(stop, s.jobs.Of(stop).(thread := Started)))
    else r.(calls := s.calls + [stop], log := Write(s.log, FailureOf(stop, error)))
  }

  /** What the wait's end writes to the log. */
  function ResumeEntry(s: State): Option<Entry>
    requires s.pc.Waiting?
  {
    var stop := s.pc.stop;
    if !Threaded(stop) then (if s.taskDone then None else Some(NotStopped(stop)))
    else
      match s.jobs.Of(stop).future
      case Open => Some(NotStopped(stop))
      case Result(stopped) => if stopped then None else Some(NotStopped(stop))
      case Raised(error) => Some(Failure(stop, error))
      case Abandoned => None
  }

  /** The wait is over: take the outcome, or cancel the future and count the stop as not stopped. */
  function DoResume(s: State): State
    requires s.pc.Waiting?
  {
    var stop := s.pc.stop;
    var r := s.(pc := After(stop), log := Write(s.log, ResumeEntry(s)));
    if Threaded(stop) && s.jobs.Of(stop).future == Open then
      r.(jobs := s.jobs.With(stop, s.jobs.Of(stop).(future := Abandoned)))
    else r
  }

  /** `_call_stop_and_hand_over` after the stop came back: post to the loop, or log late. */
  function DoHandOver(s: State, stop: Stop): State
    requires Threaded(stop) && s.jobs.Of(stop).thread.Returned?
  {
    var job := s.jobs.Of(stop);
    var ended := job.(thread := Ended(job.thread.result, job.thread.error));
    if s.loopOpen then s.(jobs := s.jobs.With(stop, ended.(posted := true)))
    else s.(jobs := s.jobs.With(stop, ended), log := Write(s.log, FailureOf(stop, job.thread.error)))
  }

  /** `_deliver_stop_outcome`. */
  function DoDeliver(s: State, stop: Stop): State
    requires Threaded(stop) && s.jobs.Of(stop).thread.Ended?
  {
    var job := s.jobs.Of(stop).(posted := false);
    var Ended(result, error) := job.thread;
    if job.future != Open then
      s.(jobs := s.jobs.With(stop, job), log := Write(s.log, FailureOf(stop, error)))
    else
      s.(jobs := s.jobs.With(stop,
           job.(future := if error.Some? then Raised(error.value) else Result(result))))
  }

  function Apply(c: Config, s: State, a: Action): State
    requires Enabled(s, a)
  {
    match a
    case Grant => DoGrant(c, s)
    case Signal(error) => DoSignal(s, error)
    case Resume => DoResume(s)
    case CallStop(stop) =>
      s.(jobs := s.jobs.With(stop, s.jobs.Of(stop).(thread := Calling)), calls := s.calls + [stop])
    case StopReturns(stop, result, error) =>
      s.(jobs := s.jobs.With(stop, s.jobs.Of(stop).(thread := Returned(result, error))))
    case HandOver(stop) => DoHandOver(s, stop)
    case Deliver(stop) => DoDeliver(s, stop)
    case ReplayEnds => s.(taskDone := true)
    case CloseLoop => s.(loopOpen := false)
    case Tick(to) => s.(now := to)
  }

  predicate IsRun(c: Config, s: State, run: seq<Action>)
    decreases |run|
  {
    run == [] || (Enabled(s, run[0]) && IsRun(c, Apply(c, s, run[0]), run[1..]))
  }

  function Runs(c: Config, s: State, run: seq<Action>): State
    requires IsRun(c, s, run)
    decreases |run|
  {
    if run == [] then s else Runs(c, Apply(c, s, run[0]), run[1..])
  }

  // ----- order, and one signal each -----

  function Expected(c: Config, upTo: nat): seq<Stop> {
    (if 0 < upTo && Applies(c, Drift) then [Drift] else [])
    + (if 1 < upTo && Applies(c, Replay) then [Replay] else [])
    + (if 2 < upTo && Applies(c, Reconciler) then [Reconciler] else [])
  }

  function Rank(stop: Stop): nat {
    match stop case Drift => 0 case Replay => 1 case Reconciler => 2
  }

  function Signalled(pc: Pc): nat {
    match pc
    case Next(stop) => Rank(stop)
    case Granted(stop, _, _) => Rank(stop)
    case Waiting(stop, _, _, _) => Rank(stop) + 1
    case Finished => 3
  }

  predicate SignalsInOrder(c: Config, s: State) {
    && s.signals == Expected(c, Signalled(s.pc))
    && (s.pc.Granted? || s.pc.Waiting? ==> Applies(c, s.pc.stop))
  }

  // ----- the deadline -----

  /** The granted time is what was left when it was granted, and 0 once the budget is spent. */
  predicate GrantFits(deadline: real, at: real, wait: real) {
    if deadline < at then wait == 0.0 else at + wait == deadline
  }

  predicate GrantsFit(s: State) {
    && (s.pc.Granted? ==> GrantFits(s.deadline, s.pc.at, s.pc.wait) && s.pc.at <= s.now)
    && (s.pc.Waiting? ==> GrantFits(s.deadline, s.pc.at, s.pc.wait) && s.pc.at <= s.pc.begun <= s.now)
  }

  // ----- failures -----

  predicate HasFailed(t: Thread) { (t.Returned? || t.Ended?) && t.error.Some? }

  predicate AwaitedBy(pc: Pc, stop: Stop) { pc.Waiting? && pc.stop == stop }

  /** Where a thread's failure is: still in the thread, in a callback the loop accepted, in the
      future for the coroutine that waits on it, or in the log. */
  function Places(job: Job, awaited: bool, logged: nat): nat {
    One(job.thread.Returned?) + One(job.posted) + One(job.future.Raised? && awaited) + logged
  }

  /** `awaited` and `passed`: whether the coroutine is waiting on the stop, or already past it. */
  predicate JobOk(job: Job, awaited: bool, passed: bool, logged: nat) {
    && (HasFailed(job.thread) ==> Places(job, awaited, logged) == 1)
    && (!HasFailed(job.thread) ==> logged == 0 && !job.future.Raised?)
    && (job.posted ==> job.thread.Ended?)
    && (job.future.Result? || job.future.Raised? ==> !job.posted && job.thread.Ended?)
    && (!awaited && !passed ==> job == IDLE)
    && (awaited ==> job.future != Abandoned)
    && (passed && job.future == Open ==> job.thread == NotStarted)
  }

  predicate KeepsFailure(s: State, stop: Stop)
    requires Threaded(stop)
  {
    JobOk(s.jobs.Of(stop), AwaitedBy(s.pc, stop),
          Rank(stop) < Signalled(s.pc) && !AwaitedBy(s.pc, stop), Logged(s.log, stop))
  }

  /** Whatever is reported about a stop is what its own thread raised. */
  predicate Reports(s: State, stop: Stop, error: string) {
    Threaded(stop) ==> HasFailed(s.jobs.Of(stop).thread) && s.jobs.Of(stop).thread.error.value == error
  }

  ghost predicate Truthful(s: State) {
    && (forall e :: e in s.log && e.Failure? ==> Reports(s, e.stop, e.error))
    && (forall stop :: Threaded(stop) && s.jobs.Of(stop).future.Raised? ==>
          s.jobs.Of(stop).thread.Ended? && Reports(s, stop, s.jobs.Of(stop).future.error))
  }

  ghost predicate Invariant(c: Config, s: State) {
    SignalsInOrder(c, s) && GrantsFit(s) && Truthful(s) && KeepsFailure(s, Drift) && KeepsFailure(s, Reconciler)
  }

  lemma StepKeepsOrder(c: Config, s: State, a: Action)
    requires SignalsInOrder(c, s) && Enabled(s, a)
    ensures SignalsInOrder(c, Apply(c, s, a))
  {
  }

  lemma StepKeepsGrants(c: Config, s: State, a: Action)
    requires GrantsFit(s) && Enabled(s, a)
    ensures GrantsFit(Apply(c, s, a))
  {
  }

  lemma GrantChangesNoJob(c: Config, s: State, stop: Stop)
    requires s.pc.Next? && Threaded(stop)
    ensures var r := DoGrant(c, s);
      && r.jobs == s.jobs && r.log == s.log && AwaitedBy(r.pc, stop) == AwaitedBy(s.pc, stop) == false
      && (Applies(c, s.pc.stop) ==> Signalled(r.pc) == Signalled(s.pc))
      && (!Applies(c, s.pc.stop) ==> Signalled(r.pc) == Rank(s.pc.stop) + 1 == Signalled(s.pc) + 1)
  {
  }

  lemma GrantKeepsFailure(c: Config, s: State, stop: Stop)
    requires s.pc.Next? && Threaded(stop) && KeepsFailure(s, stop)
    ensures KeepsFailure(DoGrant(c, s), stop)
  {
    GrantChangesNoJob(c, s, stop);
  }

  lemma SignalLogsNoThread(s: State, error: Option<string>, stop: Stop)
    requires Enabled(s, Signal(error)) && Threaded(stop)
    ensures Logged(DoSignal(s, error).log, stop) == Logged(s.log, stop)
  {
  }

  lemma SignalChangesJob(s: State, error: Option<string>, stop: Stop)
    requires Enabled(s, Signal(error)) && Threaded(stop)
    ensures var r := DoSignal(s, error);
      && r.jobs.Of(stop) == (if stop == s.pc.stop then s.jobs.Of(stop).(thread := Started) else s.jobs.Of(stop))
      && (AwaitedBy(r.pc, stop) <==> stop == s.pc.stop) && !AwaitedBy(s.pc, stop)
      && Signalled(r.pc) == Rank(s.pc.stop) + 1 && Signalled(s.pc) == Rank(s.pc.stop)
  {
  }

  lemma SignalKeepsFailure(s: State, error: Option<string>, stop: Stop)
    requires Enabled(s, Signal(error)) && Threaded(stop) && KeepsFailure(s, stop)
    ensures KeepsFailure(DoSignal(s, error), stop)
  {
    SignalLogsNoThread(s, error, stop);
    SignalChangesJob(s, error, stop);
  }

  lemma ReportsLast(c: Config, s: State, a: Action, stop: Stop, error: string)
    requires Enabled(s, a) && Reports(s, stop, error)
    requires Threaded(stop) ==> KeepsFailure(s, stop)
    ensures Reports(Apply(c, s, a), stop, error)
  {
  }

  lemma NewEntryReports(c: Config, s: State, a: Action, e: Entry)
    requires Enabled(s, a) && Truthful(s)
    requires e in Apply(c, s, a).log && e !in s.log && e.Failure?
    ensures Reports(Apply(c, s, a), e.stop, e.error)
  {
  }

  lemma RaisedReports(c: Config, s: State, a: Action, stop: Stop)
    requires Enabled(s, a) && Threaded(stop) && !s.jobs.Of(stop).future.Raised?
    requires Apply(c, s, a).jobs.Of(stop).future.Raised?
    ensures Apply(c, s, a).jobs.Of(stop).thread.Ended?
    ensures Reports(Apply(c, s, a), stop, Apply(c, s, a).jobs.Of(stop).future.error)
  {
  }

  lemma RaisedStays(c: Config, s: State, a: Action, stop: Stop)
    requires Enabled(s, a) && Threaded(stop)
    requires s.jobs.Of(stop).future.Raised? && s.jobs.Of(stop).thread.Ended?
    requires KeepsFailure(s, stop)
    ensures Apply(c, s, a).jobs.Of(stop).future == s.jobs.Of(stop).future
    ensures Apply(c, s, a).jobs.Of(stop).thread.Ended?
  {
  }

  lemma StepKeepsTruth(c: Config, s: State, a: Action)
    requires Enabled(s, a) && Truthful(s) && KeepsFailure(s, Drift) && KeepsFailure(s, Reconciler)
    ensures Truthful(Apply(c, s, a))
  {
    var r := Apply(c, s, a);
    forall e | e in r.log && e.Failure?
      ensures Reports(r, e.stop, e.error)
    {
      if e in s.log { ReportsLast(c, s, a, e.stop, e.error); } else { NewEntryReports(c, s, a, e); }
    }
    forall stop | Threaded(stop) && r.jobs.Of(stop).future.Raised?
      ensures r.jobs.Of(stop).thread.Ended? && Reports(r, stop, r.jobs.Of(stop).future.error)
    {
      if s.jobs.Of(stop).future.Raised? {
        RaisedStays(c, s, a, stop);
        ReportsLast(c, s, a, stop, s.jobs.Of(stop).future.error);
      } else {
        RaisedReports(c, s, a, stop);
      }
    }
  }

  lemma ResumedJob(job: Job, logged: nat)
    requires JobOk(job, true, false, logged)
    ensures JobOk(if job.future == Open then job.(future := Abandoned) else job, false, true,
                  logged + One(job.future.Raised?))
  {
  }

  lemma DeliveredJob(job: Job, awaited: bool, passed: bool, logged: nat)
    requires JobOk(job, awaited, passed, logged) && job.thread.Ended? && job.posted
    requires awaited ==> !passed
    ensures var Ended(result, error) := job.thread;
      var done := job.(posted := false);
      JobOk(if job.future != Open then done
            else done.(future := if error.Some? then Raised(error.value) else Result(result)),
            awaited, passed, logged + One(job.future != Open && error.Some?))
  {
  }

  lemma ResumeMovesOn(s: State, stop: Stop)
    requires s.pc.Waiting?
    ensures Signalled(DoResume(s).pc) == Rank(s.pc.stop) + 1 == Signalled(s.pc)
    ensures !AwaitedBy(DoResume(s).pc, stop)
  {
  }

  lemma ResumeChangesJob(s: State, stop: Stop)
    requires s.pc.Waiting? && Threaded(stop)
    ensures var job := s.jobs.Of(stop);
      DoResume(s).jobs.Of(stop) ==
        if s.pc.stop == stop && job.future == Open then job.(future := Abandoned) else job
    ensures Logged(DoResume(s).log, stop) ==
      Logged(s.log, stop) + One(s.pc.stop == stop && s.jobs.Of(stop).future.Raised?)
  {
  }

  lemma ResumeKeepsFailure(s: State, stop: Stop)
    requires Enabled(s, Resume)
    requires Threaded(stop) && KeepsFailure(s, stop)
    ensures KeepsFailure(DoResume(s), stop)
  {
    ResumeMovesOn(s, stop);
    ResumeChangesJob(s, stop);
    if s.pc.stop == stop {
      ResumedJob(s.jobs.Of(stop), Logged(s.log, stop));
    }
  }

  lemma HandedOverJob(job: Job, open: bool, awaited: bool, passed: bool, logged: nat)
    requires JobOk(job, awaited, passed, logged) && job.thread.Returned?
    ensures JobOk(job.(thread := Ended(job.thread.result, job.thread.error), posted := open || job.posted),
                  awaited, passed, logged + One(!open && job.thread.error.Some?))
  {
  }

  lemma HandOverChangesJob(s: State, stop: Stop)
    requires Enabled(s, HandOver(stop))
    ensures var job := s.jobs.Of(stop);
      && DoHandOver(s, stop).jobs.Of(stop) ==
           job.(thread := Ended(job.thread.result, job.thread.error), posted := s.loopOpen || job.posted)
      && Logged(DoHandOver(s, stop).log, stop) == Logged(s.log, stop) + One(!s.loopOpen && job.thread.error.Some?)
  {
  }

  lemma HandOverKeepsFailure(s: State, own: Stop, stop: Stop)
    requires Enabled(s, HandOver(own))
    requires Threaded(stop) && KeepsFailure(s, stop)
    ensures KeepsFailure(DoHandOver(s, own), stop)
  {
    if own == stop {
      HandOverChangesJob(s, stop);
      HandedOverJob(s.jobs.Of(stop), s.loopOpen, AwaitedBy(s.pc, stop),
                    Rank(stop) < Signalled(s.pc) && !AwaitedBy(s.pc, stop), Logged(s.log, stop));
    } else {
      HandOverLeavesOthers(s, own, stop);
    }
  }

  lemma HandOverLeavesOthers(s: State, own: Stop, stop: Stop)
    requires Enabled(s, HandOver(own)) && Threaded(stop) && own != stop
    ensures DoHandOver(s, own).jobs.Of(stop) == s.jobs.Of(stop)
    ensures Logged(DoHandOver(s, own).log, stop) == Logged(s.log, stop)
  {
  }

  lemma WriteLeavesOthers(log: seq<Entry>, own: Stop, error: Option<string>, stop: Stop)
    requires own != stop
    ensures Logged(Write(log, FailureOf(own, error)), stop) == Logged(log, stop)
  {
  }

  lemma WithLeavesOthers(jobs: Jobs, own: Stop, job: Job, stop: Stop)
    requires Threaded(own) && Threaded(stop) && own != stop
    ensures jobs.With(own, job).Of(stop) == jobs.Of(stop)
  {
  }

  lemma DeliverLeavesOthers(s: State, own: Stop, stop: Stop)
    requires Enabled(s, Deliver(own)) && Threaded(stop) && own != stop
    ensures DoDeliver(s, own).jobs.Of(stop) == s.jobs.Of(stop)
    ensures Logged(DoDeliver(s, own).log, stop) == Logged(s.log, stop)
  {
    WriteLeavesOthers(s.log, own, s.jobs.Of(own).thread.error, stop);
    WithLeavesOthers(s.jobs, own, DoDeliver(s, own).jobs.Of(own), stop);
  }

  lemma WithHolds(jobs: Jobs, stop: Stop, job: Job)
    requires Threaded(stop)
    ensures jobs.With(stop, job).Of(stop) == job
  {
  }

  lemma WriteCounts(log: seq<Entry>, stop: Stop, error: Option<string>)
    ensures Logged(Write(log, FailureOf(stop, error)), stop) == Logged(log, stop) + One(error.Some?)
  {
  }

  lemma DeliverChangesJob(s: State, stop: Stop)
    requires Enabled(s, Deliver(stop)) && Threaded(stop)
    ensures var job := s.jobs.Of(stop);
      var Ended(result, error) := job.thread;
      var done := job.(posted := false);
      && DoDeliver(s, stop).jobs.Of(stop) ==
           (if job.future != Open then done
            else done.(future := if error.Some? then Raised(error.value) else Result(result)))
      && Logged(DoDeliver(s, stop).log, stop) == Logged(s.log, stop) + One(job.future != Open && error.Some?)
  {
    var job := s.jobs.Of(stop);
    if job.future == Open {
      WithHolds(s.jobs, stop, job.(posted := false, future :=
        if job.thread.error.Some? then Raised(job.thread.error.value) else Result(job.thread.result)));
    } else {
      WithHolds(s.jobs, stop, job.(posted := false));
      WriteCounts(s.log, stop, job.thread.error);
    }
  }

  lemma DeliverKeepsFailure(s: State, own: Stop, stop: Stop)
    requires Enabled(s, Deliver(own))
    requires Threaded(stop) && KeepsFailure(s, stop)
    ensures KeepsFailure(DoDeliver(s, own), stop)
  {
    if own == stop {
      DeliverChangesJob(s, stop);
      DeliveredJob(s.jobs.Of(stop), AwaitedBy(s.pc, stop),
                   Rank(stop) < Signalled(s.pc) && !AwaitedBy(s.pc, stop), Logged(s.log, stop));
    } else {
      DeliverLeavesOthers(s, own, stop);
    }
  }

  lemma ThreadKeepsFailure(c: Config, s: State, a: Action, stop: Stop)
    requires Enabled(s, a) && (a.CallStop? || a.StopReturns? || a.ReplayEnds? || a.CloseLoop? || a.Tick?)
    requires Threaded(stop) && KeepsFailure(s, stop)
    ensures KeepsFailure(Apply(c, s, a), stop)
  {
  }

  lemma StepKeepsFailure(c: Config, s: State, a: Action, stop: Stop)
    requires Enabled(s, a)
    requires Threaded(stop) && KeepsFailure(s, stop)
    ensures KeepsFailure(Apply(c, s, a), stop)
  {
    match a
    case Grant => GrantKeepsFailure(c, s, stop);
    case Signal(error) => SignalKeepsFailure(s, error, stop);
    case Resume => ResumeKeepsFailure(s, stop);
    case HandOver(own) => HandOverKeepsFailure(s, own, stop);
    case Deliver(own) => DeliverKeepsFailure(s, own, stop);
    case _ => ThreadKeepsFailure(c, s, a, stop);
  }

  lemma {:induction false} RunKeepsInvariant(c: Config, s: State, run: seq<Action>)
    requires Invariant(c, s) && IsRun(c, s, run)
    ensures Invariant(c, Runs(c, s, run))
    decreases |run|
  {
    if run != [] {
      StepKeepsOrder(c, s, run[0]);
      StepKeepsGrants(c, s, run[0]);
      StepKeepsTruth(c, s, run[0]);
      StepKeepsFailure(c, s, run[0], Drift);
      StepKeepsFailure(c, s, run[0], Reconciler);
      RunKeepsInvariant(c, Apply(c, s, run[0]), run[1..]);
    }
  }

  // ----- what shutdown promises -----

  ghost predicate Reachable(c: Config, s: State) {
    exists now: real, budget: real, taskDone: bool, run: seq<Action> ::
      IsRun(c, Init(now, budget, taskDone), run) && s == Runs(c, Init(now, budget, taskDone), run)
  }

  lemma ReachableIsInvariant(c: Config, s: State)
    requires Reachable(c, s)
    ensures Invariant(c, s)
  {
    var now: real, budget: real, taskDone: bool, run: seq<Action> :|
      IsRun(c, Init(now, budget, taskDone), run) && s == Runs(c, Init(now, budget, taskDone), run);
    RunKeepsInvariant(c, Init(now, budget, taskDone), run);
  }

  /** Drift check, replay, reconciler: signalled in that order, each that applies once, whatever
      failed or ran out of time before. */
  lemma EachStopSignalledOnceInOrder(c: Config, s: State)
    requires Reachable(c, s)
    ensures s.signals <= Expected(c, 3)
    ensures s.pc.Finished? ==> s.signals == Expected(c, 3)
    ensures s.pc.Finished? ==>
      && (Drift in s.signals <==> c.gateway && c.monitored)
      && (Replay in s.signals <==> c.gateway && c.task)
      && (Reconciler in s.signals <==> c.gateway)
    ensures s.pc.Waiting? ==> s.signals != [] && s.signals[|s.signals| - 1] == s.pc.stop
  {
    ReachableIsInvariant(c, s);
  }

  /** A granted wait ends at the shared deadline, or is 0 when the deadline has passed. A wait that
      begins later than it was granted ends later by as much: it overruns the deadline exactly
      when something - a blocking `stop_replay` - took time between the two. */
  lemma GrantedWaitsEndByTheDeadline(c: Config, s: State)
    requires Reachable(c, s) && s.pc.Waiting?
    ensures s.pc.at <= s.deadline ==> s.pc.at + s.pc.wait == s.deadline
    ensures s.deadline < s.pc.at ==> s.pc.wait == 0.0
    ensures s.pc.at <= s.deadline ==> (s.pc.begun + s.pc.wait <= s.deadline <==> s.pc.begun == s.pc.at)
  {
    ReachableIsInvariant(c, s);
  }

  /** All three stops share the deadline that the budget set at the start. */
  lemma {:induction false} DeadlineIsTheBudget(c: Config, now: real, budget: real, taskDone: bool, run: seq<Action>)
    requires IsRun(c, Init(now, budget, taskDone), run)
    ensures Runs(c, Init(now, budget, taskDone), run).deadline == now + budget
  {
    DeadlineStays(c, Init(now, budget, taskDone), run);
  }

  lemma {:induction false} DeadlineStays(c: Config, s: State, run: seq<Action>)
    requires IsRun(c, s, run)
    ensures Runs(c, s, run).deadline == s.deadline
    decreases |run|
  {
    if run != [] { DeadlineStays(c, Apply(c, s, run[0]), run[1..]); }
  }

  /** A stop's failure is never logged twice, and once its thread has ended and the coroutine has
      moved on it is logged exactly once, unless the loop still owes it an accepted callback. */
  lemma EachFailureLoggedOnce(c: Config, s: State, stop: Stop)
    requires Reachable(c, s) && Threaded(stop)
    ensures Logged(s.log, stop) <= 1
    ensures Logged(s.log, stop) == 1 ==> HasFailed(s.jobs.Of(stop).thread)
    ensures forall error :: Failure(stop, error) in s.log ==>
      HasFailed(s.jobs.Of(stop).thread) && s.jobs.Of(stop).thread.error == Some(error)
    ensures s.pc.Finished? && s.jobs.Of(stop).thread.Ended? && s.jobs.Of(stop).thread.error.Some? ==>
      (Logged(s.log, stop) == 1 <==> !s.jobs.Of(stop).posted)
  {
    ReachableIsInvariant(c, s);
  }

  /** The loop may close on an accepted callback, and then the failure is never logged. */
  lemma {:induction false} ClosedLoopForgetsCallback(c: Config, s: State, run: seq<Action>, stop: Stop)
    requires IsRun(c, s, run) && Threaded(stop)
    requires !s.loopOpen && s.jobs.Of(stop).posted && s.jobs.Of(stop).thread.Ended? && Logged(s.log, stop) == 0
    ensures Logged(Runs(c, s, run).log, stop) == 0
    decreases |run|
  {
    if run != [] {
      ClosedLoopForgetsCallback(c, Apply(c, s, run[0]), run[1..], stop);
    }
  }

  // ----- which stops are reported as not stopped -----

  /** How often the log says that `stop` did not end in time. */
  function Warned(log: seq<Entry>, stop: Stop): nat {
    if log == [] then 0
    else Warned(log[..|log| - 1], stop) + One(log[|log| - 1] == NotStopped(stop))
  }

  lemma WarnedAfterWrite(log: seq<Entry>, e: Option<Entry>, stop: Stop)
    ensures Warned(Write(log, e), stop) == Warned(log, stop) + One(e == Some(NotStopped(stop)))
  {
    if e.Some? { assert (log + [e.value])[..|log|] == log; }
  }

  predicate Passed(s: State, stop: Stop) { Rank(stop) < Signalled(s.pc) && !AwaitedBy(s.pc, stop) }

  /** Nobody is waiting any more, and the wait ended without `stop` having returned `true` or raised. */
  predicate GivenUp(job: Job) { job.future == Abandoned || job.future == Result(false) }

  predicate WarnsFit(s: State, stop: Stop) {
    && (!Passed(s, stop) ==> Warned(s.log, stop) == 0)
    && (Threaded(stop) ==>
          && (Passed(s, stop) ==> Warned(s.log, stop) == One(GivenUp(s.jobs.Of(stop))))
          && (s.jobs.Of(stop).future.Result? ==> s.jobs.Of(stop).thread == Ended(s.jobs.Of(stop).future.stopped, None)))
  }

  lemma GrantKeepsWarnings(c: Config, s: State, stop: Stop)
    requires s.pc.Next? && WarnsFit(s, stop) && (Threaded(stop) ==> KeepsFailure(s, stop))
    ensures WarnsFit(DoGrant(c, s), stop)
  {
    if Threaded(stop) { GrantChangesNoJob(c, s, stop); }
  }

  lemma SignalMovesOn(s: State, error: Option<string>, stop: Stop)
    requires Enabled(s, Signal(error))
    ensures Passed(DoSignal(s, error), stop) == Passed(s, stop) && !Passed(s, s.pc.stop)
    ensures Threaded(stop) && stop != s.pc.stop ==> DoSignal(s, error).jobs.Of(stop) == s.jobs.Of(stop)
  {
  }

  lemma SignalKeepsWarnings(s: State, error: Option<string>, stop: Stop)
    requires Enabled(s, Signal(error)) && WarnsFit(s, stop) && (Threaded(stop) ==> KeepsFailure(s, stop))
    ensures WarnsFit(DoSignal(s, error), stop)
  {
    WarnedAfterWrite(s.log, FailureOf(s.pc.stop, error), stop);
    SignalMovesOn(s, error, stop);
  }

  lemma WarningIsGivingUp(s: State)
    requires s.pc.Waiting? && Threaded(s.pc.stop) && s.jobs.Of(s.pc.stop).future != Abandoned
    ensures ResumeEntry(s) == Some(NotStopped(s.pc.stop)) <==> GivenUp(DoResume(s).jobs.Of(s.pc.stop))
    ensures DoResume(s).jobs.Of(s.pc.stop).thread == s.jobs.Of(s.pc.stop).thread
    ensures DoResume(s).jobs.Of(s.pc.stop).future.Result? ==>
      DoResume(s).jobs.Of(s.pc.stop).future == s.jobs.Of(s.pc.stop).future
  {
  }

  lemma WarningNamesTheStop(s: State, stop: Stop)
    requires s.pc.Waiting? && ResumeEntry(s) == Some(NotStopped(stop))
    ensures stop == s.pc.stop
  {
  }

  lemma ResumeCountsWarning(s: State, stop: Stop)
    requires Enabled(s, Resume)
    ensures Warned(DoResume(s).log, stop) == Warned(s.log, stop) + One(ResumeEntry(s) == Some(NotStopped(stop)))
    ensures stop != s.pc.stop ==> Passed(DoResume(s), stop) == Passed(s, stop) && Warned(DoResume(s).log, stop) == Warned(s.log, stop)
    ensures Passed(DoResume(s), s.pc.stop) && !Passed(s, s.pc.stop)
  {
    ResumeMovesOn(s, stop);
    ResumeMovesOn(s, s.pc.stop);
    WarnedAfterWrite(s.log, ResumeEntry(s), stop);
    if ResumeEntry(s) == Some(NotStopped(stop)) { WarningNamesTheStop(s, stop); }
  }

  lemma ResumeKeepsWarnings(s: State, stop: Stop)
    requires Enabled(s, Resume) && WarnsFit(s, stop) && (Threaded(stop) ==> KeepsFailure(s, stop))
    ensures WarnsFit(DoResume(s), stop)
  {
    ResumeCountsWarning(s, stop);
    if Threaded(stop) {
      if stop == s.pc.stop { WarningIsGivingUp(s); } else { ResumeChangesJob(s, stop); }
    }
  }

  lemma HandOverKeepsWarnings(s: State, own: Stop, stop: Stop)
    requires Enabled(s, HandOver(own)) && WarnsFit(s, stop) && (Threaded(stop) ==> KeepsFailure(s, stop))
    ensures WarnsFit(DoHandOver(s, own), stop)
  {
    if !s.loopOpen { WarnedAfterWrite(s.log, FailureOf(own, s.jobs.Of(own).thread.error), stop); }
    if own == stop {
      HandOverChangesJob(s, stop);
    } else if Threaded(stop) {
      HandOverLeavesOthers(s, own, stop);
    }
  }

  lemma DeliverWritesFailureOnly(s: State, own: Stop)
    requires Enabled(s, Deliver(own))
    ensures DoDeliver(s, own).pc == s.pc
    ensures DoDeliver(s, own).log == s.log || DoDeliver(s, own).log == Write(s.log, FailureOf(own, s.jobs.Of(own).thread.error))
  {
  }

  lemma DeliverWarnsNothing(s: State, own: Stop, stop: Stop)
    requires Enabled(s, Deliver(own))
    ensures Warned(DoDeliver(s, own).log, stop) == Warned(s.log, stop) && DoDeliver(s, own).pc == s.pc
  {
    DeliverWritesFailureOnly(s, own);
    WarnedAfterWrite(s.log, FailureOf(own, s.jobs.Of(own).thread.error), stop);
  }

  lemma DeliveredOwnFits(s: State, stop: Stop)
    requires Enabled(s, Deliver(stop)) && WarnsFit(s, stop) && KeepsFailure(s, stop)
    ensures var job := DoDeliver(s, stop).jobs.Of(stop);
      && (Passed(s, stop) ==> GivenUp(job) == GivenUp(s.jobs.Of(stop)))
      && (job.future.Result? ==> job.thread == Ended(job.future.stopped, None))
  {
    DeliverChangesJob(s, stop);
  }

  lemma DeliverKeepsWarnings(s: State, own: Stop, stop: Stop)
    requires Enabled(s, Deliver(own)) && WarnsFit(s, stop) && (Threaded(stop) ==> KeepsFailure(s, stop))
    ensures WarnsFit(DoDeliver(s, own), stop)
  {
    DeliverWarnsNothing(s, own, stop);
    if own == stop {
      DeliveredOwnFits(s, stop);
    } else if Threaded(stop) {
      DeliverLeavesOthers(s, own, stop);
    }
  }

  lemma ThreadKeepsWarnings(c: Config, s: State, a: Action, stop: Stop)
    requires Enabled(s, a) && !a.Grant? && !a.Signal? && !a.Resume? && !a.HandOver? && !a.Deliver?
    requires WarnsFit(s, stop) && (Threaded(stop) ==> KeepsFailure(s, stop))
    ensures WarnsFit(Apply(c, s, a), stop)
  {
  }

  lemma StepKeepsWarnings(c: Config, s: State, a: Action, stop: Stop)
    requires Enabled(s, a) && WarnsFit(s, stop) && (Threaded(stop) ==> KeepsFailure(s, stop))
    ensures WarnsFit(Apply(c, s, a), stop)
  {
    match a
    case Grant => GrantKeepsWarnings(c, s, stop);
    case Signal(error) => SignalKeepsWarnings(s, error, stop);
    case Resume => ResumeKeepsWarnings(s, stop);
    case HandOver(own) => HandOverKeepsWarnings(s, own, stop);
    case Deliver(own) => DeliverKeepsWarnings(s, own, stop);
    case _ => ThreadKeepsWarnings(c, s, a, stop);
  }

  lemma {:induction false} RunKeepsWarnings(c: Config, s: State, run: seq<Action>, stop: Stop)
    requires IsRun(c, s, run) && WarnsFit(s, stop) && (Threaded(stop) ==> KeepsFailure(s, stop))
    ensures WarnsFit(Runs(c, s, run), stop)
    decreases |run|
  {
    if run != [] {
      if Threaded(stop) { StepKeepsFailure(c, s, run[0], stop); }
      StepKeepsWarnings(c, s, run[0], stop);
      RunKeepsWarnings(c, Apply(c, s, run[0]), run[1..], stop);
    }
  }

  lemma ReachableWarns(c: Config, s: State, stop: Stop)
    requires Reachable(c, s)
    ensures WarnsFit(s, stop)
  {
    var now: real, budget: real, taskDone: bool, run: seq<Action> :|
      IsRun(c, Init(now, budget, taskDone), run) && s == Runs(c, Init(now, budget, taskDone), run);
    RunKeepsWarnings(c, Init(now, budget, taskDone), run, stop);
  }

  /** After the end, a stop that applied has been reported as not stopped exactly once, unless its own
      thread had returned `true` or raised while it was waited for; then never. */
  lemma NotStoppedIsReported(c: Config, s: State, stop: Stop)
    requires Reachable(c, s) && s.pc.Finished? && Threaded(stop) && stop in s.signals
    ensures Warned(s.log, stop) == One(s.jobs.Of(stop).future != Result(true) && !s.jobs.Of(stop).future.Raised?)
    ensures s.jobs.Of(stop).future == Result(true) ==> s.jobs.Of(stop).thread == Ended(true, None)
    ensures s.jobs.Of(stop).future.Raised? ==> s.jobs.Of(stop).thread.Ended? && s.jobs.Of(stop).thread.error.Some?
  {
    ReachableIsInvariant(c, s);
    ReachableWarns(c, s, stop);
    SignalledWasStarted(c, s, stop);
  }

  /** The replay is reported as not stopped when its wait ends with it still running, once, and at no
      other time. */
  lemma ReplayNotStoppedIsReported(c: Config, s: State)
    requires Reachable(c, s) && Enabled(s, Resume) && s.pc.stop == Replay
    ensures Warned(s.log, Replay) == 0 && Warned(Apply(c, s, Resume).log, Replay) == One(!s.taskDone)
  {
    ReachableWarns(c, s, Replay);
    ResumeCountsWarning(s, Replay);
  }

  function FailedRequests(run: seq<Action>): nat {
    if run == [] then 0 else One(run[0].Signal? && run[0].error.Some?) + FailedRequests(run[1..])
  }

  /** Every request to stop the replay that raises is logged, and its wait goes on. */
  lemma {:induction false} FailedRequestsAreLogged(c: Config, s: State, run: seq<Action>)
    requires IsRun(c, s, run)
    ensures Logged(Runs(c, s, run).log, Replay) == Logged(s.log, Replay) + FailedRequests(run)
    decreases |run|
  {
    if run != [] {
      RequestIsLogged(c, s, run[0]);
      FailedRequestsAreLogged(c, Apply(c, s, run[0]), run[1..]);
    }
  }

  lemma RequestIsLogged(c: Config, s: State, a: Action)
    requires Enabled(s, a)
    ensures Logged(Apply(c, s, a).log, Replay) == Logged(s.log, Replay) + One(a.Signal? && a.error.Some?)
    ensures a.Signal? ==> Apply(c, s, a).pc.Waiting? && Apply(c, s, a).pc.stop == s.pc.stop
  {
    match a
    case Signal(error) => FailureCounts(s.log, s.pc.stop, error);
    case HandOver(own) => FailureCounts(s.log, own, s.jobs.Of(own).thread.error);
    case Deliver(own) => FailureCounts(s.log, own, s.jobs.Of(own).thread.error); DeliverWritesFailureOnly(s, own);
    case Resume => ResumeLogsNoRequest(s);
    case _ =>
  }

  lemma FailureCounts(log: seq<Entry>, own: Stop, error: Option<string>)
    ensures Logged(Write(log, FailureOf(own, error)), Replay) == Logged(log, Replay) + One(own == Replay && error.Some?)
  {
  }

  lemma ResumeLogsNoRequest(s: State)
    requires Enabled(s, Resume)
    ensures Logged(DoResume(s).log, Replay) == Logged(s.log, Replay)
  {
    assert ResumeEntry(s).Some? && ResumeEntry(s).value.Failure? ==> Threaded(ResumeEntry(s).value.stop);
  }

  // ----- runs built step by step -----

  lemma {:induction false} OneMoreStep(c: Config, s: State, run: seq<Action>, a: Action)
    requires IsRun(c, s, run) && Enabled(Runs(c, s, run), a)
    ensures IsRun(c, s, run + [a]) && Runs(c, s, run + [a]) == Apply(c, Runs(c, s, run), a)
    decreases |run|
  {
    if run == [] {
      assert run + [a] == [a] && [a][1..] == [];
      assert Runs(c, Apply(c, s, a), []) == Apply(c, s, a);
    } else {
      assert (run + [a])[1..] == run[1..] + [a];
      OneMoreStep(c, Apply(c, s, run[0]), run[1..], a);
    }
  }

  /** A run from a given start reaches `s`. */
  ghost predicate Reaches(c: Config, start: State, s: State) {
    exists run: seq<Action> :: IsRun(c, start, run) && s == Runs(c, start, run)
  }

  lemma ReachesItself(c: Config, start: State)
    ensures Reaches(c, start, start)
  {
    assert IsRun(c, start, []) && start == Runs(c, start, []);
  }

  lemma ReachesNext(c: Config, start: State, s: State, a: Action) returns (r: State)
    requires Reaches(c, start, s) && Enabled(s, a)
    ensures r == Apply(c, s, a) && Reaches(c, start, r)
  {
    var run: seq<Action> :| IsRun(c, start, run) && s == Runs(c, start, run);
    OneMoreStep(c, start, run, a);
    r := Apply(c, s, a);
    assert IsRun(c, start, run + [a]) && r == Runs(c, start, run + [a]);
  }

  lemma ReachesIsReachable(c: Config, now: real, budget: real, taskDone: bool, s: State)
    requires Reaches(c, Init(now, budget, taskDone), s)
    ensures Reachable(c, s)
  {
  }

  /** `stop_replay` that takes a second makes its wait overrun: it began later than it was granted. */
  lemma WaitMayOverrun(now: real, budget: real, taskDone: bool) returns (s: State)
    requires budget >= 0.0
    ensures Reachable(Config(true, false, true), s) && s.pc.Waiting?
    ensures s.pc.at < s.pc.begun && s.deadline < s.pc.begun + s.pc.wait
  {
    var c := Config(true, false, true);
    var start := Init(now, budget, taskDone);
    ReachesItself(c, start);
    s := ReachesNext(c, start, start, Grant);
    s := ReachesNext(c, start, s, Grant);
    s := ReachesNext(c, start, s, Tick(now + 1.0));
    s := ReachesNext(c, start, s, Signal(None));
    ReachesIsReachable(c, now, budget, taskDone, s);
  }

  /** A loop closed on the callback it had accepted for a reconciler that failed late. */
  lemma LoopMayCloseOnCallback(now: real, budget: real, taskDone: bool, error: string) returns (s: State)
    ensures Reachable(Config(true, false, false), s)
    ensures !s.loopOpen && s.jobs.reconciler.posted && s.jobs.reconciler.thread == Ended(false, Some(error))
    ensures Logged(s.log, Reconciler) == 0
  {
    var c := Config(true, false, false);
    var start := Init(now, budget, taskDone);
    ReachesItself(c, start);
    s := ReachesNext(c, start, start, Grant);
    s := ReachesNext(c, start, s, Grant);
    s := ReachesNext(c, start, s, Grant);
    s := ReachesNext(c, start, s, Signal(None));
    s := ReachesNext(c, start, s, Tick(now + Remaining(start.deadline, now)));
    s := ReachesNext(c, start, s, Resume);
    s := ReachesNext(c, start, s, CallStop(Reconciler));
    s := ReachesNext(c, start, s, StopReturns(Reconciler, false, Some(error)));
    s := ReachesNext(c, start, s, HandOver(Reconciler));
    s := ReachesNext(c, start, s, CloseLoop);
    ReachesIsReachable(c, now, budget, taskDone, s);
  }

  // ----- the order of the calls -----

  /** The replay's stop is called before the drift check's own thread has called its stop. */
  ghost predicate Overtaken(calls: seq<Stop>) {
    exists i, j :: 0 <= i < j < |calls| && calls[i] == Replay && calls[j] == Drift
  }

  /** A thread is there once its stop is signalled, and has called it unless it has not got that far. */
  predicate ThreadFits(s: State, stop: Stop)
    requires Threaded(stop)
  {
    && (s.jobs.Of(stop).thread != NotStarted <==> stop in s.signals)
    && (stop in s.calls <==> !s.jobs.Of(stop).thread.NotStarted? && !s.jobs.Of(stop).thread.Started?)
  }

  /** Only what was signalled is called. */
  ghost predicate CallsFit(s: State) {
    ThreadFits(s, Drift) && ThreadFits(s, Reconciler) && forall x :: x in s.calls ==> x in s.signals
  }

  lemma GrantedNotSignalled(c: Config, s: State)
    requires SignalsInOrder(c, s) && s.pc.Granted?
    ensures s.pc.stop !in s.signals
  {
  }

  lemma SignalStartsOwn(s: State, error: Option<string>)
    requires Enabled(s, Signal(error)) && Threaded(s.pc.stop) && ThreadFits(s, s.pc.stop) && s.pc.stop !in s.signals
    ensures ThreadFits(DoSignal(s, error), s.pc.stop)
  {
  }

  lemma SignalLeavesOthers(s: State, error: Option<string>, stop: Stop)
    requires Enabled(s, Signal(error)) && Threaded(stop) && ThreadFits(s, stop) && stop != s.pc.stop
    ensures ThreadFits(DoSignal(s, error), stop)
  {
    SignalMovesOn(s, error, stop);
  }

  lemma ResumeKeepsThread(s: State, stop: Stop)
    requires Enabled(s, Resume) && Threaded(stop) && ThreadFits(s, stop)
    ensures ThreadFits(DoResume(s), stop)
  {
    ResumeChangesJob(s, stop);
  }

  lemma CoroutineKeepsThread(c: Config, s: State, a: Action, stop: Stop)
    requires Threaded(stop) && ThreadFits(s, stop) && SignalsInOrder(c, s) && Enabled(s, a)
    requires a.Grant? || a.Signal? || a.Resume?
    ensures ThreadFits(Apply(c, s, a), stop)
  {
    match a
    case Grant => GrantChangesNoJob(c, s, stop);
    case Signal(error) =>
      GrantedNotSignalled(c, s);
      if stop == s.pc.stop { SignalStartsOwn(s, error); } else { SignalLeavesOthers(s, error, stop); }
    case Resume => ResumeKeepsThread(s, stop);
  }

  lemma ThreadKeepsThread(c: Config, s: State, a: Action, stop: Stop)
    requires Threaded(stop) && ThreadFits(s, stop) && Enabled(s, a)
    requires a.CallStop? || a.StopReturns? || a.HandOver? || a.Deliver?
    ensures ThreadFits(Apply(c, s, a), stop)
  {
  }

  lemma StepKeepsThread(c: Config, s: State, a: Action, stop: Stop)
    requires Threaded(stop) && ThreadFits(s, stop) && SignalsInOrder(c, s) && Enabled(s, a)
    ensures ThreadFits(Apply(c, s, a), stop)
  {
    if a.Grant? || a.Signal? || a.Resume? {
      CoroutineKeepsThread(c, s, a, stop);
    } else if a.CallStop? || a.StopReturns? || a.HandOver? || a.Deliver? {
      ThreadKeepsThread(c, s, a, stop);
    }
  }

  lemma StepKeepsSignalled(c: Config, s: State, a: Action)
    requires CallsFit(s) && Enabled(s, a)
    ensures forall x :: x in Apply(c, s, a).calls ==> x in Apply(c, s, a).signals
  {
  }

  lemma StepKeepsCalls(c: Config, s: State, a: Action)
    requires CallsFit(s) && SignalsInOrder(c, s) && Enabled(s, a)
    ensures CallsFit(Apply(c, s, a))
  {
    StepKeepsThread(c, s, a, Drift);
    StepKeepsThread(c, s, a, Reconciler);
    StepKeepsSignalled(c, s, a);
  }

  lemma {:induction false} RunKeepsCalls(c: Config, s: State, run: seq<Action>)
    requires CallsFit(s) && SignalsInOrder(c, s) && IsRun(c, s, run)
    ensures CallsFit(Runs(c, s, run)) && SignalsInOrder(c, Runs(c, s, run))
    decreases |run|
  {
    if run != [] {
      StepKeepsCalls(c, s, run[0]);
      StepKeepsOrder(c, s, run[0]);
      RunKeepsCalls(c, Apply(c, s, run[0]), run[1..]);
    }
  }

  lemma WitnessOfOvertaking(c: Config, now: real, budget: real, taskDone: bool) returns (s: State)
    requires Applies(c, Drift) && Applies(c, Replay)
    ensures Reaches(c, Init(now, budget, taskDone), s) && Overtaken(s.calls)
  {
    var start := Init(now, budget, taskDone);
    ReachesItself(c, start);
    s := ReachesNext(c, start, start, Grant);
    s := ReachesNext(c, start, s, Signal(None));
    s := ReachesNext(c, start, s, Tick(now + Remaining(start.deadline, now)));
    s := ReachesNext(c, start, s, Resume);
    s := ReachesNext(c, start, s, Grant);
    s := ReachesNext(c, start, s, Signal(None));
    s := ReachesNext(c, start, s, CallStop(Drift));
    assert s.calls == [Replay, Drift];
    assert s.calls[0] == Replay && s.calls[1] == Drift;
  }

  /** Only the signals are ordered. Whatever the budget, some run calls the replay's stop before the
      drift check's exactly when there are both. */
  lemma CallsMayOvertake(c: Config, now: real, budget: real, taskDone: bool)
    ensures (exists s :: Reaches(c, Init(now, budget, taskDone), s) && Overtaken(s.calls)) <==>
      Applies(c, Drift) && Applies(c, Replay)
  {
    var start := Init(now, budget, taskDone);
    if Applies(c, Drift) && Applies(c, Replay) {
      var s := WitnessOfOvertaking(c, now, budget, taskDone);
      assert Reaches(c, start, s) && Overtaken(s.calls);
    }
    forall s | Reaches(c, start, s) && Overtaken(s.calls)
      ensures Applies(c, Drift) && Applies(c, Replay)
    {
      var run: seq<Action> :| IsRun(c, start, run) && s == Runs(c, start, run);
      RunKeepsCalls(c, start, run);
      assert Replay in s.signals && Drift in s.signals;
    }
  }

  lemma SignalledWasStarted(c: Config, s: State, stop: Stop)
    requires Reachable(c, s) && Threaded(stop)
    ensures stop in s.signals <==> s.jobs.Of(stop).thread != NotStarted
  {
    var now: real, budget: real, taskDone: bool, run: seq<Action> :|
      IsRun(c, Init(now, budget, taskDone), run) && s == Runs(c, Init(now, budget, taskDone), run);
    RunKeepsCalls(c, Init(now, budget, taskDone), run);
  }

  /** When the replay's stop is about to be called, the drift check's has not been called exactly when
      its future was abandoned while its thread had not got that far. */
  lemma OvertakenExactlyWhenAbandoned(c: Config, s: State)
    requires Reachable(c, s) && s.pc.Granted? && s.pc.stop == Replay && Applies(c, Drift)
    ensures Drift !in s.calls <==> s.jobs.drift.thread == Started && s.jobs.drift.future == Abandoned
  {
    ReachableIsInvariant(c, s);
    var now: real, budget: real, taskDone: bool, run: seq<Action> :|
      IsRun(c, Init(now, budget, taskDone), run) && s == Runs(c, Init(now, budget, taskDone), run);
    RunKeepsCalls(c, Init(now, budget, taskDone), run);
    assert KeepsFailure(s, Drift) && Drift in s.signals;
  }
}
