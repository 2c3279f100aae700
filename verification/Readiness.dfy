/** The readiness of one app: what the lifespan and `/readyz` write to `app.state`, on top of the
    re-probe harness and the dependency health registry. */
module Readiness {
  import opened Reprobe
  import opened ReprobeSafety
  import opened ReprobeTheorems

  datatype Phase = Created | Configured | Serving | Stopped

  datatype App = App(ready: bool, complete: bool, phase: Phase, core: State)

  datatype AppAction =
    | ResolveConfig(missingFields: bool)
    | StartupCheck
    | Core(a: Action)
    | Latch(p: nat)
    | Shutdown

  function NewApp(now: real, down: set<Name>): App {
    App(false, false, Created, Init(now, down))
  }

  ghost predicate AppEnabled(app: App, a: AppAction)
    requires Shape(app.core)
  {
    match a
    case ResolveConfig(_) => app.phase == Created
    case StartupCheck => app.phase == Configured
    // `_refresh_readiness` polls only while the configuration is complete
    case Core(a) => Enabled(app.core, a) && (a.ByWorld? && a.world.StartPoll? ==> app.complete)
    // its wait ends with the poll or with the deadline, whichever is first
    case Latch(p) =>
      p < |app.core.polls| && (app.core.polls[p].pc.Done? || app.core.polls[p].deadline <= app.core.now)
    case Shutdown => app.phase == Serving
  }

  ghost function AppApply(c: Config, app: App, a: AppAction): (r: App)
    requires Shape(app.core) && AppEnabled(app, a)
    ensures Shape(r.core)
  {
    match a
    case ResolveConfig(missing) => app.(complete := !missing, phase := Configured)
    case StartupCheck => app.(ready := AllHealthy(c, app.core) && app.complete, phase := Serving)
    case Core(a) => app.(core := Apply(c, app.core, a))
    case Latch(p) => if app.ready then app else app.(ready := AllHealthy(c, app.core))
    case Shutdown => app.(ready := false, phase := Stopped)
  }

  /** `_is_ready`. */
  ghost predicate IsReady(c: Config, app: App) {
    (app.ready || app.complete) && AllHealthy(c, app.core)
  }

  ghost predicate IsAppRun(c: Config, app: App, run: seq<AppAction>)
    requires Shape(app.core)
    decreases |run|
  {
    run == [] || (AppEnabled(app, run[0]) && IsAppRun(c, AppApply(c, app, run[0]), run[1..]))
  }

  ghost function AppAfter(c: Config, app: App, run: seq<AppAction>): (r: App)
    requires Shape(app.core) && IsAppRun(c, app, run)
    ensures Shape(r.core)
    decreases |run|
  {
    if run == [] then app else AppAfter(c, AppApply(c, app, run[0]), run[1..])
  }

  ghost predicate AppInvariant(c: Config, app: App) {
    && Invariant(c, app.core)
    && (app.ready ==> app.complete)
    && (app.core.polls != [] ==> app.complete)
    && (app.complete ==> app.phase != Created)
  }

  lemma OnlyStartPollAddsPolls(c: Config, s: State, a: Action)
    requires Shape(s) && Enabled(s, a) && !(a.ByWorld? && a.world.StartPoll?)
    ensures |Apply(c, s, a).polls| == |s.polls|
  {
    match a
    case ByPoll(_, _) =>
    case ByThread(_, _) =>
    case ByWorld(_) =>
  }

  lemma AppStepKeepsInvariant(c: Config, app: App, a: AppAction)
    requires AppInvariant(c, app) && AppEnabled(app, a)
    ensures AppInvariant(c, AppApply(c, app, a))
  {
    match a
    case Core(step) =>
      StepKeepsInvariant(c, app.core, step);
      if !(step.ByWorld? && step.world.StartPoll?) { OnlyStartPollAddsPolls(c, app.core, step); }
    case _ =>
  }

  lemma {:induction false} AppRunKeepsInvariant(c: Config, app: App, run: seq<AppAction>)
    requires AppInvariant(c, app) && IsAppRun(c, app, run)
    ensures AppInvariant(c, AppAfter(c, app, run))
    decreases |run|
  {
    if run != [] {
      AppStepKeepsInvariant(c, app, run[0]);
      AppRunKeepsInvariant(c, AppApply(c, app, run[0]), run[1..]);
    }
  }

  /** In every state of every run the latch never decides anything on its own: the app is ready
      exactly when its configuration is complete and every gating dependency is healthy. */
  lemma ReadyMeansCompleteAndHealthy(c: Config, now: real, down: set<Name>, run: seq<AppAction>)
    requires IsAppRun(c, NewApp(now, down), run)
    ensures var app := AppAfter(c, NewApp(now, down), run);
      && (IsReady(c, app) <==> app.complete && AllHealthy(c, app.core))
      && (app.ready ==> app.complete)
      && AppInvariant(c, app)
  {
    AppRunKeepsInvariant(c, NewApp(now, down), run);
  }

  /** Missing configuration is for good: no recovery and no poll ever makes the app ready. */
  lemma {:induction false} IncompleteNeverReady(c: Config, app: App, run: seq<AppAction>)
    requires AppInvariant(c, app) && IsAppRun(c, app, run)
    requires app.phase != Created && !app.complete
    ensures var end := AppAfter(c, app, run); !end.complete && !end.ready && !IsReady(c, end)
    decreases |run|
  {
    if run != [] {
      AppStepKeepsInvariant(c, app, run[0]);
      IncompleteNeverReady(c, AppApply(c, app, run[0]), run[1..]);
    }
  }

  lemma ResolvedOnce(c: Config, app: App, a: AppAction)
    requires Shape(app.core) && AppEnabled(app, a) && (app.complete ==> app.phase != Created)
    ensures var r := AppApply(c, app, a);
      && (a.ResolveConfig? ==> app.phase == Created && r.phase != Created && (r.complete <==> a == ResolveConfig(false)))
      && (!a.ResolveConfig? ==> r.complete == app.complete && (app.phase != Created ==> r.phase != Created))
      && (r.complete ==> r.phase != Created)
  {
  }

  lemma {:induction false} CompleteAfterRun(c: Config, app: App, run: seq<AppAction>)
    requires Shape(app.core) && IsAppRun(c, app, run) && (app.complete ==> app.phase != Created)
    ensures AppAfter(c, app, run).complete <==> app.complete || ResolveConfig(false) in run
    ensures app.phase != Created ==> forall missing :: ResolveConfig(missing) !in run
    ensures !(ResolveConfig(true) in run && ResolveConfig(false) in run)
    decreases |run|
  {
    if run != [] {
      assert forall a :: a in run <==> a == run[0] || a in run[1..];
      ResolvedOnce(c, app, run[0]);
      CompleteAfterRun(c, AppApply(c, app, run[0]), run[1..]);
    }
  }

  /** What the missing fields decide, over every run of an app: it is complete exactly when its
      configuration was resolved with none missing, and then ready exactly while every gating
      dependency is healthy; with some missing it is never complete, latched or ready. */
  lemma MissingFieldsDecide(c: Config, now: real, down: set<Name>, run: seq<AppAction>)
    requires IsAppRun(c, NewApp(now, down), run)
    ensures var end := AppAfter(c, NewApp(now, down), run);
      && (end.complete <==> ResolveConfig(false) in run)
      && (IsReady(c, end) <==> ResolveConfig(false) in run && forall d :: d in c.gating ==> d !in end.core.down)
      && (ResolveConfig(true) in run ==> !end.complete && !end.ready && !IsReady(c, end))
  {
    CompleteAfterRun(c, NewApp(now, down), run);
    ReadyMeansCompleteAndHealthy(c, now, down, run);
  }

  /** What sets and clears the latch: the startup check and the end of a poll set it exactly on a
      complete configuration with every gating dependency healthy, a poll never clears it, shutdown
      does. */
  lemma LatchedExactly(c: Config, now: real, down: set<Name>, run: seq<AppAction>, a: AppAction)
    requires IsAppRun(c, NewApp(now, down), run) && AppEnabled(AppAfter(c, NewApp(now, down), run), a)
    ensures var app := AppAfter(c, NewApp(now, down), run);
      var healthy := forall d :: d in c.gating ==> d !in app.core.down;
      AppApply(c, app, a).ready <==>
        match a
        case StartupCheck => ResolveConfig(false) in run && healthy
        case Latch(_) => app.ready || (ResolveConfig(false) in run && healthy)
        case Shutdown => false
        case _ => app.ready
  {
    MissingFieldsDecide(c, now, down, run);
    ReadyMeansCompleteAndHealthy(c, now, down, run);
  }

  /** A poll whose needed probes can all start or be joined, and which latches - at its end, or cut at
      the deadline - when they have returned and nothing reported a failure, is answered "ready",
      whatever the startup check found. */
  lemma PollAnswersReady(c: Config, app: App, p: nat, run: seq<Action>)
    requires AppInvariant(c, app) && app.complete
    requires IsRun(c, app.core, run) && (forall a :: a in run ==> GoodNews(a))
    requires p < |app.core.polls| && app.core.polls[p].pc == Scan(c.gating) && app.core.polls[p].joined == []
    requires forall d :: d in c.gating && d in app.core.down ==> CanProbe(c, app.core, d)
    requires ProbesReturned(After(c, app.core, run), p)
    requires AppEnabled(app.(core := After(c, app.core, run)), Latch(p))
    ensures var end := AppApply(c, app.(core := After(c, app.core, run)), Latch(p));
      end.ready && IsReady(c, end)
  {
    PollFindsAllHealthy(c, app.core, p, run);
  }
}
