/** The app's own state (`MainApp`): the last loaded dylib, the held autoloading stopper, and the
    two operations the view calls — the "load now" closure and the autoloading toggle — plus the
    delivery of file-system notifications to a running watch's callback. */
module AutoloadApp {
  import opened Wrappers
  import opened DylibSelection
  import opened DylibLoading

  /** The stopper the app holds. Holding one means a watch is running; the watch's context is
      its payload. */
  datatype Autoload = Inactive | Watching(context: WatchContext)

  /** `_lastLoadedDylib`, `_stopAutoloadingDylib`, and the effects so far. */
  datatype App = App(lastLoaded: Option<Path>, autoload: Autoload, log: seq<Effect>)

  /** The state at launch: nothing loaded, no stopper, no effects. */
  const Launched: App := App(None, Inactive, [])

  /** The toggle's getter: autoloading iff a stopper is held. */
  predicate IsAutoloading(app: App)
  {
    app.autoload.Watching?
  }

  /** The toggle's setter. Switching on while off starts a watch (with the app's last-loaded
      path) and holds its stopper, if start returned one; switching off while on calls the
      stopper once and drops it; any other combination changes nothing. The app's last-loaded
      path is never touched here: the initial pass does not call `didLoad`. */
  function SetAutoloading(app: App, enable: bool, directory: Option<Path>, fs: FileSystem): (r: App)
    ensures IsAutoloading(r) <==> enable && (IsAutoloading(app) || directory.Some?)
    ensures r.lastLoaded == app.lastLoaded
    ensures enable == IsAutoloading(app) ==> r == app
    ensures enable && directory.None? ==> r == app
    ensures !enable && IsAutoloading(app) ==> r.log == app.log + [StreamStopped]
    ensures enable && !IsAutoloading(app) && directory.Some? ==>
      && r.autoload.context.directory == directory.value
      && (forall p :: r.autoload.context.lastLoaded == Some(p) <==>
            IsSelection(ListDirectory(fs, directory.value), p) && Some(p) != app.lastLoaded)
      && r.log == app.log + (if r.autoload.context.lastLoaded.Some?
                             then [Loaded(r.autoload.context.lastLoaded.value)] else [])
  {
    match (app.autoload, enable)
    case (Inactive, true) =>
      var started := StartAutoloading(directory, app.lastLoaded, fs, app.log);
      var autoload := if started.watch.Some? then Watching(started.watch.value) else Inactive;
      App(app.lastLoaded, autoload, started.log)
    case (Watching(_), false) =>
      App(app.lastLoaded, Inactive, app.log + [StreamStopped])
    case _ => app
  }

  /** The `loadDylib` closure handed to the view. It may only run while not autoloading; it
      overwrites the app's last-loaded path with the result of `_loadDylib()`, also when that
      result is none. */
  function LoadDylib(app: App, directory: Option<Path>, fs: FileSystem): (r: App)
    requires !IsAutoloading(app)
    ensures r.autoload == Inactive
    ensures directory.None? ==> r.lastLoaded.None?
    ensures directory.Some? ==>
      forall p :: r.lastLoaded == Some(p) <==> IsSelection(ListDirectory(fs, directory.value), p)
    ensures r.log == app.log + (if r.lastLoaded.Some? then [Loaded(r.lastLoaded.value)] else [])
  {
    var attempt := LoadOnce(directory, fs, app.log);
    App(attempt.dylib, app.autoload, attempt.log)
  }

  /** A file-system notification. Without a watch no callback runs. With one, the callback
      handles the event with the watch's (unchanged) context and reports its selection to
      `didLoad`, which overwrites the app's last-loaded path only with a present value. */
  function Deliver(app: App, fs: FileSystem): (r: App)
    ensures r.autoload == app.autoload
    ensures !IsAutoloading(app) ==> r == app
    ensures IsAutoloading(app) ==>
      var ctx := app.autoload.context;
      var listing := ListDirectory(fs, ctx.directory);
      && (forall p :: IsSelection(listing, p) ==>
            && r.lastLoaded == Some(p)
            && r.log == app.log + (if Some(p) != ctx.lastLoaded then [Loaded(p)] else []))
      && ((forall p :: !IsSelection(listing, p)) ==> r.lastLoaded == app.lastLoaded && r.log == app.log)
  {
    match app.autoload
    case Inactive => app
    case Watching(ctx) =>
      var handled := HandleEvent(ctx, fs, app.log);
      var lastLoaded := if handled.reported.Some? then handled.reported else app.lastLoaded;
      App(lastLoaded, app.autoload, handled.log)
  }

  // ---------------------------------------------------------------------------------------
  // Sessions: sequences of view actions and notifications.

  /** What can happen to the app: the "load now" button, the toggle, or a notification. */
  datatype Action = PressLoad | Toggle(enable: bool) | Notification

  /** An action, together with the file system at the moment it happens. */
  datatype Step = Step(action: Action, fs: FileSystem)

  /** One step. The view disables the "load now" button while autoloading, so a press then has
      no effect. */
  function Apply(app: App, directory: Option<Path>, step: Step): App
  {
    match step.action
    case PressLoad => if IsAutoloading(app) then app else LoadDylib(app, directory, step.fs)
    case Toggle(enable) => SetAutoloading(app, enable, directory, step.fs)
    case Notification => Deliver(app, step.fs)
  }

  function Run(app: App, directory: Option<Path>, steps: seq<Step>): App
    decreases |steps|
  {
    if |steps| == 0 then app else Run(Apply(app, directory, steps[0]), directory, steps[1..])
  }

  /** Notifications only, one per file-system moment. */
  function DeliverAll(app: App, moments: seq<FileSystem>): App
    decreases |moments|
  {
    if |moments| == 0 then app else DeliverAll(Deliver(app, moments[0]), moments[1..])
  }

  /** The invariant of a session: every path the app or a running watch records as last loaded
      has actually been loaded, and a running watch watches the configured directory. */
  ghost predicate Consistent(app: App, directory: Option<Path>)
  {
    && (app.lastLoaded.Some? ==> Loaded(app.lastLoaded.value) in app.log)
    && (app.autoload.Watching? ==>
          && directory == Some(app.autoload.context.directory)
          && (app.autoload.context.lastLoaded.Some? ==> Loaded(app.autoload.context.lastLoaded.value) in app.log))
  }

  /** Every step keeps the invariant and only appends to the effect log. */
  lemma ApplyKeepsConsistent(app: App, directory: Option<Path>, step: Step)
    requires Consistent(app, directory)
    ensures Consistent(Apply(app, directory, step), directory)
    ensures app.log <= Apply(app, directory, step).log
  {
  }

  /** A whole session from a consistent state stays consistent, and its effect log extends the
      one it started with. */
  lemma {:induction false} RunKeepsConsistent(app: App, directory: Option<Path>, steps: seq<Step>)
    requires Consistent(app, directory)
    ensures Consistent(Run(app, directory, steps), directory)
    ensures app.log <= Run(app, directory, steps).log
    decreases |steps|
  {
    if |steps| > 0 {
      var next := Apply(app, directory, steps[0]);
      ApplyKeepsConsistent(app, directory, steps[0]);
      RunKeepsConsistent(next, directory, steps[1..]);
    }
  }

  /** From launch, whatever happens, a recorded last-loaded path was loaded. */
  lemma LastLoadedWasLoaded(directory: Option<Path>, steps: seq<Step>)
    ensures var app := Run(Launched, directory, steps);
      app.lastLoaded.Some? ==> Loaded(app.lastLoaded.value) in app.log
  {
    RunKeepsConsistent(Launched, directory, steps);
  }

  /** Without a watch, notifications change nothing. */
  lemma {:induction false} InactiveIgnoresNotifications(app: App, moments: seq<FileSystem>)
    requires !IsAutoloading(app)
    ensures DeliverAll(app, moments) == app
    decreases |moments|
  {
    if |moments| > 0 {
      InactiveIgnoresNotifications(Deliver(app, moments[0]), moments[1..]);
    }
  }

  /** After switching autoloading off, no pending notification loads anything: the effect log
      ends with the single stop and stays so. */
  lemma StopEndsLoading(app: App, directory: Option<Path>, fs: FileSystem, pending: seq<FileSystem>)
    requires IsAutoloading(app)
    ensures var stopped := SetAutoloading(app, false, directory, fs);
      && DeliverAll(stopped, pending) == stopped
      && stopped.log == app.log + [StreamStopped]
  {
  }

  /** Setting the toggle twice to the same value is the same as setting it once. */
  lemma SetAutoloadingIdempotent(app: App, enable: bool, directory: Option<Path>, fs: FileSystem, fs': FileSystem)
    ensures var once := SetAutoloading(app, enable, directory, fs);
      SetAutoloading(once, enable, directory, fs') == once
  {
  }
}
