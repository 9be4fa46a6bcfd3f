/** Loading the selected dylib: the manual "load once" composition (`_loadDylib()`), and the
    reload decisions of a watch started by `_startAutoloadingDylib` — the initial pass that
    fixes the watch context's last-loaded path, and the body of the file-system event callback.

    Loading a dylib (open it, call its `test` symbol, close it) is observable here only as a
    `Loaded` entry appended to an effect log; the native calls themselves are not modelled. */
module DylibLoading {
  import opened Wrappers
  import opened DylibSelection

  /** What the core does to the outside world, in order: a dylib was loaded and its entry point
      called, or a watch's event stream was stopped. */
  datatype Effect = Loaded(path: Path) | StreamStopped

  /** The file system as the selection sees it at one moment: the listing of each directory.
      A directory without an entry cannot be listed (listing it throws). */
  type FileSystem = map<Path, Listing>

  function ListDirectory(fs: FileSystem, dir: Path): Listing
  {
    if dir in fs then fs[dir] else Unlistable
  }

  /** `_selectDylib(in: dir)` at the moment `fs` describes. */
  function SelectIn(fs: FileSystem, dir: Path): Option<Path>
  {
    SelectDylib(ListDirectory(fs, dir))
  }

  /** `_loadDylib(atURL:)`: one load of `p`, assuming open, symbol lookup and close succeed. */
  function LoadAt(log: seq<Effect>, p: Path): seq<Effect>
  {
    log + [Loaded(p)]
  }

  /** The result of a load attempt together with the effect log after it. */
  datatype Attempt = Attempt(dylib: Option<Path>, log: seq<Effect>)

  /** `_loadDylib()`: with a configured directory, load its selected dylib and return its path;
      without a directory or without a selection, load nothing and return none. */
  function LoadOnce(directory: Option<Path>, fs: FileSystem, log: seq<Effect>): (r: Attempt)
    ensures directory.None? ==> r == Attempt(None, log)
    ensures directory.Some? ==>
      forall p :: r.dylib == Some(p) <==> IsSelection(ListDirectory(fs, directory.value), p)
    ensures r.log == log + (if r.dylib.Some? then [Loaded(r.dylib.value)] else [])
  {
    match directory
    case None => Attempt(None, log)
    case Some(dir) =>
      SelectDylibIsNewestAll(ListDirectory(fs, dir));
      match SelectIn(fs, dir)
      case None => Attempt(None, log)
      case Some(dylib) => Attempt(Some(dylib), LoadAt(log, dylib))
  }

  /** The `Info` a watch shares with its event callback: the watched directory and the path the
      initial pass loaded. (The `didLoad` callback is the app's; see `AutoloadApp`.) */
  datatype WatchContext = WatchContext(directory: Path, lastLoaded: Option<Path>)

  /** The result of starting: the watch's context (present iff a stopper is returned) and the
      effect log after the initial pass. */
  datatype Started = Started(watch: Option<WatchContext>, log: seq<Effect>)

  /** `_startAutoloadingDylib(lastLoaded:didLoad:)`: without a configured directory, nothing
      happens and no stopper is returned. Otherwise the initial pass loads the selection when
      there is one and it differs from `lastLoaded`, and the context records exactly the path
      it loaded (none when it loaded nothing); then the watch exists. */
  function StartAutoloading(directory: Option<Path>, lastLoaded: Option<Path>, fs: FileSystem, log: seq<Effect>): (r: Started)
    ensures directory.None? ==> r == Started(None, log)
    ensures directory.Some? ==> r.watch.Some? && r.watch.value.directory == directory.value
    ensures directory.Some? ==> forall p ::
      r.watch.value.lastLoaded == Some(p) <==>
        IsSelection(ListDirectory(fs, directory.value), p) && Some(p) != lastLoaded
    ensures r.log == log + (if r.watch.Some? && r.watch.value.lastLoaded.Some?
                            then [Loaded(r.watch.value.lastLoaded.value)] else [])
  {
    match directory
    case None => Started(None, log)
    case Some(dir) =>
      SelectDylibIsNewestAll(ListDirectory(fs, dir));
      var selected := SelectIn(fs, dir);
      if selected.Some? && selected != lastLoaded then
        Started(Some(WatchContext(dir, selected)), LoadAt(log, selected.value))
      else
        Started(Some(WatchContext(dir, None)), log)
  }

  /** What one event callback reports to `didLoad`, and the effect log after it. */
  datatype Handled = Handled(reported: Option<Path>, log: seq<Effect>)

  /** The event callback: select in the watched directory, load the selection when it is
      present and differs from the context's last-loaded path, and report the selection
      (present or not) whether or not it was loaded. The context is read, never written. */
  function HandleEvent(ctx: WatchContext, fs: FileSystem, log: seq<Effect>): (r: Handled)
    ensures forall p :: r.reported == Some(p) <==> IsSelection(ListDirectory(fs, ctx.directory), p)
    ensures r.log == log + (if r.reported.Some? && r.reported != ctx.lastLoaded
                            then [Loaded(r.reported.value)] else [])
  {
    SelectDylibIsNewestAll(ListDirectory(fs, ctx.directory));
    var dylib := SelectIn(fs, ctx.directory);
    if dylib.Some? && dylib != ctx.lastLoaded then Handled(dylib, LoadAt(log, dylib.value))
    else Handled(dylib, log)
  }

  // ---------------------------------------------------------------------------------------
  // Consequences for the reload decisions.

  /** Enabling autoload when the directory's selection is the path last loaded does not load it
      again. */
  lemma StartSkipsLastLoaded(dir: Path, m: Path, fs: FileSystem, log: seq<Effect>)
    requires IsSelection(ListDirectory(fs, dir), m)
    ensures StartAutoloading(Some(dir), Some(m), fs, log).log == log
    ensures StartAutoloading(Some(dir), Some(m), fs, log).watch == Some(WatchContext(dir, None))
  {
  }

  /** Enabling autoload with nothing loaded yet, in a directory that offers a dylib, loads that
      dylib exactly once. */
  lemma StartLoadsSelectionOnce(dir: Path, m: Path, fs: FileSystem, log: seq<Effect>)
    requires IsSelection(ListDirectory(fs, dir), m)
    ensures StartAutoloading(Some(dir), None, fs, log).log == log + [Loaded(m)]
    ensures StartAutoloading(Some(dir), None, fs, log).watch == Some(WatchContext(dir, Some(m)))
  {
  }

  /** Since the callback never writes the context, a context whose last-loaded path differs from
      the selection reloads that same selection on every event: two events on an unchanged
      directory load the same path twice in a row. */
  lemma EventsRepeatLoad(ctx: WatchContext, fs: FileSystem, log: seq<Effect>, p: Path)
    requires IsSelection(ListDirectory(fs, ctx.directory), p) && ctx.lastLoaded != Some(p)
    ensures HandleEvent(ctx, fs, HandleEvent(ctx, fs, log).log).log == log + [Loaded(p), Loaded(p)]
  {
  }
}
