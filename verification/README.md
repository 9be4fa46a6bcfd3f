# Dylib live reloading — a Dafny model

The app (`MainApp`) loads a compiled dynamic library ("dylib") from a configured directory and
calls its `test` entry point, either on demand ("load now") or automatically: while autoloading
is switched on, a file-system event stream watches the directory and every notification
re-selects the newest dylib and loads it if it differs from the one the watch last loaded.

The model has four modules:

- `DylibSelection` (`selection.dfy`): `_selectDylib(in:)` as a fold over a directory listing
  (`ScanFrom`, `SelectDylib`), and an independent reference definition (`NewestAmong`,
  `IsSelection`): the newest regular file of type `com.apple.mach-o-dylib` with a known date,
  earliest listed among equally new ones; any thrown error means no selection.
- `DylibLoading` (`loading.dfy`): `_loadDylib()`, the start of a watch (initial pass and the
  watch context it creates), and the event callback's reload decision. A load is a `Loaded(path)`
  entry appended to an effect log.
- `AutoloadApp` (`app.dfy`): the app state (last loaded dylib, held stopper as a two-state
  `Autoload`, effect log), the autoloading toggle, the view's `loadDylib` closure, notification
  delivery, and whole sessions (`Run`) with their invariant. The view disables the "load now"
  button while autoloading (`Main/Shared/ContentView.swift:20`), so `Apply` ignores a press then.
- `Scenarios` (`scenarios.dfy`): small concrete directories and sessions.

The model follows the code as written, including three points where a reader might expect
otherwise:

- The event callback never writes the watch context's last-loaded path; it stays what the
  initial pass loaded (or none). So once the directory's selection differs from it, every
  notification loads that selection again (`DylibLoading.EventsRepeatLoad`); the app's own
  last-loaded path is not fed back into the running watch.
- An entry whose resource values cannot be read is not skipped: the thrown error ends the whole
  selection with no result.
- Equally new dylibs are not ordered by path: the first listed one wins, because only a strictly
  newer date replaces the running best.

## Model

| member | source | states |
|---|---|---|
| DylibSelection.SelectDylibIsNewest | Main/Shared/MainApp.swift:67-90 | The selection is `p` exactly when the listing succeeded, every entry's resource values were readable, and `p` is the path of the newest candidate (regular file, dylib content type, known date), the earliest listed among candidates of equal date. |
| DylibSelection.ScanFromSummarises | Main/Shared/MainApp.swift:71-82 | The loop throws exactly when an unreadable entry lies ahead; otherwise the running best it ends with is none iff no entry qualifies, and is the newest candidate's date and path otherwise. |
| DylibSelection.ConsiderKeepsSummary | Main/Shared/MainApp.swift:73-81 | One loop iteration (skip a non-candidate, take the first candidate, replace only on a strictly newer date) keeps the running best equal to the newest candidate seen so far. |
| DylibSelection.NewestIsUnique | Main/Shared/MainApp.swift:79-81 | At most one entry is the newest candidate, so the selection is a single winner. |
| DylibSelection.SelectionQualifies | Main/Shared/MainApp.swift:73-84 | A selected path belongs to an entry of the listing that is a regular file, has the dylib content type and has a modification date. |
| DylibSelection.SelectDylibNone | Main/Shared/MainApp.swift:68-89 | There is no selection exactly when listing the directory throws, some entry's resource values cannot be read, or no entry qualifies (an empty directory included). |
| DylibSelection.StrictlyNewestWins | Main/Shared/MainApp.swift:79-81 | A candidate strictly newer than every other candidate is selected wherever it stands in the listing. |
| DylibSelection.TieKeepsFirstListed | Main/Shared/MainApp.swift:79-81 | Among candidates sharing the greatest date, the first listed is selected. |
| DylibLoading.LoadOnce | Main/Shared/MainApp.swift:111-117 | Without a configured directory the result is none and nothing is loaded; otherwise the result is the directory's selection, and exactly that path is loaded once when present, nothing otherwise. |
| DylibLoading.StartAutoloading | Main/Shared/MainApp.swift:121-144 | Without a directory no stopper is returned and nothing happens; with one a watch on that directory exists, and the context's last-loaded path is `p` iff `p` is the selection and differs from the given last-loaded path, in which case `p` alone was loaded. |
| DylibLoading.HandleEvent | Main/Shared/MainApp.swift:156-164 | The callback reports the directory's selection (present or none) and loads it exactly when it is present and differs from the context's last-loaded path; the context itself is not changed. |
| DylibLoading.StartSkipsLastLoaded | Main/Shared/MainApp.swift:136-143 | Enabling autoload when the selection equals the path last loaded loads nothing and leaves the context's last-loaded path none. |
| DylibLoading.StartLoadsSelectionOnce | Main/Shared/MainApp.swift:136-143 | Enabling autoload with nothing loaded, in a directory that offers a dylib, loads it exactly once and records it in the context. |
| DylibLoading.EventsRepeatLoad | Main/Shared/MainApp.swift:159-163 | Because the callback never updates the context, two notifications on an unchanged directory whose selection differs from the context load the same path twice. |
| AutoloadApp.SetAutoloading | Main/Shared/MainApp.swift:14-29 | Afterwards autoloading is on iff it was requested and either already on or a directory is configured; setting the current value changes nothing; switching off stops the stream once; switching on runs the initial pass against the app's last-loaded path; the app's last-loaded path is untouched. |
| AutoloadApp.LoadDylib | Main/Shared/MainApp.swift:34-37 | Only while not autoloading: the app's last-loaded path becomes the directory's selection, or none (also overwriting a previous value) when there is no directory or no selection; the selection alone is loaded. |
| AutoloadApp.Deliver | Main/Shared/MainApp.swift:19-22 | A notification changes nothing without a watch; with one, a present selection becomes the app's last-loaded path (loaded only if it differs from the context's), and an absent one leaves the app's last-loaded path as it was. |
| AutoloadApp.ApplyKeepsConsistent | Main/Shared/MainApp.swift:14-37 | Every button press, toggle or notification only appends to the effect log and keeps the invariant: every last-loaded path the app or the running watch records was actually loaded, and the watch watches the configured directory. |
| AutoloadApp.RunKeepsConsistent | Main/Shared/MainApp.swift:14-37 | A whole session keeps that invariant and only extends the effect log. |
| AutoloadApp.LastLoadedWasLoaded | Main/Shared/MainApp.swift:11-37 | From launch, whatever happens, the app's last-loaded path, when present, was loaded at some point. |
| AutoloadApp.InactiveIgnoresNotifications | Main/Shared/MainApp.swift:14-15 | With no stopper held, any number of notifications leaves the app unchanged. |
| AutoloadApp.StopEndsLoading | Main/Shared/MainApp.swift:23-25 | Switching autoloading off appends one stream stop, and no notification pending afterwards loads anything. |
| AutoloadApp.SetAutoloadingIdempotent | Main/Shared/MainApp.swift:16-28 | Setting the toggle to the same value twice has the effect of setting it once. |
| Scenarios.UnknownFileKindIsSkipped | Main/Shared/MainApp.swift:74 | A dylib whose regular-file flag is absent is skipped even when it is the newest. |
| Scenarios.DeletedNewestFallsBack | Main/Shared/MainApp.swift:156-163 | With `a.so` (t=100) and `b.so` (t=200), enabling autoload loads `b.so`; after `b.so` is deleted a notification loads `a.so` and the app records it. |

## Left out

- Opening the dylib, looking up and calling `test`, and closing it (`dlopen`, `dlsym`,
  `dlclose`): native calls; a load is the effect `Loaded(path)`, and the process-terminating
  failures of those calls are not modelled (every load is assumed to succeed).
- Creating, scheduling, starting and stopping the FSEvents stream: operating-system plumbing;
  each delivered notification is an explicit `Notification` step, the stopper's call is the
  `StreamStopped` effect, and a stopped stream delivers nothing.
- Allocation of the shared `Info` and its release hook: manual memory management; the stopper
  only stops the stream, so the release hook is never reached.
- Reading the directory path from the bundle's info dictionary, and its failure on a value that
  is not a string: the configured directory is an `Option<Path>` parameter, constant over a run.
- `URL`, `UTType` and `FileManager`: an entry is its path and three optional resource values;
  content types are compared as strings, and modification dates are integers rather than
  floating-point `Date` values.
- Paths are compared as strings, where the code compares `URL` values.
- Concurrent runs of the "load now" closure and the event callback: the model is sequential.
- Diagnostic printing, and the view's layout.
