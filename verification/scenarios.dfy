/** Concrete sessions on a small directory `/d`, worked through the model. */
module Scenarios {
  import opened Wrappers
  import opened DylibSelection
  import opened DylibLoading
  import opened AutoloadApp

  const Dir: Path := "/d"

  function Dylib(path: Path, date: int): Entry
  {
    Readable(path, Some(true), Some(DylibContentType), Some(date))
  }

  /** A newer text file does not compete with an older dylib. */
  lemma TextFileIsIgnored()
    ensures SelectDylib(Listed([Dylib("/d/a.so", 100),
                                Readable("/d/b.txt", Some(true), Some("public.plain-text"), Some(200))]))
            == Some("/d/a.so")
  {
  }

  /** One unreadable item hides a valid dylib listed before it. */
  lemma UnreadableItemHidesDylib()
    ensures SelectDylib(Listed([Dylib("/d/a.so", 100), Unreadable("/d/b.so")])) == None
  {
  }

  /** A dylib whose regular-file flag could not be determined is skipped. */
  lemma UnknownFileKindIsSkipped()
    ensures SelectDylib(Listed([Readable("/d/a.so", None, Some(DylibContentType), Some(300)),
                                Dylib("/d/b.so", 100)])) == Some("/d/b.so")
  {
    var es := [Readable("/d/a.so", None, Some(DylibContentType), Some(300)), Dylib("/d/b.so", 100)];
    assert !Qualifies(es[0]) && Qualifies(es[1]);
    StrictlyNewestWins(es, 1);
  }

  /** Enabling autoload on `a.so` (t=100) and `b.so` (t=200) loads `b.so`; after `b.so` is
      deleted, the next notification re-selects `a.so` and loads it, and the app records it. */
  lemma DeletedNewestFallsBack()
    ensures
      var before := map[Dir := Listed([Dylib("/d/a.so", 100), Dylib("/d/b.so", 200)])];
      var after := map[Dir := Listed([Dylib("/d/a.so", 100)])];
      Run(Launched, Some(Dir), [Step(Toggle(true), before), Step(Notification, after)])
        == App(Some("/d/a.so"), Watching(WatchContext(Dir, Some("/d/b.so"))),
               [Loaded("/d/b.so"), Loaded("/d/a.so")])
  {
    var both := [Dylib("/d/a.so", 100), Dylib("/d/b.so", 200)];
    var before := map[Dir := Listed(both)];
    var after := map[Dir := Listed([Dylib("/d/a.so", 100)])];
    StrictlyNewestWins(both, 1);
    StrictlyNewestWins([Dylib("/d/a.so", 100)], 0);
    var started := Apply(Launched, Some(Dir), Step(Toggle(true), before));
    assert started == App(None, Watching(WatchContext(Dir, Some("/d/b.so"))), [Loaded("/d/b.so")]);
    var steps := [Step(Toggle(true), before), Step(Notification, after)];
    assert Run(Launched, Some(Dir), steps) == Run(started, Some(Dir), steps[1..]);
    assert Run(started, Some(Dir), steps[1..]) == Run(Deliver(started, after), Some(Dir), []);
  }
}
