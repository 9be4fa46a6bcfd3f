/** Choosing the dylib to load from a directory listing (`_selectDylib(in:)`).

    The listing is scanned once, front to back. Only regular files whose content type is
    `com.apple.mach-o-dylib` and whose modification date is known are candidates; a running
    best is kept and replaced only by a strictly newer candidate. Any thrown error (listing the
    directory, or reading one entry's resource values) turns the whole result into "none". */
module DylibSelection {
  import opened Wrappers

  type Path = string

  /** The uniform type identifier a candidate's content type must equal. */
  const DylibContentType: string := "com.apple.mach-o-dylib"

  /** One item of a directory listing. `Unreadable` is an item whose resource values could not
      be read (the `try lib.resourceValues(...)` throws); otherwise the three resource values
      as read, each of them possibly absent. Modification dates are whole numbers here. */
  datatype Entry =
    | Unreadable(path: Path)
    | Readable(path: Path, isRegularFile: Option<bool>, contentType: Option<string>, modified: Option<int>)

  /** The outcome of listing a directory: it throws, or yields the entries in listing order. */
  datatype Listing = Unlistable | Listed(entries: seq<Entry>)

  /** The guard of the scan: a regular file (an absent flag counts as false), of the dylib
      content type, with a modification date. */
  predicate Qualifies(e: Entry)
  {
    && e.Readable?
    && e.isRegularFile == Some(true)
    && e.contentType == Some(DylibContentType)
    && e.modified.Some?
  }

  function Date(e: Entry): int
    requires Qualifies(e)
  {
    e.modified.value
  }

  /** The running best of the scan: the date it won with and its path. */
  datatype Best = Best(date: int, path: Path)

  /** How a scan ends: an error was thrown, or it ran to the end holding a best (or none). */
  datatype Scan = Threw | Finished(best: Option<Best>)

  /** One iteration of the loop body on a readable entry. */
  function Consider(best: Option<Best>, e: Entry): Option<Best>
    requires e.Readable?
  {
    if !Qualifies(e) then best
    else if best.None? || Date(e) > best.value.date then Some(Best(Date(e), e.path))
    else best
  }

  /** The loop from entry `k` on, holding `best` for the entries before `k`. */
  function ScanFrom(es: seq<Entry>, k: nat, best: Option<Best>): Scan
    requires k <= |es|
    decreases |es| - k
  {
    if k == |es| then Finished(best)
    else if es[k].Unreadable? then Threw
    else ScanFrom(es, k + 1, Consider(best, es[k]))
  }

  /** `_selectDylib(in:)` on the listing of the directory. */
  function SelectDylib(listing: Listing): Option<Path>
  {
    match listing
    case Unlistable => None
    case Listed(es) =>
      match ScanFrom(es, 0, None)
      case Threw => None
      case Finished(best) => if best.Some? then Some(best.value.path) else None
  }

  // ---------------------------------------------------------------------------------------
  // Reference definition: the newest candidate, earliest listed among equally new ones.

  /** Entry `i` is the candidate among the first `n` entries with the greatest date, and no
      earlier candidate has that date. */
  ghost predicate NewestAmong(es: seq<Entry>, n: nat, i: int)
    requires n <= |es|
  {
    && 0 <= i < n
    && Qualifies(es[i])
    && (forall j :: 0 <= j < n && Qualifies(es[j]) ==> Date(es[j]) <= Date(es[i]))
    && (forall j :: 0 <= j < i && Qualifies(es[j]) ==> Date(es[j]) < Date(es[i]))
  }

  ghost predicate AllReadable(es: seq<Entry>)
  {
    forall j :: 0 <= j < |es| ==> es[j].Readable?
  }

  ghost predicate NoCandidate(es: seq<Entry>)
  {
    forall j :: 0 <= j < |es| ==> !Qualifies(es[j])
  }

  /** `p` is the dylib the directory offers: the listing succeeded, every entry was readable,
      and `p` is the path of the newest candidate. */
  ghost predicate IsSelection(listing: Listing, p: Path)
  {
    && listing.Listed?
    && AllReadable(listing.entries)
    && exists i :: NewestAmong(listing.entries, |listing.entries|, i) && listing.entries[i].path == p
  }

  /** What the running best means after the first `n` entries. */
  ghost predicate Summarises(es: seq<Entry>, n: nat, best: Option<Best>)
    requires n <= |es|
  {
    && (best.None? <==> forall j :: 0 <= j < n ==> !Qualifies(es[j]))
    && (best.Some? ==> exists i :: NewestAmong(es, n, i) && best.value == Best(Date(es[i]), es[i].path))
  }

  /** At most one entry is the newest one. */
  lemma NewestIsUnique(es: seq<Entry>, n: nat, i: int, i': int)
    requires n <= |es|
    requires NewestAmong(es, n, i) && NewestAmong(es, n, i')
    ensures i == i'
  {
  }

  /** One loop iteration keeps the running best faithful to the entries seen so far. */
  lemma ConsiderKeepsSummary(es: seq<Entry>, n: nat, best: Option<Best>)
    requires n < |es| && es[n].Readable?
    requires Summarises(es, n, best)
    ensures Summarises(es, n + 1, Consider(best, es[n]))
  {
  }

  /** The scan from `k` throws exactly when an unreadable entry lies ahead, and otherwise ends
      with a best that summarises the whole listing. */
  lemma {:induction false} ScanFromSummarises(es: seq<Entry>, k: nat, best: Option<Best>)
    requires k <= |es|
    requires Summarises(es, k, best)
    ensures ScanFrom(es, k, best).Threw? <==> exists j :: k <= j < |es| && es[j].Unreadable?
    ensures ScanFrom(es, k, best).Finished? ==> Summarises(es, |es|, ScanFrom(es, k, best).best)
    decreases |es| - k
  {
    if k < |es| && es[k].Readable? {
      ConsiderKeepsSummary(es, k, best);
      ScanFromSummarises(es, k + 1, Consider(best, es[k]));
      if ScanFrom(es, k, best).Threw? {
        var j :| k + 1 <= j < |es| && es[j].Unreadable?;
      }
    }
  }

  /** The selection is exactly the reference definition: `_selectDylib` yields `p` iff the
      listing succeeded, every entry was readable and `p` is the newest candidate's path
      (the earliest listed one among candidates of equal date). */
  lemma SelectDylibIsNewest(listing: Listing, p: Path)
    ensures SelectDylib(listing) == Some(p) <==> IsSelection(listing, p)
  {
    if listing.Listed? {
      var es := listing.entries;
      ScanFromSummarises(es, 0, None);
      var s := ScanFrom(es, 0, None);
      if s.Threw? {
        var j :| 0 <= j < |es| && es[j].Unreadable?;
        assert !AllReadable(es);
      } else if IsSelection(listing, p) {
        var i :| NewestAmong(es, |es|, i) && es[i].path == p;
        assert s.best.Some?;
        var i' :| NewestAmong(es, |es|, i') && s.best.value == Best(Date(es[i']), es[i'].path);
        NewestIsUnique(es, |es|, i, i');
      }
    }
  }

  /** `IsSelection` as a quantified fact, for use in the contracts of callers. */
  lemma SelectDylibIsNewestAll(listing: Listing)
    ensures forall p :: SelectDylib(listing) == Some(p) <==> IsSelection(listing, p)
  {
    forall p ensures SelectDylib(listing) == Some(p) <==> IsSelection(listing, p) {
      SelectDylibIsNewest(listing, p);
    }
  }

  /** A selected path always belongs to a regular, dylib-typed, dated entry of the listing. */
  lemma SelectionQualifies(listing: Listing, p: Path)
    requires SelectDylib(listing) == Some(p)
    ensures listing.Listed?
    ensures exists i :: 0 <= i < |listing.entries| && Qualifies(listing.entries[i]) && listing.entries[i].path == p
  {
    SelectDylibIsNewest(listing, p);
  }

  /** No selection exactly when the listing throws, some entry is unreadable (the error is
      not skipped: it aborts the scan), or no entry is a candidate (an empty directory too). */
  lemma SelectDylibNone(listing: Listing)
    ensures SelectDylib(listing).None? <==>
      (listing.Unlistable? || !AllReadable(listing.entries) || NoCandidate(listing.entries))
  {
    if listing.Listed? {
      var es := listing.entries;
      ScanFromSummarises(es, 0, None);
      if ScanFrom(es, 0, None).Threw? {
        var j :| 0 <= j < |es| && es[j].Unreadable?;
      }
    }
  }

  /** A readable listing whose entry `i` is strictly newer than every other candidate selects
      entry `i`, wherever in the listing it stands. */
  lemma StrictlyNewestWins(es: seq<Entry>, i: int)
    requires AllReadable(es)
    requires 0 <= i < |es| && Qualifies(es[i])
    requires forall j :: 0 <= j < |es| && j != i && Qualifies(es[j]) ==> Date(es[j]) < Date(es[i])
    ensures SelectDylib(Listed(es)) == Some(es[i].path)
  {
    assert NewestAmong(es, |es|, i);
    SelectDylibIsNewest(Listed(es), es[i].path);
  }

  /** Among candidates with the same, greatest date the first listed is selected: the later one
      never replaces it, since replacement needs a strictly newer date. */
  lemma TieKeepsFirstListed(es: seq<Entry>, i: int, k: int)
    requires AllReadable(es)
    requires 0 <= i < k < |es| && Qualifies(es[i]) && Qualifies(es[k]) && Date(es[i]) == Date(es[k])
    requires forall j :: 0 <= j < |es| && Qualifies(es[j]) ==> Date(es[j]) <= Date(es[i])
    requires forall j :: 0 <= j < i && Qualifies(es[j]) ==> Date(es[j]) < Date(es[i])
    ensures SelectDylib(Listed(es)) == Some(es[i].path)
  {
    assert NewestAmong(es, |es|, i);
    SelectDylibIsNewest(Listed(es), es[i].path);
  }
}
