/**
 * The retention rule of `cleanup_old_backups`: which archives of a user's listing are deleted.
 * Archives are ordered by a key parsed from their names (`extract_timestamp`) with a stable
 * ascending sort, and all but the newest `KEEP_BACKUPS` are deleted once there are at least
 * `MAX_BACKUPS` of them.
 */
module Retention {
  import opened Wrappers
  import opened Text
  import opened ObjectStore
  import opened Naming
  import opened StableSort

  /** Cleanup starts when a user has this many archives or more. */
  const MAX_BACKUPS: nat := 3

  /** Number of archives left after a cleanup. */
  const KEEP_BACKUPS: nat := 2

  /** `name.rsplit(".db.enc", 1)[0]`: the name cut at the last occurrence of the archive suffix. */
  function ArchiveBase(name: string): string {
    match LastIndexOf(name, ARCHIVE_SUFFIX)
    case Some(i) => name[..i]
    case None => name
  }

  /** `extract_timestamp`: the sort key of a backup name. */
  function ExtractTimestamp(name: string): string {
    var base := ArchiveBase(name);
    match LastIndexOf(base, "-")
    case Some(j) => if |base| - (j + 1) == 8 then base[..j] else base
    case None => base
  }

  /**
   * `extract_timestamp` is total and cuts, never adds: it keeps the name up to the last
   * occurrence of the archive suffix (the whole name when there is none), then drops the final
   * `-`-separated segment when that segment has exactly eight characters, and only then.
   */
  lemma ExtractTimestampShape(name: string)
    ensures ArchiveBase(name) <= name
    ensures Contains(name, ARCHIVE_SUFFIX) ==>
              OccursAt(name, ARCHIVE_SUFFIX, |ArchiveBase(name)|)
              && forall j :: |ArchiveBase(name)| < j <= |name| ==> !OccursAt(name, ARCHIVE_SUFFIX, j)
    ensures !Contains(name, ARCHIVE_SUFFIX) ==> ArchiveBase(name) == name
    ensures ExtractTimestamp(name) <= ArchiveBase(name)
    ensures ExtractTimestamp(name) == ArchiveBase(name)
            || (&& |ArchiveBase(name)| == |ExtractTimestamp(name)| + 9
                && ArchiveBase(name)[|ExtractTimestamp(name)|] == '-'
                && '-' !in ArchiveBase(name)[|ExtractTimestamp(name)| + 1..])
    ensures var base := ArchiveBase(name);
            |base| >= 9 && base[|base| - 9] == '-' && '-' !in base[|base| - 8..] ==>
              ExtractTimestamp(name) == base[..|base| - 9]
  {
    var base := ArchiveBase(name);
    if |base| >= 9 && base[|base| - 9] == '-' && '-' !in base[|base| - 8..] {
      var p := |base| - 9;
      OccursAtChar(base, '-', p);
      var j := LastIndexOf(base, "-").value;
      OccursAtChar(base, '-', j);
    }
    match LastIndexOf(base, "-")
    case Some(j) =>
      if |base| - (j + 1) == 8 {
        OccursAtChar(base, '-', j);
        forall m | j + 1 <= m < |base| ensures base[m] != '-' {
          OccursAtChar(base, '-', m);
        }
        assert '-' !in base[j + 1..];
      }
    case None =>
  }

  /**
   * The names `cleanup_old_backups` deletes from a user's archives, oldest first: none below
   * the threshold; otherwise all but the newest `KEEP_BACKUPS`, with no deleted key above a
   * kept key and, among names with equal keys, those earliest in the listing.
   */
  function SelectForDeletion(backups: seq<string>): (doomed: seq<string>)
    ensures |backups| < MAX_BACKUPS ==> doomed == []
    ensures |backups| >= MAX_BACKUPS ==> |doomed| == |backups| - KEEP_BACKUPS
    ensures multiset(doomed) <= multiset(backups)
  {
    if |backups| < MAX_BACKUPS then []
    else
      var sorted := SortBy(backups, ExtractTimestamp);
      var cut := |sorted| - KEEP_BACKUPS;
      SortedPrefix(backups, sorted, cut, ExtractTimestamp);
      sorted[..cut]
  }

  /** The selection is oldest first: sorted ascending by `extract_timestamp`. */
  lemma {:induction false} SelectionIsOldestFirst(backups: seq<string>)
    ensures SortedBy(SelectForDeletion(backups), ExtractTimestamp)
  {
    if |backups| >= MAX_BACKUPS {
      SortLength(backups, ExtractTimestamp);
      SortFront(backups, ExtractTimestamp, |backups| - KEEP_BACKUPS);
    }
  }

  /** No selected archive is newer than an archive left in place. */
  lemma {:induction false} SelectionIsNoNewerThanKept(backups: seq<string>, x: string, y: string)
    requires x in SelectForDeletion(backups)
    requires y in multiset(backups) - multiset(SelectForDeletion(backups))
    ensures LexLe(ExtractTimestamp(x), ExtractTimestamp(y))
  {
    var cut := |backups| - KEEP_BACKUPS;
    SortLength(backups, ExtractTimestamp);
    assert SelectForDeletion(backups) == SortBy(backups, ExtractTimestamp)[..cut];
    FrontNoLaterThanRest(backups, ExtractTimestamp, cut, x, y);
  }

  /** Among archives with the same key, those listed first are selected first: for every key,
      the selected names with that key are a prefix of the listing's names with that key. */
  lemma {:induction false} SelectionKeepsListingOrder(backups: seq<string>)
    ensures forall k :: WithKey(SelectForDeletion(backups), ExtractTimestamp, k) <= WithKey(backups, ExtractTimestamp, k)
  {
    if |backups| >= MAX_BACKUPS {
      SortLength(backups, ExtractTimestamp);
      SortFront(backups, ExtractTimestamp, |backups| - KEEP_BACKUPS);
    }
  }

  /** `[f for f in files if f.get("name", "").endswith(".db.enc")]` for a listing whose names
      are all strings: the archive names, in listing order. */
  function ArchiveNames(entries: seq<Entry>): (names: seq<string>)
    ensures |names| <= |entries|
    ensures forall n :: n in names <==> Named(n) in entries && EndsWith(n, ARCHIVE_SUFFIX)
    decreases |entries|
  {
    if |entries| == 0 then []
    else
      assert entries == [entries[0]] + entries[1..];
      var head := match entries[0]
        case Named(n) => if EndsWith(n, ARCHIVE_SUFFIX) then [n] else []
        case _ => [];
      head + ArchiveNames(entries[1..])
  }

  /** The archive names of a single entry: its name when it is a string ending with the
      archive suffix, nothing otherwise; an empty listing has none. */
  lemma ArchiveNamesOfOne(e: Entry)
    ensures ArchiveNames([]) == []
    ensures ArchiveNames([e]) == if e.Named? && EndsWith(e.name, ARCHIVE_SUFFIX) then [e.name] else []
  {
    assert [e][1..] == [];
  }

  /** Filtering a listing part by part gives the same names, in the same order and with the
      same repetitions, as filtering it whole. */
  lemma {:induction false} ArchiveNamesAppend(a: seq<Entry>, b: seq<Entry>)
    ensures ArchiveNames(a + b) == ArchiveNames(a) + ArchiveNames(b)
    decreases |a|
  {
    if |a| == 0 {
      assert a + b == b;
    } else {
      var ab := a + b;
      assert ab[0] == a[0] && ab[1..] == a[1..] + b;
      ArchiveNamesOfOne(a[0]);
      ArchiveNamesAppend(a[1..], b);
      calc {
        ArchiveNames(ab);
        ArchiveNames([a[0]]) + ArchiveNames(a[1..] + b);
        ArchiveNames([a[0]]) + (ArchiveNames(a[1..]) + ArchiveNames(b));
        (ArchiveNames([a[0]]) + ArchiveNames(a[1..])) + ArchiveNames(b);
        ArchiveNames(a) + ArchiveNames(b);
      }
    }
  }

  /** The full object paths of names in the user's folder. */
  function DeletionPaths(userId: string, names: seq<string>): (paths: seq<string>)
    ensures |paths| == |names|
    ensures forall i :: 0 <= i < |names| ==> paths[i] == userId + "/" + names[i]
  {
    seq(|names|, i requires 0 <= i < |names| => userId + "/" + names[i])
  }

  /** The sort key of a freshly named archive is the clock reading it was named with:
      cutting the suffix and the eight-character random part gives back the timestamp. */
  lemma ArchiveKeyRoundTrip(timestamp: string, hex: string)
    requires IsRandomHex(hex)
    ensures ExtractTimestamp(timestamp + "-" + hex + ARCHIVE_SUFFIX) == timestamp
  {
    var base := timestamp + "-" + hex;
    var name := base + ARCHIVE_SUFFIX;
    assert OccursAt(name, ARCHIVE_SUFFIX, |base|);
    assert ArchiveBase(name) == base;
    OccursAtChar(base, '-', |timestamp|);
    forall j | |timestamp| < j <= |base| ensures !OccursAt(base, "-", j) {
      OccursAtChar(base, '-', j);
      if j < |base| { assert base[j] == hex[j - |timestamp| - 1]; }
    }
    assert LastIndexOf(base, "-") == Some(|timestamp|);
  }

  /** So a backup uploaded as an archive is ordered by the time it was named. */
  lemma NewArchiveSortsByClock(filename: string, timestamp: string, hex: string)
    requires IsRandomHex(hex) && EndsWith(Sanitize(filename), ARCHIVE_SUFFIX)
    ensures EndsWith(BackupName(filename, timestamp, hex), ARCHIVE_SUFFIX)
    ensures ExtractTimestamp(BackupName(filename, timestamp, hex)) == timestamp
  {
    ArchiveNameIffArchiveUpload(filename, timestamp, hex);
    ArchiveKeyRoundTrip(timestamp, hex);
  }

  /** The selection does not depend on how the stable sort is carried out: the oldest names
      of ANY stable ascending sort of the archives are the ones selected. */
  lemma {:induction false} SelectionMatchesAnyStableSort(backups: seq<string>, t: seq<string>)
    requires |backups| >= MAX_BACKUPS
    requires SortedBy(t, ExtractTimestamp)
    requires forall k :: WithKey(t, ExtractTimestamp, k) == WithKey(backups, ExtractTimestamp, k)
    ensures |t| == |backups|
    ensures SelectForDeletion(backups) == t[..|t| - KEEP_BACKUPS]
  {
    StableSortIsUnique(backups, t, ExtractTimestamp);
    SortLength(backups, ExtractTimestamp);
  }

  /** After a cleanup the user holds exactly `KEEP_BACKUPS` archives (or the fewer they had),
      so running the selection again on what is left deletes nothing. */
  lemma {:induction false} SecondCleanupDeletesNothing(backups: seq<string>, remaining: seq<string>)
    requires multiset(remaining) == multiset(backups) - multiset(SelectForDeletion(backups))
    ensures |remaining| == if |backups| < MAX_BACKUPS then |backups| else KEEP_BACKUPS
    ensures SelectForDeletion(remaining) == []
  {
    var doomed := SelectForDeletion(backups);
    assert multiset(backups) == multiset(remaining) + multiset(doomed);
    assert |multiset(backups)| == |multiset(remaining)| + |multiset(doomed)|;
  }

  /** Three archives named at distinct clock readings, the first strictly earliest: exactly
      that oldest one is selected, whatever the order of the listing. */
  lemma {:induction false} OldestOfThreeIsSelected(t1: string, t2: string, t3: string, h1: string, h2: string, h3: string, listing: seq<string>)
    requires IsRandomHex(h1) && IsRandomHex(h2) && IsRandomHex(h3)
    requires LexLe(t1, t2) && t1 != t2 && LexLe(t1, t3) && t1 != t3
    requires multiset(listing) ==
               multiset{t1 + "-" + h1 + ARCHIVE_SUFFIX, t2 + "-" + h2 + ARCHIVE_SUFFIX, t3 + "-" + h3 + ARCHIVE_SUFFIX}
    ensures SelectForDeletion(listing) == [t1 + "-" + h1 + ARCHIVE_SUFFIX]
  {
    var n1, n2, n3 := t1 + "-" + h1 + ARCHIVE_SUFFIX, t2 + "-" + h2 + ARCHIVE_SUFFIX, t3 + "-" + h3 + ARCHIVE_SUFFIX;
    ArchiveKeyRoundTrip(t1, h1);
    ArchiveKeyRoundTrip(t2, h2);
    ArchiveKeyRoundTrip(t3, h3);
    StrictMinimumOfThree(listing, n2, n1, n3, ExtractTimestamp);
  }
}
