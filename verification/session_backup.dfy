/** The backup rotation of `SessionHistoryService.PerformBackupIfDue`: a copy
    of the history file is taken when fourteen days have passed since the
    time recorded in a marker file, and then all but the four newest
    backups are deleted.

    Files are abstracted: the history file to whether it exists, the marker
    to what reading and parsing it yields, a backup to the UTC day its name
    carries and the creation time the file system reports for it. Failures
    of the file operations are inputs. */
module SessionBackup {

  import opened Wrappers
  import opened Clock
  import opened FileWrite

  const BackupInterval: int := 14 * SecondsPerDay
  const MaxBackupsToKeep: nat := 4

  /** The trimmed text of the marker file. */
  datatype MarkerText =
    | BlankText           // empty after trimming
    | Unparseable         // not a date and time
    | Stamp(at: Instant)  // parsed

  /** The marker file `session_backup_last.txt`. */
  datatype Marker =
    | NoMarker
    | MarkerUnreadable    // reading the file throws
    | MarkerFile(text: MarkerText)

  /** The time of the last backup as the marker gives it: `None` when reading
      the marker throws, `DateTime.MinValue` when it is missing, blank or not
      a date. */
  function LastBackup(m: Marker): (r: Option<Instant>)
    ensures r.None? <==> m == MarkerUnreadable
    ensures m.MarkerFile? && m.text.Stamp? ==> r == Some(m.text.at)
    ensures m == NoMarker || (m.MarkerFile? && !m.text.Stamp?) ==> r == Some(MinSecond)
  {
    match m
    case NoMarker => Some(MinSecond)
    case MarkerUnreadable => None
    case MarkerFile(text) => if text.Stamp? then Some(text.at) else Some(MinSecond)
  }

  datatype Decision =
    | NoPrimary           // there is no history file to back up
    | MarkerReadFailed    // reading the marker threw; the whole backup is abandoned
    | NotDue(last: Instant)
    | Due(last: Instant)

  /** Whether a backup is due at `now`. */
  function Decide(primaryExists: bool, marker: Marker, now: Instant): (d: Decision)
    ensures !primaryExists <==> d == NoPrimary
    ensures primaryExists && marker == MarkerUnreadable <==> d == MarkerReadFailed
    ensures d.Due? || d.NotDue? ==> Some(d.last) == LastBackup(marker)
    ensures d.Due? ==> now - d.last >= BackupInterval
    ensures d.NotDue? ==> now - d.last < BackupInterval
  {
    if !primaryExists then NoPrimary
    else match LastBackup(marker)
      case None => MarkerReadFailed
      case Some(last) => if now - last < BackupInterval then NotDue(last) else Due(last)
  }

  /** With a missing, blank or unparseable marker the last backup counts as
      `DateTime.MinValue`, so a backup is due at any time from fourteen days
      after it. */
  lemma NoValidMarkerMeansDue(marker: Marker, now: Instant)
    requires marker == NoMarker || marker == MarkerFile(BlankText) || marker == MarkerFile(Unparseable)
    requires now >= BackupInterval
    ensures Decide(true, marker, now) == Due(MinSecond)
  {
  }

  /** A backup stamped less than fourteen days before `now` is not redone. */
  lemma RecentMarkerMeansNotDue(at: Instant, now: Instant)
    requires now - at < BackupInterval
    ensures Decide(true, MarkerFile(Stamp(at)), now).NotDue?
  {
  }

  /** A backup file, `session_history_<yyyyMMdd>.json`: the UTC day in its
      name and its creation time. */
  datatype BackupFile = BackupFile(day: int, created: Instant)

  /** The UTC day number of an instant, standing for its `yyyyMMdd` text. */
  function Day(t: Instant): int {
    t / SecondsPerDay
  }

  /** No file in `fs` was created after an earlier one. */
  predicate NewestFirst(fs: seq<BackupFile>) {
    forall i, j :: 0 <= i < j < |fs| ==> fs[i].created >= fs[j].created
  }

  /** Inserts `f` before the first file that is not newer than it. */
  function Insert(f: BackupFile, fs: seq<BackupFile>): seq<BackupFile> {
    if fs == [] then [f]
    else if fs[0].created <= f.created then [f] + fs
    else [fs[0]] + Insert(f, fs[1..])
  }

  /** `OrderByDescending(f => creation time)`: a stable sort, newest first. */
  function SortNewestFirst(fs: seq<BackupFile>): seq<BackupFile> {
    if fs == [] then [] else Insert(fs[0], SortNewestFirst(fs[1..]))
  }

  lemma {:induction false} InsertPermutes(f: BackupFile, fs: seq<BackupFile>)
    ensures multiset(Insert(f, fs)) == multiset(fs) + multiset{f}
  {
    if fs != [] && fs[0].created > f.created {
      InsertPermutes(f, fs[1..]);
      assert fs == [fs[0]] + fs[1..];
    }
  }

  lemma {:induction false} InsertKeepsNewestFirst(f: BackupFile, fs: seq<BackupFile>)
    requires NewestFirst(fs)
    ensures NewestFirst(Insert(f, fs))
  {
    if fs == [] {
    } else if fs[0].created <= f.created {
      ConsNewestFirst(f, fs);
    } else {
      var rest := Insert(f, fs[1..]);
      InsertKeepsNewestFirst(f, fs[1..]);
      InsertPermutes(f, fs[1..]);
      HeadBoundsInsert(f, fs, rest);
      ConsNewestFirst(fs[0], rest);
    }
  }

  /** Every file of `rest`, which holds the tail of `fs` and a file older than
      the head of `fs`, is no newer than that head. */
  lemma HeadBoundsInsert(f: BackupFile, fs: seq<BackupFile>, rest: seq<BackupFile>)
    requires NewestFirst(fs) && fs != [] && f.created < fs[0].created
    requires multiset(rest) == multiset(fs[1..]) + multiset{f}
    ensures forall y :: y in rest ==> y.created <= fs[0].created
  {
    forall y | y in rest
      ensures y.created <= fs[0].created
    {
      assert y in multiset(rest);
      if y != f {
        assert y in multiset(fs[1..]);
        var k :| 0 <= k < |fs[1..]| && fs[1..][k] == y;
        assert fs[k + 1] == y;
      }
    }
  }

  /** A newest-first list stays newest first behind a file no older than
      any of its files. */
  lemma ConsNewestFirst(x: BackupFile, rest: seq<BackupFile>)
    requires NewestFirst(rest)
    requires forall y :: y in rest ==> y.created <= x.created
    ensures NewestFirst([x] + rest)
  {
    var r := [x] + rest;
    forall i, j | 0 <= i < j < |r|
      ensures r[i].created >= r[j].created
    {
      assert r[j] == rest[j - 1];
      if i > 0 {
        assert r[i] == rest[i - 1];
      } else {
        assert rest[j - 1] in rest;
      }
    }
  }

  /** A file older than every file of the list goes to its end. */
  lemma {:induction false} InsertOldest(f: BackupFile, fs: seq<BackupFile>)
    requires forall k :: 0 <= k < |fs| ==> f.created < fs[k].created
    ensures Insert(f, fs) == fs + [f]
  {
    if fs != [] {
      InsertOldest(f, fs[1..]);
      assert fs == [fs[0]] + fs[1..];
    }
  }

  /** Sorting rearranges the listing, newest first. */
  lemma {:induction false} SortIsNewestFirstPermutation(fs: seq<BackupFile>)
    ensures multiset(SortNewestFirst(fs)) == multiset(fs)
    ensures NewestFirst(SortNewestFirst(fs))
  {
    if fs != [] {
      SortIsNewestFirstPermutation(fs[1..]);
      InsertPermutes(fs[0], SortNewestFirst(fs[1..]));
      InsertKeepsNewestFirst(fs[0], SortNewestFirst(fs[1..]));
      assert fs == [fs[0]] + fs[1..];
    }
  }

  /** The files kept and the files deleted: every file past index
      `MaxBackupsToKeep` of the newest-first listing is deleted. */
  function Prune(listing: seq<BackupFile>): (seq<BackupFile>, seq<BackupFile>) {
    var sorted := SortNewestFirst(listing);
    var n := if |sorted| <= MaxBackupsToKeep then |sorted| else MaxBackupsToKeep;
    (sorted[..n], sorted[n..])
  }

  /** `Prune` splits the listing into the four newest files (all of them when
      there are no more than four), newest first, and the rest, every one of
      which is no newer than any kept file. */
  lemma PruneKeepsNewest(listing: seq<BackupFile>)
    ensures var (kept, doomed) := Prune(listing);
      && multiset(kept) + multiset(doomed) == multiset(listing)
      && |kept| == (if |listing| <= MaxBackupsToKeep then |listing| else MaxBackupsToKeep)
      && NewestFirst(kept)
      && (forall i, j :: 0 <= i < |kept| && 0 <= j < |doomed| ==> kept[i].created >= doomed[j].created)
  {
    var sorted := SortNewestFirst(listing);
    SortIsNewestFirstPermutation(listing);
    assert |sorted| == |multiset(sorted)| == |multiset(listing)| == |listing|;
    var n := if |sorted| <= MaxBackupsToKeep then |sorted| else MaxBackupsToKeep;
    assert sorted == sorted[..n] + sorted[n..];
    assert forall i, j :: 0 <= i < n <= j < |sorted| ==> sorted[i].created >= sorted[j].created;
  }

  /** The files of `fs` not named for `day`. */
  function Without(fs: seq<BackupFile>, day: int): seq<BackupFile> {
    if fs == [] then []
    else if fs[0].day == day then Without(fs[1..], day)
    else [fs[0]] + Without(fs[1..], day)
  }

  /** `Without` drops every copy of a file named for `day` and keeps every
      copy of the others. */
  lemma {:induction false} WithoutCounts(fs: seq<BackupFile>, day: int)
    ensures forall f :: multiset(Without(fs, day))[f] == if f.day == day then 0 else multiset(fs)[f]
  {
    if fs != [] {
      WithoutCounts(fs[1..], day);
      assert fs == [fs[0]] + fs[1..];
    }
  }

  lemma {:induction false} WithoutFilters(fs: seq<BackupFile>, day: int)
    ensures forall f :: f in Without(fs, day) <==> f in fs && f.day != day
  {
    if fs != [] {
      WithoutFilters(fs[1..], day);
      assert fs == [fs[0]] + fs[1..];
    }
  }

  /** The listing after `File.Copy(..., overwrite: true)` to today's name:
      an existing backup of the same day is replaced. */
  function WithCopy(fs: seq<BackupFile>, day: int, created: Instant): (r: seq<BackupFile>)
    ensures BackupFile(day, created) in r
    ensures forall f :: f in r && f.day != day <==> f in fs && f.day != day
    ensures forall f :: f in r && f.day == day ==> f == BackupFile(day, created)
    ensures forall f :: multiset(r)[f] == if f.day == day then (if f == BackupFile(day, created) then 1 else 0) else multiset(fs)[f]
  {
    WithoutFilters(fs, day);
    WithoutCounts(fs, day);
    Without(fs, day) + [BackupFile(day, created)]
  }

  /** The doomed files whose deletion failed; those failures are ignored. */
  function Undeleted(doomed: seq<BackupFile>, undeletable: set<int>): seq<BackupFile> {
    if doomed == [] then []
    else if doomed[0].day in undeletable then [doomed[0]] + Undeleted(doomed[1..], undeletable)
    else Undeleted(doomed[1..], undeletable)
  }

  /** When every deletion succeeds, no doomed file remains. */
  lemma UndeletedNone(doomed: seq<BackupFile>)
    ensures Undeleted(doomed, {}) == []
  {
  }

  /** What the file system holds that the rotation reads and writes. */
  datatype BackupState = BackupState(primaryExists: bool, marker: Marker, backups: seq<BackupFile>)

  /** How the file operations of one rotation turn out: whether the copy
      succeeds, how the marker write ends (an interrupted one leaves marker
      text that reads as `remnant`), whether the listing of the backup folder
      succeeds, the creation time the file system gives the copy, and the
      days whose backups cannot be deleted. */
  datatype BackupIo = BackupIo(
    copyOk: bool,
    copyCreated: Instant,
    markerWrite: Write<MarkerText>,
    listOk: bool,
    undeletable: set<int>)

  datatype Outcome =
    | Skipped     // no history file
    | NotDueYet
    | Failed      // an exception abandoned the rotation part-way
    | Created

  /** `PerformBackupIfDue()` at time `now`. When a backup is due, today's copy
      is made, the marker is stamped and the listing is pruned; an exception
      at any step abandons the rest, keeping what earlier steps did. */
  function PerformBackupIfDue(st: BackupState, now: Instant, io: BackupIo): (r: (BackupState, Outcome))
    ensures !Decide(st.primaryExists, st.marker, now).Due? ==> r.0 == st
    ensures r.1 == Created <==> Decide(st.primaryExists, st.marker, now).Due? && io.copyOk && io.markerWrite == Written && io.listOk
    // an exception abandons the remaining steps and keeps what earlier steps did
    ensures Decide(st.primaryExists, st.marker, now).Due? && !io.copyOk ==> r == (st, Failed)
    ensures Decide(st.primaryExists, st.marker, now).Due? && io.copyOk && io.markerWrite == NotOpened ==>
      r == (st.(backups := WithCopy(st.backups, Day(now), io.copyCreated)), Failed)
    ensures Decide(st.primaryExists, st.marker, now).Due? && io.copyOk && io.markerWrite == Written && !io.listOk ==>
      r == (BackupState(true, MarkerFile(Stamp(now)), WithCopy(st.backups, Day(now), io.copyCreated)), Failed)
    ensures Decide(st.primaryExists, st.marker, now).Due? && io.copyOk && io.markerWrite.CutShort? ==>
      r == (BackupState(true, MarkerFile(io.markerWrite.remnant), WithCopy(st.backups, Day(now), io.copyCreated)), Failed)
    ensures r.1 == Created ==>
      && r.0.primaryExists
      && r.0.marker == MarkerFile(Stamp(now))
      && var listing := WithCopy(st.backups, Day(now), io.copyCreated);
      && var (kept, doomed) := Prune(listing);
      && r.0.backups == kept + Undeleted(doomed, io.undeletable)
  {
    match Decide(st.primaryExists, st.marker, now)
    case NoPrimary => (st, Skipped)
    case MarkerReadFailed => (st, Failed)
    case NotDue(_) => (st, NotDueYet)
    case Due(_) =>
      if !io.copyOk then (st, Failed)
      else
        var listing := WithCopy(st.backups, Day(now), io.copyCreated);
        match io.markerWrite
        case NotOpened => (st.(backups := listing), Failed)
        case CutShort(remnant) => (BackupState(true, MarkerFile(remnant), listing), Failed)
        case Written =>
          if !io.listOk then (BackupState(true, MarkerFile(Stamp(now)), listing), Failed)
          else
            var (kept, doomed) := Prune(listing);
            (BackupState(true, MarkerFile(Stamp(now)), kept + Undeleted(doomed, io.undeletable)), Created)
  }

  /** A marker write interrupted after truncation, leaving text that is
      blank or not a date, does not record the backup: the copy is in place,
      yet every later run is due again and repeats it. */
  lemma InterruptedMarkerWriteRepeatsBackup(st: BackupState, now: Instant, io: BackupIo, later: Instant)
    requires Decide(st.primaryExists, st.marker, now).Due? && io.copyOk
    requires io.markerWrite == CutShort(BlankText) || io.markerWrite == CutShort(Unparseable)
    requires later >= BackupInterval
    ensures var (st', outcome) := PerformBackupIfDue(st, now, io);
      && outcome == Failed
      && BackupFile(Day(now), io.copyCreated) in st'.backups
      && Decide(st'.primaryExists, st'.marker, later) == Due(MinSecond)
  {
  }

  /** A file of the listing that `Prune` does not keep is no newer than any
      file it keeps. */
  lemma PrunedAreOlder(listing: seq<BackupFile>)
    ensures var kept := Prune(listing).0;
      forall f, g :: f in kept && g in listing && g !in kept ==> f.created >= g.created
  {
    var (kept, doomed) := Prune(listing);
    PruneKeepsNewest(listing);
    forall f, g | f in kept && g in listing && g !in kept
      ensures f.created >= g.created
    {
      assert g in multiset(listing);
      assert g in multiset(doomed);
      var i :| 0 <= i < |kept| && kept[i] == f;
      var j :| 0 <= j < |doomed| && doomed[j] == g;
    }
  }

  /** After a rotation that created a backup, at most four backups remain
      when deletions succeed, and none of them is older than a deleted one. */
  lemma RotationKeepsNewestFour(st: BackupState, now: Instant, io: BackupIo)
    requires io.undeletable == {}
    requires PerformBackupIfDue(st, now, io).1 == Created
    ensures var listing := WithCopy(st.backups, Day(now), io.copyCreated);
      var remaining := PerformBackupIfDue(st, now, io).0.backups;
      && |remaining| == (if |listing| <= MaxBackupsToKeep then |listing| else MaxBackupsToKeep)
      && multiset(remaining) <= multiset(listing)
      && forall f, g :: f in remaining && g in listing && g !in remaining ==> f.created >= g.created
  {
    var listing := WithCopy(st.backups, Day(now), io.copyCreated);
    var (kept, doomed) := Prune(listing);
    UndeletedNone(doomed);
    assert kept + [] == kept;
    assert PerformBackupIfDue(st, now, io).0.backups == kept;
    PruneKeepsNewest(listing);
    PrunedAreOlder(listing);
  }

  /** Right after a backup is created, running the rotation again within
      fourteen days does nothing. */
  lemma SecondRunIsNotDue(st: BackupState, now: Instant, io: BackupIo, later: Instant, io2: BackupIo)
    requires PerformBackupIfDue(st, now, io).1 == Created
    requires now <= later < now + BackupInterval
    ensures var st' := PerformBackupIfDue(st, now, io).0;
      PerformBackupIfDue(st', later, io2) == (st', NotDueYet)
  {
  }

  /** Example: with six older backups and a marker twenty days old, one run
      copies today's backup and leaves it and the three newest older ones. */
  lemma RotationExample()
    ensures var older := [BackupFile(1, 86400), BackupFile(2, 172800), BackupFile(3, 259200),
                          BackupFile(4, 345600), BackupFile(5, 432000), BackupFile(6, 518400)];
      var st := BackupState(true, MarkerFile(Stamp(864000)), older);
      var r := PerformBackupIfDue(st, 2592000, BackupIo(true, 2592000, Written, true, {}));
      && r.1 == Created
      && r.0.marker == MarkerFile(Stamp(2592000))
      && r.0.backups == [BackupFile(30, 2592000), BackupFile(6, 518400), BackupFile(5, 432000), BackupFile(4, 345600)]
  {
    var b1, b2, b3 := BackupFile(1, 86400), BackupFile(2, 172800), BackupFile(3, 259200);
    var b4, b5, b6 := BackupFile(4, 345600), BackupFile(5, 432000), BackupFile(6, 518400);
    var c := BackupFile(30, 2592000);
    var older := [b1, b2, b3, b4, b5, b6];
    ExampleListing();
    ExamplePrune();
    UndeletedNone([b3, b2, b1]);
  }

  lemma ExamplePrune()
    ensures var older := [BackupFile(1, 86400), BackupFile(2, 172800), BackupFile(3, 259200),
                          BackupFile(4, 345600), BackupFile(5, 432000), BackupFile(6, 518400)];
      Prune(older + [BackupFile(30, 2592000)])
        == ([BackupFile(30, 2592000), BackupFile(6, 518400), BackupFile(5, 432000), BackupFile(4, 345600)],
            [BackupFile(3, 259200), BackupFile(2, 172800), BackupFile(1, 86400)])
  {
    var b1, b2, b3 := BackupFile(1, 86400), BackupFile(2, 172800), BackupFile(3, 259200);
    var b4, b5, b6 := BackupFile(4, 345600), BackupFile(5, 432000), BackupFile(6, 518400);
    var c := BackupFile(30, 2592000);
    ExampleSorted();
    var sorted := [c, b6, b5, b4, b3, b2, b1];
    assert SortNewestFirst([b1, b2, b3, b4, b5, b6] + [c]) == sorted;
    assert sorted[..4] == [c, b6, b5, b4] && sorted[4..] == [b3, b2, b1];
  }

  lemma ExampleListing()
    ensures var older := [BackupFile(1, 86400), BackupFile(2, 172800), BackupFile(3, 259200),
                          BackupFile(4, 345600), BackupFile(5, 432000), BackupFile(6, 518400)];
      Without(older, 30) == older
  {
    var b1, b2, b3 := BackupFile(1, 86400), BackupFile(2, 172800), BackupFile(3, 259200);
    var b4, b5, b6 := BackupFile(4, 345600), BackupFile(5, 432000), BackupFile(6, 518400);
    assert Without([b6], 30) == [b6];
    assert Without([b5, b6], 30) == [b5, b6];
    assert Without([b4, b5, b6], 30) == [b4, b5, b6];
    assert Without([b3, b4, b5, b6], 30) == [b3, b4, b5, b6];
    assert Without([b2, b3, b4, b5, b6], 30) == [b2, b3, b4, b5, b6];
  }

  lemma ExampleSorted()
    ensures var older := [BackupFile(1, 86400), BackupFile(2, 172800), BackupFile(3, 259200),
                          BackupFile(4, 345600), BackupFile(5, 432000), BackupFile(6, 518400)];
      SortNewestFirst(older + [BackupFile(30, 2592000)])
        == [BackupFile(30, 2592000), BackupFile(6, 518400), BackupFile(5, 432000), BackupFile(4, 345600),
            BackupFile(3, 259200), BackupFile(2, 172800), BackupFile(1, 86400)]
  {
    var b1, b2, b3 := BackupFile(1, 86400), BackupFile(2, 172800), BackupFile(3, 259200);
    var b4, b5, b6 := BackupFile(4, 345600), BackupFile(5, 432000), BackupFile(6, 518400);
    var c := BackupFile(30, 2592000);
    var listing := [b1, b2, b3, b4, b5, b6] + [c];
    assert SortNewestFirst(listing[6..]) == [c];
    InsertOldest(b6, [c]);
    assert SortNewestFirst(listing[5..]) == [c, b6];
    InsertOldest(b5, [c, b6]);
    assert SortNewestFirst(listing[4..]) == [c, b6, b5];
    InsertOldest(b4, [c, b6, b5]);
    assert SortNewestFirst(listing[3..]) == [c, b6, b5, b4];
    InsertOldest(b3, [c, b6, b5, b4]);
    assert SortNewestFirst(listing[2..]) == [c, b6, b5, b4, b3];
    InsertOldest(b2, [c, b6, b5, b4, b3]);
    assert SortNewestFirst(listing[1..]) == [c, b6, b5, b4, b3, b2];
    InsertOldest(b1, [c, b6, b5, b4, b3, b2]);
  }
}
