/** The session-history store of `SessionHistoryService`: a lazily loaded,
    cached map from game id to the append-only list of that game's play
    sessions, and the "hours played up to an instant" query over it.

    The JSON file is abstracted to what a load can observe of it (missing,
    unreadable, blank, not parseable, or a parsed document), and a save to
    how its write ended. */
module SessionHistory {

  import opened Wrappers
  import opened Clock
  import opened FileWrite

  /** One play interval. `seconds` is the elapsed time the host reported and
      is what the aggregation counts; `startUtc`/`endUtc` place it in time. */
  datatype SessionRecord = SessionRecord(startUtc: Instant, endUtc: Instant, seconds: ULong)

  /** The text of a game's `Guid`, the key of the stored map. */
  type GameId = string

  /** The stored map. A game's list is `None` when the JSON holds `null` for it. */
  type History = map<GameId, Option<seq<SessionRecord>>>

  /** What `Load` can observe of `session_history.json`. */
  datatype HistoryFile =
    | Missing
    | Unreadable                    // reading the file throws
    | Blank                         // the file is empty
    | Corrupt                       // the text is not a valid history document
    | Json(data: Option<History>)   // parsed; `None` for a JSON `null` document

  /** What an interrupted save leaves behind: an empty file, or a proper
      prefix of the JSON object text, which is never a whole document. */
  datatype Remnant = Emptied | Prefix

  /** The service's state: the in-memory cache and the file behind it. */
  datatype Service = Service(cache: Option<History>, file: HistoryFile)

  /** Why an operation ended in an exception. */
  datatype Fault =
    | DateOutOfRange    // `DateTime.AddSeconds` left the representable range
    | NullSessionList   // the stored list of the game is `null`

  /** `Load`: the cached map if there is one; otherwise the parsed file, or an
      empty map when the file is missing, unreadable, blank, corrupt or
      `null`. Either way the result becomes the cache. */
  function Load(svc: Service): (r: (Service, History))
    ensures r.0 == Service(Some(r.1), svc.file)
    ensures svc.cache.Some? ==> r.1 == svc.cache.value
    ensures svc.cache.None? && svc.file.Json? && svc.file.data.Some? ==> r.1 == svc.file.data.value
    ensures svc.cache.None? && !(svc.file.Json? && svc.file.data.Some?) ==> r.1 == map[]
  {
    match svc.cache
    case Some(h) => (svc, h)
    case None =>
      var h := if svc.file.Json? && svc.file.data.Some? then svc.file.data.value else map[];
      (Service(Some(h), svc.file), h)
  }

  /** `Save`: rewrites the whole file from the cache. A failed write is
      swallowed. It leaves the file as it was only when it failed before the
      file was opened; after the truncating open, the file is left blank or
      holding an unparseable prefix. With no cache (`null`) nothing is
      written. */
  function Save(svc: Service, w: Write<Remnant>): (r: Service)
    ensures r.cache == svc.cache
    ensures svc.cache.None? || w == NotOpened ==> r.file == svc.file
    ensures svc.cache.Some? && w == Written ==> r.file == Json(svc.cache)
    ensures svc.cache.Some? && w == CutShort(Emptied) ==> r.file == Blank
    ensures svc.cache.Some? && w == CutShort(Prefix) ==> r.file == Corrupt
  {
    if svc.cache.None? then svc
    else match w
      case Written => Service(svc.cache, Json(svc.cache))
      case NotOpened => svc
      case CutShort(Emptied) => Service(svc.cache, Blank)
      case CutShort(Prefix) => Service(svc.cache, Corrupt)
  }

  /** The sessions stored for `key`, with an absent key read as no sessions. */
  function Sessions(h: History, key: GameId): seq<SessionRecord>
    requires key !in h || h[key].Some?
  {
    if key in h then h[key].value else []
  }

  /** `AddSession(game, elapsedSeconds)` at wall-clock time `now`.

      A missing game or zero seconds leaves everything as it was. Otherwise
      the record `[now - elapsed, now]` is built first (which throws when the
      start would fall before `DateTime.MinValue`), then the history is
      loaded, the record appended to the game's list (created if absent)
      and the whole map saved. A `null` stored list makes the append throw
      after the load. */
  function AddSession(svc: Service, game: Option<GameId>, elapsed: ULong, now: Instant, w: Write<Remnant>)
    : (r: (Service, Option<Fault>))
    ensures game.None? || elapsed == 0 ==> r == (svc, None)
    ensures game.Some? && elapsed > now ==> r == (svc, Some(DateOutOfRange))
    ensures game.Some? && 0 < elapsed <= now ==>
      var (loaded, h) := Load(svc);
      var key := game.value;
      if key in h && h[key].None? then
        r == (loaded, Some(NullSessionList))
      else
        && r.1 == None
        && r.0.cache.Some?
        && var h' := r.0.cache.value;
        // the game's list grows by exactly one record, at its end
        && key in h' && h'[key].Some?
        && var list := h'[key].value;
        && |list| == |Sessions(h, key)| + 1
        && list[..|list| - 1] == Sessions(h, key)
        && list[|list| - 1].seconds == elapsed
        && list[|list| - 1].endUtc == now
        && list[|list| - 1].endUtc - list[|list| - 1].startUtc == elapsed
        // no other game changes
        && (forall k :: k != key ==> (k in h' <==> k in h))
        && (forall k :: k != key && k in h ==> h'[k] == h[k])
        // the whole map is saved, with whatever outcome the write has
        && r.0 == Save(Service(r.0.cache, svc.file), w)
  {
    if game.None? || elapsed == 0 then (svc, None)
    else if elapsed > now then (svc, Some(DateOutOfRange))
    else
      var rec := SessionRecord(now - elapsed, now, elapsed);
      var (loaded, h) := Load(svc);
      var key := game.value;
      if key in h && h[key].None? then (loaded, Some(NullSessionList))
      else
        var h' := h[key := Some(Sessions(h, key) + [rec])];
        (Save(Service(Some(h'), loaded.file), w), None)
  }

  function Min(a: int, b: int): int {
    if a <= b then a else b
  }

  /** The seconds one session contributes to the play time up to `t`. */
  function Contribution(s: SessionRecord, t: Instant): (c: nat)
    ensures c <= s.seconds
    ensures s.endUtc <= t ==> c == s.seconds
    ensures t < s.endUtc && s.startUtc <= t ==> c == Min(t - s.startUtc, s.seconds)
    ensures t < s.endUtc && t < s.startUtc ==> c == 0
  {
    if s.endUtc <= t then s.seconds
    else if s.startUtc <= t then
      var partial := t - s.startUtc;
      if partial > 0 then Min(partial, s.seconds) else 0
    else 0
  }

  /** The sum of the recorded lengths of `ss`. */
  function TotalSeconds(ss: seq<SessionRecord>): nat {
    if ss == [] then 0 else ss[0].seconds + TotalSeconds(ss[1..])
  }

  /** The seconds played up to `t`: the sum of every session's contribution. */
  function PlayedSeconds(ss: seq<SessionRecord>, t: Instant): (r: nat)
    ensures r <= TotalSeconds(ss)
  {
    if ss == [] then 0 else Contribution(ss[0], t) + PlayedSeconds(ss[1..], t)
  }

  /** Seconds as hours, or "unknown" (`None`) when nothing was played. */
  function Hours(total: nat): Option<real> {
    if total <= 0 then None else Some(total as real / 3600.0)
  }

  /** `GetHoursPlayedAt(unlockTimeUtc, gameId)`: the hours the game was played
      up to `t`; unknown when the game has no sessions or none of them count. */
  function GetHoursPlayedAt(svc: Service, t: Instant, gameId: GameId): (r: (Service, Option<real>))
    ensures r.0 == Load(svc).0
    ensures var h := Load(svc).1;
      && (r.1.Some? <==> gameId in h && h[gameId].Some? && PlayedSeconds(h[gameId].value, t) > 0)
      && (r.1.Some? ==>
            && r.1.value > 0.0
            && r.1.value * 3600.0 == PlayedSeconds(h[gameId].value, t) as real
            && r.1.value * 3600.0 <= TotalSeconds(h[gameId].value) as real)
  {
    var (loaded, h) := Load(svc);
    if gameId !in h || h[gameId].None? || h[gameId].value == [] then (loaded, None)
    else (loaded, Hours(PlayedSeconds(h[gameId].value, t)))
  }

  /** Every record ends no earlier than it starts. */
  predicate WellFormed(ss: seq<SessionRecord>) {
    forall i :: 0 <= i < |ss| ==> ss[i].startUtc <= ss[i].endUtc
  }

  /** A later cutoff never counts less play time. */
  lemma {:induction false} PlayedSecondsMonotone(ss: seq<SessionRecord>, t1: Instant, t2: Instant)
    requires t1 <= t2
    ensures PlayedSeconds(ss, t1) <= PlayedSeconds(ss, t2)
  {
    if ss != [] {
      PlayedSecondsMonotone(ss[1..], t1, t2);
    }
  }

  /** Once every session has ended, all recorded seconds count. */
  lemma {:induction false} PlayedSecondsAfterAllEnded(ss: seq<SessionRecord>, t: Instant)
    requires forall i :: 0 <= i < |ss| ==> ss[i].endUtc <= t
    ensures PlayedSeconds(ss, t) == TotalSeconds(ss)
  {
    if ss != [] {
      PlayedSecondsAfterAllEnded(ss[1..], t);
    }
  }

  /** Before any session has started, nothing counts. */
  lemma {:induction false} PlayedSecondsBeforeAllStarted(ss: seq<SessionRecord>, t: Instant)
    requires WellFormed(ss)
    requires forall i :: 0 <= i < |ss| ==> t < ss[i].startUtc
    ensures PlayedSeconds(ss, t) == 0
  {
    if ss != [] {
      PlayedSecondsBeforeAllStarted(ss[1..], t);
    }
  }

  /** Appending a session adds exactly that session's contribution. */
  lemma {:induction false} PlayedSecondsAppend(ss: seq<SessionRecord>, s: SessionRecord, t: Instant)
    ensures PlayedSeconds(ss + [s], t) == PlayedSeconds(ss, t) + Contribution(s, t)
  {
    if ss == [] {
      assert [] + [s] == [s];
    } else {
      assert (ss + [s])[1..] == ss[1..] + [s];
      PlayedSecondsAppend(ss[1..], s, t);
    }
  }

  /** A recorded session counts in full at any cutoff from its end onwards,
      and not at all at cutoffs up to its start. */
  lemma AddSessionThenQuery(svc: Service, g: GameId, elapsed: ULong, now: Instant, w: Write<Remnant>, t: Instant)
    requires 0 < elapsed <= now
    requires AddSession(svc, Some(g), elapsed, now, w).1 == None
    ensures var h := Load(svc).1;
      var h' := AddSession(svc, Some(g), elapsed, now, w).0.cache.value;
      && (now <= t ==> PlayedSeconds(h'[g].value, t) == PlayedSeconds(Sessions(h, g), t) + elapsed)
      && (t <= now - elapsed ==> PlayedSeconds(h'[g].value, t) == PlayedSeconds(Sessions(h, g), t))
  {
    var h := Load(svc).1;
    var list := AddSession(svc, Some(g), elapsed, now, w).0.cache.value[g].value;
    var rec := list[|list| - 1];
    assert list == Sessions(h, g) + [rec];
    PlayedSecondsAppend(Sessions(h, g), rec, t);
  }

  /** Once loaded, the cache is what every later load returns, whatever
      happens to the file. */
  lemma LoadIsCached(svc: Service, later: HistoryFile)
    ensures Load(Service(Load(svc).0.cache, later)).1 == Load(svc).1
  {
  }

  /** Saving the cache and loading it again in a fresh service gives back the
      same map. */
  lemma SaveLoadRoundTrip(svc: Service)
    requires svc.cache.Some?
    ensures Load(Service(None, Save(svc, Written).file)).1 == svc.cache.value
  {
  }

  /** A save interrupted after the truncating open loses the stored history:
      a fresh service then loads an empty map, whatever the cache held. */
  lemma InterruptedSaveLosesHistory(svc: Service, remnant: Remnant)
    requires svc.cache.Some?
    ensures Load(Service(None, Save(svc, CutShort(remnant)).file)).1 == map[]
  {
  }

  /** Example: one hour of play from 10:00 to 11:00 counts half an hour at
      10:30, nothing at 09:00 and one hour at 12:00. */
  lemma HoursPlayedExample()
    ensures var start := CivilInstant(2024, 3, 1, 10, 0, 0);
      var svc := Service(Some(map["g" := Some([SessionRecord(start, start + 3600, 3600)])]), Missing);
      && GetHoursPlayedAt(svc, start + 1800, "g").1 == Some(0.5)
      && GetHoursPlayedAt(svc, start - 3600, "g").1 == None
      && GetHoursPlayedAt(svc, start + 7200, "g").1 == Some(1.0)
  {
  }
}
