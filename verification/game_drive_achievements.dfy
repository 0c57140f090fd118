/** The GameDrive achievement client (`GameDriveAchievements`): resolving a
    game's Steam app id from its install folder, loading the achievement
    schema and the player's progress, and merging the two into the
    achievement list the host shows.

    Everything the client reads from disk is an input: the app-id file, the
    listing of the saved-games folder, the schema file and the progress file
    of each app-id folder. */
module GameDriveAchievements {

  import opened Wrappers
  import opened Clock
  import Text

  /** One entry of `steam_settings/achievements.json`. Absent JSON fields and
      JSON `null` are both `None`. */
  datatype SchemaItem = SchemaItem(
    name: Option<string>,
    displayName: Option<string>,
    description: Option<string>,
    hidden: bool,
    icon: Option<string>,
    iconGray: Option<string>)

  /** The schema list; an element is `None` when the JSON array holds `null`. */
  type Schema = seq<Option<SchemaItem>>

  /** One value of `_Saved Games/<appid>/achievements.json`. */
  datatype ProgressEntry = ProgressEntry(earned: bool, earnedTime: Long)

  /** Progress by achievement id; a value is `None` when the JSON holds `null`. */
  type Progress = map<string, Option<ProgressEntry>>

  /** The normalized achievement handed to the host. */
  datatype Achievement = Achievement(
    apiName: string,
    name: string,
    description: string,
    isHidden: bool,
    urlUnlocked: string,
    urlLocked: string,
    dateUnlocked: Option<Instant>)

  /** `DateTime.AddSeconds` threw: the unlock time of the named achievement
      lies past `DateTime.MaxValue`. */
  datatype Fault = UnlockDateOutOfRange(apiName: string)

  // ---------------------------------------------------------------------
  // Merging schema and progress

  /** The id of a schema element: its `name` when the element and its name
      are present and the name is not empty. */
  function IdOf(s: Option<SchemaItem>): Option<string> {
    if s.Some? && s.value.name.Some? && s.value.name.value != "" then s.value.name else None
  }

  /** The schema items that carry an id, in schema order. */
  function Named(schema: Schema): (r: seq<SchemaItem>)
    ensures |r| <= |schema|
    ensures forall k :: 0 <= k < |r| ==> r[k].name.Some? && r[k].name.value != ""
  {
    if schema == [] then []
    else if IdOf(schema[0]).Some? then [schema[0].value] + Named(schema[1..])
    else Named(schema[1..])
  }

  /** Progress records an unlock for `id`: an entry exists, is not `null`, is
      earned and has a positive time. */
  predicate Earned(progress: Progress, id: string) {
    id in progress && progress[id].Some? && progress[id].value.earned && progress[id].value.earnedTime > 0
  }

  /** Converting the unlock time of `id` would throw. */
  predicate UnlockOverflows(progress: Progress, id: string) {
    Earned(progress, id) && UnixEpoch + progress[id].value.earnedTime > MaxSecond
  }

  /** `a` is the achievement the client builds for schema item `s`. */
  predicate Describes(a: Achievement, s: SchemaItem, progress: Progress)
    requires s.name.Some?
  {
    var id := s.name.value;
    && a.apiName == id
    && a.name == s.displayName.GetOr(id)
    && a.description == s.description.GetOr("")
    && a.isHidden == s.hidden
    && a.urlUnlocked == s.icon.GetOr("")
    && a.urlLocked == s.iconGray.GetOr(s.icon.GetOr(""))
    && (a.dateUnlocked.Some? <==> Earned(progress, id))
    && (a.dateUnlocked.Some? ==> a.dateUnlocked.value - UnixEpoch == progress[id].value.earnedTime)
  }

  /** The achievement for one schema item that has an id. */
  function ToAchievement(s: SchemaItem, progress: Progress): (r: Result<Achievement, Fault>)
    requires s.name.Some?
    ensures r.Failure? <==> UnlockOverflows(progress, s.name.value)
    ensures r.Failure? ==> r.error == UnlockDateOutOfRange(s.name.value)
    ensures r.Success? ==> Describes(r.value, s, progress)
  {
    var id := s.name.value;
    var date := if Earned(progress, id) then FromUnixSeconds(progress[id].value.earnedTime) else None;
    if Earned(progress, id) && date.None? then Failure(UnlockDateOutOfRange(id))
    else Success(Achievement(
      id,
      s.displayName.GetOr(id),
      s.description.GetOr(""),
      s.hidden,
      s.icon.GetOr(""),
      s.iconGray.GetOr(s.icon.GetOr("")),
      date))
  }

  /** The merge loop of `GetAchievements`: one achievement per schema item
      with an id, in schema order; it throws at the first item whose unlock
      time cannot be converted. */
  function Merge(schema: Schema, progress: Progress): (r: Result<seq<Achievement>, Fault>)
    ensures r.Success? <==>
      forall i :: 0 <= i < |schema| && IdOf(schema[i]).Some? ==> !UnlockOverflows(progress, IdOf(schema[i]).value)
    ensures r.Success? ==>
      && |r.value| == |Named(schema)|
      && forall k :: 0 <= k < |r.value| ==> Describes(r.value[k], Named(schema)[k], progress)
  {
    if schema == [] then Success([])
    else
      var rest := Merge(schema[1..], progress);
      assert forall i :: 1 <= i < |schema| ==> schema[i] == schema[1..][i - 1];
      if IdOf(schema[0]).None? then rest
      else match ToAchievement(schema[0].value, progress)
        case Failure(e) => Failure(e)
        case Success(a) =>
          if rest.Failure? then rest
          else Success([a] + rest.value)
  }

  /** `Named` keeps exactly the items that carry an id. */
  lemma {:induction false} NamedKeepsItemsWithIds(schema: Schema)
    ensures forall x :: x in Named(schema) <==>
      exists i :: 0 <= i < |schema| && schema[i] == Some(x) && IdOf(schema[i]).Some?
  {
    if schema != [] {
      NamedKeepsItemsWithIds(schema[1..]);
      forall x
        ensures x in Named(schema) <==>
          exists i :: 0 <= i < |schema| && schema[i] == Some(x) && IdOf(schema[i]).Some?
      {
        if exists i :: 0 <= i < |schema| && schema[i] == Some(x) && IdOf(schema[i]).Some? {
          var i :| 0 <= i < |schema| && schema[i] == Some(x) && IdOf(schema[i]).Some?;
          if i > 0 {
            assert schema[1..][i - 1] == schema[i];
          }
        }
      }
    }
  }

  /** `Named` keeps schema order: the items of a split schema come out in the
      order of its parts. */
  lemma {:induction false} NamedPreservesOrder(a: Schema, b: Schema)
    ensures Named(a + b) == Named(a) + Named(b)
  {
    if a == [] {
      assert a + b == b;
    } else {
      assert (a + b)[1..] == a[1..] + b;
      NamedPreservesOrder(a[1..], b);
    }
  }

  // ---------------------------------------------------------------------
  // Resolving the app id

  /** `steam_settings/steam_appid.txt`. */
  datatype AppIdFile = NoAppIdFile | AppIdUnreadable | AppIdText(text: string)

  /** The `_Saved Games` folder: missing, failing to enumerate, or the names
      of its sub-folders in enumeration order. */
  datatype SavedGames = NoSavedGames | ListingFails | Subdirs(names: seq<string>)

  /** The first all-digit name in `names`. */
  function FirstNumeric(names: seq<string>): (r: Option<string>)
    ensures r.None? <==> forall i :: 0 <= i < |names| ==> !Text.IsNumericName(names[i])
    ensures r.Some? ==>
      exists i :: (&& 0 <= i < |names| && names[i] == r.value
                   && Text.IsNumericName(names[i])
                   && forall j :: 0 <= j < i ==> !Text.IsNumericName(names[j]))
  {
    if names == [] then None
    else if Text.IsNumericName(names[0]) then Some(names[0])
    else
      var r := FirstNumeric(names[1..]);
      assert forall i :: 1 <= i < |names| ==> names[i] == names[1..][i - 1];
      if r.Some? then
        FirstNumericShifts(names, r.value);
        r
      else r
  }

  /** The first all-digit name of the tail of `names` is the first of
      `names` when the head is not all digits. */
  lemma FirstNumericShifts(names: seq<string>, v: string)
    requires names != [] && !Text.IsNumericName(names[0])
    requires exists i :: (&& 0 <= i < |names[1..]| && names[1..][i] == v
                          && Text.IsNumericName(names[1..][i])
                          && forall j :: 0 <= j < i ==> !Text.IsNumericName(names[1..][j]))
    ensures exists i :: (&& 0 <= i < |names| && names[i] == v
                         && Text.IsNumericName(names[i])
                         && forall j :: 0 <= j < i ==> !Text.IsNumericName(names[j]))
  {
    var i :| 0 <= i < |names[1..]| && names[1..][i] == v
      && Text.IsNumericName(names[1..][i])
      && forall j :: 0 <= j < i ==> !Text.IsNumericName(names[1..][j]);
    assert names[i + 1] == v;
    forall j | 0 <= j < i + 1
      ensures !Text.IsNumericName(names[j])
    {
      if j > 0 {
        assert names[j] == names[1..][j - 1];
      }
    }
  }

  /** `ResolveAppId`: the trimmed app-id file when it is not blank, else the
      first all-digit saved-games folder, else nothing. A failure to read the
      file or to list the folder counts as its absence. */
  function ResolveAppId(appIdFile: AppIdFile, savedGames: SavedGames): (r: Option<string>)
    ensures r.Some? ==> r.value != ""
    ensures appIdFile.AppIdText? && Text.Trim(appIdFile.text) != [] ==> r == Some(Text.Trim(appIdFile.text))
    ensures !(appIdFile.AppIdText? && Text.Trim(appIdFile.text) != []) ==>
      r == (if savedGames.Subdirs? then FirstNumeric(savedGames.names) else None)
  {
    if appIdFile.AppIdText? && Text.Trim(appIdFile.text) != [] then Some(Text.Trim(appIdFile.text))
    else match savedGames
      case Subdirs(names) => FirstNumeric(names)
      case _ => None
  }

  // ---------------------------------------------------------------------
  // Loading the files

  /** `steam_settings/achievements.json`: missing, failing to read or parse,
      or parsed (`None` for a JSON `null` document). */
  datatype SchemaFile = NoSchemaFile | SchemaUnreadable | SchemaJson(items: Option<Schema>)

  /** `_Saved Games/<appid>/achievements.json`, likewise. */
  datatype ProgressFile = ProgressUnreadable | ProgressJson(entries: Option<Progress>)

  /** `LoadSchema`: the parsed list, or nothing. */
  function LoadSchema(f: SchemaFile): (r: Option<Schema>)
    ensures f.SchemaJson? ==> r == f.items
    ensures !f.SchemaJson? ==> r.None?
  {
    if f.SchemaJson? then f.items else None
  }

  /** `LoadProgress`: the parsed map of the app id's progress file; an empty
      map when the file is missing, unreadable or `null`. `files` holds the
      progress files that exist, by app-id folder. */
  function LoadProgress(files: map<string, ProgressFile>, appId: string): (r: Progress)
    ensures appId in files && files[appId].ProgressJson? && files[appId].entries.Some? ==>
      r == files[appId].entries.value
    ensures !(appId in files && files[appId].ProgressJson? && files[appId].entries.Some?) ==> r == map[]
  {
    if appId in files && files[appId].ProgressJson? && files[appId].entries.Some? then files[appId].entries.value
    else map[]
  }

  // ---------------------------------------------------------------------
  // GetAchievements

  /** The files under a GameDrive install root. */
  datatype Install = Install(
    appIdFile: AppIdFile,
    savedGames: SavedGames,
    schemaFile: SchemaFile,
    progressFiles: map<string, ProgressFile>)

  /** What `GetAchievements` returns: the default result for one of its three
      early exits, the merged list, or an exception. */
  datatype Fetch =
    | NoInstallRoot
    | NoAppId
    | NoSchema
    | Reconciled(items: seq<Achievement>)
    | Threw(fault: Fault)

  /** `GetAchievements(game)` for the install root the host reports (`None`
      for `null`). */
  function GetAchievements(root: Option<string>, inst: Install): (r: Fetch)
    ensures root.None? || root.value == "" ==> r == NoInstallRoot
    ensures root.Some? && root.value != "" ==>
      var appId := ResolveAppId(inst.appIdFile, inst.savedGames);
      var schema := LoadSchema(inst.schemaFile);
      if appId.None? then r == NoAppId
      else if schema.None? || schema.value == [] then r == NoSchema
      else
        var progress := LoadProgress(inst.progressFiles, appId.value);
        && (r.Reconciled? || r.Threw?)
        && (r.Reconciled? ==>
              && |r.items| == |Named(schema.value)|
              && forall k :: 0 <= k < |r.items| ==> Describes(r.items[k], Named(schema.value)[k], progress))
        && (r.Threw? <==> exists i :: 0 <= i < |schema.value| && IdOf(schema.value[i]).Some?
                                     && UnlockOverflows(progress, IdOf(schema.value[i]).value))
  {
    if root.None? || root.value == "" then NoInstallRoot
    else match ResolveAppId(inst.appIdFile, inst.savedGames)
      case None => NoAppId
      case Some(appId) =>
        match LoadSchema(inst.schemaFile)
        case None => NoSchema
        case Some(schema) =>
          if schema == [] then NoSchema
          else match Merge(schema, LoadProgress(inst.progressFiles, appId))
            case Success(items) => Reconciled(items)
            case Failure(e) => Threw(e)
  }

  /** Without usable progress every achievement is listed locked. */
  lemma MissingProgressLocksAll(root: string, inst: Install)
    requires root != ""
    requires var appId := ResolveAppId(inst.appIdFile, inst.savedGames);
      appId.Some? && LoadProgress(inst.progressFiles, appId.value) == map[]
    requires var schema := LoadSchema(inst.schemaFile); schema.Some? && schema.value != []
    ensures var r := GetAchievements(Some(root), inst);
      && r.Reconciled?
      && forall k :: 0 <= k < |r.items| ==> r.items[k].dateUnlocked.None?
  {
  }

  /** Example: an achievement earned at Unix time 1000000000 is dated
      2001-09-09T01:46:40Z; one marked earned with time 0 stays locked, and
      so does one without a progress entry. A `null` schema element is
      skipped. */
  lemma UnlockExample()
    ensures var schema := [Some(SchemaItem(Some("A"), None, None, false, Some("a.png"), None)), None,
                           Some(SchemaItem(Some("B"), Some("Bee"), None, true, None, None)),
                           Some(SchemaItem(Some("C"), None, Some("see"), false, Some("c.png"), Some("c-gray.png")))];
      var progress: Progress := map["A" := Some(ProgressEntry(true, 1000000000)), "B" := Some(ProgressEntry(true, 0))];
      var r := Merge(schema, progress);
      && r.Success? && |r.value| == 3
      && r.value[0] == Achievement("A", "A", "", false, "a.png", "a.png", Some(CivilInstant(2001, 9, 9, 1, 46, 40)))
      && r.value[1] == Achievement("B", "Bee", "", true, "", "", None)
      && r.value[2] == Achievement("C", "C", "see", false, "c.png", "c-gray.png", None)
  {
    var a := Some(SchemaItem(Some("A"), None, None, false, Some("a.png"), None));
    var b := Some(SchemaItem(Some("B"), Some("Bee"), None, true, None, None));
    var c := Some(SchemaItem(Some("C"), None, Some("see"), false, Some("c.png"), Some("c-gray.png")));
    var schema := [a, None, b, c];
    var progress: Progress := map["A" := Some(ProgressEntry(true, 1000000000)), "B" := Some(ProgressEntry(true, 0))];
    assert Named(schema[3..]) == [c.value];
    assert Named(schema[2..]) == [b.value, c.value];
    assert Named(schema[1..]) == [b.value, c.value];
    assert Named(schema) == [a.value, b.value, c.value];
    BillionSecondsAfterEpoch();
    assert !Earned(progress, "B") && !Earned(progress, "C");
    var r := Merge(schema, progress);
    assert r.Success?;
    assert Describes(r.value[0], a.value, progress);
  }
}
