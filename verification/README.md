# SuccessStory session history and GameDrive achievements, modelled in Dafny

This project models two pieces of the SuccessStory plugin for the Playnite game library.

- **Session history** (`source/Services/SessionHistoryService.cs`). The plugin keeps a per-game, append-only list of play sessions. The list is loaded lazily from `session_history.json` and cached. It answers "how many hours had this game been played at instant T" for the "hours played at unlock" feature. Every fourteen days it copies the file into a backup folder and keeps the four newest copies.
- **GameDrive achievements** (`source/Clients/GameDriveAchievements.cs`). The client resolves a game's Steam app id from its install folder. It loads the achievement schema and the player's progress file, then merges them into the achievement list the host shows.

Modules:

| file | module | contents |
|---|---|---|
| `wrappers.dfy` | `Wrappers` | `Option` (a nullable value) and `Result` (a value or an exception) |
| `file_write.dfy` | `FileWrite` | how a `File.WriteAllText` call ends: written, failed before opening, or cut short after truncating |
| `clock.dfy` | `Clock` | `DateTime` as whole seconds since 0001-01-01, its range, the Unix epoch and the calendar check of both |
| `text.dfy` | `Text` | `String.Trim()` with the .NET white-space set; all-digit folder names |
| `session_history.dfy` | `SessionHistory` | the cached store, `AddSession`, `GetHoursPlayedAt` and its aggregation |
| `session_backup.dfy` | `SessionBackup` | `PerformBackupIfDue`: the due decision, the copy and the prune |
| `game_drive_achievements.dfy` | `GameDriveAchievements` | `ResolveAppId`, `LoadSchema`, `LoadProgress`, the merge and `GetAchievements` |

Inputs in place of I/O:

- File contents and existence are inputs. Each file is described by what the code can observe of it: missing, unreadable, blank, unparseable, or parsed (`None` for a JSON `null`).
- The wall clock (`DateTime.UtcNow`) is the parameter `now`.
- The outcome of writes, copies and deletions is given as input.
- The creation time the file system gives a copied backup is an input.
- The install root comes from the host and is an input.

Timestamps are whole seconds. `ulong` and `long` are subset types of `int` with their C# ranges.

Behaviour of the code that the model keeps:

- **Exceptions.** Two operations can throw, in three ways:
  - `AddSession` throws in `DateTime.AddSeconds` when `elapsedSeconds` reaches back before `DateTime.MinValue`.
  - `AddSession` throws in `list.Add` on a game whose stored list is JSON `null`.
  - `GetAchievements` throws on an unlock time past `DateTime.MaxValue`.

  The model returns a `Fault` in all three cases.
- **Backup marker.** A missing, blank or unparseable marker counts as `DateTime.MinValue`. When reading the marker throws, the outer `catch` abandons the whole backup (`Decision.MarkerReadFailed`).
- **Rotation.** The prune deletes the files at index 4 and beyond of the listing taken after the copy, ordered newest first. Six older backups plus the new copy therefore lose their 3 oldest (`SessionBackup.RotationExample`).
- **Interrupted writes.** `File.WriteAllText` truncates its target when it opens it. A save that fails after that leaves the history file blank or unparseable, and the next fresh load starts from an empty map. A marker write that fails after that leaves a blank or partial marker; when that text does not parse as a date, the next run is due again and repeats the backup.
- **Folder order.** `ResolveAppId` takes the first all-digit saved-games folder name in enumeration order, without sorting.

## Model

| member | source | states |
|---|---|---|
| Clock.FromUnixSeconds | source/Clients/GameDriveAchievements.cs:74 | the unlock date is exactly `earned_time` seconds after 1970-01-01, and it exists iff that instant is no later than 9999-12-31T23:59:59 (otherwise `AddSeconds` throws) |
| Clock.CalendarConstants | source/Services/SessionHistoryService.cs:166 | `DateTime.MinValue`, the end of `DateTime.MaxValue` and the Unix epoch used by the model are the calendar instants 0001-01-01, 9999-12-31T23:59:59 and 1970-01-01 |
| Clock.BillionSecondsAfterEpoch | source/Clients/GameDriveAchievements.cs:74 | Unix time 1000000000 converts to 2001-09-09T01:46:40Z |
| Text.Trim | source/Clients/GameDriveAchievements.cs:105 | the trimmed app-id text is a contiguous slice of the file text with only white space cut from both ends; it neither starts nor ends with white space; it is empty iff the text is all white space |
| Text.TrimIdempotent | source/Clients/GameDriveAchievements.cs:105 | trimming an already trimmed id changes nothing |
| SessionHistory.Load | source/Services/SessionHistoryService.cs:40-69 | once a map is cached it is returned unchanged; otherwise the parsed file becomes the cache, and a missing, unreadable, blank, corrupt or `null` file gives an empty map |
| SessionHistory.Save | source/Services/SessionHistoryService.cs:71-92 | a save rewrites the whole file from the cache. With no cache, or a write that fails before opening the file, the file is unchanged. A write that fails after the truncating open leaves the file blank or unparseable |
| SessionHistory.InterruptedSaveLosesHistory | source/Services/SessionHistoryService.cs:42-92 | a save that fails after the truncating open makes a fresh load return an empty map, whatever the cache held |
| SessionHistory.LoadIsCached | source/Services/SessionHistoryService.cs:42-45 | after the first load, later loads return the same map whatever the file then holds |
| SessionHistory.SaveLoadRoundTrip | source/Services/SessionHistoryService.cs:40-92 | saving the cache and loading it in a fresh service gives back the same map: same games, same ordered records |
| SessionHistory.AddSession | source/Services/SessionHistoryService.cs:97-120 | a missing game or zero seconds changes nothing and saves nothing. An elapsed time reaching before `DateTime.MinValue` throws before any load. A `null` stored list throws after the load. Otherwise the game's list (created if absent) grows by one record at its end, with `Seconds = elapsed`, `EndUtc = now` and `EndUtc - StartUtc = elapsed`. Every other game is unchanged, and the whole map is persisted unless the write fails |
| SessionHistory.Contribution | source/Services/SessionHistoryService.cs:138-149 | a session that has ended by the cutoff counts its full `Seconds`. One that straddles the cutoff counts `min(T - StartUtc, Seconds)`. One that has neither ended nor started counts nothing. No session counts more than its `Seconds` |
| SessionHistory.PlayedSeconds | source/Services/SessionHistoryService.cs:134-150 | the played time up to the cutoff never exceeds the sum of the recorded `Seconds` |
| SessionHistory.GetHoursPlayedAt | source/Services/SessionHistoryService.cs:126-155 | the result is unknown iff the game has no entry, a `null` list, or no counted seconds (an empty list counts none). Otherwise it is the counted seconds / 3600: positive and at most the total recorded seconds / 3600. The query loads the cache as a side effect |
| SessionHistory.PlayedSecondsMonotone | source/Services/SessionHistoryService.cs:136-150 | a later cutoff never counts less play time |
| SessionHistory.PlayedSecondsAfterAllEnded | source/Services/SessionHistoryService.cs:138-141 | at a cutoff after every session's end, all recorded seconds count |
| SessionHistory.PlayedSecondsBeforeAllStarted | source/Services/SessionHistoryService.cs:142-149 | at a cutoff before every (well-formed) session's start, nothing counts |
| SessionHistory.PlayedSecondsAppend | source/Services/SessionHistoryService.cs:136-150 | appending a session adds exactly that session's contribution to the total |
| SessionHistory.AddSessionThenQuery | source/Services/SessionHistoryService.cs:101-118 | after a session is recorded, a query at any cutoff from `now` on counts it in full, and a query at a cutoff up to its start does not count it |
| SessionHistory.HoursPlayedExample | source/Services/SessionHistoryService.cs:134-154 | a 10:00-11:00 session of 3600 s gives 0.5 h at 10:30, unknown at 09:00 and 1.0 h at 12:00 |
| SessionBackup.LastBackup | source/Services/SessionHistoryService.cs:166-174 | when the marker parses, the last backup time is its stamp. It is `DateTime.MinValue` when the marker is missing, blank or unparseable. It is unavailable (the backup is abandoned) exactly when reading the marker throws |
| SessionBackup.Decide | source/Services/SessionHistoryService.cs:164-176 | no backup without the history file. None when reading the marker fails. Otherwise due iff at least 14 days have passed since the last backup |
| SessionBackup.NoValidMarkerMeansDue | source/Services/SessionHistoryService.cs:166-176 | with a missing, blank or unparseable marker a backup is due (from 14 days after `DateTime.MinValue` on) |
| SessionBackup.RecentMarkerMeansNotDue | source/Services/SessionHistoryService.cs:176 | a marker less than 14 days old means no backup |
| SessionBackup.WithCopy | source/Services/SessionHistoryService.cs:183-185 | after the copy the listing holds today's backup exactly once and no other backup of today's day, so a same-day backup is overwritten. Backups of other days keep their multiplicities |
| SessionBackup.SortIsNewestFirstPermutation | source/Services/SessionHistoryService.cs:188-191 | ordering the backups by creation time rearranges them newest first, neither dropping nor adding a file |
| SessionBackup.PruneKeepsNewest | source/Services/SessionHistoryService.cs:188-196 | the prune keeps the four newest backups (all of them if there are at most four), newest first. It deletes the rest, each no newer than any kept one, and together the two parts are exactly the listing |
| SessionBackup.InterruptedMarkerWriteRepeatsBackup | source/Services/SessionHistoryService.cs:166-186 | when the marker write fails after truncation and leaves blank or non-date text, the run fails with today's copy in place, and every run from 14 days after `DateTime.MinValue` on is due again |
| SessionBackup.PrunedAreOlder | source/Services/SessionHistoryService.cs:188-196 | a backup of the listing that is not kept is no newer than any kept backup |
| SessionBackup.PerformBackupIfDue | source/Services/SessionHistoryService.cs:158-205 | when no backup is due nothing changes. The run ends `Created` iff a backup is due and the copy, the marker write and the listing of the backup folder all succeed. It then stamps the marker with `now` and leaves the kept backups plus those whose deletion failed. A failure abandons the remaining steps and keeps what earlier steps did: a failed copy changes nothing; after the copy, a marker write that fails before opening leaves the old marker; a marker write cut short after truncation leaves the marker holding the remnant; a failed listing leaves the marker stamped and nothing deleted |
| SessionBackup.RotationKeepsNewestFour | source/Services/SessionHistoryService.cs:188-196 | after a rotation whose deletions succeed, `min(4, n)` backups remain. They are drawn from the listing, and none is older than a deleted one |
| SessionBackup.SecondRunIsNotDue | source/Services/SessionHistoryService.cs:176-186 | right after a backup is created, another run within 14 days does nothing |
| SessionBackup.RotationExample | source/Services/SessionHistoryService.cs:157-196 | with six older backups and a 20-day-old marker, one run creates today's backup and keeps it with the three newest older ones |
| GameDriveAchievements.Named | source/Clients/GameDriveAchievements.cs:64-67 | every kept schema item has a non-empty name, and there are no more kept items than schema elements |
| GameDriveAchievements.NamedKeepsItemsWithIds | source/Clients/GameDriveAchievements.cs:64-67 | an item is merged iff it is a non-`null` schema element with a non-empty name |
| GameDriveAchievements.NamedPreservesOrder | source/Clients/GameDriveAchievements.cs:64-87 | the merged items keep schema order: the items of a concatenated schema are those of its parts, in order |
| GameDriveAchievements.ToAchievement | source/Clients/GameDriveAchievements.cs:66-86 | `ApiName = name`, `Name = display_name ?? name`, `Description = description ?? ""`, `IsHidden = hidden`, `UrlUnlocked = icon ?? ""` and `UrlLocked = icon_gray ?? icon ?? ""`. `DateUnlocked` is present iff a non-`null` progress entry is earned with a positive time, and is then epoch + time. The conversion throws exactly when that date is past `DateTime.MaxValue` |
| GameDriveAchievements.Merge | source/Clients/GameDriveAchievements.cs:61-87 | one achievement per schema item with an id, in schema order, each built as `ToAchievement` states. The loop throws iff some item's unlock date is out of range |
| GameDriveAchievements.FirstNumeric | source/Clients/GameDriveAchievements.cs:120-125 | the result is the first non-empty all-digit folder name in enumeration order, and is absent iff there is none |
| GameDriveAchievements.ResolveAppId | source/Clients/GameDriveAchievements.cs:98-133 | the trimmed app-id text when it is non-blank. Otherwise the first all-digit saved-games folder. Otherwise nothing, including when the folder is missing or cannot be listed. A resolved id is never empty |
| GameDriveAchievements.LoadSchema | source/Clients/GameDriveAchievements.cs:135-150 | a missing, unreadable or unparseable schema file gives no schema; a parsed one gives its list |
| GameDriveAchievements.LoadProgress | source/Clients/GameDriveAchievements.cs:152-168 | a missing, unreadable, unparseable or `null` progress file gives an empty map; otherwise the parsed map |
| GameDriveAchievements.GetAchievements | source/Clients/GameDriveAchievements.cs:35-92 | an empty or `null` install root, an unresolved app id, or a `null` or empty schema each give the default result with no items. Otherwise the result is the merged list for the resolved app id's progress, or the exception the merge throws |
| GameDriveAchievements.MissingProgressLocksAll | source/Clients/GameDriveAchievements.cs:152-168 | when the progress file is missing or unusable, every achievement of the schema is listed, all locked |
| GameDriveAchievements.UnlockExample | source/Clients/GameDriveAchievements.cs:64-86 | a worked merge. A `null` element is skipped. Unix time 1000000000 gives 2001-09-09T01:46:40Z. Earned with time 0 and no entry both stay locked. The name, description and icon defaults apply |

## Left out

- File I/O: reading, writing, copying and deleting files, creating directories, `Path.Combine` and the JSON codec. File contents and the outcome of each operation are inputs. A save followed by a load round-trips because the codec is assumed faithful; the codec itself is not part of this model.
- The static `_fileLock`: operations are modelled as sequential steps on an explicit state.
- Logging (`_logger`, `Logger.Warn`).
- Sub-second precision: `DateTime` ticks, `AddSeconds(double)` rounding to milliseconds, and the `double` sums of `GetHoursPlayedAt` are modelled with whole seconds, integers and `real` hours, so rounding of large totals is not modelled.
- PerformBackupIfDue reads `DateTime.UtcNow` three times; the model uses one `now` for all three.
- Backup naming and marker text: the `yyyyMMdd` and `"o"` formats and `DateTime.TryParse` (including any local-time adjustment of the parsed value) are reduced to a day number and "parsed / not parsed".
- SessionBackup.PerformBackupIfDue: a copy that fails part-way is modelled as leaving the backups unchanged; a partially written backup file is not represented.
- SessionBackup.PerformBackupIfDue: the creation time the file system gives an overwritten same-day copy is an input, not derived.
- SessionBackup.PruneKeepsNewest: does not state that backups with equal creation times keep their enumeration order (`OrderByDescending` is stable; the model's insertion sort is stable too, but no lemma says so).
- Text.IsDigit: `char.IsDigit` also accepts non-ASCII Unicode decimal digits; the model accepts only `0`-`9`.
- A `null` record inside a stored session list: `GetHoursPlayedAt` would throw on it; the model's lists hold no `null` records.
- Host SDK calls: `PluginDatabase.GetDefault` (the default result is modelled as the `Fetch` cases with no items), `result.IsManual`, `SetRaretyIndicator`, `GetGameDriveInstallRoot` (its result is the `root` input), and the constant `ValidateConfiguration` / `EnabledInSettings`.
- The game's `Guid` and `game.Id.ToString()`: a game id is its string key.
- Relative-path icon resolution belongs to another client; in this one icons pass through unchanged.
