# Sunrise score pipeline and command handlers, in Dafny

This project models the logic at the centre of the Sunrise osu! server and proves
properties of it:

- **Accuracy and leaderboard ranking.** Per-mode accuracy of a play. A player's weighted
  accuracy and weighted performance points: the best plays sorted by pp and weighted by
  0.95^i, plus the play-count bonus.
- **Score submission.** The four-way integrity check of a submitted score, the disallowed-mod
  test, the choice between elapsed play time and fail time, and the "chart" text the client is
  sent after a submission.
- **The stored user row.** The friends list, kept as comma-separated text, and how privilege
  flags map to the rank bits the client shows.
- **The stored score.** The mod normalisation that clears the Nightcore bit (so Nightcore with
  DoubleTime is stored as DoubleTime), and the ranked-status test.
- **The session attributes of a connected player.** Country derivation at login, and the
  presence and statistics views, including the bot short-circuit and the location privacy flag.
- **Three guard ladders and two web endpoints:**
  - the `!mp host` chat command;
  - the multiplayer change-password packet handler;
  - the `!restrict` moderation command;
  - the `lastfm` endpoint, which the client uses to report anti-cheat flags;
  - the placeholder `osu-getbeatmapinfo` answer.

Modules: `Wrappers`, `Text`, `Scores`, `Calculators`, `SubmitScore`, `Users`, `Presence`,
`Multiplayer`, `Moderation`, `Web`. `Text` holds the .NET string pieces the code relies on:
`Int32.ToString`, `int.Parse`, `Split` and `Join`.

The model takes the code's own shape:
- State the code updates in place is a Dafny `class` with `modifies` clauses: `User`,
  `UserAttributes`, the room, the session, and the moderation store.
- The loop of `GetChart` is a `while` loop proved against a reference `Chart` function. That
  function pairs each of the six entry names with the property it reads for the chart's kind.
- `GetPrivilegeRank` builds its result bit by bit, as the source does.
- Everything else is functions and lemmas.

Exceptions the code can raise are error outcomes, never preconditions:
- `int.Parse` on a bad friends entry or a bad flags value;
- indexing an empty query;
- the `InvalidOperationException` of the host command;
- `byte.Parse` of a country code outside 0..255.

The database, the clock, the session directory and `MedalManager` are parameters. So are the
configured domain and bot prefix, and the rendering of doubles.

Enum values the code uses but does not declare are stated as constants with their usual
osu!/bancho values:
- `Mods`: NoFail 1, DoubleTime 64, Relax 128, Nightcore 512, Autoplay 2048, Target 2^23,
  ScoreV2 2^29;
- `GameMode`: 0..3;
- `BeatmapStatus`: Ranked 1, Approved 2 and the rest;
- `PlayerRank`: Default 1, Bat 2, Supporter 4, SuperMod 16;
- `UserPrivileges`: User 0, Supporter 1, Bat 2, Admin 4, Developer 8;
- `LastFmFlags`: HqAssembly 2^17, HqFile 2^18, RegistryEdits 2^19.

## Model

| member | source | states |
|---|---|---|
| Text.Utf16Length | Server/Chat/Commands/Moderation/RestrictCommand.cs:28 | `string.Length` lies between the character count and twice it, and equals the character count when every character is in the Basic Multilingual Plane |
| Text.Utf16LengthAppend | Server/Chat/Commands/Moderation/RestrictCommand.cs:28 | the code-unit count of a concatenation is the sum of the parts' counts |
| Text.Utf16LengthOfChar | Server/Chat/Commands/Moderation/RestrictCommand.cs:28 | one character counts one code unit, or two above U+FFFF; with the sum rule this fixes the count of every string |
| Text.SurrogatePairsCountTwice | Server/Chat/Commands/Moderation/RestrictCommand.cs:28 | two emoji are two characters but four UTF-16 code units |
| Text.ParseSkipsTrailingNulls | Server/Database/Models/User.cs:42 | `int.Parse` accepts white space and then '\0' characters after the digits, but not a '\0' followed by white space |
| Calculators.CalculateAccuracy | Server/Utils/Calculators.cs:157-175 | accuracy is 0 when there are no hits and for any mode other than the four defined ones |
| Calculators.AccuracyInRange | Server/Utils/Calculators.cs:165-172 | with non-negative counts, accuracy lies in [0, 100] in every mode |
| Calculators.StandardAllGreatsIsPerfect | Server/Utils/Calculators.cs:167-168 | a standard play of only 300s has accuracy 100 |
| Calculators.AllMissesIsZero | Server/Utils/Calculators.cs:159-174 | a play of only misses has accuracy 0 in every mode |
| Calculators.GekiKatuOnlyCountInMania | Server/Utils/Calculators.cs:159-161 | outside mania, geki and katu counts change neither the hit total nor the accuracy |
| Calculators.TaikoGoodIsHalfGreat | Server/Utils/Calculators.cs:169 | in taiko a 100 weighs half a 300: one of each gives 75 |
| Calculators.DecayInUnit | Server/Utils/Calculators.cs:127 | 0 < 0.95^N ≤ 1, and < 1 for N > 0, so the accuracy bonus is finite |
| Calculators.GeometricSumClosedForm | Server/Utils/Calculators.cs:124-127 | the bonus denominator 20·(1−0.95^N) is exactly the sum of the weights 0.95^0..0.95^(N−1) |
| Calculators.SortByPp | Server/Utils/Calculators.cs:122 | the re-sort yields a pp-descending permutation of its input |
| Calculators.Top100AsWritten | Server/Utils/Calculators.cs:119-122 | the kept list is the first min(N,100) of bests ++ [score], as a multiset, in descending pp order |
| Calculators.CalculateUserWeightedAccuracy | Server/Utils/Calculators.cs:108-130 | 0 when bests plus the new play is empty |
| Calculators.CalculateUserWeightedPerformance | Server/Utils/Calculators.cs:132-155 | 0 when bests plus the new play is empty |
| Calculators.WeightedAccuracyOfOnePlay | Server/Utils/Calculators.cs:124-129 | with a single play, weighted accuracy equals that play's accuracy |
| Calculators.WeightedPerformanceOfOnePlay | Server/Utils/Calculators.cs:148-154 | with a single play, weighted pp is its pp + 416.6667·(1−0.9994) |
| Calculators.WeightedAccuracyInRange | Server/Utils/Calculators.cs:119-129 | with accuracies in [0,100], weighted accuracy lies in [0,100] for any number of plays |
| Calculators.KeptPlaysComeFromBests | Server/Utils/Calculators.cs:119 | every kept play is one of the fetched bests or the new play |
| Calculators.DescendingPermutationsAgreeOnPp | Server/Utils/Calculators.cs:146-151 | any two pp-descending orders of the same plays give the same pp sequence |
| Calculators.WeightedPerformanceIgnoresTieOrder | Server/Utils/Calculators.cs:143-154 | weighted pp is the same whichever descending order the sort picks among ties |
| Calculators.AsWrittenDropsBetterNewPlay | Server/Utils/Calculators.cs:139-146 | with 100 or more fetched bests, a new play better than all of them is not among the kept plays |
| Calculators.AsWrittenIgnoresNewPlayValues | Server/Utils/Calculators.cs:139-154 | with 100 or more fetched bests, both weighted results are the same whatever the new play is |
| Calculators.Top100Intended | Server/Utils/Calculators.cs:143-146 | sorting first and then keeping 100 yields a descending list of min(N,100) plays drawn from all plays, each worth at least as much as every play it drops |
| Calculators.IntendedKeepsBetterNewPlay | Server/Utils/Calculators.cs:143-146 | sorting first, a new play better than every best is kept |
| Calculators.IntendedWeightedPerformance | Server/Utils/Calculators.cs:143-154 | the corrected weighted pp is 0 on no plays |
| Calculators.CutsKeepSamePlays | Server/Utils/Calculators.cs:119-122 | with fewer than 100 bests both cuts keep every play, in the order of the pp sort |
| Calculators.CutsAgreeBelowHundred | Server/Utils/Calculators.cs:143-146 | with fewer than 100 bests, the as-written and corrected weighted pp agree |
| Scores.SerializedMods | Server/Database/Models/Score.cs:110 | the result has no Nightcore bit, and adding back the Nightcore bit of the mods gives the mods |
| Scores.SerializedModsSubset | Server/Database/Models/Score.cs:110 | serialized mods are a subset of the mods, equal to them without Nightcore |
| Scores.SerializedModsIdempotent | Server/Database/Models/Score.cs:110 | serializing twice is serializing once |
| Scores.NightcoreDoubleTimeSerialisesToDoubleTime | Server/Database/Models/Score.cs:102-110 | DTNC becomes DT |
| Scores.RankedStatuses | Server/Database/Models/Score.cs:111 | `IsRanked` holds iff the status is Ranked or Approved; graveyard, WIP, pending, qualified and loved are not |
| SubmitScore.VersionCheck | Server/Helpers/SubmitScoreHelper.cs:30-35 | the version check passes iff the session version is "b<v>" or starts with "b<v>.", and never when v holds a '.' |
| SubmitScore.NoSessionVersionRejects | Server/Helpers/SubmitScoreHelper.cs:30-41 | a session without a client version fails validation |
| SubmitScore.ScoreHashMismatchRejects | Server/Helpers/SubmitScoreHelper.cs:31-41 | a score hash different from the recomputed one fails validation whatever else holds |
| SubmitScore.ScoreValidIff | Server/Helpers/SubmitScoreHelper.cs:27-42 | `IsScoreValid` holds iff the session version's first '.'-segment is "b<v>", the client hash matches the session's, the score hash equals the recomputed one and the two beatmap hashes are equal |
| SubmitScore.IsHasInvalidMods | Server/Helpers/SubmitScoreHelper.cs:64-69 | invalid iff the mods meet the Relax/Autoplay/Target/ScoreV2 mask |
| SubmitScore.AllowedModsDoNotMatter | Server/Helpers/SubmitScoreHelper.cs:64-69 | adding any mods outside that mask (NoFail and the rest) never changes the verdict |
| SubmitScore.GetTimeElapsed | Server/Helpers/SubmitScoreHelper.cs:71-80 | the fail time for failed plays (as `IsScoreFailed` defines them), the play time otherwise |
| SubmitScore.FailedPlaysReportFailTime | Server/Helpers/SubmitScoreHelper.cs:71-80 | when the two times differ, the elapsed time is the fail time exactly for failed plays |
| SubmitScore.FailedIffUnpassedWithoutNoFail | Server/Helpers/SubmitScoreHelper.cs:77-80 | `IsScoreFailed` holds iff the play was not passed and the NoFail bit is clear |
| SubmitScore.GetChart | Server/Helpers/SubmitScoreHelper.cs:82-113 | the loop yields the six entries of the reference chart, in the order rank, rankedScore, totalScore, maxCombo, accuracy, pp |
| SubmitScore.ChartEntryAt | Server/Helpers/SubmitScoreHelper.cs:96-109 | lower-casing the first letter and the per-kind property switch give the listed name and property of each entry |
| SubmitScore.EntryNameAt | Server/Helpers/SubmitScoreHelper.cs:84-98 | lowering the first letter of each entry name gives rank, rankedScore, totalScore, maxCombo, accuracy, pp |
| SubmitScore.ChartEntry | Server/Helpers/SubmitScoreHelper.cs:115-118 | an entry starts with "<name>Before:" and ends with the after value, null rendering as "" |
| SubmitScore.ChartEntryHalves | Server/Helpers/SubmitScoreHelper.cs:115-118 | an entry splits at its bar into "nameBefore:b" and "nameAfter:a", null rendering as "" |
| SubmitScore.NoBeforeObjectRendersBlank | Server/Helpers/SubmitScoreHelper.cs:108-118 | with no previous object every entry starts with its name, "Before:" and the bar, so the before value is blank |
| SubmitScore.ScoreProperties | Server/Database/Models/Score.cs:9-98 | a score offers no `LeaderboardRank` property |
| SubmitScore.ScoreChartRankIsBlank | Server/Helpers/SubmitScoreHelper.cs:103 | the beatmap chart's rank entry is always blank on both sides |
| SubmitScore.ScoreChartRankedScoreIsTotalScore | Server/Helpers/SubmitScoreHelper.cs:102 | the beatmap chart's ranked-score entry shows the previous and new total scores |
| SubmitScore.SubmitResponseLines | Server/Helpers/SubmitScoreHelper.cs:44-62 | the `GetScoreSubmitResponse` text splits into exactly three lines: beatmap info, beatmap chart with the score id, overall chart with the new medals |
| Users.PrivilegeRank | Server/Database/Models/User.cs:61-81 | Default always; SuperMod iff Developer; Bat iff Admin or Bat; Supporter iff Supporter |
| Users.PrivilegeRankBits | Server/Database/Models/User.cs:61-81 | no rank bit other than those four is ever set |
| Users.PlainUserRank | Server/Database/Models/User.cs:63 | no flags give the Default rank only |
| Users.User.GetPrivilegeRank | Server/Database/Models/User.cs:61-81 | the bit-by-bit accumulation equals the rank of the user's privileges |
| Users.ParseAll | Server/Database/Models/User.cs:42 | succeeds iff every segment parses, and then gives, in order, one id per segment: the parse of that segment |
| Users.FriendsOf | Server/Database/Models/User.cs:40-43 | `FriendsList` is readable iff every non-empty comma segment parses, and is then those segments' values in order |
| Users.Without | Server/Database/Models/User.cs:58 | the ids other than the removed one, each as often as before, and no others |
| Users.WithoutAppend | Server/Database/Models/User.cs:58 | filtering distributes over concatenation, so the kept ids stay in their order |
| Users.WithoutAbsent | Server/Database/Models/User.cs:55-58 | filtering out an absent id changes nothing |
| Users.SignedValue | Server/Chat/Commands/Moderation/RestrictCommand.cs:46 | the flag set read as a signed 32-bit integer: in range, and equal to the unsigned value or that value minus 2^32 |
| Users.User.constructor | Server/Database/Models/User.cs:8-38 | a new row has empty friends, is not restricted, and has the given fields |
| Users.User.AddFriend | Server/Database/Models/User.cs:45-51 | throws iff the list is unreadable; otherwise the list gains the id unless present; only `Friends` changes |
| Users.User.RemoveFriend | Server/Database/Models/User.cs:53-59 | throws iff the list is unreadable; otherwise the list loses every occurrence of the id; only `Friends` changes |
| Users.FriendsAppend | Server/Database/Models/User.cs:50 | appending ",id" to readable text appends id to the list |
| Users.FriendsOfJoin | Server/Database/Models/User.cs:58 | the comma join of a list reads back as that list, the empty list included |
| Users.AddFriendList | Server/Database/Models/User.cs:47-50 | after AddFriend the list is the old one, or the old one plus the id when it was absent |
| Users.AddFriendIdempotent | Server/Database/Models/User.cs:47-48 | AddFriend twice equals AddFriend once |
| Users.RemoveFriendList | Server/Database/Models/User.cs:55-58 | after RemoveFriend the list lacks the id with the others in order; an absent id leaves the text untouched |
| Users.AddThenRemoveRestores | Server/Database/Models/User.cs:45-59 | adding then removing an id that was absent restores the list |
| Presence.ToShort | Server/Objects/UserAttributes.cs:20 | the `(short)` cast lands in the 16-bit range and keeps values already in it |
| Presence.SessionCountry | Server/Objects/UserAttributes.cs:20 | the session country is set iff the name parses to a non-zero code, and is then that code |
| Presence.UserAttributes.constructor | Server/Objects/UserAttributes.cs:14-42 | location, country, version and client hash come from the login; defaults for the rest |
| Presence.UserAttributes.GetPlayerPresence | Server/Objects/UserAttributes.cs:44-63 | fails iff the shown country is outside 0..255; otherwise every field: id, name, timezone, location (0 when hidden), code, permissions, rank (0 for a bot, else the lookup in the current mode), play mode, client flag |
| Presence.UserAttributes.GetPlayerData | Server/Objects/UserAttributes.cs:65-83 | the data carries the user id and the current status |
| Presence.UserAttributes.UpdateLastPing | Server/Objects/UserAttributes.cs:86-89 | only the last-ping time changes |
| Presence.CurrentModeIsStatusMode | Server/Objects/UserAttributes.cs:93-96 | `GetCurrentGameMode` is the status's play mode, standard for a session that has sent no status |
| Presence.ShownCountryFallback | Server/Objects/UserAttributes.cs:57 | the location's parsed code is shown when non-zero, the stored country otherwise |
| Presence.HiddenLocationIsZero | Server/Objects/UserAttributes.cs:55-56 | a hidden location reports latitude and longitude 0 |
| Presence.ShownLocationIsStored | Server/Objects/UserAttributes.cs:55-56 | a shown location reports the resolved coordinates |
| Presence.BotPresenceNeedsNoLookup | Server/Objects/UserAttributes.cs:48 | a bot's presence has rank 0 and does not depend on the rank lookup |
| Presence.BotDataNeedsNoLookup | Server/Objects/UserAttributes.cs:69-70 | a bot's data is its id and status with rank 0 and every statistic 0, whatever the lookups say |
| Presence.PlayerDataFromStats | Server/Objects/UserAttributes.cs:69-81 | a player's data reads the current mode's statistics: accuracy divided by 100, counters unchanged |
| Multiplayer.Match.TransferHost | Server/Objects/ChatCommands/Multiplayer/MultiHostCommand.cs:47 | the slot's occupant becomes host; the call is logged; nothing else changes |
| Multiplayer.Match.ChangePassword | Server/Handlers/Multiplayer/MultiChangePasswordHandler.cs:19 | the password becomes the given one; the call is logged; nothing else changes |
| Multiplayer.Session.SendChannelMessage | Server/Objects/ChatCommands/Multiplayer/MultiHostCommand.cs:20 | one message is appended to the session's outbox |
| Multiplayer.FirstSlotOf | Server/Objects/ChatCommands/Multiplayer/MultiHostCommand.cs:39 | the first slot the user occupies, or none when no slot holds them |
| Multiplayer.DecideHost | Server/Objects/ChatCommands/Multiplayer/MultiHostCommand.cs:18-49 | a non-host is refused with no transfer; a transfer goes to the target's first slot |
| Multiplayer.MultiHost | Server/Objects/ChatCommands/Multiplayer/MultiHostCommand.cs:11-52 | throws iff there is no channel or room, and then nothing changes; otherwise exactly one reply on the channel, and the host changes only to the found target |
| Multiplayer.MultiChangePassword | Server/Handlers/Multiplayer/MultiChangePasswordHandler.cs:12-21 | only the host changes the password, with exactly one call; the session is not written to |
| Multiplayer.NoArgumentsGivesUsage | Server/Objects/ChatCommands/Multiplayer/MultiHostCommand.cs:24-28 | a host giving no arguments gets the usage text and no transfer |
| Multiplayer.UnknownTargetNotFound | Server/Objects/ChatCommands/Multiplayer/MultiHostCommand.cs:31-37 | an unknown username gives "User not found." and no transfer |
| Multiplayer.AbsentTargetNotInRoom | Server/Objects/ChatCommands/Multiplayer/MultiHostCommand.cs:39-45 | a user in no slot gives "User is not in the room." and no transfer |
| Multiplayer.PresentTargetTransfers | Server/Objects/ChatCommands/Multiplayer/MultiHostCommand.cs:39-49 | a user in the room receives the host, through their first slot, with the confirmation reply |
| Moderation.ModerationStore.RestrictPlayer | Server/Chat/Commands/Moderation/RestrictCommand.cs:52 | the request is logged, and the user is restricted when the write is stored |
| Moderation.DecideRestrict | Server/Chat/Commands/Moderation/RestrictCommand.cs:16-50 | a restriction needs two arguments, an integer id of a known user, a first reason word of 3..256 UTF-16 code units, and a privilege below SuperMod as signed values; the reason is args[1..] joined by spaces |
| Moderation.Restrict | Server/Chat/Commands/Moderation/RestrictCommand.cs:14-56 | refusals leave the store untouched; otherwise one restriction by the issuer for the joined reason, and a reply that reflects the resulting state |
| Moderation.TooFewArgumentsGiveUsage | Server/Chat/Commands/Moderation/RestrictCommand.cs:16-20 | no arguments, or one, give the usage text |
| Moderation.NonIntegerIdRefused | Server/Chat/Commands/Moderation/RestrictCommand.cs:22-26 | a non-integer id gives "Invalid user id." |
| Moderation.BadReasonLengthRefused | Server/Chat/Commands/Moderation/RestrictCommand.cs:28-32 | a first reason word outside 3..256 UTF-16 code units is refused |
| Moderation.OnlyFirstReasonWordChecked | Server/Chat/Commands/Moderation/RestrictCommand.cs:28-34 | only args[1] is length-checked, and the reason is args[1..] joined by single spaces |
| Moderation.AcceptedRequestRestricts | Server/Chat/Commands/Moderation/RestrictCommand.cs:16-50 | with two or more arguments, a parsing id of a known unprotected user and a first reason word of 3..256 code units, the user is restricted for args[1..] joined by spaces |
| Moderation.UnknownUserNotFound | Server/Chat/Commands/Moderation/RestrictCommand.cs:38-44 | an id that names no known user gives "User not found." and restricts nobody |
| Moderation.ProtectedTargetRefused | Server/Chat/Commands/Moderation/RestrictCommand.cs:46-50 | a target whose signed privilege value reaches SuperMod is refused |
| Moderation.DeclaredPrivilegesAreBelowSuperMod | Server/Chat/Commands/Moderation/RestrictCommand.cs:46 | every combination of the declared privilege flags is below SuperMod |
| Moderation.HighBitIsNeverProtected | Server/Chat/Commands/Moderation/RestrictCommand.cs:46 | a privilege value with bit 31 set is negative and never protected |
| Moderation.ReasonLengthCountsCodeUnits | Server/Chat/Commands/Moderation/RestrictCommand.cs:28-32 | two emoji pass the length check, as four UTF-16 code units, while two letters fail it |
| Web.FlagsReason | Server/Controllers/WebController.cs:76-86 | hq reason iff an hq bit is set; registry reason iff only the registry bit is set; none iff no flagged bit |
| Web.DecideLastFm | Server/Controllers/WebController.cs:64-88 | unknown credentials give "error: pass"; a restriction is always of the caller and answered "-3" |
| Web.LastFm | Server/Controllers/WebController.cs:59-89 | at most one restriction, by moderator -1, with the decided reason; the store is otherwise untouched |
| Web.NonFlagQueryRestrictsNobody | Server/Controllers/WebController.cs:69-70 | a query not starting with 'a' gives "-3" and no restriction |
| Web.ReportedFlagsAreRead | Server/Controllers/WebController.cs:72-88 | the flags are the integer after the 'a'; no flagged bit gives an empty OK |
| Web.HqTakesPrecedence | Server/Controllers/WebController.cs:76-86 | with an hq bit and the registry bit both set, only the hq reason is used |
| Web.BeatmapInfoLines | Server/Controllers/WebController.cs:104 | a hundred lines, line i being i followed by the fixed placeholder columns |
| Web.BeatmapInfoHasHundredLines | Server/Controllers/WebController.cs:104 | the `GetBeatmapInfo` answer splits on '\n' into exactly those hundred lines |

## Left out

- The native rosu-pp performance calculation and beatmap difficulty in `Calculators.cs`
  (`CalculatePerformancePoints`, `RecalcuteBeatmapDifficulty`, `GetUserPerformance`): it is a
  foreign library. Play pp is an input.
- Calculators.CalculateAccuracy: computed over exact integers and reals. It does not model the
  32-bit overflow of `count × 300`, the `float` rounding or the error of `Math.Pow`.
- Calculators.CalculateUserWeightedAccuracy: the fetched bests are a parameter.
  `GetUserBestScores` is not part of this model: its database query, its ordering and its
  exclusion of the submitted beatmap are left out. `GetSortedScoresByPP` is modelled as an
  insertion sort by pp, descending. The model proves that the result is descending and a
  permutation. It does not prove that plays with equal pp keep their fetched order.
- Calculators.CalculateUserWeightedAccuracy: the result depends on how plays with equal pp are
  ordered, so it is proved only for the sort modelled here. Weighted pp is proved the same for
  every descending order.
- SubmitScore.IsScoreValid: `Score.ComputeOnlineHash` is not part of this model. It is the
  function parameter `onlineHash`.
- SubmitScore.GetScoreSubmitResponse: the medals from `MedalManager` arrive as a rendered
  string and the configured domain is a parameter. So are `ToString` of doubles and the
  yyyy-MM-dd date format.
- SubmitScore.GetChart: reflection over `Score` and the user-statistics class is modelled as a
  map from property names to rendered values. The statistics class is not part of this model.
  `char.ToLower` is modelled for ASCII letters only.
- Presence.UserAttributes.GetPlayerPresence: `CountryCodes` and `Enum.TryParse` are not part
  of this model; they are the parameter `parseCountry`. The cast of the rank from `long` to
  `int` is not modelled. The database rank and statistics lookups are function parameters.
- `DateTime.UtcNow` is a `now` parameter: in `UserAttributes` for its construction and
  `UpdateLastPing`, and in `User` for the register date.
- Multiplayer: `Match`, `SessionRepository` and the packet decoder are not part of this model.
  They are stubbed as follows:
  - the room is a sequence of slots keyed by position;
  - `HasHostPrivileges` is equality with the host id;
  - `TransferHost` gives the host to the slot's occupant;
  - `GetSession` is a lookup in a map by username;
  - the decoded `GamePassword` is a parameter.
- Moderation.Restrict: the user table is a map. `RestrictPlayer` and `IsRestricted` are a
  restriction log and a restricted set; whether the write succeeds is the parameter `stored`.
- Moderation.Restrict: the protection test `Privilege >= PlayerRank.SuperMod` compares a
  `UserPrivileges` value with a `PlayerRank` value. C# defines no `>=` between two different
  enum types, and the declarations (and any conversion that makes the line compile) are not
  part of this model. So the meaning of the comparison is assumed: both values are read as
  their underlying `int` and compared as signed integers (`Users.SignedValue`).
  `Moderation.DeclaredPrivilegesAreBelowSuperMod` shows that, with the values above, this test
  protects no user whose flags are among those declared. Because the enums are not part of this
  model, this is recorded here rather than as a finding.
- Moderation.DecideRestrict: the reason length is `string.Length`, counted in UTF-16 code
  units (`Text.Utf16Length`). A character outside the Basic Multilingual Plane counts as two.
  Unpaired surrogates cannot occur in a Dafny string, so they are not modelled.
- Web.LastFm: the restriction is started without being awaited. Its completion and its
  ordering relative to the response are not modelled.
- The credential check `TryGetSession` is a function parameter.
- The parse model covers `int.Parse`/`int.TryParse` with the default integer style: leading
  white space, one sign, and trailing white space followed by trailing '\0' characters.
  Culture-specific signs are not modelled.
- Left out entirely: `async`/`Task`, service lookup, metrics, and every other endpoint and file
  of the server.

## Findings

| source | as written | input that shows it | evidently intended | confidence | as-written member | corrected member |
|---|---|---|---|---|---|---|
| Server/Utils/Calculators.cs:119-122 | `Take(100)` is applied to bests ++ [new play] before the re-sort, so the new play, appended last, is cut whenever 100 bests were fetched | 100 fetched bests, each with less pp than the new play | sort all plays first, then keep the best 100 | not executed; depends on `GetUserBestScores` returning 100 or more rows | Calculators.AsWrittenDropsBetterNewPlay | Calculators.IntendedKeepsBetterNewPlay |
