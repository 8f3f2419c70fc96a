/** The score-submission checks and the chart response (`SubmitScoreHelper`). */
module SubmitScore {
  import opened Wrappers
  import opened Text
  import opened Scores

  // ---- integrity checks -------------------------------------------------

  /** The session's client version up to its first '.', or "" when the login sent none
      (`OsuVersion?.Split(".")[0] ?? ""`). */
  function SessionMajorVersion(osuVersion: Option<string>): string
  {
    if osuVersion.Some? then Split(osuVersion.value, '.')[0] else ""
  }

  /** `IsScoreValid`: all four ordinal comparisons hold. The score hash the server recomputes
      (`Score.ComputeOnlineHash`, not part of this model) is the function `onlineHash` of the
      score, the username, the client hash and the storyboard hash. */
  predicate IsScoreValid(sessionOsuVersion: Option<string>, sessionUserHash: Option<string>, username: string,
                         score: Score, osuVersion: string, clientHash: string, beatmapHash: string,
                         onlineBeatmapHash: string, storyboardHash: Option<string>,
                         onlineHash: (Score, string, string, Option<string>) -> string)
  {
    && "b" + osuVersion == SessionMajorVersion(sessionOsuVersion)
    && sessionUserHash == Some(clientHash)
    && score.scoreHash == onlineHash(score, username, clientHash, storyboardHash)
    && beatmapHash == onlineBeatmapHash
  }

  /** The disallowed mods: Relax, Autoplay, Target and ScoreV2. */
  const DisallowedMods: Mods := Relax | Autoplay | Target | ScoreV2

  /** `IsHasInvalidMods`: some disallowed bit is set. */
  predicate IsHasInvalidMods(mods: Mods)
    ensures IsHasInvalidMods(mods) <==> mods & DisallowedMods != 0
  {
    HasFlag(mods, Relax) || HasFlag(mods, Autoplay) || HasFlag(mods, Target) || HasFlag(mods, ScoreV2)
  }

  /** `IsScoreFailed`: neither passed nor played with NoFail. */
  predicate IsScoreFailed(score: Score)
  {
    !score.isPassed && !HasFlag(score.mods, NoFail)
  }

  /** `GetTimeElapsed`: the play time of a passed (or NoFail) play, the fail time otherwise. */
  function GetTimeElapsed(score: Score, scoreTime: int, scoreFailTime: int): (r: int)
    ensures r == if IsScoreFailed(score) then scoreFailTime else scoreTime
  {
    var isPassed := score.isPassed || HasFlag(score.mods, NoFail);
    if isPassed then scoreTime else scoreFailTime
  }

  // ---- the chart ---------------------------------------------------------

  /** The two instantiations of `GetChart<T>`: `T` is `Score` or the user-statistics type. */
  datatype ChartKind = ScoreChart | StatsChart

  /** What reflection can read from one object: property name ↦ rendered value
      (`ToString()`); a property that is missing or null has no entry. */
  type PropertyBag = map<string, string>

  const ChartEntries: seq<string> := ["Rank", "RankedScore", "TotalScore", "MaxCombo", "Accuracy", "Pp"]

  /** The property a chart entry reads (the `switch` in `GetChart`). */
  function EntryProperty(kind: ChartKind, entry: string): string
  {
    if entry == "RankedScore" then (if kind == ScoreChart then "TotalScore" else "RankedScore")
    else if entry == "Rank" then (if kind == ScoreChart then "LeaderboardRank" else "Rank")
    else if entry == "Pp" then "PerformancePoints"
    else entry
  }

  /** `char.ToLower(s[0]) + s[1..]` for ASCII text. */
  function LowerFirst(s: string): string
    requires s != []
  {
    var c := s[0];
    [if 'A' <= c <= 'Z' then (c as int + 32) as char else c] + s[1..]
  }

  /** `before?.GetType().GetProperty(name)?.GetValue(before)`, rendered. */
  function Lookup(obj: Option<PropertyBag>, name: string): Option<string>
  {
    if obj.Some? && name in obj.value then Some(obj.value[name]) else None
  }

  /** `GetChartEntry`: a missing value renders as "". */
  function ChartEntry(name: string, before: Option<string>, after: Option<string>): (r: string)
    ensures name + "Before:" <= r
    ensures var a := if after.Some? then after.value else "";
            |r| >= |a| && r[|r| - |a|..] == a
  {
    var b := if before.Some? then before.value else "";
    var a := if after.Some? then after.value else "";
    (name + "Before:" + b) + "|" + (name + "After:" + a)
  }

  /** The names of the chart entries, in order: each entry's name with its first letter
      lowered. */
  const ChartNames: seq<string> := ["rank", "rankedScore", "totalScore", "maxCombo", "accuracy", "pp"]

  /** The property the `k`-th chart entry reads for a chart of `kind`. */
  function ChartProperty(kind: ChartKind, k: nat): string
    requires k < |ChartNames|
  {
    if k == 0 then (if kind == ScoreChart then "LeaderboardRank" else "Rank")
    else if k == 1 then (if kind == ScoreChart then "TotalScore" else "RankedScore")
    else ["TotalScore", "MaxCombo", "Accuracy", "PerformancePoints"][k - 2]
  }

  /** The chart the response carries, entry by entry: rank, ranked score, total score, max
      combo, accuracy and pp, each with the property it reads for its kind. */
  function Chart(kind: ChartKind, before: Option<PropertyBag>, after: Option<PropertyBag>): seq<string>
  {
    seq(|ChartNames|, k requires 0 <= k < |ChartNames| =>
      ChartEntry(ChartNames[k], Lookup(before, ChartProperty(kind, k)), Lookup(after, ChartProperty(kind, k))))
  }

  /** `GetChart`: one entry per chart name, in order, named by lower-casing its first letter. */
  method GetChart(kind: ChartKind, before: Option<PropertyBag>, after: Option<PropertyBag>)
    returns (result: seq<string>)
    ensures result == Chart(kind, before, after)
  {
    result := [];
    var i := 0;
    while i < |ChartEntries|
      invariant 0 <= i <= |ChartEntries|
      invariant result == Chart(kind, before, after)[..i]
    {
      var entry := ChartEntries[i];
      var lowerFirst := LowerFirst(entry);
      var obj := EntryProperty(kind, entry);
      ChartEntryAt(kind, before, after, i);
      result := result + [ChartEntry(lowerFirst, Lookup(before, obj), Lookup(after, obj))];
      assert Chart(kind, before, after)[..i + 1] == Chart(kind, before, after)[..i] + [Chart(kind, before, after)[i]];
      i := i + 1;
    }
  }

  /** The `i`-th step of `GetChart` builds the `i`-th entry of `Chart`. */
  lemma ChartEntryAt(kind: ChartKind, before: Option<PropertyBag>, after: Option<PropertyBag>, i: nat)
    requires i < |ChartEntries|
    ensures var obj := EntryProperty(kind, ChartEntries[i]);
            ChartEntry(LowerFirst(ChartEntries[i]), Lookup(before, obj), Lookup(after, obj))
              == Chart(kind, before, after)[i]
  {
    EntryNameAt(i);
    assert EntryProperty(kind, ChartEntries[i]) == ChartProperty(kind, i);
  }

  /** Lowering the first letter of each entry gives the chart's entry names. */
  lemma EntryNameAt(i: nat)
    requires i < |ChartEntries|
    ensures LowerFirst(ChartEntries[i]) == ChartNames[i]
  {
    var e := ChartEntries[i];
    if i == 0 { assert LowerFirst(e) == "rank"; }
    else if i == 1 { assert LowerFirst(e) == "rankedScore"; }
    else if i == 2 { assert LowerFirst(e) == "totalScore"; }
    else if i == 3 { assert LowerFirst(e) == "maxCombo"; }
    else if i == 4 { assert LowerFirst(e) == "accuracy"; }
    else { assert LowerFirst(e) == "pp"; }
  }

  /** The user-statistics snapshot the response reads: its id and its readable properties
      (the statistics class is not part of this model). */
  datatype UserStats = UserStats(id: int, properties: PropertyBag)

  /** The beatmap columns the response reads; `approvedDate` is `LastUpdated` already
      formatted as yyyy-MM-dd. */
  datatype Beatmap = Beatmap(id: int, beatmapSetId: int, playcount: int, passcount: int,
                             approvedDate: string, url: string)

  /** The properties of a `Score` a chart can read, rendered: `TotalScore`, `MaxCombo` and
      the doubles `Accuracy` and `PerformancePoints` (rendered by `renderDouble`). `Score`
      has no `LeaderboardRank` property. */
  function ScoreProperties(score: Score, renderDouble: real -> string): (bag: PropertyBag)
    ensures "LeaderboardRank" !in bag
  {
    map[ "TotalScore" := IntToString(score.totalScore),
         "MaxCombo" := IntToString(score.maxCombo),
         "Accuracy" := renderDouble(score.accuracy),
         "PerformancePoints" := renderDouble(score.performancePoints) ]
  }

  /** The three lines of the submit response. */
  function BeatmapInfoLine(beatmap: Beatmap): string
  {
    "beatmapId:" + IntToString(beatmap.id) + "|beatmapSetId:" + IntToString(beatmap.beatmapSetId) +
    "|beatmapPlaycount:" + IntToString(beatmap.playcount) + "|beatmapPasscount:" + IntToString(beatmap.passcount) +
    "|approvedDate:" + beatmap.approvedDate
  }

  /** `GetChart(prevScore, newScore)`: there is no "before" side on a first play. */
  function BeatmapChart(newScore: Score, prevScore: Option<Score>, renderDouble: real -> string): seq<string>
  {
    var before := if prevScore.Some? then Some(ScoreProperties(prevScore.value, renderDouble)) else None;
    Chart(ScoreChart, before, Some(ScoreProperties(newScore, renderDouble)))
  }

  /** `GetChart(prevUser, user)`. */
  function OverallChart(user: UserStats, prevUser: UserStats): seq<string>
  {
    Chart(StatsChart, Some(prevUser.properties), Some(user.properties))
  }

  function BeatmapChartLine(beatmap: Beatmap, newScore: Score, prevScore: Option<Score>, renderDouble: real -> string): string
  {
    var scoreInfo := Join("|", BeatmapChart(newScore, prevScore, renderDouble));
    "chartId:beatmap|chartUrl:" + beatmap.url + "|chartName:Beatmap Ranking" + "|" + scoreInfo +
    "|onlineScoreId:" + IntToString(newScore.id)
  }

  function OverallChartLine(domain: string, user: UserStats, prevUser: UserStats, newAchievements: string): string
  {
    var userUrl := "https://" + domain + "/user/" + IntToString(user.id);
    "chartId:overall|chartUrl:" + userUrl + "|chartName:Overall Ranking|" +
    Join("|", OverallChart(user, prevUser)) +
    "|achievements-new:" + newAchievements
  }

  /** `GetScoreSubmitResponse`; the medals `MedalManager` unlocks arrive already rendered
      as `newAchievements`, and `domain` is the configured domain. */
  function GetScoreSubmitResponse(domain: string, beatmap: Beatmap, user: UserStats, prevUser: UserStats,
                                  newScore: Score, prevScore: Option<Score>, newAchievements: string,
                                  renderDouble: real -> string): string
  {
    BeatmapInfoLine(beatmap) + "\n" + BeatmapChartLine(beatmap, newScore, prevScore, renderDouble) + "\n" +
    OverallChartLine(domain, user, prevUser, newAchievements)
  }

  // ---- properties --------------------------------------------------------

  /** The version comparison accepts exactly the sessions whose client version is
      "b<version>" or begins with "b<version>."; a version that itself holds a '.' never
      matches. */
  lemma VersionCheck(sessionVersion: string, osuVersion: string)
    ensures ("b" + osuVersion == SessionMajorVersion(Some(sessionVersion))) <==>
            ('.' !in osuVersion &&
             (sessionVersion == "b" + osuVersion ||
              (|sessionVersion| > |osuVersion| + 1 &&
               sessionVersion[..|osuVersion| + 2] == "b" + osuVersion + ".")))
  {
    var v, p := sessionVersion, "b" + osuVersion;
    SplitHead(v, '.');
    var k := IndexOf(v, '.');
    if p == v[..k] {
      assert forall j :: 0 <= j < |osuVersion| ==> osuVersion[j] == p[j + 1] == v[j + 1];
      if k < |v| {
        assert v[..k + 1] == v[..k] + [v[k]];
      }
    }
    if '.' !in osuVersion {
      assert forall j :: 0 <= j < |p| ==> p[j] != '.' by {
        forall j | 0 <= j < |p| ensures p[j] != '.' {
          if j > 0 { assert p[j] == osuVersion[j - 1]; }
        }
      }
      if v == p {
        assert k == |v|;
      } else if |v| > |osuVersion| + 1 && v[..|p| + 1] == p + "." {
        assert forall j :: 0 <= j < |p| ==> v[j] == p[j];
        assert v[|p|] == '.';
        assert k == |p|;
        assert v[..k] == p;
      }
    }
  }

  /** A login that sent no client version has every score rejected. */
  lemma NoSessionVersionRejects(sessionUserHash: Option<string>, username: string, score: Score,
                                osuVersion: string, clientHash: string, beatmapHash: string,
                                onlineBeatmapHash: string, storyboardHash: Option<string>,
                                onlineHash: (Score, string, string, Option<string>) -> string)
    ensures !IsScoreValid(None, sessionUserHash, username, score, osuVersion, clientHash, beatmapHash,
                          onlineBeatmapHash, storyboardHash, onlineHash)
  {
    assert |"b" + osuVersion| > 0;
  }

  /** A score whose hash differs from the recomputed one is rejected, whatever else holds. */
  lemma ScoreHashMismatchRejects(sessionOsuVersion: Option<string>, sessionUserHash: Option<string>, username: string,
                                 score: Score, osuVersion: string, clientHash: string, beatmapHash: string,
                                 onlineBeatmapHash: string, storyboardHash: Option<string>,
                                 onlineHash: (Score, string, string, Option<string>) -> string)
    requires score.scoreHash != onlineHash(score, username, clientHash, storyboardHash)
    ensures !IsScoreValid(sessionOsuVersion, sessionUserHash, username, score, osuVersion, clientHash,
                          beatmapHash, onlineBeatmapHash, storyboardHash, onlineHash)
  {
  }

  /** The integrity check spelled out: the session's client version is "b<v>" or begins with
      "b<v>." for a `v` without '.', and the client hash, the recomputed score hash and the
      beatmap hash all match. */
  lemma ScoreValidIff(sessionOsuVersion: Option<string>, sessionUserHash: Option<string>, username: string,
                      score: Score, osuVersion: string, clientHash: string, beatmapHash: string,
                      onlineBeatmapHash: string, storyboardHash: Option<string>,
                      onlineHash: (Score, string, string, Option<string>) -> string)
    ensures IsScoreValid(sessionOsuVersion, sessionUserHash, username, score, osuVersion, clientHash,
                         beatmapHash, onlineBeatmapHash, storyboardHash, onlineHash)
            <==>
            && sessionOsuVersion.Some? && '.' !in osuVersion
            && (sessionOsuVersion.value == "b" + osuVersion ||
                (|sessionOsuVersion.value| > |osuVersion| + 1 &&
                 sessionOsuVersion.value[..|osuVersion| + 2] == "b" + osuVersion + "."))
            && sessionUserHash == Some(clientHash)
            && score.scoreHash == onlineHash(score, username, clientHash, storyboardHash)
            && beatmapHash == onlineBeatmapHash
  {
    if sessionOsuVersion.Some? {
      VersionCheck(sessionOsuVersion.value, osuVersion);
    } else {
      assert |"b" + osuVersion| > 0;
    }
  }

  /** A play counts as failed exactly when it was not passed and the NoFail bit is clear. */
  lemma FailedIffUnpassedWithoutNoFail(score: Score)
    ensures IsScoreFailed(score) <==> !score.isPassed && score.mods & NoFail == 0
  {
  }

  /** Mods outside the disallowed set never change the verdict: NoFail, DoubleTime,
      Nightcore and the rest are always accepted. */
  lemma AllowedModsDoNotMatter(mods: Mods, extra: Mods)
    requires extra & DisallowedMods == 0
    ensures IsHasInvalidMods(mods | extra) == IsHasInvalidMods(mods)
  {
    assert (mods | extra) & DisallowedMods == mods & DisallowedMods;
  }

  /** The time elapsed is the fail time exactly for failed plays. */
  lemma FailedPlaysReportFailTime(score: Score, scoreTime: int, scoreFailTime: int)
    requires scoreTime != scoreFailTime
    ensures IsScoreFailed(score) <==> GetTimeElapsed(score, scoreTime, scoreFailTime) == scoreFailTime
  {
  }

  /** A chart entry splits on '|' into its before and after halves. */
  lemma ChartEntryHalves(name: string, before: Option<string>, after: Option<string>)
    requires '|' !in name
    requires before.Some? ==> '|' !in before.value
    requires after.Some? ==> '|' !in after.value
    ensures var b := if before.Some? then before.value else "";
            var a := if after.Some? then after.value else "";
            Split(ChartEntry(name, before, after), '|') == [name + "Before:" + b, name + "After:" + a]
  {
    var b := if before.Some? then before.value else "";
    var a := if after.Some? then after.value else "";
    var x, y := name + "Before:" + b, name + "After:" + a;
    SplitAppend(x, y, '|');
    assert '|' !in "Before:" && '|' !in "After:";
    SplitFree(x, '|');
    SplitFree(y, '|');
  }

  lemma BlankBeforePrefix(name: string, after: Option<string>)
    ensures name + "Before:|" <= ChartEntry(name, None, after)
  {
    var a := if after.Some? then after.value else "";
    assert ChartEntry(name, None, after) == (name + "Before:|") + (name + "After:" + a);
  }

  /** With no "before" object (a first play) every entry's before half is blank: each entry
      begins with its name followed by "Before:|", in the order of `ChartNames`. */
  lemma NoBeforeObjectRendersBlank(kind: ChartKind, after: Option<PropertyBag>)
    ensures |Chart(kind, None, after)| == |ChartNames|
    ensures forall k :: 0 <= k < |ChartNames| ==> ChartNames[k] + "Before:|" <= Chart(kind, None, after)[k]
  {
    var c := Chart(kind, None, after);
    forall k | 0 <= k < |ChartNames| ensures ChartNames[k] + "Before:|" <= c[k] {
      var prop := ChartProperty(kind, k);
      BlankBeforePrefix(ChartNames[k], Lookup(after, prop));
    }
  }

  /** A score has no `LeaderboardRank` property, so the rank entry of the beatmap chart is
      always blank on both sides. */
  lemma ScoreChartRankIsBlank(prevScore: Option<Score>, newScore: Score, renderDouble: real -> string)
    ensures var before := if prevScore.Some? then Some(ScoreProperties(prevScore.value, renderDouble)) else None;
            Chart(ScoreChart, before, Some(ScoreProperties(newScore, renderDouble)))[0] == "rankBefore:|rankAfter:"
  {
  }

  /** The beatmap chart's ranked-score entry shows total scores: the previous one (blank on a
      first play) and the new one. */
  lemma ScoreChartRankedScoreIsTotalScore(prevScore: Option<Score>, newScore: Score, renderDouble: real -> string)
    ensures var before := if prevScore.Some? then Some(ScoreProperties(prevScore.value, renderDouble)) else None;
            var b := if prevScore.Some? then Some(IntToString(prevScore.value.totalScore)) else None;
            Chart(ScoreChart, before, Some(ScoreProperties(newScore, renderDouble)))[1]
              == ChartEntry("rankedScore", b, Some(IntToString(newScore.totalScore)))
  {
    var before := if prevScore.Some? then Some(ScoreProperties(prevScore.value, renderDouble)) else None;
    assert Lookup(Some(ScoreProperties(newScore, renderDouble)), "TotalScore") == Some(IntToString(newScore.totalScore));
    if prevScore.Some? {
      assert Lookup(before, "TotalScore") == Some(IntToString(prevScore.value.totalScore));
    }
  }

  /** Every value of a property bag is free of `c`. */
  predicate BagFree(bag: PropertyBag, c: char)
  {
    forall k :: k in bag ==> c !in bag[k]
  }

  /** A character that is not a letter, ':' or '|' appears in none of the fixed parts of a
      chart. */
  predicate OutsideChartText(c: char)
  {
    !('a' <= c <= 'z') && !('A' <= c <= 'Z') && c != ':' && c != '|'
  }

  lemma LookupFree(obj: Option<PropertyBag>, name: string, c: char)
    requires obj.Some? ==> BagFree(obj.value, c)
    ensures Lookup(obj, name).Some? ==> c !in Lookup(obj, name).value
  {
  }

  lemma ChartEntryFree(name: string, before: Option<string>, after: Option<string>, c: char)
    requires OutsideChartText(c) && c !in name
    requires before.Some? ==> c !in before.value
    requires after.Some? ==> c !in after.value
    ensures c !in ChartEntry(name, before, after)
  {
    var b := if before.Some? then before.value else "";
    var a := if after.Some? then after.value else "";
    assert c !in "Before:" && c !in "|" && c !in "After:";
    AppendFree(c, name, "Before:");
    AppendFree(c, name + "Before:", b);
    AppendFree(c, name, "After:");
    AppendFree(c, name + "After:", a);
    AppendFree(c, name + "Before:" + b, "|");
    AppendFree(c, name + "Before:" + b + "|", name + "After:" + a);
  }

  lemma ChartFree(kind: ChartKind, before: Option<PropertyBag>, after: Option<PropertyBag>, c: char)
    requires OutsideChartText(c)
    requires before.Some? ==> BagFree(before.value, c)
    requires after.Some? ==> BagFree(after.value, c)
    ensures forall k :: 0 <= k < |Chart(kind, before, after)| ==> c !in Chart(kind, before, after)[k]
  {
    var ch := Chart(kind, before, after);
    assert |ch| == |ChartNames|;
    forall k | 0 <= k < |ch| ensures c !in ch[k] {
      var prop := ChartProperty(kind, k);
      NameFree(k, c);
      LookupFree(before, prop, c);
      LookupFree(after, prop, c);
      ChartEntryFree(ChartNames[k], Lookup(before, prop), Lookup(after, prop), c);
    }
  }

  lemma NameFree(k: nat, c: char)
    requires k < |ChartNames| && OutsideChartText(c)
    ensures c !in ChartNames[k]
  {
    var n := ChartNames[k];
    assert forall i :: 0 <= i < |n| ==> 'a' <= n[i] <= 'z' || 'A' <= n[i] <= 'Z';
  }

  lemma ScorePropertiesFree(score: Score, renderDouble: real -> string)
    requires forall r :: '\n' !in renderDouble(r)
    ensures BagFree(ScoreProperties(score, renderDouble), '\n')
  {
    forall n: int { IntToStringFree(n, '\n'); }
  }

  lemma BeatmapInfoLineFree(beatmap: Beatmap)
    requires '\n' !in beatmap.approvedDate
    ensures '\n' !in BeatmapInfoLine(beatmap)
  {
    IntToStringFree(beatmap.id, '\n');
    IntToStringFree(beatmap.beatmapSetId, '\n');
    IntToStringFree(beatmap.playcount, '\n');
    IntToStringFree(beatmap.passcount, '\n');
    assert '\n' !in "beatmapId:" && '\n' !in "|beatmapSetId:" && '\n' !in "|beatmapPlaycount:";
    assert '\n' !in "|beatmapPasscount:" && '\n' !in "|approvedDate:";
  }

  lemma BeatmapChartFree(newScore: Score, prevScore: Option<Score>, renderDouble: real -> string)
    requires forall r :: '\n' !in renderDouble(r)
    ensures '\n' !in Join("|", BeatmapChart(newScore, prevScore, renderDouble))
  {
    var before := if prevScore.Some? then Some(ScoreProperties(prevScore.value, renderDouble)) else None;
    var after := Some(ScoreProperties(newScore, renderDouble));
    ScorePropertiesFree(newScore, renderDouble);
    if prevScore.Some? { ScorePropertiesFree(prevScore.value, renderDouble); }
    ChartFree(ScoreChart, before, after, '\n');
    JoinFree("|", Chart(ScoreChart, before, after), '\n');
  }

  lemma BeatmapChartLiteralsFree()
    ensures '\n' !in "chartId:beatmap|chartUrl:" && '\n' !in "|chartName:Beatmap Ranking"
    ensures '\n' !in "|" && '\n' !in "|onlineScoreId:"
  {
  }

  lemma BeatmapChartLineFree(beatmap: Beatmap, newScore: Score, prevScore: Option<Score>, renderDouble: real -> string)
    requires '\n' !in beatmap.url
    requires forall r :: '\n' !in renderDouble(r)
    ensures '\n' !in BeatmapChartLine(beatmap, newScore, prevScore, renderDouble)
  {
    BeatmapChartFree(newScore, prevScore, renderDouble);
    IntToStringFree(newScore.id, '\n');
    var scoreInfo := Join("|", BeatmapChart(newScore, prevScore, renderDouble));
    BeatmapChartLiteralsFree();
    var a1 := "chartId:beatmap|chartUrl:" + beatmap.url;
    AppendFree('\n', "chartId:beatmap|chartUrl:", beatmap.url);
    AppendFree('\n', a1, "|chartName:Beatmap Ranking");
    AppendFree('\n', a1 + "|chartName:Beatmap Ranking", "|");
    var a2 := a1 + "|chartName:Beatmap Ranking" + "|";
    AppendFree('\n', a2, scoreInfo);
    AppendFree('\n', a2 + scoreInfo, "|onlineScoreId:");
    AppendFree('\n', a2 + scoreInfo + "|onlineScoreId:", IntToString(newScore.id));
  }

  lemma OverallChartFree(user: UserStats, prevUser: UserStats)
    requires BagFree(user.properties, '\n') && BagFree(prevUser.properties, '\n')
    ensures '\n' !in Join("|", OverallChart(user, prevUser))
  {
    ChartFree(StatsChart, Some(prevUser.properties), Some(user.properties), '\n');
    JoinFree("|", OverallChart(user, prevUser), '\n');
  }

  lemma OverallChartLiteralsFree()
    ensures '\n' !in "https://" && '\n' !in "/user/"
    ensures '\n' !in "chartId:overall|chartUrl:" && '\n' !in "|chartName:Overall Ranking|"
    ensures '\n' !in "|achievements-new:"
  {
  }

  lemma OverallChartLineFree(domain: string, user: UserStats, prevUser: UserStats, newAchievements: string)
    requires '\n' !in domain && '\n' !in newAchievements
    requires BagFree(user.properties, '\n') && BagFree(prevUser.properties, '\n')
    ensures '\n' !in OverallChartLine(domain, user, prevUser, newAchievements)
  {
    OverallChartFree(user, prevUser);
    IntToStringFree(user.id, '\n');
    OverallChartLiteralsFree();
    AppendFree('\n', "https://", domain);
    AppendFree('\n', "https://" + domain, "/user/");
    AppendFree('\n', "https://" + domain + "/user/", IntToString(user.id));
    var url := "https://" + domain + "/user/" + IntToString(user.id);
    var chart := Join("|", OverallChart(user, prevUser));
    AppendFree('\n', "chartId:overall|chartUrl:", url);
    AppendFree('\n', "chartId:overall|chartUrl:" + url, "|chartName:Overall Ranking|");
    var a := "chartId:overall|chartUrl:" + url + "|chartName:Overall Ranking|";
    AppendFree('\n', a, chart);
    AppendFree('\n', a + chart, "|achievements-new:");
    AppendFree('\n', a + chart + "|achievements-new:", newAchievements);
  }

  /** The submit response is three lines: the beatmap, the beatmap chart and the overall
      chart, provided no value it embeds holds a line break. */
  lemma SubmitResponseLines(domain: string, beatmap: Beatmap, user: UserStats, prevUser: UserStats,
                            newScore: Score, prevScore: Option<Score>, newAchievements: string,
                            renderDouble: real -> string)
    requires '\n' !in domain && '\n' !in beatmap.approvedDate && '\n' !in beatmap.url && '\n' !in newAchievements
    requires BagFree(user.properties, '\n') && BagFree(prevUser.properties, '\n')
    requires forall r :: '\n' !in renderDouble(r)
    ensures Split(GetScoreSubmitResponse(domain, beatmap, user, prevUser, newScore, prevScore, newAchievements, renderDouble), '\n')
            == [BeatmapInfoLine(beatmap), BeatmapChartLine(beatmap, newScore, prevScore, renderDouble),
                OverallChartLine(domain, user, prevUser, newAchievements)]
  {
    var l1 := BeatmapInfoLine(beatmap);
    var l2 := BeatmapChartLine(beatmap, newScore, prevScore, renderDouble);
    var l3 := OverallChartLine(domain, user, prevUser, newAchievements);
    BeatmapInfoLineFree(beatmap);
    BeatmapChartLineFree(beatmap, newScore, prevScore, renderDouble);
    OverallChartLineFree(domain, user, prevUser, newAchievements);
    SplitThreeLines(l1, l2, l3, '\n');
  }
}
