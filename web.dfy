/** Two endpoints of the web controller: the client's `lastfm` report, which doubles as an
    anti-cheat channel, and the placeholder beatmap-info answer for multiplayer. */
module Web {
  import opened Wrappers
  import opened Text
  import opened Moderation

  // ---- lastfm --------------------------------------------------------------

  /** `LastFmFlags`: the client's anti-cheat bits this endpoint reads. */
  type LastFmFlags = bv32
  const HqAssembly: LastFmFlags := 0x2_0000
  const HqFile: LastFmFlags := 0x4_0000
  const RegistryEdits: LastFmFlags := 0x8_0000

  const HqReason := "hq!osu found running"
  const RegistryReason := "Osu multi account registry edits found"

  /** The cast `(LastFmFlags)int`: the two's-complement bits of a 32-bit integer. */
  function ToFlags(v: int32): LastFmFlags
  {
    (if v < 0 then v as int + 0x1_0000_0000 else v as int) as bv32
  }

  /** What the endpoint answers: a text body, an empty OK, or an exception (the query is
      empty, or its tail is not a 32-bit integer). */
  datatype LastFmResult = Text(body: string) | EmptyOk | Threw

  /** The reason a call restricts its user for, if any. */
  function FlagsReason(flags: LastFmFlags): (reason: Option<string>)
    ensures reason == Some(HqReason) <==> flags & (HqAssembly | HqFile) != 0
    ensures reason == Some(RegistryReason) <==> flags & (HqAssembly | HqFile) == 0 && flags & RegistryEdits != 0
    ensures reason.None? <==> flags & (HqAssembly | HqFile | RegistryEdits) == 0
  {
    if flags & (HqAssembly | HqFile) != 0 then Some(HqReason)
    else if flags & RegistryEdits != 0 then Some(RegistryReason)
    else None
  }

  /** The decision of `LastFm`: the answer, and the user and reason of the restriction it
      requests, if any. `sessionOf` stands for the session directory's credential check and
      gives the user id of the matching session. */
  datatype LastFmDecision = LastFmDecision(result: LastFmResult, restrict: Option<(int32, string)>)

  function DecideLastFm(username: string, passhash: string, query: string,
                        sessionOf: (string, string) -> Option<int32>): (d: LastFmDecision)
    ensures sessionOf(username, passhash).None? ==> d == LastFmDecision(Text("error: pass"), None)
    ensures d.restrict.Some? ==> d.result == Text("-3") && sessionOf(username, passhash) == Some(d.restrict.value.0)
  {
    var session := sessionOf(username, passhash);
    if session.None? then LastFmDecision(Text("error: pass"), None)
    else if query == [] then LastFmDecision(Threw, None)
    else if query[0] != 'a' then LastFmDecision(Text("-3"), None)
    else match ParseInt32(query[1..]) {
      case None => LastFmDecision(Threw, None)
      case Some(v) =>
        match FlagsReason(ToFlags(v)) {
          case Some(reason) => LastFmDecision(Text("-3"), Some((session.value, reason)))
          case None => LastFmDecision(EmptyOk, None)
        }
    }
  }

  /** `LastFm`; every restriction is requested by moderator -1. Whether the write that is
      not awaited reaches the store is `stored`. */
  method LastFm(store: ModerationStore, username: string, passhash: string, query: string,
                sessionOf: (string, string) -> Option<int32>, stored: bool) returns (result: LastFmResult)
    modifies store
    ensures var d := DecideLastFm(username, passhash, query, sessionOf);
            && result == d.result
            && (d.restrict.None? ==> store.Log == old(store.Log) && store.Restricted == old(store.Restricted))
            && (d.restrict.Some? ==>
                  var (userId, reason) := d.restrict.value;
                  && store.Log == old(store.Log) + [Restriction(userId, -1, reason)]
                  && store.Restricted == if stored then old(store.Restricted) + {userId} else old(store.Restricted))
  {
    var session := sessionOf(username, passhash);
    if session.None? {
      return Text("error: pass");
    }
    if query == [] {
      return Threw;
    }
    if query[0] != 'a' {
      return Text("-3");
    }
    var parsed := ParseInt32(query[1..]);
    if parsed.None? {
      return Threw;
    }
    var flags := ToFlags(parsed.value);
    if flags & (HqAssembly | HqFile) != 0 {
      store.RestrictPlayer(session.value, -1, HqReason, stored);
      return Text("-3");
    }
    if flags & RegistryEdits != 0 {
      store.RestrictPlayer(session.value, -1, RegistryReason, stored);
      return Text("-3");
    }
    return EmptyOk;
  }

  /** A query that does not start with 'a' is answered "-3" and restricts nobody. */
  lemma NonFlagQueryRestrictsNobody(username: string, passhash: string, query: string,
                                    sessionOf: (string, string) -> Option<int32>)
    requires sessionOf(username, passhash).Some? && query != [] && query[0] != 'a'
    ensures DecideLastFm(username, passhash, query, sessionOf) == LastFmDecision(Text("-3"), None)
  {
  }

  /** The flags are the integer written after the leading 'a': a report built from a flag
      value reads back that value, the hq bits first. */
  lemma ReportedFlagsAreRead(username: string, passhash: string, v: int32,
                             sessionOf: (string, string) -> Option<int32>)
    requires sessionOf(username, passhash).Some?
    ensures var d := DecideLastFm(username, passhash, "a" + IntToString(v as int), sessionOf);
            && (d.restrict.Some? <==> FlagsReason(ToFlags(v)).Some?)
            && (d.restrict.Some? ==> d.restrict.value == (sessionOf(username, passhash).value, FlagsReason(ToFlags(v)).value))
            && (d.restrict.None? ==> d.result == EmptyOk)
  {
    ParseIntToString(v);
    assert ("a" + IntToString(v as int))[1..] == IntToString(v as int);
  }

  /** Both hq bits and the registry bit together still give the hq reason only. */
  lemma HqTakesPrecedence(flags: LastFmFlags)
    requires flags & HqAssembly != 0 && flags & RegistryEdits != 0
    ensures FlagsReason(flags) == Some(HqReason)
  {
    assert flags & (HqAssembly | HqFile) != 0;
  }

  // ---- beatmap info -----------------------------------------------------------

  /** The placeholder line for the `i`-th requested beatmap. */
  function BeatmapInfoLine(i: nat): string
  {
    IntToString(i) + "||||1|N|N|N|N"
  }

  function BeatmapInfoLines(): (lines: seq<string>)
    ensures |lines| == 100 && forall i :: 0 <= i < 100 ==> lines[i] == BeatmapInfoLine(i)
  {
    seq(100, i requires 0 <= i => BeatmapInfoLine(i))
  }

  /** `GetBeatmapInfo`: a hundred placeholder lines, one per line. */
  function GetBeatmapInfo(): string
  {
    Join("\n", BeatmapInfoLines())
  }

  lemma BeatmapInfoLineFree(i: nat)
    ensures forall j :: 0 <= j < |BeatmapInfoLine(i)| ==> BeatmapInfoLine(i)[j] != '\n'
  {
    IntToStringFree(i, '\n');
    var t := IntToString(i);
    var tail := "||||1|N|N|N|N";
    assert '\n' !in tail;
    assert '\n' !in t + tail;
  }

  /** The answer splits into exactly the hundred placeholder lines 0..99. */
  lemma BeatmapInfoHasHundredLines()
    ensures Split(GetBeatmapInfo(), '\n') == BeatmapInfoLines()
    ensures |Split(GetBeatmapInfo(), '\n')| == 100
  {
    var lines := BeatmapInfoLines();
    forall k | 0 <= k < |lines| ensures forall j :: 0 <= j < |lines[k]| ==> lines[k][j] != '\n' {
      BeatmapInfoLineFree(k);
    }
    SplitJoin(lines, '\n');
  }
}
