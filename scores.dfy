/** The score record (`Score` in the database models) and its two derived properties,
    `SerializedMods` and `IsRanked` (`LocalProperties`). */
module Scores {

  /** The client's mods bitmask (osu.Shared `Mods`, a 32-bit flags enum). */
  type Mods = bv32

  const NoFail: Mods := 1
  const DoubleTime: Mods := 64
  const Relax: Mods := 128
  const Nightcore: Mods := 512
  const Autoplay: Mods := 2048
  const Target: Mods := 0x80_0000
  const ScoreV2: Mods := 0x2000_0000

  /** `Enum.HasFlag`: every bit of `flag` is set in `mods`. */
  predicate HasFlag(mods: Mods, flag: Mods) { mods & flag == flag }

  /** Game modes (osu.Shared `GameMode`); the field can hold any integer. */
  const Standard: int := 0
  const Taiko: int := 1
  const CatchTheBeat: int := 2
  const Mania: int := 3

  /** Beatmap ranking statuses; the field can hold any integer. */
  const Graveyard: int := -2
  const Wip: int := -1
  const Pending: int := 0
  const Ranked: int := 1
  const Approved: int := 2
  const Qualified: int := 3
  const Loved: int := 4

  /** One submitted play. Only the columns the modelled logic reads are kept. */
  datatype Score = Score(
    id: int,
    userId: int,
    beatmapId: int,
    scoreHash: string,
    beatmapHash: string,
    totalScore: int,
    maxCombo: int,
    count300: int,
    count100: int,
    count50: int,
    countMiss: int,
    countKatu: int,
    countGeki: int,
    mods: Mods,
    isPassed: bool,
    gameMode: int,
    beatmapStatus: int,
    accuracy: real,
    performancePoints: real)

  /** `SerializedMods`: the mods with the Nightcore bit cleared and every other bit kept. */
  function SerializedMods(score: Score): (r: Mods)
    ensures r & Nightcore == 0
    ensures r | (score.mods & Nightcore) == score.mods
  {
    score.mods & !Nightcore
  }

  /** `IsRanked`: only Ranked and Approved beatmaps count as ranked; Qualified, Loved,
      Pending, work-in-progress, graveyard and unknown statuses do not. */
  predicate IsRanked(score: Score)
  {
    score.beatmapStatus == Ranked || score.beatmapStatus == Approved
  }

  /** The serialised mods are a subset of the mods, and equal to them without Nightcore. */
  lemma SerializedModsSubset(score: Score)
    ensures SerializedMods(score) & score.mods == SerializedMods(score)
    ensures !HasFlag(score.mods, Nightcore) ==> SerializedMods(score) == score.mods
  {
  }

  /** Serialising serialised mods changes nothing. */
  lemma SerializedModsIdempotent(score: Score)
    ensures SerializedMods(score.(mods := SerializedMods(score))) == SerializedMods(score)
  {
  }

  /** The doc-comment example: DoubleTime together with Nightcore serialises to DoubleTime. */
  lemma NightcoreDoubleTimeSerialisesToDoubleTime(score: Score)
    requires score.mods == DoubleTime | Nightcore
    ensures SerializedMods(score) == DoubleTime
  {
  }

  /** Exactly two of the seven named statuses are ranked. */
  lemma RankedStatuses(score: Score)
    ensures IsRanked(score) <==> score.beatmapStatus in {Ranked, Approved}
    ensures score.beatmapStatus in {Graveyard, Wip, Pending, Qualified, Loved} ==> !IsRanked(score)
  {
  }
}
