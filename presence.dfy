/** A connected session's attributes (`UserAttributes`) and the presence and statistics
    views the client is sent. */
module Presence {
  import opened Wrappers
  import opened Text
  import opened Users

  /** Where the login came from, as geolocation resolved it. */
  datatype Location = Location(latitude: real, longitude: real, timeOffset: int, country: string)

  /** The fields of the login request the attributes keep. */
  datatype LoginRequest = LoginRequest(version: Option<string>, clientHash: Option<string>)

  /** `BanchoUserStatus`; a new one is all zero, so its play mode is standard. */
  datatype UserStatus = UserStatus(action: int, actionText: string, beatmapChecksum: string,
                                   currentMods: bv32, playMode: int, beatmapId: int)
  const DefaultStatus := UserStatus(0, "", "", 0, 0, 0)

  /** The statistics row of one user in one mode; `new UserStats()` is all zero. */
  datatype Stats = Stats(performancePoints: real, accuracy: real, playCount: int, rankedScore: int, totalScore: int)
  const DefaultStats := Stats(0.0, 0.0, 0, 0, 0)

  /** `BanchoUserPresence` as filled in by `GetPlayerPresence`. */
  datatype UserPresence = UserPresence(userId: int32, username: string, timezone: int, latitude: real,
                                       longitude: real, countryCode: int, permissions: PlayerRank,
                                       rank: int, playMode: int, usesOsuClient: bool)

  /** `BanchoUserData` as filled in by `GetPlayerData`. */
  datatype UserData = UserData(userId: int32, status: UserStatus, rank: int, performance: real,
                               accuracy: real, playcount: int, rankedScore: int, totalScore: int)

  /** The explicit `(short)` cast: two's-complement wrap-around to 16 bits. */
  function ToShort(v: int): (r: int)
    ensures -0x8000 <= r < 0x8000
    ensures -0x8000 <= v < 0x8000 ==> r == v
  {
    (v + 0x8000) % 0x1_0000 - 0x8000
  }

  /** The session country: the parsed `CountryCodes` value when the name parses and the code
      is non-zero, and none otherwise. `parseCountry` stands for `Enum.TryParse` over the
      `CountryCodes` enum, which is not part of this model. */
  function SessionCountry(name: string, parseCountry: string -> Option<int>): (r: Option<int>)
    ensures r.Some? <==> parseCountry(name).Some? && ToShort(parseCountry(name).value) != 0
    ensures r.Some? ==> r.value == ToShort(parseCountry(name).value)
  {
    match parseCountry(name)
    case Some(code) => if ToShort(code) != 0 then Some(ToShort(code)) else None
    case None => None
  }

  class UserAttributes {
    const User: Users.User
    const Timezone: int
    const Longitude: real
    const Latitude: real
    const Country: Option<int>
    const OsuVersion: Option<string>
    const UserHash: Option<string>
    var LastLogin: int
    var LastPingRequest: int
    var Status: UserStatus
    var ShowUserLocation: bool
    var IgnoreNonFriendPm: bool
    var AwayMessage: Option<string>
    var IsBot: bool
    var UsesOsuClient: bool

    /** `now` is the clock reading at construction. */
    constructor(user: Users.User, location: Location, loginRequest: LoginRequest, usesOsuClient: bool,
                parseCountry: string -> Option<int>, now: int)
      ensures User == user && UsesOsuClient == usesOsuClient
      ensures Latitude == location.latitude && Longitude == location.longitude && Timezone == location.timeOffset
      ensures Country == SessionCountry(location.country, parseCountry)
      ensures OsuVersion == loginRequest.version && UserHash == loginRequest.clientHash
      ensures LastLogin == now && LastPingRequest == now && Status == DefaultStatus
      ensures ShowUserLocation && !IgnoreNonFriendPm && AwayMessage == None && !IsBot
    {
      Latitude := location.latitude;
      Longitude := location.longitude;
      Timezone := location.timeOffset;
      Country := SessionCountry(location.country, parseCountry);
      User := user;
      UsesOsuClient := usesOsuClient;
      OsuVersion := loginRequest.version;
      UserHash := loginRequest.clientHash;
      LastLogin, LastPingRequest := now, now;
      Status := DefaultStatus;
      ShowUserLocation, IgnoreNonFriendPm, AwayMessage, IsBot := true, false, None, false;
    }

    /** `GetCurrentGameMode`. */
    function GetCurrentGameMode(): int
      reads this
    {
      Status.playMode
    }

    /** The country code the presence shows, before `byte.Parse`: the session's, else the
        stored one. */
    function ShownCountry(): int
      reads this, User
    {
      if Country.Some? then Country.value else User.Country
    }

    /** `GetPlayerPresence`. `userRank` stands for the rank lookup in the database;
        `None` where `byte.Parse` throws, for a country code outside 0..255. */
    function GetPlayerPresence(userRank: (int32, int) -> int): (r: Option<UserPresence>)
      reads this, User
      ensures r.Some? <==> 0 <= ShownCountry() < 256
      ensures r.Some? ==> r.value.countryCode == ShownCountry() && r.value.playMode == Status.playMode
      ensures r.Some? ==> r.value.permissions == PrivilegeRank(User.Privilege)
      ensures r.Some? ==> r.value.userId == User.Id && r.value.username == User.Username
      ensures r.Some? ==> r.value.timezone == Timezone && r.value.usesOsuClient == UsesOsuClient
      ensures r.Some? ==> r.value.latitude == (if ShowUserLocation then Latitude else 0.0)
      ensures r.Some? ==> r.value.longitude == (if ShowUserLocation then Longitude else 0.0)
      ensures r.Some? ==> r.value.rank == (if IsBot then 0 else userRank(User.Id, Status.playMode))
    {
      var rank := if IsBot then 0 else userRank(User.Id, GetCurrentGameMode());
      var code := ShownCountry();
      if 0 <= code < 256 then
        Some(UserPresence(User.Id, User.Username, Timezone,
                          if ShowUserLocation then Latitude else 0.0,
                          if ShowUserLocation then Longitude else 0.0,
                          code, PrivilegeRank(User.Privilege), rank, GetCurrentGameMode(), UsesOsuClient))
      else None
    }

    /** `GetPlayerData`. `userStats` and `userRank` stand for the database lookups. */
    function GetPlayerData(userStats: (int32, int) -> Stats, userRank: (int32, int) -> int): (r: UserData)
      reads this, User
      ensures r.userId == User.Id && r.status == Status
    {
      var stats := if IsBot then DefaultStats else userStats(User.Id, GetCurrentGameMode());
      var rank := if IsBot then 0 else userRank(User.Id, GetCurrentGameMode());
      UserData(User.Id, Status, rank, stats.performancePoints, stats.accuracy / 100.0,
               stats.playCount, stats.rankedScore, stats.totalScore)
    }

    /** `UpdateLastPing`, with `now` the clock reading. */
    method UpdateLastPing(now: int)
      modifies this
      ensures LastPingRequest == now
      ensures LastLogin == old(LastLogin) && Status == old(Status) && ShowUserLocation == old(ShowUserLocation)
      ensures IgnoreNonFriendPm == old(IgnoreNonFriendPm) && AwayMessage == old(AwayMessage)
      ensures IsBot == old(IsBot) && UsesOsuClient == old(UsesOsuClient)
    {
      LastPingRequest := now;
    }
  }

  // ---- properties --------------------------------------------------------

  /** The shown country is the location's when it parses to a non-zero code, and the stored
      country otherwise. */
  lemma ShownCountryFallback(a: UserAttributes, name: string, parseCountry: string -> Option<int>)
    requires a.Country == SessionCountry(name, parseCountry)
    ensures parseCountry(name).Some? && ToShort(parseCountry(name).value) != 0 ==>
              a.ShownCountry() == ToShort(parseCountry(name).value)
    ensures parseCountry(name).None? || ToShort(parseCountry(name).value) == 0 ==>
              a.ShownCountry() == a.User.Country
  {
  }

  /** The mode every lookup uses is the one in the session's status, and a session that
      has sent no status yet plays standard. */
  lemma CurrentModeIsStatusMode(a: UserAttributes)
    ensures a.GetCurrentGameMode() == a.Status.playMode
    ensures a.Status == DefaultStatus ==> a.GetCurrentGameMode() == 0
  {
  }

  /** A session that hides its location reports latitude and longitude 0. */
  lemma HiddenLocationIsZero(a: UserAttributes, userRank: (int32, int) -> int)
    requires !a.ShowUserLocation
    requires a.GetPlayerPresence(userRank).Some?
    ensures a.GetPlayerPresence(userRank).value.latitude == 0.0
    ensures a.GetPlayerPresence(userRank).value.longitude == 0.0
  {
  }

  /** A session that shows its location reports the resolved coordinates. */
  lemma ShownLocationIsStored(a: UserAttributes, userRank: (int32, int) -> int)
    requires a.ShowUserLocation
    requires a.GetPlayerPresence(userRank).Some?
    ensures a.GetPlayerPresence(userRank).value.latitude == a.Latitude
    ensures a.GetPlayerPresence(userRank).value.longitude == a.Longitude
  {
  }

  /** A bot's presence has rank 0 and does not depend on the rank lookup. */
  lemma BotPresenceNeedsNoLookup(a: UserAttributes, rank1: (int32, int) -> int, rank2: (int32, int) -> int)
    requires a.IsBot
    ensures a.GetPlayerPresence(rank1) == a.GetPlayerPresence(rank2)
    ensures a.GetPlayerPresence(rank1).Some? ==> a.GetPlayerPresence(rank1).value.rank == 0
  {
  }

  /** A bot's data has rank 0 and all-zero statistics, whatever the lookups say. */
  lemma BotDataNeedsNoLookup(a: UserAttributes, stats1: (int32, int) -> Stats, rank1: (int32, int) -> int,
                             stats2: (int32, int) -> Stats, rank2: (int32, int) -> int)
    requires a.IsBot
    ensures a.GetPlayerData(stats1, rank1) == a.GetPlayerData(stats2, rank2)
    ensures a.GetPlayerData(stats1, rank1) == UserData(a.User.Id, a.Status, 0, 0.0, 0.0, 0, 0, 0)
  {
  }

  /** For a player the data view reads the statistics of the current mode: accuracy as a
      fraction of one, the counters unchanged. */
  lemma PlayerDataFromStats(a: UserAttributes, userStats: (int32, int) -> Stats, userRank: (int32, int) -> int)
    requires !a.IsBot
    ensures var s := userStats(a.User.Id, a.Status.playMode);
            var d := a.GetPlayerData(userStats, userRank);
            && d.rank == userRank(a.User.Id, a.Status.playMode)
            && d.accuracy * 100.0 == s.accuracy && d.performance == s.performancePoints
            && d.playcount == s.playCount && d.rankedScore == s.rankedScore && d.totalScore == s.totalScore
  {
  }
}
