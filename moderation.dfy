/** Restricting players: the `!restrict` chat command and the moderation store it and the
    client-report endpoint write to. */
module Moderation {
  import opened Wrappers
  import opened Text
  import opened Users

  datatype Restriction = Restriction(userId: int32, moderatorId: int32, reason: string)

  /** The moderation store (`RestrictPlayer` / `IsRestricted`, not otherwise part of this
      model): the restricted user ids and the log of restriction requests. Whether a
      request's write reaches the store is the parameter `stored`. */
  class ModerationStore {
    var Restricted: set<int32>
    var Log: seq<Restriction>

    constructor()
      ensures Restricted == {} && Log == []
    {
      Restricted, Log := {}, [];
    }

    predicate IsRestricted(userId: int32)
      reads this
    {
      userId in Restricted
    }

    method RestrictPlayer(userId: int32, moderatorId: int32, reason: string, stored: bool)
      modifies this
      ensures Log == old(Log) + [Restriction(userId, moderatorId, reason)]
      ensures Restricted == if stored then old(Restricted) + {userId} else old(Restricted)
    {
      Log := Log + [Restriction(userId, moderatorId, reason)];
      if stored {
        Restricted := Restricted + {userId};
      }
    }
  }

  const InvalidIdReply := "Invalid user id."
  const ReasonLengthReply := "Reason must be between 3 and 256 characters."
  const UserNotFoundReply := "User not found."
  const ProtectedReply := "You cannot restrict this user due to their privilege level."

  /** `user.Privilege >= PlayerRank.SuperMod`: the two enums compared as their underlying
      signed 32-bit values. */
  predicate IsProtected(p: Privileges)
  {
    SignedValue(p) >= SignedValue(RankSuperMod)
  }

  function UsageReply(botPrefix: string): string
  {
    "Usage: " + botPrefix + "restrict <user id> <reason>"
  }

  /** What the command does before touching the store: answer at once, or restrict
      `target` for `reason`. */
  datatype RestrictDecision = Answer(text: string) | RestrictUser(target: User, reason: string)

  /** The checks of `RestrictCommand.Handle`, in order. `users` is the user table. */
  function DecideRestrict(args: Option<seq<string>>, users: map<int32, User>, botPrefix: string): (d: RestrictDecision)
    reads users.Values
    ensures d.RestrictUser? ==> args.Some? && |args.value| >= 2 && 3 <= Utf16Length(args.value[1]) <= 256
    ensures d.RestrictUser? ==> ParseInt32(args.value[0]).Some? && ParseInt32(args.value[0]).value in users
    ensures d.RestrictUser? ==> d.target == users[ParseInt32(args.value[0]).value] && !IsProtected(d.target.Privilege)
    ensures d.RestrictUser? ==> d.reason == Join(" ", args.value[1..])
  {
    if args.None? || |args.value| < 2 then Answer(UsageReply(botPrefix))
    else
      var userId := ParseInt32(args.value[0]);
      if userId.None? then Answer(InvalidIdReply)
      else if Utf16Length(args.value[1]) < 3 || Utf16Length(args.value[1]) > 256 then Answer(ReasonLengthReply)
      else
        var reason := Join(" ", args.value[1..]);
        if userId.value !in users then Answer(UserNotFoundReply)
        else
          var user := users[userId.value];
          if IsProtected(user.Privilege) then Answer(ProtectedReply)
          else RestrictUser(user, reason)
  }

  function OutcomeReply(user: User, isRestricted: bool): string
    reads user
  {
    if isRestricted
    then "User " + user.Username + " (" + IntToString(user.Id as int) + ") has been restricted."
    else "User " + user.Username + " (" + IntToString(user.Id as int) + ") hasn't been restricted due to an error. Contact a developer."
  }

  /** `RestrictCommand.Handle`: `issuerId` is the issuing session's user, `reply` the one
      message it is sent, `stored` whether the restriction write succeeds. */
  method Restrict(store: ModerationStore, issuerId: int32, args: Option<seq<string>>, users: map<int32, User>,
                  botPrefix: string, stored: bool) returns (reply: string)
    modifies store
    ensures var d := old(DecideRestrict(args, users, botPrefix));
            if d.Answer? then
              reply == d.text && store.Log == old(store.Log) && store.Restricted == old(store.Restricted)
            else
              && store.Log == old(store.Log) + [Restriction(d.target.Id, issuerId, d.reason)]
              && store.Restricted == (if stored then old(store.Restricted) + {d.target.Id} else old(store.Restricted))
              && reply == OutcomeReply(d.target, store.IsRestricted(d.target.Id))
  {
    if args.None? || |args.value| < 2 {
      return UsageReply(botPrefix);
    }
    var userId := ParseInt32(args.value[0]);
    if userId.None? {
      return InvalidIdReply;
    }
    if Utf16Length(args.value[1]) < 3 || Utf16Length(args.value[1]) > 256 {
      return ReasonLengthReply;
    }
    var reason := Join(" ", args.value[1..]);
    if userId.value !in users {
      return UserNotFoundReply;
    }
    var user := users[userId.value];
    if IsProtected(user.Privilege) {
      return ProtectedReply;
    }
    store.RestrictPlayer(user.Id, issuerId, reason, stored);
    var isRestricted := store.IsRestricted(user.Id);
    reply := OutcomeReply(user, isRestricted);
  }

  // ---- properties --------------------------------------------------------

  /** No arguments, or a single one, gives the usage text. */
  lemma TooFewArgumentsGiveUsage(args: Option<seq<string>>, users: map<int32, User>, botPrefix: string)
    requires args.None? || |args.value| < 2
    ensures DecideRestrict(args, users, botPrefix) == Answer(UsageReply(botPrefix))
  {
  }

  /** A first argument that is not a 32-bit integer is refused before anything else is read. */
  lemma NonIntegerIdRefused(args: seq<string>, users: map<int32, User>, botPrefix: string)
    requires |args| >= 2 && ParseInt32(args[0]).None?
    ensures DecideRestrict(Some(args), users, botPrefix) == Answer(InvalidIdReply)
  {
  }

  /** Only the first word of the reason is length-checked: a reason made of a short first
      word and a long tail passes the check, and it is passed on whole. */
  lemma OnlyFirstReasonWordChecked(args: seq<string>, users: map<int32, User>, botPrefix: string)
    requires |args| >= 3 && ParseInt32(args[0]).Some? && 3 <= Utf16Length(args[1]) <= 256
    requires ParseInt32(args[0]).value in users && !IsProtected(users[ParseInt32(args[0]).value].Privilege)
    ensures DecideRestrict(Some(args), users, botPrefix) ==
            RestrictUser(users[ParseInt32(args[0]).value], args[1] + " " + Join(" ", args[2..]))
  {
    assert args[1..][1..] == args[2..];
  }

  /** Every check passed, the known, unprotected target is restricted for the arguments
      after the id joined by single spaces, however many there are. */
  lemma AcceptedRequestRestricts(args: seq<string>, users: map<int32, User>, botPrefix: string)
    requires |args| >= 2 && ParseInt32(args[0]).Some? && 3 <= Utf16Length(args[1]) <= 256
    requires ParseInt32(args[0]).value in users && !IsProtected(users[ParseInt32(args[0]).value].Privilege)
    ensures DecideRestrict(Some(args), users, botPrefix) ==
            RestrictUser(users[ParseInt32(args[0]).value], Join(" ", args[1..]))
  {
  }

  /** An id that names no known user gives "User not found." and restricts nobody. */
  lemma UnknownUserNotFound(args: seq<string>, users: map<int32, User>, botPrefix: string)
    requires |args| >= 2 && ParseInt32(args[0]).Some? && 3 <= Utf16Length(args[1]) <= 256
    requires ParseInt32(args[0]).value !in users
    ensures DecideRestrict(Some(args), users, botPrefix) == Answer(UserNotFoundReply)
  {
  }

  /** A first reason word shorter than 3 or longer than 256 UTF-16 code units is refused. */
  lemma BadReasonLengthRefused(args: seq<string>, users: map<int32, User>, botPrefix: string)
    requires |args| >= 2 && ParseInt32(args[0]).Some?
    requires Utf16Length(args[1]) < 3 || Utf16Length(args[1]) > 256
    ensures DecideRestrict(Some(args), users, botPrefix) == Answer(ReasonLengthReply)
  {
  }

  /** A target whose signed privilege value reaches `PlayerRank.SuperMod` is never restricted. */
  lemma ProtectedTargetRefused(args: seq<string>, users: map<int32, User>, botPrefix: string)
    requires |args| >= 2 && ParseInt32(args[0]).Some? && 3 <= Utf16Length(args[1]) <= 256
    requires ParseInt32(args[0]).value in users && IsProtected(users[ParseInt32(args[0]).value].Privilege)
    ensures DecideRestrict(Some(args), users, botPrefix) == Answer(ProtectedReply)
  {
  }

  /** Every combination of the declared privilege flags lies below `PlayerRank.SuperMod`,
      so the numeric comparison protects no user whose privileges are among them. */
  lemma DeclaredPrivilegesAreBelowSuperMod(p: Privileges)
    requires p & !(Supporter | Bat | Admin | Developer) == 0
    ensures !IsProtected(p)
  {
    assert p <= Supporter | Bat | Admin | Developer;
  }

  /** Because the comparison is signed, a privilege value with bit 31 set is negative and
      never protected, however many other bits it carries. */
  lemma HighBitIsNeverProtected(p: Privileges)
    requires p & 0x8000_0000 != 0
    ensures !IsProtected(p)
  {
    assert p >= 0x8000_0000;
  }

  /** Two reasons of the same length in characters on opposite sides of the check: one
      emoji outside the Basic Multilingual Plane counts as two UTF-16 code units. */
  lemma ReasonLengthCountsCodeUnits(users: map<int32, User>, botPrefix: string)
    ensures DecideRestrict(Some(["5", "\U{1F600}\U{1F600}"]), users, botPrefix) != Answer(ReasonLengthReply)
    ensures DecideRestrict(Some(["5", "ab"]), users, botPrefix) == Answer(ReasonLengthReply)
  {
    SurrogatePairsCountTwice();
    assert TrimStart("5") == "5" && TrimNulls("5") == "5" && TrimEnd("5") == "5";
    assert DigitsValue("5") == 5;
    assert Utf16Length("ab") == 2;
  }
}
