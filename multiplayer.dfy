/** The multiplayer room as the host command and the password handler see it. */
module Multiplayer {
  import opened Wrappers
  import opened Text

  /** One slot of a room: the occupant's user id, if any. */
  datatype Slot = Slot(userId: Option<int32>)

  /** The room (`Match`, not otherwise part of this model): its slots in key order (the
      key of a slot is its position), its host and its password. The ghost logs record
      every `TransferHost` and `ChangePassword` call. */
  class Match {
    var Slots: seq<Slot>
    var HostId: int32
    var Password: Option<string>
    ghost var Transfers: seq<nat>
    ghost var PasswordChanges: seq<Option<string>>

    constructor(slots: seq<Slot>, hostId: int32, password: Option<string>)
      ensures Slots == slots && HostId == hostId && Password == password
      ensures Transfers == [] && PasswordChanges == []
    {
      Slots, HostId, Password := slots, hostId, password;
      Transfers, PasswordChanges := [], [];
    }

    /** `HasHostPrivileges`: the session's user is the host. */
    predicate HasHostPrivileges(session: Session)
      reads this
    {
      HostId == session.UserId
    }

    /** `TransferHost`: the occupant of the slot becomes host; an empty or missing slot
        changes nothing. */
    method TransferHost(slotId: nat)
      modifies this
      ensures HostId == if slotId < |Slots| && Slots[slotId].userId.Some? then Slots[slotId].userId.value else old(HostId)
      ensures Transfers == old(Transfers) + [slotId]
      ensures Slots == old(Slots) && Password == old(Password) && PasswordChanges == old(PasswordChanges)
    {
      if slotId < |Slots| && Slots[slotId].userId.Some? {
        HostId := Slots[slotId].userId.value;
      }
      Transfers := Transfers + [slotId];
    }

    /** `ChangePassword`: an absent password clears the protection. */
    method ChangePassword(password: Option<string>)
      modifies this
      ensures Password == password
      ensures PasswordChanges == old(PasswordChanges) + [password]
      ensures Slots == old(Slots) && HostId == old(HostId) && Transfers == old(Transfers)
    {
      Password := password;
      PasswordChanges := PasswordChanges + [password];
    }
  }

  datatype ChannelMessage = ChannelMessage(channel: string, text: string)

  /** A connected session: its user, the room it is in, and the messages sent to it. */
  class Session {
    const UserId: int32
    const Username: string
    var Match: Match?
    var Outbox: seq<ChannelMessage>

    constructor(userId: int32, username: string)
      ensures UserId == userId && Username == username && Match == null && Outbox == []
    {
      UserId, Username := userId, username;
      Match, Outbox := null, [];
    }

    /** `SendChannelMessage`. */
    method SendChannelMessage(channel: string, text: string)
      modifies this
      ensures Outbox == old(Outbox) + [ChannelMessage(channel, text)]
      ensures Match == old(Match)
    {
      Outbox := Outbox + [ChannelMessage(channel, text)];
    }
  }

  // ---- the host command ---------------------------------------------------

  /** The key of the first slot occupied by `userId` (`FirstOrDefault`), if any. */
  function FirstSlotOf(slots: seq<Slot>, userId: int32): (r: Option<nat>)
    ensures r.Some? ==> r.value < |slots| && slots[r.value].userId == Some(userId)
    ensures r.Some? ==> forall k :: 0 <= k < r.value ==> slots[k].userId != Some(userId)
    ensures r.None? ==> forall k :: 0 <= k < |slots| ==> slots[k].userId != Some(userId)
  {
    if slots == [] then None
    else if slots[0].userId == Some(userId) then Some(0)
    else match FirstSlotOf(slots[1..], userId) {
      case None => None
      case Some(k) => Some(k + 1)
    }
  }

  const NotHostReply := "This command can only be used by the host of the room."
  const HostUsageReply := "Usage: !mp host <username>"
  const UserNotFoundReply := "User not found."
  const NotInRoomReply := "User is not in the room."

  /** What the host command decides for an issuer, once the room exists: the one reply,
      and the slot whose occupant becomes host, if any. `targetId` is the user id of the
      session found for the first argument. */
  datatype HostDecision = HostDecision(reply: string, transfer: Option<nat>)

  function DecideHost(isHost: bool, args: Option<seq<string>>, targetId: Option<int32>, slots: seq<Slot>): (d: HostDecision)
    ensures !isHost ==> d == HostDecision(NotHostReply, None)
    ensures d.transfer.Some? ==> targetId.Some? && FirstSlotOf(slots, targetId.value) == d.transfer
  {
    if !isHost then HostDecision(NotHostReply, None)
    else if args.None? || |args.value| == 0 then HostDecision(HostUsageReply, None)
    else if targetId.None? then HostDecision(UserNotFoundReply, None)
    else match FirstSlotOf(slots, targetId.value) {
      case None => HostDecision(NotInRoomReply, None)
      case Some(k) => HostDecision("Host has been transferred to " + args.value[0] + ".", Some(k))
    }
  }

  /** The session the repository holds for a username (`GetSession`). */
  function TargetId(sessions: map<string, Session>, args: Option<seq<string>>): Option<int32>
  {
    if args.Some? && |args.value| > 0 && args.value[0] in sessions then Some(sessions[args.value[0]].UserId) else None
  }

  datatype ChatChannel = ChatChannel(name: string)

  /** `MultiHostCommand.Handle`; `threw` for the `InvalidOperationException` raised
      outside a room or a channel. `sessions` is the session directory by username. */
  method MultiHost(session: Session, channel: Option<ChatChannel>, args: Option<seq<string>>,
                   sessions: map<string, Session>) returns (threw: bool)
    modifies session, session.Match
    ensures threw <==> channel.None? || old(session.Match) == null
    ensures session.Match == old(session.Match)
    ensures threw ==> unchanged(session) && (session.Match != null ==> unchanged(session.Match))
    ensures !threw ==>
      var m := session.Match;
      var d := DecideHost(old(m.HostId) == session.UserId, args, TargetId(sessions, args), old(m.Slots));
      && session.Outbox == old(session.Outbox) + [ChannelMessage(channel.value.name, d.reply)]
      && m.Slots == old(m.Slots) && m.Password == old(m.Password)
      && m.PasswordChanges == old(m.PasswordChanges)
      && m.Transfers == old(m.Transfers) + (if d.transfer.Some? then [d.transfer.value] else [])
      && m.HostId == (if d.transfer.Some? then TargetId(sessions, args).value else old(m.HostId))
  {
    if channel.None? || session.Match == null {
      return true;
    }
    var m := session.Match;
    if !m.HasHostPrivileges(session) {
      session.SendChannelMessage(channel.value.name, NotHostReply);
      return false;
    }
    if args.None? || |args.value| == 0 {
      session.SendChannelMessage(channel.value.name, HostUsageReply);
      return false;
    }
    if args.value[0] !in sessions {
      session.SendChannelMessage(channel.value.name, UserNotFoundReply);
      return false;
    }
    var targetSession := sessions[args.value[0]];
    var targetSlot := FirstSlotOf(m.Slots, targetSession.UserId);
    if targetSlot.None? {
      session.SendChannelMessage(channel.value.name, NotInRoomReply);
      return false;
    }
    m.TransferHost(targetSlot.value);
    session.SendChannelMessage(channel.value.name, "Host has been transferred to " + args.value[0] + ".");
    return false;
  }

  // ---- the password handler ----------------------------------------------

  /** `MultiChangePasswordHandler.Handle`; `gamePassword` is the password decoded from the
      packet. Only the host changes it; nothing is ever sent back. */
  method MultiChangePassword(session: Session, gamePassword: Option<string>)
    modifies session.Match
    ensures session.Match != null ==>
      var m := session.Match;
      && m.Slots == old(m.Slots) && m.HostId == old(m.HostId) && m.Transfers == old(m.Transfers)
      && (if old(m.HostId) == session.UserId
          then m.Password == gamePassword && m.PasswordChanges == old(m.PasswordChanges) + [gamePassword]
          else m.Password == old(m.Password) && m.PasswordChanges == old(m.PasswordChanges))
  {
    if session.Match == null || !session.Match.HasHostPrivileges(session) {
      return;
    }
    session.Match.ChangePassword(gamePassword);
  }

  // ---- properties of the decision ----------------------------------------

  lemma NoArgumentsGivesUsage(slots: seq<Slot>, args: Option<seq<string>>, targetId: Option<int32>)
    requires args.None? || args.value == []
    ensures DecideHost(true, args, targetId, slots) == HostDecision(HostUsageReply, None)
  {
  }

  lemma UnknownTargetNotFound(slots: seq<Slot>, args: seq<string>)
    requires args != []
    ensures DecideHost(true, Some(args), None, slots) == HostDecision(UserNotFoundReply, None)
  {
  }

  /** A host naming a connected user who occupies no slot is told so, and nothing moves. */
  lemma AbsentTargetNotInRoom(slots: seq<Slot>, args: seq<string>, targetId: int32)
    requires args != []
    requires forall k :: 0 <= k < |slots| ==> slots[k].userId != Some(targetId)
    ensures DecideHost(true, Some(args), Some(targetId), slots) == HostDecision(NotInRoomReply, None)
  {
  }

  /** A host naming a user in the room hands the host to the first slot that user occupies,
      and that slot's occupant is the target. */
  lemma PresentTargetTransfers(slots: seq<Slot>, args: seq<string>, targetId: int32, k: nat)
    requires args != [] && k < |slots| && slots[k].userId == Some(targetId)
    ensures DecideHost(true, Some(args), Some(targetId), slots).transfer.Some?
    ensures var j := DecideHost(true, Some(args), Some(targetId), slots).transfer.value;
            j <= k && slots[j].userId == Some(targetId)
    ensures DecideHost(true, Some(args), Some(targetId), slots).reply == "Host has been transferred to " + args[0] + "."
  {
  }
}
