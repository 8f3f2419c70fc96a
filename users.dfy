/** The stored user row (`User`): its friends list and its privilege rank. */
module Users {
  import opened Wrappers
  import opened Text

  // ---- privileges ------------------------------------------------------

  /** `UserPrivileges`, a flag set; the values are the enum's declared bits. */
  type Privileges = bv32
  const NoPrivileges: Privileges := 0   // `UserPrivileges.User`
  const Supporter: Privileges := 1
  const Bat: Privileges := 2
  const Admin: Privileges := 4
  const Developer: Privileges := 8

  /** `PlayerRank`, the client's flag set. */
  type PlayerRank = bv32
  const RankDefault: PlayerRank := 1
  const RankBat: PlayerRank := 2
  const RankSupporter: PlayerRank := 4
  const RankSuperMod: PlayerRank := 16

  predicate HasBit(flags: bv32, bit: bv32) { flags & bit == bit }

  /** The value of a flag set read as the enum's underlying signed 32-bit integer, which is
      what a relational operator on two enum values compares. */
  function SignedValue(b: bv32): (v: int)
    ensures -0x8000_0000 <= v < 0x8000_0000
    ensures v == b as int || v == b as int - 0x1_0000_0000
  {
    var n := b as int;
    if n < 0x8000_0000 then n else n - 0x1_0000_0000
  }

  /** The rank shown for a privilege set: Default always; SuperMod for a developer; Bat for
      an admin or a Bat; Supporter for a supporter; nothing else. */
  function PrivilegeRank(p: Privileges): (r: PlayerRank)
    ensures HasBit(r, RankDefault)
    ensures HasBit(r, RankSuperMod) <==> HasBit(p, Developer)
    ensures HasBit(r, RankBat) <==> HasBit(p, Admin) || HasBit(p, Bat)
    ensures HasBit(r, RankSupporter) <==> HasBit(p, Supporter)
  {
    var superMod := if HasBit(p, Developer) then RankSuperMod else 0;
    var bat := if HasBit(p, Admin) || HasBit(p, Bat) then RankBat else 0;
    var supporter := if HasBit(p, Supporter) then RankSupporter else 0;
    RankDefault | superMod | bat | supporter
  }

  /** No other bit than these four is ever set. */
  lemma PrivilegeRankBits(p: Privileges)
    ensures PrivilegeRank(p) & !(RankDefault | RankBat | RankSupporter | RankSuperMod) == 0
  {
  }

  /** A user without privileges has the Default rank only. */
  lemma PlainUserRank()
    ensures PrivilegeRank(NoPrivileges) == RankDefault
  {
  }

  // ---- friends ---------------------------------------------------------

  /** Each segment parsed with `int.Parse`; `None` where that throws. */
  function ParseAll(parts: seq<string>): (r: Option<seq<int32>>)
    ensures r.Some? <==> forall i :: 0 <= i < |parts| ==> ParseInt32(parts[i]).Some?
    ensures r.Some? ==> |r.value| == |parts|
    ensures r.Some? ==> forall i :: 0 <= i < |parts| ==> r.value[i] == ParseInt32(parts[i]).value
  {
    if parts == [] then Some([])
    else
      assert forall i :: 0 < i < |parts| ==> parts[1..][i - 1] == parts[i];
      var head, rest := ParseInt32(parts[0]), ParseAll(parts[1..]);
      if head.Some? && rest.Some? then Some([head.value] + rest.value) else None
  }

  /** `FriendsList`: the comma-separated segments of `friends`, empty ones dropped, parsed;
      `None` when some segment is not a 32-bit integer. */
  function FriendsOf(friends: string): (r: Option<seq<int32>>)
    ensures r.Some? ==> forall i :: 0 <= i < |NonEmpty(Split(friends, ','))| ==>
                          ParseInt32(NonEmpty(Split(friends, ','))[i]).Some?
    ensures r.None? ==> exists i :: 0 <= i < |NonEmpty(Split(friends, ','))| &&
                          ParseInt32(NonEmpty(Split(friends, ','))[i]).None?
    ensures r.Some? ==> |r.value| == |NonEmpty(Split(friends, ','))|
    ensures r.Some? ==> forall i :: 0 <= i < |r.value| ==>
                          r.value[i] == ParseInt32(NonEmpty(Split(friends, ','))[i]).value
  {
    ParseAll(NonEmpty(Split(friends, ',')))
  }

  function Render(ids: seq<int32>): (r: seq<string>)
    ensures |r| == |ids| && forall i :: 0 <= i < |ids| ==> r[i] == IntToString(ids[i] as int)
  {
    if ids == [] then [] else [IntToString(ids[0] as int)] + Render(ids[1..])
  }

  /** `ids` without any occurrence of `id`, the others in order. */
  function Without(ids: seq<int32>, id: int32): (r: seq<int32>)
    ensures forall x :: x in r <==> x in ids && x != id
    ensures multiset(r) == multiset(ids)[id := 0]
    ensures |r| <= |ids|
  {
    if ids == [] then []
    else
      assert ids == [ids[0]] + ids[1..];
      if ids[0] == id then Without(ids[1..], id)
      else [ids[0]] + Without(ids[1..], id)
  }

  /** The `Friends` text after `AddFriend(id)`; `None` where reading the list throws. */
  function WithFriendAdded(friends: string, id: int32): Option<string>
  {
    match FriendsOf(friends)
    case None => None
    case Some(ids) => Some(if id in ids then friends else friends + "," + IntToString(id as int))
  }

  /** The `Friends` text after `RemoveFriend(id)`; `None` where reading the list throws. */
  function WithFriendRemoved(friends: string, id: int32): Option<string>
  {
    match FriendsOf(friends)
    case None => None
    case Some(ids) => Some(if id !in ids then friends else Join(",", Render(Without(ids, id))))
  }

  class User {
    var Id: int32
    var Username: string
    var Email: string
    var Passhash: string
    var Country: int
    var Privilege: Privileges
    var RegisterDate: int
    var Friends: string
    var IsRestricted: bool
    var SilencedUntil: int

    constructor(id: int32, username: string, country: int, privilege: Privileges, registerDate: int, minDate: int)
      ensures Id == id && Username == username && Email == "" && Passhash == ""
      ensures Country == country && Privilege == privilege && RegisterDate == registerDate
      ensures Friends == "" && !IsRestricted && SilencedUntil == minDate
    {
      Id, Username, Email, Passhash := id, username, "", "";
      Country, Privilege, RegisterDate := country, privilege, registerDate;
      Friends, IsRestricted, SilencedUntil := "", false, minDate;
    }

    function FriendsList(): Option<seq<int32>>
      reads this
    {
      FriendsOf(Friends)
    }

    /** Every field but `Friends` is as it was. */
    twostate predicate OthersUnchanged()
      reads this
    {
      && Id == old(Id) && Username == old(Username) && Email == old(Email) && Passhash == old(Passhash)
      && Country == old(Country) && Privilege == old(Privilege) && RegisterDate == old(RegisterDate)
      && IsRestricted == old(IsRestricted) && SilencedUntil == old(SilencedUntil)
    }

    /** `AddFriend`; `threw` when reading the current list throws. */
    method AddFriend(friendId: int32) returns (threw: bool)
      modifies this
      ensures threw <==> old(FriendsList()).None?
      ensures Friends == if threw then old(Friends) else WithFriendAdded(old(Friends), friendId).value
      ensures !threw ==> FriendsList() == Some(AddedTo(old(FriendsList()).value, friendId))
      ensures OthersUnchanged()
    {
      var list := FriendsList();
      if list.None? {
        return true;
      }
      if friendId in list.value {
        return false;
      }
      FriendsAppend(Friends, list.value, friendId);
      Friends := Friends + "," + IntToString(friendId as int);
      return false;
    }

    /** `RemoveFriend`; `threw` when reading the current list throws. */
    method RemoveFriend(friendId: int32) returns (threw: bool)
      modifies this
      ensures threw <==> old(FriendsList()).None?
      ensures Friends == if threw then old(Friends) else WithFriendRemoved(old(Friends), friendId).value
      ensures !threw ==> FriendsList() == Some(Without(old(FriendsList()).value, friendId))
      ensures OthersUnchanged()
    {
      var list := FriendsList();
      if list.None? {
        return true;
      }
      if friendId !in list.value {
        WithoutAbsent(list.value, friendId);
        return false;
      }
      FriendsOfJoin(Without(list.value, friendId));
      Friends := Join(",", Render(Without(list.value, friendId)));
      return false;
    }

    /** `GetPrivilegeRank`, building the rank bit by bit. */
    method GetPrivilegeRank() returns (privilegeRank: PlayerRank)
      ensures privilegeRank == PrivilegeRank(Privilege)
    {
      privilegeRank := RankDefault;
      if HasBit(Privilege, Developer) {
        privilegeRank := privilegeRank | RankSuperMod;
      }
      if HasBit(Privilege, Admin) || HasBit(Privilege, Bat) {
        privilegeRank := privilegeRank | RankBat;
      }
      if HasBit(Privilege, Supporter) {
        privilegeRank := privilegeRank | RankSupporter;
      }
    }
  }

  /** The list `AddFriend` leaves: unchanged when `id` is present, `id` appended otherwise. */
  function AddedTo(ids: seq<int32>, id: int32): seq<int32>
  {
    if id in ids then ids else ids + [id]
  }

  // ---- properties --------------------------------------------------------

  lemma {:induction false} ParseAllAppend(a: seq<string>, b: seq<string>)
    ensures ParseAll(a + b).Some? <==> ParseAll(a).Some? && ParseAll(b).Some?
    ensures ParseAll(a + b).Some? ==> ParseAll(a + b).value == ParseAll(a).value + ParseAll(b).value
  {
    if a == [] {
      assert a + b == b;
    } else {
      assert (a + b)[0] == a[0];
      assert (a + b)[1..] == a[1..] + b;
      ParseAllAppend(a[1..], b);
      if ParseAll(a + b).Some? {
        var h := ParseInt32(a[0]).value;
        calc {
          ParseAll(a + b).value;
          [h] + ParseAll(a[1..] + b).value;
          [h] + (ParseAll(a[1..]).value + ParseAll(b).value);
          ([h] + ParseAll(a[1..]).value) + ParseAll(b).value;
          ParseAll(a).value + ParseAll(b).value;
        }
      }
    }
  }

  lemma {:induction false} ParseAllRender(ids: seq<int32>)
    ensures ParseAll(Render(ids)) == Some(ids)
  {
    if ids != [] {
      ParseIntToString(ids[0]);
      ParseAllRender(ids[1..]);
      assert Render(ids)[1..] == Render(ids[1..]);
      assert [ids[0]] + ids[1..] == ids;
    }
  }

  /** Appending ",id" to a readable list appends `id` to the list. */
  lemma FriendsAppend(friends: string, ids: seq<int32>, id: int32)
    requires FriendsOf(friends) == Some(ids)
    ensures FriendsOf(friends + "," + IntToString(id as int)) == Some(ids + [id])
  {
    var t := IntToString(id as int);
    IntToStringFree(id as int, ',');
    IntToStringShape(id as int);
    var f := friends + [','] + t;
    assert friends + "," + t == f;
    SplitAppend(friends, t, ',');
    SplitNoSep(t, ',');
    assert Split(f, ',') == Split(friends, ',') + [t];
    NonEmptyAppend(Split(friends, ','), [t]);
    assert NonEmpty([t]) == [t];
    var segments := NonEmpty(Split(friends, ','));
    assert NonEmpty(Split(f, ',')) == segments + [t];
    ParseIntToString(id);
    assert ParseInt32(t) == Some(id);
    assert [t][1..] == [];
    assert ParseAll([t]) == Some([id] + []);
    assert [id] + [] == [id];
    ParseAllAppend(segments, [t]);
    assert ParseAll(segments) == Some(ids);
    assert ParseAll(segments + [t]) == Some(ids + [id]);
    assert FriendsOf(f) == ParseAll(segments + [t]);
  }

  /** Writing a list back with `string.Join(',', …)` reads back as the same list. */
  lemma FriendsOfJoin(ids: seq<int32>)
    ensures FriendsOf(Join(",", Render(ids))) == Some(ids)
  {
    var parts := Render(ids);
    if ids == [] {
      assert Split("", ',') == [[]];
    } else {
      forall k | 0 <= k < |parts| ensures ',' !in parts[k] && parts[k] != [] {
        IntToStringFree(ids[k] as int, ',');
        IntToStringShape(ids[k] as int);
      }
      SplitJoin(parts, ',');
      NonEmptyKeeps(parts);
      ParseAllRender(ids);
    }
  }

  lemma {:induction false} WithoutAbsent(ids: seq<int32>, id: int32)
    requires id !in ids
    ensures Without(ids, id) == ids
  {
    if ids != [] {
      WithoutAbsent(ids[1..], id);
      assert [ids[0]] + ids[1..] == ids;
    }
  }

  lemma {:induction false} WithoutAppend(a: seq<int32>, b: seq<int32>, id: int32)
    ensures Without(a + b, id) == Without(a, id) + Without(b, id)
  {
    if a == [] {
      assert a + b == b;
    } else {
      assert (a + b)[0] == a[0];
      assert (a + b)[1..] == a[1..] + b;
      WithoutAppend(a[1..], b, id);
    }
  }

  /** `AddFriend` produces the old list with `id` appended when it was absent, and leaves
      the list as it was when it was present. */
  lemma AddFriendList(friends: string, id: int32)
    requires FriendsOf(friends).Some?
    ensures FriendsOf(WithFriendAdded(friends, id).value) == Some(AddedTo(FriendsOf(friends).value, id))
  {
    if id !in FriendsOf(friends).value {
      FriendsAppend(friends, FriendsOf(friends).value, id);
    }
  }

  /** `AddFriend` twice is `AddFriend` once. */
  lemma AddFriendIdempotent(friends: string, id: int32)
    requires FriendsOf(friends).Some?
    ensures WithFriendAdded(WithFriendAdded(friends, id).value, id) == WithFriendAdded(friends, id)
  {
    AddFriendList(friends, id);
  }

  /** `RemoveFriend` drops every occurrence of `id` and keeps all other ids in order; an
      absent id leaves the text itself unchanged. */
  lemma RemoveFriendList(friends: string, id: int32)
    requires FriendsOf(friends).Some?
    ensures FriendsOf(WithFriendRemoved(friends, id).value) == Some(Without(FriendsOf(friends).value, id))
    ensures id !in FriendsOf(friends).value ==> WithFriendRemoved(friends, id) == Some(friends)
  {
    var ids := FriendsOf(friends).value;
    if id in ids {
      FriendsOfJoin(Without(ids, id));
    } else {
      WithoutAbsent(ids, id);
    }
  }

  /** Adding a friend who was not on the list and removing them again restores the list. */
  lemma AddThenRemoveRestores(friends: string, id: int32)
    requires FriendsOf(friends).Some? && id !in FriendsOf(friends).value
    ensures WithFriendAdded(friends, id).Some?
    ensures WithFriendRemoved(WithFriendAdded(friends, id).value, id).Some?
    ensures FriendsOf(WithFriendRemoved(WithFriendAdded(friends, id).value, id).value) == FriendsOf(friends)
  {
    var ids := FriendsOf(friends).value;
    AddFriendList(friends, id);
    var added := WithFriendAdded(friends, id).value;
    assert FriendsOf(added) == Some(ids + [id]);
    RemoveFriendList(added, id);
    WithoutAppend(ids, [id], id);
    WithoutAbsent(ids, id);
    assert Without([id], id) == [];
    assert Without(ids + [id], id) == ids;
  }
}
