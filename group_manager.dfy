/** The zone server's group table (groupmanager.ts): groups numbered
    from 1 by a counter that only grows, member lists of character ids,
    and the `groupId` each character carries. What the manager asks the
    zone server to send comes back from each operation as a list of
    notices. */
module Groups {
  import opened Wrappers

  /** The part of a zone client the manager reads and writes: the
      character's id and name, and the group it belongs to (0 for none). */
  class Character {
    const characterId: string
    const name: string
    var groupId: int

    constructor(characterId: string, name: string, groupId: int)
      ensures this.characterId == characterId && this.name == name && this.groupId == groupId
    {
      this.characterId := characterId;
      this.name := name;
      this.groupId := groupId;
    }
  }

  /** A group record: its id, its leader's and its members' character
      ids. */
  datatype Group = Group(groupId: int, leader: string, members: seq<string>)

  /** The chat texts and alerts the manager sends, by meaning rather than
      wording. */
  datatype Text =
    | GroupCreated
    | DeclinedYourInvite(targetName: string)
    | InviteDeclined
    | JoinedTheGroup(targetName: string)
    | GroupJoined
    | Blank
    | MissingArgument
    | KickUsage
    | ClientNotFound

  /** `server.sendChatText(to, …)` and `server.sendAlert(to, …)`. */
  datatype Notice = ChatText(to: Character, text: Text) | Alert(to: Character, text: Text)

  /** What the zone server's lookup of a kick target gives: a name its
      `playerNotFound` check rejects, a result that is not a client, or the
      client's character. */
  datatype KickTarget = PlayerNotFound | NotAClient | Found(character: Character)

  /** The index of the first occurrence of `x` in `s`. */
  function IndexOf(s: seq<string>, x: string): (i: nat)
    requires x in s
    ensures i < |s| && s[i] == x && x !in s[..i]
  {
    if s[0] == x then 0
    else
      var j := IndexOf(s[1..], x);
      assert s[..j + 1] == [s[0]] + s[1..][..j];
      j + 1
  }

  /** `s` with its first `x` spliced out. */
  function RemoveFirst(s: seq<string>, x: string): seq<string>
    requires x in s
  {
    var i := IndexOf(s, x);
    s[..i] + s[i + 1..]
  }

  /** Splicing out the first `x` drops exactly one `x`, keeps every other
      element in its order, and putting `x` back where it was gives the
      list back. */
  lemma RemoveFirstSpec(s: seq<string>, x: string)
    requires x in s
    ensures |RemoveFirst(s, x)| == |s| - 1
    ensures multiset(RemoveFirst(s, x)) == multiset(s) - multiset{x}
    ensures var i := IndexOf(s, x);
            RemoveFirst(s, x)[..i] + [x] + RemoveFirst(s, x)[i..] == s
  {
    var i := IndexOf(s, x);
    var r := RemoveFirst(s, x);
    assert s == s[..i] + [x] + s[i + 1..];
    assert r[..i] == s[..i] && r[i..] == s[i + 1..];
    calc {
      multiset(s);
      multiset(s[..i]) + multiset{x} + multiset(s[i + 1..]);
      multiset(r) + multiset{x};
    }
  }

  /** One alert per member that resolves to a connected client, in
      member order. */
  function AlertsFor(members: seq<string>, clientByCharId: string -> Option<Character>, message: Text): seq<Notice>
  {
    if members == [] then []
    else
      var rest := AlertsFor(members[1..], clientByCharId, message);
      match clientByCharId(members[0])
      case None => rest
      case Some(c) => [Alert(c, message)] + rest
  }

  /** Every alert goes with the message to the client of some member, the
      client of every member that resolves gets one, and there are never
      more alerts than members. */
  lemma {:induction false} AlertsForRecipients(members: seq<string>, clientByCharId: string -> Option<Character>, message: Text)
    ensures |AlertsFor(members, clientByCharId, message)| <= |members|
    ensures forall n :: n in AlertsFor(members, clientByCharId, message) ==>
              n.Alert? && n.text == message && exists m :: m in members && clientByCharId(m) == Some(n.to)
    ensures forall m :: m in members && clientByCharId(m).Some? ==>
              Alert(clientByCharId(m).value, message) in AlertsFor(members, clientByCharId, message)
  {
    if members != [] {
      var tail := members[1..];
      AlertsForRecipients(tail, clientByCharId, message);
      var rest := AlertsFor(tail, clientByCharId, message);
      forall n | n in rest
        ensures exists m :: m in members && clientByCharId(m) == Some(n.to)
      {
        var m :| m in tail && clientByCharId(m) == Some(n.to);
        assert m in members;
      }
      forall m | m in members && clientByCharId(m).Some?
        ensures Alert(clientByCharId(m).value, message) in AlertsFor(members, clientByCharId, message)
      {
        if m != members[0] {
          assert m in tail;
        }
      }
    }
  }

  /** `GroupManager`. */
  class GroupManager {
    /** `nextGroupId`: the id the next group gets. */
    var nextGroupId: int
    /** `groups`, keyed by group id. */
    var groups: map<int, Group>

    /** Group ids start at 1, every group sits under its own id, and every
        id in use is below the counter, so the counter names a free slot. */
    ghost predicate Valid()
      reads this
    {
      nextGroupId >= 1 && forall id :: id in groups ==> 1 <= id < nextGroupId && groups[id].groupId == id
    }

    constructor()
      ensures Valid() && nextGroupId == 1 && groups == map[]
    {
      nextGroupId := 1;
      groups := map[];
    }

    /** `createGroup(server, leader, member)`: the new group takes the
        counter's id, which no group had, with the leader's id as leader and
        the member as its only member; the counter moves on and no other
        group changes. Neither character's `groupId` is set. */
    method CreateGroup(leader: Character, member: Character) returns (notices: seq<Notice>)
      requires Valid()
      modifies this
      ensures Valid()
      ensures old(nextGroupId) !in old(groups)
      ensures groups == old(groups)[old(nextGroupId) := Group(old(nextGroupId), leader.characterId, [member.characterId])]
      ensures nextGroupId == old(nextGroupId) + 1
      ensures notices == [ChatText(leader, GroupCreated)]
    {
      groups := groups[nextGroupId := Group(nextGroupId, leader.characterId, [member.characterId])];
      nextGroupId := nextGroupId + 1;
      notices := [ChatText(leader, GroupCreated)];
    }

    /** `sendAlertToGroup(server, groupId, message)`: nothing for an unknown
        group; otherwise an alert to every member whose character id
        resolves to a client, in member order. */
    method SendAlertToGroup(groupId: int, message: Text, clientByCharId: string -> Option<Character>) returns (notices: seq<Notice>)
      ensures groupId !in groups ==> notices == []
      ensures groupId in groups ==> notices == AlertsFor(groups[groupId].members, clientByCharId, message)
    {
      notices := [];
      if groupId !in groups {
        return;
      }
      var members := groups[groupId].members;
      var i := 0;
      while i < |members|
        invariant 0 <= i <= |members|
        invariant notices + AlertsFor(members[i..], clientByCharId, message) == AlertsFor(members, clientByCharId, message)
      {
        assert members[i..][1..] == members[i + 1..];
        match clientByCharId(members[i]) {
          case None =>
          case Some(c) =>
            notices := notices + [Alert(c, message)];
        }
        i := i + 1;
      }
      assert members[i..] == [];
    }

    /** `handleGroupJoin(server, source, target, joinState)`: a declined
        invite alerts the source and then the target; an accepted one
        alerts the source's group and then the target. The group table is
        left as it is: the target is not added. */
    method HandleGroupJoin(source: Character, target: Character, joinState: bool, clientByCharId: string -> Option<Character>)
      returns (notices: seq<Notice>)
      ensures !joinState ==> notices == [Alert(source, DeclinedYourInvite(target.name)), Alert(target, InviteDeclined)]
      ensures joinState ==>
                notices == (if source.groupId in groups
                            then AlertsFor(groups[source.groupId].members, clientByCharId, JoinedTheGroup(target.name))
                            else [])
                           + [Alert(target, GroupJoined)]
    {
      if !joinState {
        return [Alert(source, DeclinedYourInvite(target.name)), Alert(target, InviteDeclined)];
      }
      notices := SendAlertToGroup(source.groupId, JoinedTheGroup(target.name), clientByCharId);
      notices := notices + [Alert(target, GroupJoined)];
    }

    /** `removeGroupMember(server, client)`: when the character is in a
        known group (its `groupId` is not 0) and listed as a member, its
        first listing is spliced out and its `groupId` reset to 0; in every
        other case nothing changes. */
    method RemoveGroupMember(client: Character)
      requires Valid()
      modifies this, client
      ensures Valid() && nextGroupId == old(nextGroupId)
      ensures var g := old(client.groupId);
              if g != 0 && g in old(groups) && client.characterId in old(groups)[g].members then
                groups == old(groups)[g := old(groups)[g].(members := RemoveFirst(old(groups)[g].members, client.characterId))]
                && client.groupId == 0
              else
                groups == old(groups) && client.groupId == old(client.groupId)
    {
      var groupId := client.groupId;
      if groupId == 0 || groupId !in groups {
        return;
      }
      var group := groups[groupId];
      if client.characterId !in group.members {
        return;
      }
      var idx := IndexOf(group.members, client.characterId);
      groups := groups[groupId := group.(members := group.members[..idx] + group.members[idx + 1..])];
      client.groupId := 0;
    }

    /** `handleGroupKick(server, client, target)`: resets the target's
        `groupId` to 0 and alerts it; the group table, member lists
        included, is left as it is. */
    method HandleGroupKick(client: Character, target: Character) returns (notices: seq<Notice>)
      modifies target
      ensures target.groupId == 0
      ensures notices == [Alert(target, Blank)]
    {
      target.groupId := 0;
      notices := [Alert(target, Blank)];
    }

    /** `handleGroupCommand(server, client, args)`: a missing subcommand or
        a `kick` without a name only sends the usage text; `kick` with a
        name acts on what the server's lookup of it gives; `leave`, `view`
        and any other subcommand do nothing. */
    method HandleGroupCommand(client: Character, args: seq<string>, target: KickTarget) returns (notices: seq<Notice>)
      modifies if target.Found? then {target.character} else {}
      ensures |args| == 0 || args[0] == "" ==>
                notices == [ChatText(client, MissingArgument)] && unchanged(if target.Found? then {target.character} else {})
      ensures |args| > 0 && args[0] == "kick" && (|args| == 1 || args[1] == "") ==>
                notices == [ChatText(client, KickUsage)] && unchanged(if target.Found? then {target.character} else {})
      ensures |args| > 1 && args[0] == "kick" && args[1] != "" ==>
                match target
                case PlayerNotFound => notices == []
                case NotAClient => notices == [ChatText(client, ClientNotFound)]
                case Found(t) => notices == [Alert(t, Blank)] && t.groupId == 0
      ensures |args| > 0 && args[0] != "" && args[0] != "kick" ==> notices == [] && unchanged(if target.Found? then {target.character} else {})
    {
      if |args| == 0 || args[0] == "" {
        return [ChatText(client, MissingArgument)];
      }
      notices := [];
      if args[0] == "kick" {
        if |args| == 1 || args[1] == "" {
          return [ChatText(client, KickUsage)];
        }
        match target {
          case PlayerNotFound =>
            return;
          case NotAClient =>
            return [ChatText(client, ClientNotFound)];
          case Found(t) =>
            notices := HandleGroupKick(client, t);
        }
      }
    }
  }
}
