/**
 The global maps of the server as an object, with one method for each critical
 section. A method is tied to the function of `Critical` that `Machine` runs at
 that point, and says what a caller sees of it: who is online, queued, member or
 admin afterwards, for every key, and what stays as it was.
 */
module ServerState {
  import opened Wrappers
  import opened Critical
  import Directory
  import Social

  class Globals {
    var usersByName: map<string, Directory.User>
    var usersById: map<int, Directory.User>
    var nextUserId: int
    var friends: map<int, set<int>>
    var friendRequests: map<int, seq<int>>
    var onlineClients: map<int, int>
    var groups: map<int, Group>
    var nextGroupId: int
    var offlineMessages: map<int, seq<Msg>>

    ghost function Value(): Shared
      reads this
    {
      Shared(Directory.Users(usersByName, usersById, nextUserId), Social.Graph(friends, friendRequests),
             onlineClients, groups, nextGroupId, offlineMessages)
    }

    constructor ()
      ensures Value() == FRESH
    {
      usersByName, usersById, nextUserId := map[], map[], 1;
      friends, friendRequests := map[], map[];
      onlineClients, groups, nextGroupId, offlineMessages := map[], map[], 1, map[];
    }

    method Register(fd: int, name: string, password: string, phone: string) returns (uid: Option<int>)
      modifies this
      ensures (Value(), uid) == Critical.Register(old(Value()), fd, name, password, phone)
    {
      if name == "" || password == "" {
        return None;
      }
      if name in usersByName {
        return None;
      }
      var id := nextUserId;
      nextUserId := nextUserId + 1;
      var u := Directory.User(id, name, password, phone);
      usersByName := usersByName[name := u];
      usersById := usersById[id := u];
      onlineClients := onlineClients[id := fd];
      return Some(id);
    }

    method Login(fd: int, name: string, password: string) returns (who: Option<(int, seq<Msg>)>)
      modifies this
      ensures (Value(), who) == Critical.Login(old(Value()), fd, name, password)
    {
      if name !in usersByName || usersByName[name].password != password {
        return None;
      }
      var uid := usersByName[name].id;
      onlineClients := onlineClients[uid := fd];
      var waiting := [];
      if uid in offlineMessages {
        waiting := offlineMessages[uid];
        offlineMessages := offlineMessages - {uid};
      }
      assert offlineMessages == old(offlineMessages) - {uid};
      return Some((uid, waiting));
    }

    method GoOffline(uid: int)
      modifies this
      ensures Value() == Critical.GoOffline(old(Value()), uid)
      ensures forall u :: Value().Lookup(u) == if u == uid != 0 then None else old(Value()).Lookup(u)
      ensures Value() == old(Value()).(online := onlineClients)
    {
      if uid != 0 {
        onlineClients := onlineClients - {uid};
      }
    }

    method LookUp(uid: int) returns (fd: Option<int>)
      ensures fd == Value().Lookup(uid)
      ensures fd.Some? <==> uid in onlineClients
    {
      fd := None;
      if uid in onlineClients {
        fd := Some(onlineClients[uid]);
      }
    }

    /**
     FRIEND_REQUEST by name scans the table by id in the order of its hash map; a
     consistent table makes the first hit the entry of the index by name.
     */
    method FindUser(name: string, order: seq<int>) returns (uid: Option<int>)
      requires Directory.Consistent(Value().users)
      requires forall k :: 0 <= k < |order| ==> order[k] in usersById
      requires forall i :: i in usersById ==> i in order
      ensures uid == if name in usersByName then Some(usersByName[name].id) else None
    {
      for k := 0 to |order|
        invariant forall j :: 0 <= j < k ==> usersById[order[j]].username != name
      {
        if usersById[order[k]].username == name {
          Directory.ConsistentAt(Value().users, order[k]);
          return Some(order[k]);
        }
      }
      return None;
    }

    method FriendRequest(user: int, target: int) returns (ok: bool)
      modifies this
      ensures Value() == Befriend(old(Value()), Social.Request(user, target))
      ensures ok <==> Value() != old(Value())
    {
      var g := Social.Graph(friends, friendRequests);
      if user == target || target in g.Friends(user) || user in g.Friends(target) {
        return false;
      }
      var list := g.Pending(target);
      if user in list {
        return false;
      }
      friendRequests := friendRequests[target := list + [user]];
      assert Value().graph.Pending(target) != old(Value()).graph.Pending(target);
      return true;
    }

    method FriendAccept(user: int, other: int)
      modifies this
      ensures Value() == Befriend(old(Value()), Social.Accept(user, other))
    {
      Strike(user, other);
      Strike(other, user);
      friends := friends[user := Social.Graph(friends, friendRequests).Friends(user) + {other}];
      friends := friends[other := Social.Graph(friends, friendRequests).Friends(other) + {user}];
    }

    method FriendDecline(user: int, other: int)
      modifies this
      ensures Value() == Befriend(old(Value()), Social.Decline(user, other))
      ensures forall x, v :: x in Value().graph.Pending(v) <==>
                x in old(Value()).graph.Pending(v) && !(v == user && x == other)
      ensures friends == old(friends) && Value() == old(Value()).(graph := Value().graph)
    {
      Strike(user, other);
    }

    method Unfriend(user: int, other: int)
      modifies this
      ensures Value() == Befriend(old(Value()), Social.Unfriend(user, other))
    {
      friends := friends[user := Social.Graph(friends, friendRequests).Friends(user) - {other}];
      friends := friends[other := Social.Graph(friends, friendRequests).Friends(other) - {user}];
      Strike(user, other);
      Strike(other, user);
    }

    /** Erases x from the pending list of owner. */
    method Strike(owner: int, x: int)
      modifies this`friendRequests
      ensures Value() == old(Value()).(graph := Social.Drop(old(Value()).graph, owner, x))
    {
      var kept := Social.Erase(Social.Graph(friends, friendRequests).Pending(owner), x);
      friendRequests := friendRequests[owner := kept];
    }

    method EnqueueOffline(uid: int, m: Msg)
      modifies this
      ensures Value() == Enqueue(old(Value()), uid, m)
      ensures forall u :: Value().Queue(u) == old(Value()).Queue(u) + if u == uid then [m] else []
      ensures Value() == old(Value()).(queues := offlineMessages)
    {
      if uid !in offlineMessages {
        offlineMessages := offlineMessages[uid := []];
      }
      offlineMessages := offlineMessages[uid := offlineMessages[uid] + [m]];
    }

    method OpenGroup(name: string, creator: int, invited: seq<int>) returns (gid: int)
      modifies this
      ensures (Value(), gid) == Critical.OpenGroup(old(Value()), name, creator, invited)
      ensures gid == old(nextGroupId) && nextGroupId == gid + 1
      ensures forall g, u :: Value().IsMember(g, u) <==>
                if g == gid then u == creator || u in invited else old(Value()).IsMember(g, u)
      ensures forall g, u :: Value().IsAdmin(g, u) <==> if g == gid then u == creator else old(Value()).IsAdmin(g, u)
      ensures forall g, u :: Value().Nickname(g, u) == if g == gid then None else old(Value()).Nickname(g, u)
      ensures groups.Keys == old(groups).Keys + {gid} && groups[gid].name == name && groups[gid].owner == creator
      ensures Value() == old(Value()).(groups := groups, nextGroup := nextGroupId)
    {
      gid := nextGroupId;
      nextGroupId := nextGroupId + 1;
      RewriteGroup(gid, name, creator, invited);
    }

    method RewriteGroup(gid: int, name: string, creator: int, invited: seq<int>)
      modifies this`groups
      ensures Value() == Critical.RewriteGroup(old(Value()), gid, name, creator, invited)
      ensures forall g, u :: Value().IsMember(g, u) <==>
                if g == gid then u == creator || u in invited else old(Value()).IsMember(g, u)
      ensures forall g, u :: Value().IsAdmin(g, u) <==> if g == gid then u == creator else old(Value()).IsAdmin(g, u)
      ensures forall g, u :: Value().Nickname(g, u) == if g == gid then None else old(Value()).Nickname(g, u)
      ensures groups.Keys == old(groups).Keys + {gid} && groups[gid].name == name && groups[gid].owner == creator
      ensures Value() == old(Value()).(groups := groups)
    {
      var members := {creator};
      for i := 0 to |invited|
        invariant members == {creator} + (set m | m in invited[..i])
      {
        assert invited[..i + 1] == invited[..i] + [invited[i]];
        members := members + {invited[i]};
      }
      assert invited[..|invited|] == invited;
      groups := groups[gid := Group(name, creator, members, {creator}, map[])];
    }

    method Admit(gid: int, uid: int)
      modifies this
      ensures Value() == Critical.Admit(old(Value()), gid, uid)
      ensures forall g, u :: Value().IsMember(g, u) <==> old(Value()).IsMember(g, u) || (g == gid && u == uid)
      ensures forall g, u :: Value().IsAdmin(g, u) <==> old(Value()).IsAdmin(g, u)
      ensures groups.Keys == old(groups).Keys + {gid}
      ensures Value() == old(Value()).(groups := groups)
    {
      if gid !in groups {
        groups := groups[gid := NO_GROUP];
      }
      groups := groups[gid := groups[gid].(members := groups[gid].members + {uid})];
    }

    method Join(gid: int, uid: int) returns (ok: bool)
      modifies this
      ensures Value() == Critical.Join(old(Value()), gid, uid)
      ensures ok <==> gid in old(groups)
      ensures forall g, u :: Value().IsMember(g, u) <==> old(Value()).IsMember(g, u) || (ok && g == gid && u == uid)
      ensures forall g, u :: Value().IsAdmin(g, u) <==> old(Value()).IsAdmin(g, u)
      ensures groups.Keys == old(groups).Keys
      ensures Value() == old(Value()).(groups := groups)
    {
      ok := gid in groups;
      if ok {
        groups := groups[gid := groups[gid].(members := groups[gid].members + {uid})];
      }
    }

    method Rename(gid: int, user: int, name: string) returns (ok: bool)
      modifies this
      ensures ok <==> old(Value()).IsMember(gid, user)
      ensures Value() == if ok then Critical.Rename(old(Value()), gid, name) else old(Value())
      ensures groups.Keys == old(groups).Keys
      ensures forall g :: g in groups ==> groups[g].name == if ok && g == gid then name else old(groups)[g].name
      ensures forall g, u :: Value().IsMember(g, u) <==> old(Value()).IsMember(g, u)
      ensures forall g, u :: Value().IsAdmin(g, u) <==> old(Value()).IsAdmin(g, u)
      ensures Value() == old(Value()).(groups := groups)
    {
      ok := gid in groups && user in groups[gid].members;
      if ok {
        groups := groups[gid := groups[gid].(name := name)];
      }
    }

    method SetNickname(gid: int, uid: int, nick: string) returns (ok: bool)
      modifies this
      ensures ok <==> old(Value()).IsMember(gid, uid)
      ensures Value() == if ok then Critical.SetNickname(old(Value()), gid, uid, nick) else old(Value())
      ensures forall g, u :: Value().Nickname(g, u) ==
                if ok && g == gid && u == uid then Some(nick) else old(Value()).Nickname(g, u)
      ensures forall g, u :: Value().IsMember(g, u) <==> old(Value()).IsMember(g, u)
      ensures forall g, u :: Value().IsAdmin(g, u) <==> old(Value()).IsAdmin(g, u)
      ensures Value() == old(Value()).(groups := groups)
    {
      ok := gid in groups && uid in groups[gid].members;
      if ok {
        groups := groups[gid := groups[gid].(nicknames := groups[gid].nicknames[uid := nick])];
      }
    }

    method Expel(gid: int, uid: int)
      modifies this
      ensures Value() == Critical.Expel(old(Value()), gid, uid)
      ensures forall g, u :: Value().IsMember(g, u) <==> old(Value()).IsMember(g, u) && !(g == gid && u == uid)
      ensures forall g, u :: Value().IsAdmin(g, u) <==> old(Value()).IsAdmin(g, u) && !(g == gid && u == uid)
      ensures groups.Keys == old(groups).Keys
      ensures Value() == old(Value()).(groups := groups)
    {
      if gid in groups {
        groups := groups[gid := groups[gid].(members := groups[gid].members - {uid})];
        groups := groups[gid := groups[gid].(admins := groups[gid].admins - {uid})];
      }
    }

    method Promote(gid: int, uid: int)
      modifies this
      ensures Value() == Critical.Promote(old(Value()), gid, uid)
      ensures forall g, u :: Value().IsAdmin(g, u) <==>
                old(Value()).IsAdmin(g, u) || (g == gid && u == uid && gid in old(groups))
      ensures forall g, u :: Value().IsMember(g, u) <==> old(Value()).IsMember(g, u)
      ensures groups.Keys == old(groups).Keys
      ensures Value() == old(Value()).(groups := groups)
    {
      if gid in groups {
        groups := groups[gid := groups[gid].(admins := groups[gid].admins + {uid})];
      }
    }

    method Leave(gid: int, uid: int) returns (ok: bool, deleted: bool)
      modifies this
      ensures Value() == Critical.Leave(old(Value()), gid, uid)
      ensures ok <==> gid in old(groups)
      ensures deleted <==> gid in old(groups) && old(groups)[gid].members <= {uid}
      ensures groups.Keys == if deleted then old(groups).Keys - {gid} else old(groups).Keys
      ensures forall g, u :: Value().IsMember(g, u) <==> old(Value()).IsMember(g, u) && !(g == gid && u == uid)
      ensures forall g, u :: Value().IsAdmin(g, u) <==> old(Value()).IsAdmin(g, u) && !(g == gid && deleted)
      ensures Value() == old(Value()).(groups := groups)
    {
      ok, deleted := false, false;
      if gid in groups {
        assert groups[gid].members - {uid} == {} <==> groups[gid].members <= {uid};
        groups := groups[gid := groups[gid].(members := groups[gid].members - {uid})];
        ok := true;
        if groups[gid].members == {} {
          groups := groups - {gid};
          deleted := true;
        }
      }
    }

    method Gather(gid: int, create: bool) returns (members: set<int>)
      modifies this
      ensures (Value(), members) == Critical.Gather(old(Value()), gid, create)
      ensures forall u :: u in members <==> old(Value()).IsMember(gid, u)
      ensures forall g, u :: Value().IsMember(g, u) <==> old(Value()).IsMember(g, u)
      ensures forall g, u :: Value().IsAdmin(g, u) <==> old(Value()).IsAdmin(g, u)
      ensures groups.Keys == old(groups).Keys + if create then {gid} else {}
      ensures Value() == old(Value()).(groups := groups)
    {
      if create && gid !in groups {
        groups := groups[gid := NO_GROUP];
      }
      assert create ==> groups == old(groups)[gid := AtKey(old(Value()), gid)];
      members := if gid in groups then groups[gid].members else {};
    }
  }
}
