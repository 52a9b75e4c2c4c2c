/**
 The shared state of the server in memory mode and its critical sections. Each
 function below is what one stretch of code under `g_mutex` does to the global
 maps; the values a handler carries from one section to the next are arguments
 and results.
 */
module Critical {
  import opened Wrappers
  import Directory
  import Social

  /** A queued or delivered message: protocol type byte, payload text, sender. */
  datatype Msg = Msg(kind: int, payload: string, from: int)

  datatype Group = Group(name: string, owner: int, members: set<int>, admins: set<int>, nicknames: map<int, string>)

  /** What `g_groups[gid]` creates for a missing key. */
  const NO_GROUP := Group("", 0, {}, {}, map[])

  datatype Shared = Shared(
    users: Directory.Users,
    graph: Social.Graph,
    online: map<int, int>,
    groups: map<int, Group>,
    nextGroup: int,
    queues: map<int, seq<Msg>>)
  {
    function Queue(u: int): seq<Msg> {
      if u in queues then queues[u] else []
    }

    function Lookup(u: int): Option<int> {
      if u in online then Some(online[u]) else None
    }

    predicate IsMember(gid: int, u: int) {
      gid in groups && u in groups[gid].members
    }

    function Nickname(gid: int, u: int): Option<string> {
      if gid in groups && u in groups[gid].nicknames then Some(groups[gid].nicknames[u]) else None
    }

    predicate IsAdmin(gid: int, u: int) {
      gid in groups && u in groups[gid].admins
    }
  }

  const FRESH := Shared(Directory.EMPTY, Social.EMPTY, map[], map[], 1, map[])

  // ---------------------------------------------------------------- sessions

  function Register(g: Shared, fd: int, name: string, password: string, phone: string): (Shared, Option<int>) {
    var (users, uid) := Directory.Register(g.users, name, password, phone);
    if uid.None? then (g, None)
    else (g.(users := users, online := g.online[uid.value := fd]), uid)
  }

  /** LOGIN: on success the user is online at fd and its queue moves into the handler. */
  function Login(g: Shared, fd: int, name: string, password: string): (Shared, Option<(int, seq<Msg>)>) {
    if name !in g.users.byName || g.users.byName[name].password != password then (g, None)
    else
      var uid := g.users.byName[name].id;
      (g.(online := g.online[uid := fd], queues := g.queues - {uid}), Some((uid, g.Queue(uid))))
  }

  function GoOffline(g: Shared, uid: int): Shared {
    if uid == 0 then g else g.(online := g.online - {uid})
  }

  function Befriend(g: Shared, a: Social.Act): Shared {
    g.(graph := Social.Apply(g.graph, a))
  }

  // ---------------------------------------------------------------- queues

  function Enqueue(g: Shared, uid: int, m: Msg): Shared {
    g.(queues := g.queues[uid := g.Queue(uid) + [m]])
  }

  // ---------------------------------------------------------------- groups

  function Founded(name: string, creator: int, invited: seq<int>): Group {
    Group(name, creator, {creator} + (set m | m in invited), {creator}, map[])
  }

  /** The first of the two writes of CREATE_GROUP. */
  function OpenGroup(g: Shared, name: string, creator: int, invited: seq<int>): (Shared, int) {
    (g.(groups := g.groups[g.nextGroup := Founded(name, creator, invited)], nextGroup := g.nextGroup + 1), g.nextGroup)
  }

  /** The second write, which builds the group anew and overwrites whatever happened since the first. */
  function RewriteGroup(g: Shared, gid: int, name: string, creator: int, invited: seq<int>): Shared {
    g.(groups := g.groups[gid := Founded(name, creator, invited)])
  }

  function AtKey(g: Shared, gid: int): Group {
    if gid in g.groups then g.groups[gid] else NO_GROUP
  }

  /** INVITE_TO_GROUP after its check; a group deleted meanwhile comes back as an empty record. */
  function Admit(g: Shared, gid: int, uid: int): Shared {
    var grp := AtKey(g, gid);
    g.(groups := g.groups[gid := grp.(members := grp.members + {uid})])
  }

  function Join(g: Shared, gid: int, uid: int): Shared {
    if gid !in g.groups then g else Admit(g, gid, uid)
  }

  function Rename(g: Shared, gid: int, name: string): Shared {
    if gid !in g.groups then g else g.(groups := g.groups[gid := g.groups[gid].(name := name)])
  }

  function SetNickname(g: Shared, gid: int, uid: int, nick: string): Shared {
    if gid !in g.groups then g
    else
      var grp := g.groups[gid];
      g.(groups := g.groups[gid := grp.(nicknames := grp.nicknames[uid := nick])])
  }

  function Expel(g: Shared, gid: int, uid: int): Shared {
    if gid !in g.groups then g
    else
      var grp := g.groups[gid];
      g.(groups := g.groups[gid := grp.(members := grp.members - {uid}, admins := grp.admins - {uid})])
  }

  function Promote(g: Shared, gid: int, uid: int): Shared {
    if gid !in g.groups then g
    else
      var grp := g.groups[gid];
      g.(groups := g.groups[gid := grp.(admins := grp.admins + {uid})])
  }

  /** LEAVE_GROUP: the member goes, its admin flag stays, and the last member takes the group along. */
  function Leave(g: Shared, gid: int, uid: int): Shared {
    if gid !in g.groups then g
    else
      var grp := g.groups[gid];
      var left := grp.members - {uid};
      if left == {} then g.(groups := g.groups - {gid})
      else g.(groups := g.groups[gid := grp.(members := left)])
  }

  /** The member list a broadcast takes; with `create` it reads `g_groups[gid]`, which makes a missing group. */
  function Gather(g: Shared, gid: int, create: bool): (Shared, set<int>) {
    (if create then g.(groups := g.groups[gid := AtKey(g, gid)]) else g, AtKey(g, gid).members)
  }
}
