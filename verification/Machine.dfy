/**
 The server in memory mode as a labelled state machine. A connection is a thread
 that runs one handler at a time; between two critical sections of a handler any
 other thread may run. What a handler still has to do is its list of `Op`s, one
 critical section each, so every interleaving of critical sections is a sequence
 of labels.
 */
module Machine {
  import opened Wrappers
  import opened Critical
  import Directory
  import Social

  const DIRECT_MESSAGE := 0x20
  const GROUP_MESSAGE := 0x34
  const SUCCESS := 0xF0

  /** A request as parsed from its payload; the texts of notices, which depend on names and clock, come along. */
  datatype Request =
    | Register(name: string, password: string, phone: string)
    | Login(name: string, password: string)
    | Logout
    | FriendRequestByName(name: string)
    | FriendRequest(target: int)
    | FriendAccept(other: int)
    | FriendDecline(other: int)
    | Unfriend(other: int)
    | DirectMessage(recipient: int, text: string)
    | CreateGroup(name: string, invited: seq<int>, text: string)
    | InviteToGroup(gid: int, uid: int, text: string)
    | AcceptGroupInvite(gid: int)
    | RenameGroup(gid: int, name: string, text: string, notice: string)
    | SetGroupNickname(gid: int, uid: int, nick: string, text: string)
    | RemoveFromGroup(gid: int, uid: int, text: string, removed: string, notice: string)
    | MakeAdmin(gid: int, uid: int, text: string, notice: string)
    | LeaveGroup(gid: int)
    | GroupMessage(gid: int, text: string)

  /** A critical section a handler has yet to enter, with the locals it will use there. */
  datatype Op =
    | Befriend(asked: int)
    | Rewrite(gid: int, name: string, invited: seq<int>)
    | Admit(gid: int, uid: int)
    | Promote(gid: int, uid: int)
    | Expel(gid: int, uid: int)
    | Gather(gid: int, create: bool, first: Msg, second: Option<Msg>)
    | Fan(job: nat, todo: seq<int>)
    | Hand(job: nat, uid: int, at: Option<int>)
    | Cleanup
    | Close

  /** `user` is the handler's `current_user_id`, 0 before authentication. */
  datatype Thread = Thread(user: int, ops: seq<Op>)

  /** One message to be handed to each user of an audience. */
  datatype Job = Job(owner: int, audience: seq<int>, msg: Msg)

  /** A message handed over: sent to a socket, or put into the queue of uid. */
  datatype Handed = Handed(job: nat, uid: int, msg: Msg, via: Option<int>)

  /** The global maps, the threads by socket, the table the users file was last written from, and a record of the run. */
  datatype State = State(
    shared: Shared,
    threads: map<int, Thread>,
    saved: Option<map<string, Directory.User>>,
    acts: seq<Social.Act>,
    jobs: seq<Job>,
    handed: seq<Handed>,
    drained: seq<(int, seq<Msg>)>)

  /** `order` is the iteration order of the hash map a step walks over, if it walks over one. */
  datatype Label =
    | Connect(fd: int)
    | Begin(fd: int, request: Request, order: seq<int>)
    | Continue(fd: int, order: seq<int>)
    | Drop(fd: int)

  function Init(users: Directory.Users): State {
    State(FRESH.(users := users), map[], None, [], [], [], [])
  }

  predicate Enumerates(order: seq<int>, members: set<int>) {
    Social.NoRepeats(order) && (set x | x in order) == members
  }

  predicate Idle(s: State, fd: int) {
    fd in s.threads && s.threads[fd].ops == []
  }

  // ---------------------------------------------------------------- pieces of steps

  function Put(s: State, fd: int, shared: Shared, user: int, ops: seq<Op>): State {
    s.(shared := shared, threads := s.threads[fd := Thread(user, ops)])
  }

  /** Starts handing `msg` to `audience`, ahead of `rest`. */
  function Start(s: State, fd: int, user: int, audience: seq<int>, msg: Msg, rest: seq<Op>): State {
    Put(s.(jobs := s.jobs + [Job(fd, audience, msg)]), fd, s.shared, user, [Fan(|s.jobs|, audience)] + rest)
  }

  function Perform(s: State, fd: int, user: int, a: Social.Act, rest: seq<Op>): State {
    Put(s.(acts := s.acts + [a]), fd, Critical.Befriend(s.shared, a), user, rest)
  }

  function Notice(text: string): Msg {
    Msg(GROUP_MESSAGE, text, 0)
  }

  function JobMsg(jobs: seq<Job>, j: nat): Msg {
    if j < |jobs| then jobs[j].msg else Msg(0, "", 0)
  }

  // ---------------------------------------------------------------- handlers

  /** The first critical section of a handler. */
  function BeginRequest(s: State, fd: int, r: Request, order: seq<int>): State
    requires Idle(s, fd)
  {
    var g := s.shared;
    var user := s.threads[fd].user;
    match r
    case Register(name, password, phone) =>
      var (g', uid) := Critical.Register(g, fd, name, password, phone);
      if uid.None? then s else Put(s.(saved := Some(g.users.byName)), fd, g', uid.value, [])
    case Login(name, password) =>
      var (g', who) := Critical.Login(g, fd, name, password);
      if who.None? then s
      else Put(s.(drained := s.drained + [who.value]), fd, g', who.value.0, [])
    case Logout => Put(s, fd, GoOffline(g, user), user, [Cleanup, Close])
    case FriendRequestByName(name) =>
      if name in g.users.byName && g.users.byName[name].id != user
      then Put(s, fd, g, user, [Befriend(g.users.byName[name].id)]) else s
    case FriendRequest(target) => if target == user then s else Perform(s, fd, user, Social.Request(user, target), [])
    case FriendAccept(other) => Perform(s, fd, user, Social.Accept(user, other), [])
    case FriendDecline(other) => Perform(s, fd, user, Social.Decline(user, other), [])
    case Unfriend(other) => Perform(s, fd, user, Social.Unfriend(user, other), [])
    case DirectMessage(recipient, text) => Start(s, fd, user, [recipient], Msg(DIRECT_MESSAGE, text, user), [])
    case CreateGroup(name, invited, text) =>
      var (g', gid) := OpenGroup(g, name, user, invited);
      Put(s, fd, g', user, [Rewrite(gid, name, invited), Gather(gid, true, Notice(text), None)])
    case InviteToGroup(gid, uid, text) =>
      if g.IsMember(gid, user) then Put(s, fd, g, user, [Admit(gid, uid), Gather(gid, true, Notice(text), None)]) else s
    case AcceptGroupInvite(gid) => Put(s, fd, Join(g, gid, user), user, [])
    case RenameGroup(gid, name, text, notice) =>
      if g.IsMember(gid, user)
      then Put(s, fd, Rename(g, gid, name), user, [Gather(gid, true, Notice(text), Some(Msg(SUCCESS, notice, user)))])
      else s
    case SetGroupNickname(gid, uid, nick, text) =>
      if g.IsMember(gid, uid)
      then Put(s, fd, SetNickname(g, gid, uid, nick), user, [Gather(gid, false, Notice(text), None)])
      else s
    case RemoveFromGroup(gid, uid, text, removed, notice) =>
      if gid in g.groups && (uid == user || g.IsAdmin(gid, user)) then
        Put(s.(jobs := s.jobs + [Job(fd, [uid], Notice(removed))]), fd, g, user,
            [Expel(gid, uid), Gather(gid, true, Notice(text), None), Fan(|s.jobs|, [uid]),
             Gather(gid, false, Msg(SUCCESS, notice, 0), None)])
      else s
    case MakeAdmin(gid, uid, text, notice) =>
      if g.IsAdmin(gid, user)
      then Put(s, fd, g, user, [Promote(gid, uid), Gather(gid, true, Notice(text), Some(Msg(SUCCESS, notice, user)))])
      else s
    case LeaveGroup(gid) => Put(s, fd, Leave(g, gid, user), user, [])
    case GroupMessage(gid, text) =>
      if g.IsMember(gid, user) && Enumerates(order, g.groups[gid].members - {user})
      then Start(s, fd, user, order, Msg(GROUP_MESSAGE, text, user), [])
      else s
  }

  /** The next critical section of a handler that is under way. */
  function ContinueThread(s: State, fd: int, order: seq<int>): State
    requires fd in s.threads && s.threads[fd].ops != []
  {
    var g := s.shared;
    var user := s.threads[fd].user;
    var rest := s.threads[fd].ops[1..];
    match s.threads[fd].ops[0]
    case Befriend(target) => Perform(s, fd, user, Social.Request(user, target), rest)
    case Rewrite(gid, name, invited) => Put(s, fd, RewriteGroup(g, gid, name, user, invited), user, rest)
    case Admit(gid, uid) => Put(s, fd, Critical.Admit(g, gid, uid), user, rest)
    case Promote(gid, uid) => Put(s, fd, Critical.Promote(g, gid, uid), user, rest)
    case Expel(gid, uid) => Put(s, fd, Critical.Expel(g, gid, uid), user, rest)
    case Gather(gid, create, first, second) =>
      var (g', members) := Critical.Gather(g, gid, create);
      if !Enumerates(order, members) then s
      else if second.None? then Start(s.(shared := g'), fd, user, order, first, rest)
      else
        var s1 := Start(s.(shared := g'), fd, user, order, second.value, rest);
        Start(s1, fd, user, order, first, s1.threads[fd].ops)
    case Fan(j, todo) =>
      if todo == [] then Put(s, fd, g, user, rest)
      else Put(s, fd, g, user, [Hand(j, todo[0], g.Lookup(todo[0])), Fan(j, todo[1..])] + rest)
    case Hand(j, uid, target) =>
      var m := JobMsg(s.jobs, j);
      Put(s.(handed := s.handed + [Handed(j, uid, m, target)]), fd,
          if target.None? then Enqueue(g, uid, m) else g, user, rest)
    case Cleanup => Put(s, fd, GoOffline(g, user), user, rest)
    case Close => if rest == [] then s.(threads := s.threads - {fd}) else s
  }

  function Step(s: State, l: Label): State {
    match l
    case Connect(fd) => if fd in s.threads then s else Put(s, fd, s.shared, 0, [])
    case Begin(fd, r, order) => if Idle(s, fd) then BeginRequest(s, fd, r, order) else s
    case Continue(fd, order) =>
      if fd in s.threads && s.threads[fd].ops != [] then ContinueThread(s, fd, order) else s
    case Drop(fd) => if Idle(s, fd) then Put(s, fd, s.shared, s.threads[fd].user, [Cleanup, Close]) else s
  }

  function Run(s: State, labels: seq<Label>): State {
    if labels == [] then s else Step(Run(s, labels[..|labels| - 1]), labels[|labels| - 1])
  }

  /** The state at time t of a run. */
  function At(users: Directory.Users, labels: seq<Label>, t: nat): State
    requires t <= |labels|
  {
    Run(Init(users), labels[..t])
  }

  lemma AtNext(users: Directory.Users, labels: seq<Label>, n: nat)
    requires n < |labels|
    ensures At(users, labels, n + 1) == Step(At(users, labels, n), labels[n])
  {
    assert labels[..n + 1][..n] == labels[..n];
  }
}
