/** Who may start what: when a request is refused, what it leads to when it is not, and who stands behind every section. */
module Permissions {
  import opened Wrappers
  import opened Critical
  import opened Machine
  import Administration
  import Directory

  /** The server's check on a request of `user`. */
  predicate Permitted(g: Shared, user: int, r: Request) {
    match r
    case Register(name, password, _) => name != "" && password != "" && name !in g.users.byName
    case Login(name, password) => name in g.users.byName && g.users.byName[name].password == password
    case FriendRequestByName(name) => name in g.users.byName && g.users.byName[name].id != user
    case FriendRequest(target) => target != user
    case InviteToGroup(gid, _, _) => g.IsMember(gid, user)
    case RenameGroup(gid, _, _, _) => g.IsMember(gid, user)
    case SetGroupNickname(gid, uid, _, _) => g.IsMember(gid, uid)
    case RemoveFromGroup(gid, uid, _, _, _) => gid in g.groups && (uid == user || g.IsAdmin(gid, user))
    case MakeAdmin(gid, _, _, _) => g.IsAdmin(gid, user)
    case GroupMessage(gid, _) => g.IsMember(gid, user)
    case _ => true
  }

  /** A request that is refused changes nothing at all. */
  lemma RefusedChangesNothing(s: State, fd: int, r: Request, order: seq<int>)
    requires Idle(s, fd) && !Permitted(s.shared, s.threads[fd].user, r)
    ensures BeginRequest(s, fd, r, order) == s
  {}

  function SystemNotice(text: string): Msg {
    Msg(0x34, text, 0)
  }

  /**
   The critical sections a permitted request leads to after its first one, in
   order; `job` is the number of the next delivery, `order` its audience where the
   first section takes one.
   */
  function Plan(g: Shared, user: int, r: Request, order: seq<int>, job: nat): seq<Op> {
    match r
    case Logout => [Cleanup, Close]
    case FriendRequestByName(name) => if name in g.users.byName then [Befriend(g.users.byName[name].id)] else []
    case DirectMessage(recipient, _) => [Fan(job, [recipient])]
    case CreateGroup(name, invited, text) =>
      [Rewrite(g.nextGroup, name, invited), Gather(g.nextGroup, true, SystemNotice(text), None)]
    case InviteToGroup(gid, uid, text) => [Admit(gid, uid), Gather(gid, true, SystemNotice(text), None)]
    case RenameGroup(gid, _, text, notice) => [Gather(gid, true, SystemNotice(text), Some(Msg(0xF0, notice, user)))]
    case SetGroupNickname(gid, _, _, text) => [Gather(gid, false, SystemNotice(text), None)]
    case RemoveFromGroup(gid, uid, text, _, notice) =>
      [Expel(gid, uid), Gather(gid, true, SystemNotice(text), None), Fan(job, [uid]), Gather(gid, false, Msg(0xF0, notice, 0), None)]
    case MakeAdmin(gid, uid, text, notice) =>
      [Promote(gid, uid), Gather(gid, true, SystemNotice(text), Some(Msg(0xF0, notice, user)))]
    case GroupMessage(_, _) => [Fan(job, order)]
    case _ => []
  }

  /** A permitted request leads to exactly its plan; a group message waits for an audience of the other members. */
  lemma PermittedFollowsPlan(s: State, fd: int, r: Request, order: seq<int>)
    requires Idle(s, fd) && Permitted(s.shared, s.threads[fd].user, r)
    requires r.GroupMessage? ==> Enumerates(order, s.shared.groups[r.gid].members - {s.threads[fd].user})
    ensures var t := BeginRequest(s, fd, r, order);
            && fd in t.threads && t.threads == s.threads[fd := t.threads[fd]]
            && t.threads[fd].ops == Plan(s.shared, s.threads[fd].user, r, order, |s.jobs|)
            && (!r.Register? && !r.Login? ==> t.threads[fd].user == s.threads[fd].user)
  {
    hide BeginRequest;
    Administration.BeginOps(s, fd, r, order, 0);
    if GroupRequest(r) { GroupPlan(s, fd, r, order); } else { PlainPlan(s, fd, r, order); }
  }

  predicate GroupRequest(r: Request) {
    r.CreateGroup? || r.InviteToGroup? || r.RenameGroup? || r.SetGroupNickname? || r.RemoveFromGroup? || r.MakeAdmin?
  }

  lemma GroupPlan(s: State, fd: int, r: Request, order: seq<int>)
    requires Idle(s, fd) && Permitted(s.shared, s.threads[fd].user, r) && GroupRequest(r)
    ensures var t := BeginRequest(s, fd, r, order);
            && fd in t.threads && t.threads[fd].user == s.threads[fd].user
            && t.threads[fd].ops == Plan(s.shared, s.threads[fd].user, r, order, |s.jobs|)
  {}

  lemma PlainPlan(s: State, fd: int, r: Request, order: seq<int>)
    requires Idle(s, fd) && Permitted(s.shared, s.threads[fd].user, r) && !GroupRequest(r)
    requires r.GroupMessage? ==> Enumerates(order, s.shared.groups[r.gid].members - {s.threads[fd].user})
    ensures var t := BeginRequest(s, fd, r, order);
            && fd in t.threads
            && t.threads[fd].ops == Plan(s.shared, s.threads[fd].user, r, order, |s.jobs|)
            && (!r.Register? && !r.Login? ==> t.threads[fd].user == s.threads[fd].user)
  {}

  // ---------------------------------------------------------------- who stands behind a section

  /** At time t the session on fd made a permitted request that plans op. */
  ghost predicate PlannedAt(users: Directory.Users, labels: seq<Label>, t: nat, fd: int, user: int, op: Op) {
    && t < |labels| && labels[t].Begin? && labels[t].fd == fd && Idle(At(users, labels, t), fd)
    && At(users, labels, t).threads[fd].user == user
    && Permitted(At(users, labels, t).shared, user, labels[t].request)
    && op in Plan(At(users, labels, t).shared, user, labels[t].request, labels[t].order, |At(users, labels, t).jobs|)
  }

  /** Sections that deliver or close do not come from a request alone. */
  predicate Decisive(op: Op) {
    !op.Fan? && !op.Hand? && !op.Cleanup? && !op.Close?
  }

  ghost predicate Backed(users: Directory.Users, labels: seq<Label>, n: nat, fd: int, user: int, op: Op) {
    Decisive(op) ==> exists t: nat :: t < n && PlannedAt(users, labels, t, fd, user, op)
  }

  ghost predicate AllBacked(users: Directory.Users, labels: seq<Label>, n: nat, s: State) {
    forall fd, i :: fd in s.threads && 0 <= i < |s.threads[fd].ops| ==>
      Backed(users, labels, n, fd, s.threads[fd].user, s.threads[fd].ops[i])
  }

  lemma BeginPlanned(users: Directory.Users, labels: seq<Label>, n: nat, i: int)
    requires n < |labels| && labels[n].Begin? && Idle(At(users, labels, n), labels[n].fd)
    ensures var fd := labels[n].fd;
            var t := BeginRequest(At(users, labels, n), fd, labels[n].request, labels[n].order);
            && fd in t.threads
            && (0 <= i < |t.threads[fd].ops| ==> Backed(users, labels, n + 1, fd, t.threads[fd].user, t.threads[fd].ops[i]))
  {
    var s, fd, r, order := At(users, labels, n), labels[n].fd, labels[n].request, labels[n].order;
    hide At, BeginRequest, Plan, Permitted;
    if !Permitted(s.shared, s.threads[fd].user, r) {
      RefusedChangesNothing(s, fd, r, order);
    } else if r.GroupMessage? && !Enumerates(order, GroupOf(s, fd, r)) {
      Unlisted(s, fd, r, order);
    } else {
      if r.GroupMessage? { GroupOfIs(s, fd, r); }
      PermittedFollowsPlan(s, fd, r, order);
      var ops := BeginRequest(s, fd, r, order).threads[fd].ops;
      if 0 <= i < |ops| && Decisive(ops[i]) {
        NoSessionChange(s, s.threads[fd].user, r, order, |s.jobs|);
        assert PlannedAt(users, labels, n, fd, s.threads[fd].user, ops[i]);
      }
    }
  }

  function GroupOf(s: State, fd: int, r: Request): set<int>
    requires fd in s.threads
  {
    if r.GroupMessage? && r.gid in s.shared.groups then s.shared.groups[r.gid].members - {s.threads[fd].user} else {}
  }

  lemma GroupOfIs(s: State, fd: int, r: Request)
    requires fd in s.threads && Permitted(s.shared, s.threads[fd].user, r) && r.GroupMessage?
    ensures r.gid in s.shared.groups && GroupOf(s, fd, r) == s.shared.groups[r.gid].members - {s.threads[fd].user}
  {}

  lemma Unlisted(s: State, fd: int, r: Request, order: seq<int>)
    requires Idle(s, fd) && r.GroupMessage? && !Enumerates(order, GroupOf(s, fd, r))
    ensures BeginRequest(s, fd, r, order) == s
  {}

  lemma NoSessionChange(s: State, user: int, r: Request, order: seq<int>, job: nat)
    ensures r.Register? || r.Login? ==> Plan(s.shared, user, r, order, job) == []
  {}

  lemma ContinueBacked(users: Directory.Users, labels: seq<Label>, n: nat, fd: int, order: seq<int>)
    requires n < |labels| && AllBacked(users, labels, n, At(users, labels, n))
    requires fd in At(users, labels, n).threads && At(users, labels, n).threads[fd].ops != []
    ensures AllBacked(users, labels, n + 1, ContinueThread(At(users, labels, n), fd, order))
  {
    var s := At(users, labels, n);
    hide At, ContinueThread, PlannedAt;
    var t := ContinueThread(s, fd, order);
    Administration.ContinueOthers(s, fd, order);
    forall f, i | f in t.threads && 0 <= i < |t.threads[f].ops|
      ensures Backed(users, labels, n + 1, f, t.threads[f].user, t.threads[f].ops[i])
    {
      if f != fd {
        assert Backed(users, labels, n, f, s.threads[f].user, s.threads[f].ops[i]);
      } else {
        Administration.ContinueOps(s, fd, order, i);
        if t.threads[fd].ops[i] in s.threads[fd].ops {
          var k :| 0 <= k < |s.threads[fd].ops| && s.threads[fd].ops[k] == t.threads[fd].ops[i];
          assert Backed(users, labels, n, fd, s.threads[fd].user, s.threads[fd].ops[k]);
        }
      }
    }
  }

  lemma BeginBacked(users: Directory.Users, labels: seq<Label>, n: nat)
    requires n < |labels| && AllBacked(users, labels, n, At(users, labels, n))
    requires labels[n].Begin? && Idle(At(users, labels, n), labels[n].fd)
    ensures AllBacked(users, labels, n + 1,
              BeginRequest(At(users, labels, n), labels[n].fd, labels[n].request, labels[n].order))
  {
    var s, fd := At(users, labels, n), labels[n].fd;
    var t := BeginRequest(s, fd, labels[n].request, labels[n].order);
    Administration.BeginOps(s, fd, labels[n].request, labels[n].order, 0);
    hide At, BeginRequest, PlannedAt;
    forall f, i | f in t.threads && 0 <= i < |t.threads[f].ops|
      ensures Backed(users, labels, n + 1, f, t.threads[f].user, t.threads[f].ops[i])
    {
      if f != fd {
        assert t.threads[f] == s.threads[f];
        assert Backed(users, labels, n, f, s.threads[f].user, s.threads[f].ops[i]);
      } else {
        BeginPlanned(users, labels, n, i);
      }
    }
  }

  lemma QuietBacked(users: Directory.Users, labels: seq<Label>, n: nat)
    requires n < |labels| && AllBacked(users, labels, n, At(users, labels, n))
    requires labels[n].Connect? || labels[n].Drop?
    ensures AllBacked(users, labels, n + 1, Step(At(users, labels, n), labels[n]))
  {
    hide At, PlannedAt;
  }

  lemma StepBacked(users: Directory.Users, labels: seq<Label>, n: nat)
    requires n < |labels| && AllBacked(users, labels, n, At(users, labels, n))
    ensures AllBacked(users, labels, n + 1, Step(At(users, labels, n), labels[n]))
  {
    hide At, AllBacked, BeginRequest, ContinueThread;
    var s, l := At(users, labels, n), labels[n];
    if l.Begin? && Idle(s, l.fd) {
      BeginBacked(users, labels, n);
    } else if l.Continue? && l.fd in s.threads && s.threads[l.fd].ops != [] {
      ContinueBacked(users, labels, n, l.fd, l.order);
    } else if l.Connect? || l.Drop? {
      QuietBacked(users, labels, n);
    } else {
      BackedLater(users, labels, n, s);
    }
  }

  lemma {:induction false} RunBacked(users: Directory.Users, labels: seq<Label>, n: nat)
    requires n <= |labels|
    ensures AllBacked(users, labels, n, At(users, labels, n))
  {
    if n == 0 {
      assert labels[..0] == [];
    } else {
      hide At, Step, AllBacked;
      RunBacked(users, labels, n - 1);
      StepBacked(users, labels, n - 1);
      AtNext(users, labels, n - 1);
    }
  }

  lemma BackedLater(users: Directory.Users, labels: seq<Label>, n: nat, s: State)
    requires AllBacked(users, labels, n, s)
    ensures AllBacked(users, labels, n + 1, s)
  {
    hide PlannedAt;
    forall fd, i | fd in s.threads && 0 <= i < |s.threads[fd].ops|
      ensures Backed(users, labels, n + 1, fd, s.threads[fd].user, s.threads[fd].ops[i])
    {
      assert Backed(users, labels, n, fd, s.threads[fd].user, s.threads[fd].ops[i]);
    }
  }

  /**
   Under every interleaving, a section that changes friends or groups is entered
   only by the session that asked for it, on a request it was permitted to make at
   the time it made it.
   */
  lemma SectionsArePlanned(users: Directory.Users, labels: seq<Label>, n: nat, fd: int, i: int) returns (t: nat)
    requires n <= |labels| && fd in At(users, labels, n).threads
    requires 0 <= i < |At(users, labels, n).threads[fd].ops| && Decisive(At(users, labels, n).threads[fd].ops[i])
    ensures t < n
    ensures PlannedAt(users, labels, t, fd, At(users, labels, n).threads[fd].user, At(users, labels, n).threads[fd].ops[i])
  {
    RunBacked(users, labels, n);
    var s := At(users, labels, n);
    assert Backed(users, labels, n, fd, s.threads[fd].user, s.threads[fd].ops[i]);
    t :| t < n && PlannedAt(users, labels, t, fd, s.threads[fd].user, s.threads[fd].ops[i]);
  }

  /** A member is removed only on the word of that member, or of one who was admin when giving it. */
  lemma RemovalWasPermitted(users: Directory.Users, labels: seq<Label>, n: nat, fd: int, gid: int, uid: int) returns (t: nat)
    requires n <= |labels| && fd in At(users, labels, n).threads && At(users, labels, n).threads[fd].ops != []
    requires At(users, labels, n).threads[fd].ops[0] == Expel(gid, uid)
    ensures var user := At(users, labels, n).threads[fd].user;
            && t < n && labels[t].Begin? && labels[t].fd == fd && labels[t].request.RemoveFromGroup?
            && labels[t].request.gid == gid && labels[t].request.uid == uid
            && (uid == user || At(users, labels, t).shared.IsAdmin(gid, user))
  {
    t := SectionsArePlanned(users, labels, n, fd, 0);
    hide At;
  }
}
