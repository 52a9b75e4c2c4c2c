/** The records of groups over whole runs: which step sets which admin flag, name and nickname. */
module Groups {
  import opened Wrappers
  import opened Critical
  import opened Machine
  import opened History
  import Administration
  import Directory

  /** The user of the handler on fd is the last member of group gid, so leaving deletes it. */
  predicate Deletes(s: State, fd: int, gid: int) {
    gid in s.shared.groups && fd in s.threads && s.shared.groups[gid].members <= {s.threads[fd].user}
  }

  // ---------------------------------------------------------------- admin flags

  /** What a step does to the admin flag of u in group gid: set it, clear it, or leave it. */
  function FlagTouch(s: State, l: Label, gid: int, u: int): Option<bool> {
    match l
    case Begin(fd, r, _) =>
      if !Idle(s, fd) then None
      else if r.CreateGroup? && s.shared.nextGroup == gid then Some(u == s.threads[fd].user)
      else if r == LeaveGroup(gid) && Deletes(s, fd, gid) then Some(false)
      else None
    case Continue(fd, _) =>
      if fd !in s.threads || s.threads[fd].ops == [] then None
      else
        (match s.threads[fd].ops[0]
         case Rewrite(g, _, _) => if g == gid then Some(u == s.threads[fd].user) else None
         case Promote(g, uid) => if g == gid && uid == u && gid in s.shared.groups then Some(true) else None
         case Expel(g, uid) => if g == gid && uid == u then Some(false) else None
         case _ => None)
    case _ => None
  }

  lemma BeginFlag(s: State, fd: int, r: Request, order: seq<int>, gid: int, u: int)
    requires Idle(s, fd)
    ensures BeginRequest(s, fd, r, order).shared.IsAdmin(gid, u)
         == match FlagTouch(s, Begin(fd, r, order), gid, u) { case Some(b) => b case None => s.shared.IsAdmin(gid, u) }
  {
    hide BeginRequest;
    if r.LeaveGroup? { LeaveFlag(s, fd, r.gid, order, gid, u); } else { OtherBeginFlag(s, fd, r, order, gid, u); }
  }

  lemma LeaveFlag(s: State, fd: int, g: int, order: seq<int>, gid: int, u: int)
    requires Idle(s, fd)
    ensures BeginRequest(s, fd, LeaveGroup(g), order).shared.IsAdmin(gid, u)
         == (s.shared.IsAdmin(gid, u) && !(g == gid && Deletes(s, fd, gid)))
  {
    if g in s.shared.groups { LeftEmpty(s.shared.groups[g].members, s.threads[fd].user); }
  }

  lemma LeftEmpty(members: set<int>, u: int)
    ensures members - {u} == {} <==> members <= {u}
  {}

  lemma OtherBeginFlag(s: State, fd: int, r: Request, order: seq<int>, gid: int, u: int)
    requires Idle(s, fd) && !r.LeaveGroup?
    ensures BeginRequest(s, fd, r, order).shared.IsAdmin(gid, u)
         == match FlagTouch(s, Begin(fd, r, order), gid, u) { case Some(b) => b case None => s.shared.IsAdmin(gid, u) }
  {}

  lemma ContinueFlag(s: State, fd: int, order: seq<int>, gid: int, u: int)
    requires fd in s.threads && s.threads[fd].ops != []
    ensures ContinueThread(s, fd, order).shared.IsAdmin(gid, u)
         == match FlagTouch(s, Continue(fd, order), gid, u) { case Some(b) => b case None => s.shared.IsAdmin(gid, u) }
  {
    hide ContinueThread;
    if Administration.GroupWrite(s.threads[fd].ops[0]) {
      WriteFlag(s, fd, order, gid, u);
    } else {
      QuietFlag(s, fd, order, gid, u);
    }
  }

  lemma WriteFlag(s: State, fd: int, order: seq<int>, gid: int, u: int)
    requires fd in s.threads && s.threads[fd].ops != [] && Administration.GroupWrite(s.threads[fd].ops[0])
    ensures ContinueThread(s, fd, order).shared.IsAdmin(gid, u)
         == match FlagTouch(s, Continue(fd, order), gid, u) { case Some(b) => b case None => s.shared.IsAdmin(gid, u) }
  {}

  lemma QuietFlag(s: State, fd: int, order: seq<int>, gid: int, u: int)
    requires fd in s.threads && s.threads[fd].ops != [] && !Administration.GroupWrite(s.threads[fd].ops[0])
    ensures ContinueThread(s, fd, order).shared.IsAdmin(gid, u) == s.shared.IsAdmin(gid, u)
  {
    hide ContinueThread;
    if s.threads[fd].ops[0].Gather? { GatherRecord(s, fd, order); } else { KeepsGroups(s, fd, order); }
  }

  /** The effect of every step on every admin flag. */
  lemma FlagStep(s: State, l: Label, gid: int, u: int)
    ensures Step(s, l).shared.IsAdmin(gid, u)
         == match FlagTouch(s, l, gid, u) { case Some(b) => b case None => s.shared.IsAdmin(gid, u) }
  {
    hide BeginRequest, ContinueThread;
    match l
    case Begin(fd, r, order) => if Idle(s, fd) { BeginFlag(s, fd, r, order, gid, u); }
    case Continue(fd, order) =>
      if fd in s.threads && s.threads[fd].ops != [] { ContinueFlag(s, fd, order, gid, u); }
    case _ =>
  }

  function FlagTouchAt(users: Directory.Users, labels: seq<Label>, k: nat, gid: int, u: int): Option<bool> {
    if k < |labels| then FlagTouch(At(users, labels, k), labels[k], gid, u) else None
  }

  ghost function FlagTouches(users: Directory.Users, labels: seq<Label>, gid: int, u: int): nat -> Option<bool> {
    (k: nat) => FlagTouchAt(users, labels, k, gid, u)
  }

  predicate AdminAt(users: Directory.Users, labels: seq<Label>, k: nat, gid: int, u: int) {
    k <= |labels| && At(users, labels, k).shared.IsAdmin(gid, u)
  }

  lemma FlagFollows(users: Directory.Users, labels: seq<Label>, k: nat, gid: int, u: int)
    requires k < |labels|
    ensures AdminAt(users, labels, k + 1, gid, u)
         == match FlagTouchAt(users, labels, k, gid, u) { case Some(b) => b case None => AdminAt(users, labels, k, gid, u) }
  {
    AtNext(users, labels, k);
    hide At, Step, FlagTouch;
    FlagStep(At(users, labels, k), labels[k], gid, u);
  }

  /** u is an admin of gid exactly when some step set that flag and no later one cleared it. */
  lemma AdminsByHistory(users: Directory.Users, labels: seq<Label>, n: nat, gid: int, u: int)
    requires n <= |labels|
    ensures At(users, labels, n).shared.IsAdmin(gid, u)
       <==> exists t: nat :: SetAt(FlagTouches(users, labels, gid, u), n, t)
  {
    var value := (k: nat) => AdminAt(users, labels, k, gid, u);
    var touch := FlagTouches(users, labels, gid, u);
    assert labels[..0] == [];
    assert !value(0);
    forall k: nat | k < n ensures Follows(value, touch, k) { FlagFollows(users, labels, k, gid, u); }
    hide SetAt;
    SetDecides(value, touch, n);
  }

  // ---------------------------------------------------------------- names

  /** The name of a group, None where there is no group. */
  function Name(g: Shared, gid: int): Option<string> {
    if gid in g.groups then Some(g.groups[gid].name) else None
  }

  /** What a step does to the name of group gid; creating and deleting the group count. */
  function NameTouch(s: State, l: Label, gid: int): Option<Option<string>> {
    match l
    case Begin(fd, r, _) =>
      if !Idle(s, fd) then None
      else if r.CreateGroup? && s.shared.nextGroup == gid then Some(Some(r.name))
      else if r.RenameGroup? && r.gid == gid && s.shared.IsMember(gid, s.threads[fd].user) then Some(Some(r.name))
      else if r == LeaveGroup(gid) && Deletes(s, fd, gid) then Some(None)
      else None
    case Continue(fd, order) =>
      if fd !in s.threads || s.threads[fd].ops == [] then None
      else
        (match s.threads[fd].ops[0]
         case Rewrite(g, name, _) => if g == gid then Some(Some(name)) else None
         case Admit(g, _) => if g == gid && gid !in s.shared.groups then Some(Some("")) else None
         case Gather(g, create, _, _) =>
           if g == gid && create && gid !in s.shared.groups && order == [] then Some(Some("")) else None
         case _ => None)
    case _ => None
  }

  lemma BeginName(s: State, fd: int, r: Request, order: seq<int>, gid: int)
    requires Idle(s, fd)
    ensures Name(BeginRequest(s, fd, r, order).shared, gid)
         == match NameTouch(s, Begin(fd, r, order), gid) { case Some(x) => x case None => Name(s.shared, gid) }
  {
    hide BeginRequest;
    if r.LeaveGroup? { LeaveRecord(s, fd, r.gid, order, gid); } else { OtherBeginName(s, fd, r, order, gid); }
  }

  /** Leaving touches no record but the deleted one and the leaver's seat. */
  lemma LeaveRecord(s: State, fd: int, g: int, order: seq<int>, gid: int)
    requires Idle(s, fd)
    ensures var t := BeginRequest(s, fd, LeaveGroup(g), order);
            && (gid in t.shared.groups <==> gid in s.shared.groups && !(g == gid && Deletes(s, fd, gid)))
            && (gid in t.shared.groups ==>
                  && t.shared.groups[gid].name == s.shared.groups[gid].name
                  && t.shared.groups[gid].nicknames == s.shared.groups[gid].nicknames)
  {
    if g in s.shared.groups { LeftEmpty(s.shared.groups[g].members, s.threads[fd].user); }
  }

  lemma OtherBeginName(s: State, fd: int, r: Request, order: seq<int>, gid: int)
    requires Idle(s, fd) && !r.LeaveGroup?
    ensures Name(BeginRequest(s, fd, r, order).shared, gid)
         == match NameTouch(s, Begin(fd, r, order), gid) { case Some(x) => x case None => Name(s.shared, gid) }
  {}

  lemma ContinueName(s: State, fd: int, order: seq<int>, gid: int)
    requires fd in s.threads && s.threads[fd].ops != []
    ensures Name(ContinueThread(s, fd, order).shared, gid)
         == match NameTouch(s, Continue(fd, order), gid) { case Some(x) => x case None => Name(s.shared, gid) }
  {
    hide ContinueThread;
    var op := s.threads[fd].ops[0];
    if op.Gather? {
      GatherName(s, fd, order, gid);
    } else if Administration.GroupWrite(op) {
      WriteName(s, fd, order, gid);
    } else {
      KeepsGroups(s, fd, order);
    }
  }

  lemma GatherName(s: State, fd: int, order: seq<int>, gid: int)
    requires fd in s.threads && s.threads[fd].ops != [] && s.threads[fd].ops[0].Gather?
    ensures Name(ContinueThread(s, fd, order).shared, gid)
         == match NameTouch(s, Continue(fd, order), gid) { case Some(x) => x case None => Name(s.shared, gid) }
  {
    GatherRecord(s, fd, order);
    NobodyListed(order);
  }

  /** A broadcast creates the group it reads when there is none, and else leaves all records alone. */
  lemma GatherRecord(s: State, fd: int, order: seq<int>)
    requires fd in s.threads && s.threads[fd].ops != [] && s.threads[fd].ops[0].Gather?
    ensures var op := s.threads[fd].ops[0];
            ContinueThread(s, fd, order).shared.groups ==
              if op.create && op.gid !in s.shared.groups && Enumerates(order, {}) then s.shared.groups[op.gid := NO_GROUP]
              else s.shared.groups
  {
    var op := s.threads[fd].ops[0];
    if op.gid in s.shared.groups {
      assert s.shared.groups[op.gid := s.shared.groups[op.gid]] == s.shared.groups;
    }
  }

  lemma NobodyListed(order: seq<int>)
    ensures Enumerates(order, {}) <==> order == []
  {
    var listed: set<int> := set x | x in order;
    if order == [] {
      assert listed == {};
    } else {
      assert order[0] in listed;
      assert listed != {};
    }
  }

  lemma WriteName(s: State, fd: int, order: seq<int>, gid: int)
    requires fd in s.threads && s.threads[fd].ops != [] && Administration.GroupWrite(s.threads[fd].ops[0])
    ensures Name(ContinueThread(s, fd, order).shared, gid)
         == match NameTouch(s, Continue(fd, order), gid) { case Some(x) => x case None => Name(s.shared, gid) }
  {}

  lemma KeepsGroups(s: State, fd: int, order: seq<int>)
    requires fd in s.threads && s.threads[fd].ops != []
    requires !Administration.GroupWrite(s.threads[fd].ops[0]) && !s.threads[fd].ops[0].Gather?
    ensures ContinueThread(s, fd, order).shared.groups == s.shared.groups
  {}

  /** The effect of every step on the name of every group. */
  lemma NameStep(s: State, l: Label, gid: int)
    ensures Name(Step(s, l).shared, gid)
         == match NameTouch(s, l, gid) { case Some(x) => x case None => Name(s.shared, gid) }
  {
    hide BeginRequest, ContinueThread;
    match l
    case Begin(fd, r, order) => if Idle(s, fd) { BeginName(s, fd, r, order, gid); }
    case Continue(fd, order) =>
      if fd in s.threads && s.threads[fd].ops != [] { ContinueName(s, fd, order, gid); }
    case _ =>
  }

  function NameTouchAt(users: Directory.Users, labels: seq<Label>, k: nat, gid: int): Option<Option<string>> {
    if k < |labels| then NameTouch(At(users, labels, k), labels[k], gid) else None
  }

  ghost function NameTouches(users: Directory.Users, labels: seq<Label>, gid: int): nat -> Option<Option<string>> {
    (k: nat) => NameTouchAt(users, labels, k, gid)
  }

  function NameAt(users: Directory.Users, labels: seq<Label>, k: nat, gid: int): Option<string> {
    if k <= |labels| then Name(At(users, labels, k).shared, gid) else None
  }

  lemma NameFollows(users: Directory.Users, labels: seq<Label>, k: nat, gid: int)
    requires k < |labels|
    ensures NameAt(users, labels, k + 1, gid)
         == match NameTouchAt(users, labels, k, gid) { case Some(x) => x case None => NameAt(users, labels, k, gid) }
  {
    AtNext(users, labels, k);
    hide At, Step, NameTouch;
    NameStep(At(users, labels, k), labels[k], gid);
  }

  /** A group is there with a name exactly when the last step that touched it left it there with that name. */
  lemma NamesByHistory(users: Directory.Users, labels: seq<Label>, n: nat, gid: int, name: string)
    requires n <= |labels|
    ensures Name(At(users, labels, n).shared, gid) == Some(name)
       <==> exists t: nat :: LastTouch(NameTouches(users, labels, gid), n, t)
                             && NameTouchAt(users, labels, t, gid) == Some(Some(name))
  {
    var value, touch := (k: nat) => NameAt(users, labels, k, gid), NameTouches(users, labels, gid);
    assert labels[..0] == [];
    assert value(0) == None;
    forall k: nat | k < n ensures Follows(value, touch, k) { NameFollows(users, labels, k, gid); }
    LastTouchDecides(value, touch, n);
    OneLastTouch(touch, n);
  }

  // ---------------------------------------------------------------- nicknames

  /** What a step does to the nickname of u in group gid. */
  function NickTouch(s: State, l: Label, gid: int, u: int): Option<Option<string>> {
    match l
    case Begin(fd, r, _) =>
      if !Idle(s, fd) then None
      else if r.CreateGroup? && s.shared.nextGroup == gid then Some(None)
      else if r.SetGroupNickname? && r.gid == gid && r.uid == u && s.shared.IsMember(gid, u) then Some(Some(r.nick))
      else if r == LeaveGroup(gid) && Deletes(s, fd, gid) then Some(None)
      else None
    case Continue(fd, _) =>
      if fd in s.threads && s.threads[fd].ops != [] && s.threads[fd].ops[0].Rewrite? && s.threads[fd].ops[0].gid == gid
      then Some(None) else None
    case _ => None
  }

  lemma BeginNick(s: State, fd: int, r: Request, order: seq<int>, gid: int, u: int)
    requires Idle(s, fd) && !r.LeaveGroup?
    ensures BeginRequest(s, fd, r, order).shared.Nickname(gid, u)
         == match NickTouch(s, Begin(fd, r, order), gid, u) { case Some(x) => x case None => s.shared.Nickname(gid, u) }
  {}

  lemma WriteNick(s: State, fd: int, order: seq<int>, gid: int, u: int)
    requires fd in s.threads && s.threads[fd].ops != [] && Administration.GroupWrite(s.threads[fd].ops[0])
    ensures ContinueThread(s, fd, order).shared.Nickname(gid, u)
         == match NickTouch(s, Continue(fd, order), gid, u) { case Some(x) => x case None => s.shared.Nickname(gid, u) }
  {}

  /** The effect of every step on every nickname: no seat, flag or name ever decides one. */
  lemma NickStep(s: State, l: Label, gid: int, u: int)
    ensures Step(s, l).shared.Nickname(gid, u)
         == match NickTouch(s, l, gid, u) { case Some(x) => x case None => s.shared.Nickname(gid, u) }
  {
    hide BeginRequest, ContinueThread;
    match l
    case Begin(fd, r, order) =>
      if Idle(s, fd) {
        if r.LeaveGroup? { LeaveRecord(s, fd, r.gid, order, gid); } else { BeginNick(s, fd, r, order, gid, u); }
      }
    case Continue(fd, order) =>
      if fd in s.threads && s.threads[fd].ops != [] {
        var op := s.threads[fd].ops[0];
        if op.Gather? {
          GatherRecord(s, fd, order);
        } else if Administration.GroupWrite(op) {
          WriteNick(s, fd, order, gid, u);
        } else {
          KeepsGroups(s, fd, order);
        }
      }
    case _ =>
  }
}
