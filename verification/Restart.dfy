/** The users file over whole runs: what a restart at any lock boundary finds. */
module Restart {
  import opened Wrappers
  import opened Machine
  import opened UsersFile
  import Directory
  import Routing

  predicate CleanTable(d: Directory.Users) {
    forall n :: n in d.byName ==> CleanUser(d.byName[n])
  }

  /** A registration without tabs and newlines in its fields. */
  predicate CleanLabel(l: Label) {
    l.Begin? && l.request.Register? ==>
      CleanText(l.request.name) && CleanText(l.request.password) && CleanText(l.request.phone)
  }

  lemma StepClean(s: State, l: Label)
    requires CleanTable(s.shared.users) && CleanLabel(l)
    ensures CleanTable(Step(s, l).shared.users)
  {
    match l
    case Begin(fd, r, order) =>
      if Idle(s, fd) { Routing.BeginTables(s, fd, r, order); }
    case Continue(fd, order) =>
      if fd in s.threads && s.threads[fd].ops != [] { Routing.ContinueTables(s, fd, order); }
    case _ =>
  }

  lemma {:induction false} RunClean(users: Directory.Users, labels: seq<Label>)
    requires CleanTable(users) && forall k :: 0 <= k < |labels| ==> CleanLabel(labels[k])
    ensures CleanTable(Run(Init(users), labels).shared.users)
  {
    if labels != [] {
      var n := |labels| - 1;
      RunClean(users, labels[..n]);
      StepClean(Run(Init(users), labels[..n]), labels[n]);
    }
  }

  /** A registration that succeeds; it writes the file and then adds its user. */
  predicate Registers(s: State, l: Label) {
    && l.Begin? && Idle(s, l.fd) && l.request.Register?
    && Directory.Register(s.shared.users, l.request.name, l.request.password, l.request.phone).1.Some?
  }

  function WithUser(d: Directory.Users, l: Label): Directory.Users {
    if l.Begin? && l.request.Register?
    then Directory.Register(d, l.request.name, l.request.password, l.request.phone).0 else d
  }

  lemma SaveStep(s: State, l: Label)
    ensures var t := Step(s, l);
            && t.saved == (if Registers(s, l) then Some(s.shared.users.byName) else s.saved)
            && t.shared.users == (if Registers(s, l) then WithUser(s.shared.users, l) else s.shared.users)
  {
    match l
    case Begin(fd, r, order) => if Idle(s, fd) { BeginSave(s, fd, r, order); }
    case Continue(fd, order) =>
      if fd in s.threads && s.threads[fd].ops != [] {
        Routing.ContinueTables(s, fd, order);
        ContinueSave(s, fd, order);
      }
    case _ =>
  }

  lemma BeginSave(s: State, fd: int, r: Request, order: seq<int>)
    requires Idle(s, fd)
    ensures var t, l := BeginRequest(s, fd, r, order), Begin(fd, r, order);
            && t.saved == (if Registers(s, l) then Some(s.shared.users.byName) else s.saved)
            && t.shared.users == (if Registers(s, l) then WithUser(s.shared.users, l) else s.shared.users)
  {}

  lemma ContinueSave(s: State, fd: int, order: seq<int>)
    requires fd in s.threads && s.threads[fd].ops != []
    ensures ContinueThread(s, fd, order).saved == s.saved
  {}

  predicate RegistersAt(users: Directory.Users, labels: seq<Label>, t: nat) {
    t < |labels| && Registers(At(users, labels, t), labels[t])
  }

  /** The last registration before time n was at time t. */
  ghost predicate LastRegistration(users: Directory.Users, labels: seq<Label>, n: nat, t: nat) {
    t < n && RegistersAt(users, labels, t) && forall m: nat :: t < m < n ==> !RegistersAt(users, labels, m)
  }

  lemma SaveAtNext(users: Directory.Users, labels: seq<Label>, n: nat)
    requires n < |labels|
    ensures var s, t := At(users, labels, n), At(users, labels, n + 1);
            if RegistersAt(users, labels, n)
            then t.saved == Some(s.shared.users.byName) && t.shared.users == WithUser(s.shared.users, labels[n])
            else t.saved == s.saved && t.shared.users == s.shared.users
  {
    hide At, Step, Registers, WithUser;
    AtNext(users, labels, n);
    SaveStep(At(users, labels, n), labels[n]);
  }

  /** The file is of the table before the last registration, which added the one user that table lacks. */
  lemma {:induction false} SavedByHistory(users: Directory.Users, labels: seq<Label>, n: nat) returns (t: nat)
    requires n <= |labels|
    ensures if At(users, labels, n).saved.None? then forall m: nat :: m < n ==> !RegistersAt(users, labels, m)
            else && LastRegistration(users, labels, n, t)
                 && At(users, labels, n).saved.value == At(users, labels, t).shared.users.byName
                 && At(users, labels, n).shared.users == WithUser(At(users, labels, t).shared.users, labels[t])
    decreases n
  {
    t := 0;
    if n > 0 {
      t := SavedByHistory(users, labels, n - 1);
      SaveAtNext(users, labels, n - 1);
      hide At, RegistersAt, WithUser;
      if RegistersAt(users, labels, n - 1) {
        t := n - 1;
      }
    }
  }

  lemma {:induction false} AtTables(users: Directory.Users, labels: seq<Label>, n: nat)
    requires Directory.Consistent(users) && CleanTable(users) && n <= |labels|
    requires forall k :: 0 <= k < |labels| ==> CleanLabel(labels[k])
    ensures Directory.Consistent(At(users, labels, n).shared.users) && CleanTable(At(users, labels, n).shared.users)
  {
    Routing.RunTables(users, labels[..n]);
    RunClean(users, labels[..n]);
  }

  /**
   At every lock boundary of every run with clean registrations, a server started
   from the file, in whatever order it lists its users, holds the table before the
   last registration, and gives the id of that registration to the next user.
   */
  lemma RestartLosesLastUser(users: Directory.Users, labels: seq<Label>, n: nat, order: seq<string>) returns (t: nat)
    requires Directory.Consistent(users) && CleanTable(users) && n <= |labels|
    requires forall k :: 0 <= k < |labels| ==> CleanLabel(labels[k])
    requires At(users, labels, n).saved.Some? && Covers(order, At(users, labels, n).saved.value)
    ensures LastRegistration(users, labels, n, t)
    ensures var saved, before, now := At(users, labels, n).saved.value, At(users, labels, t).shared.users,
                                      At(users, labels, n).shared.users;
            && (forall k :: 0 <= k < |order| ==> saved[order[k]].id >= 0)
            && Load(FileText(Listed(saved, order))) == Some(before)
            && now == WithUser(before, labels[t]) && now.byId.Keys == before.byId.Keys + {before.nextId}
            && before.nextId !in before.byId
  {
    t := SavedByHistory(users, labels, n);
    AtTables(users, labels, t);
    var d, r := At(users, labels, t).shared.users, labels[t].request;
    forall k | 0 <= k < |order| ensures d.byName[order[k]].id >= 0 { NameAt(d, order[k]); }
    RestoresIffClean(d, order);
    Directory.RegisterConsistent(d, r.name, r.password, r.phone);
  }
}
