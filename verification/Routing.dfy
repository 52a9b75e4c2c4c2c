/**
 Sessions over whole runs: the user table stays consistent, the friend graph is
 the run of its acts, and the online map routes to the right connections exactly
 as long as no connection re-authenticates away from a live entry of its own.
 */
module Routing {
  import opened Wrappers
  import opened Critical
  import opened Machine
  import Directory
  import History
  import Social

  // ---------------------------------------------------------------- users and friends in every run

  lemma BeginTables(s: State, fd: int, r: Request, order: seq<int>)
    requires Idle(s, fd)
    ensures var t := BeginRequest(s, fd, r, order);
            && (!r.Register? ==> t.shared.users == s.shared.users)
            && ((t.shared.graph == s.shared.graph && t.acts == s.acts)
                || exists a :: t.acts == s.acts + [a] && t.shared.graph == Social.Apply(s.shared.graph, a))
  {
    var t := BeginRequest(s, fd, r, order);
    var user := s.threads[fd].user;
    match r
    case FriendRequest(o) =>
      if o != user { assert t.acts == s.acts + [Social.Request(user, o)]; }
    case FriendAccept(o) => assert t.acts == s.acts + [Social.Accept(user, o)];
    case FriendDecline(o) => assert t.acts == s.acts + [Social.Decline(user, o)];
    case Unfriend(o) => assert t.acts == s.acts + [Social.Unfriend(user, o)];
    case _ =>
  }

  lemma ContinueTables(s: State, fd: int, order: seq<int>)
    requires fd in s.threads && s.threads[fd].ops != []
    ensures var t := ContinueThread(s, fd, order);
            && t.shared.users == s.shared.users
            && ((t.shared.graph == s.shared.graph && t.acts == s.acts)
                || exists a :: t.acts == s.acts + [a] && t.shared.graph == Social.Apply(s.shared.graph, a))
  {
    var t := ContinueThread(s, fd, order);
    var op := s.threads[fd].ops[0];
    if op.Befriend? {
      assert t.acts == s.acts + [Social.Request(s.threads[fd].user, op.asked)];
    }
  }

  lemma {:induction false} StepTables(s: State, l: Label)
    requires Directory.Consistent(s.shared.users)
    requires s.shared.graph == Social.Run(Social.EMPTY, s.acts)
    ensures Directory.Consistent(Step(s, l).shared.users)
    ensures Step(s, l).shared.graph == Social.Run(Social.EMPTY, Step(s, l).acts)
  {
    var t := Step(s, l);
    match l {
      case Begin(fd, r, order) =>
        if Idle(s, fd) {
          BeginTables(s, fd, r, order);
          if r.Register? { Directory.RegisterConsistent(s.shared.users, r.name, r.password, r.phone); }
        }
      case Continue(fd, order) =>
        if fd in s.threads && s.threads[fd].ops != [] { ContinueTables(s, fd, order); }
      case _ =>
    }
    if t.acts != s.acts {
      assert t.acts[..|s.acts|] == s.acts;
    }
  }

  /** In every run, under every interleaving, the user table is consistent and the friend graph sound. */
  lemma {:induction false} RunTables(users: Directory.Users, labels: seq<Label>)
    requires Directory.Consistent(users)
    ensures var s := Run(Init(users), labels);
            && Directory.Consistent(s.shared.users)
            && s.shared.graph == Social.Run(Social.EMPTY, s.acts)
            && Social.Sound(s.shared.graph)
  {
    if labels != [] {
      var n := |labels| - 1;
      RunTables(users, labels[..n]);
      StepTables(Run(Init(users), labels[..n]), labels[n]);
    }
    Social.RunSound(Run(Init(users), labels).acts);
  }

  // ---------------------------------------------------------------- the online map

  /** A thread that closes has cleaned up first. */
  predicate ClosesCleanly(ops: seq<Op>) {
    Close in ops ==> ops == [Cleanup, Close] || ops == [Close]
  }

  /** Every online entry names an open connection of that very user, not past its cleanup. */
  ghost predicate Routed(s: State) {
    && (forall fd :: fd in s.threads ==> ClosesCleanly(s.threads[fd].ops))
    && (forall u :: u in s.shared.online ==>
          && u != 0 && s.shared.online[u] in s.threads
          && s.threads[s.shared.online[u]].user == u && s.threads[s.shared.online[u]].ops != [Close])
  }

  lemma RoutedInjective(s: State, u: int, v: int)
    requires Routed(s) && u in s.shared.online && v in s.shared.online && s.shared.online[u] == s.shared.online[v]
    ensures u == v
  {}

  /** The user a request will log in as, if it does. */
  function Authenticates(s: State, r: Request): Option<int> {
    match r
    case Register(name, password, phone) => Directory.Register(s.shared.users, name, password, phone).1
    case Login(name, password) =>
      if name in s.shared.users.byName && s.shared.users.byName[name].password == password
      then Some(s.shared.users.byName[name].id) else None
    case _ => None
  }

  /** The connection is not the live entry of another user. */
  predicate Clean(s: State, fd: int, uid: int) {
    fd in s.threads ==> s.threads[fd].user == uid || s.shared.Lookup(s.threads[fd].user) != Some(fd)
  }

  lemma AuthenticateEffect(s: State, fd: int, r: Request, order: seq<int>)
    requires Idle(s, fd) && Authenticates(s, r).Some?
    ensures var t, uid := BeginRequest(s, fd, r, order), Authenticates(s, r).value;
            t.shared.online == s.shared.online[uid := fd] && t.threads == s.threads[fd := Thread(uid, [])]
  {}

  /** Logging in keeps the routing sound exactly when the connection is not the live entry of someone else. */
  lemma AuthenticateExact(s: State, fd: int, r: Request, order: seq<int>)
    requires Routed(s) && Directory.Consistent(s.shared.users) && Idle(s, fd) && Authenticates(s, r).Some?
    ensures Routed(BeginRequest(s, fd, r, order)) <==> Clean(s, fd, Authenticates(s, r).value)
  {
    var t, uid := BeginRequest(s, fd, r, order), Authenticates(s, r).value;
    var user := s.threads[fd].user;
    AuthenticateEffect(s, fd, r, order);
    assert uid != 0 by {
      if r.Login? { assert Directory.Holds(s.shared.users.byId, s.shared.users.byName[r.name]); }
    }
    if Clean(s, fd, uid) {
      forall u | u in t.shared.online
        ensures u != 0 && t.shared.online[u] in t.threads
                && t.threads[t.shared.online[u]].user == u && t.threads[t.shared.online[u]].ops != [Close]
      {
        if u != uid { assert s.shared.online[u] == t.shared.online[u] != fd; }
      }
    } else {
      assert user in t.shared.online && t.shared.online[user] == fd && t.threads[fd].user != user;
    }
  }

  lemma BeginSession(s: State, fd: int, r: Request, order: seq<int>)
    requires Idle(s, fd) && Authenticates(s, r).None?
    ensures var t := BeginRequest(s, fd, r, order);
            && fd in t.threads && t.threads == s.threads[fd := t.threads[fd]]
            && t.threads[fd].user == s.threads[fd].user && ClosesCleanly(t.threads[fd].ops)
            && (t.threads[fd].ops == [] || !t.threads[fd].ops[0].Close?)
            && (t.shared.online == s.shared.online || t.shared.online == s.shared.online - {s.threads[fd].user})
  {
    hide BeginRequest;
    BeginThread(s, fd, r, order);
    if r.Logout? { LogoutOps(s, fd, order); } else { BeginOpen(s, fd, r, order); }
  }

  lemma BeginThread(s: State, fd: int, r: Request, order: seq<int>)
    requires Idle(s, fd) && Authenticates(s, r).None?
    ensures var t := BeginRequest(s, fd, r, order);
            && fd in t.threads && t.threads == s.threads[fd := t.threads[fd]]
            && t.threads[fd].user == s.threads[fd].user
            && (t.shared.online == s.shared.online || t.shared.online == s.shared.online - {s.threads[fd].user})
  {}

  lemma LogoutOps(s: State, fd: int, order: seq<int>)
    requires Idle(s, fd)
    ensures var t := BeginRequest(s, fd, Logout, order);
            fd in t.threads && t.threads[fd].ops == [Cleanup, Close]
  {}

  lemma BeginOpen(s: State, fd: int, r: Request, order: seq<int>)
    requires Idle(s, fd) && !r.Logout?
    ensures var t := BeginRequest(s, fd, r, order);
            fd in t.threads && Close !in t.threads[fd].ops
  {}

  lemma ContinueSession(s: State, fd: int, order: seq<int>)
    requires fd in s.threads && s.threads[fd].ops != [] && ClosesCleanly(s.threads[fd].ops)
    requires !s.threads[fd].ops[0].Cleanup? && !s.threads[fd].ops[0].Close?
    ensures var t := ContinueThread(s, fd, order);
            && fd in t.threads && t.threads == s.threads[fd := t.threads[fd]]
            && t.threads[fd].user == s.threads[fd].user && Close !in t.threads[fd].ops
            && t.shared.online == s.shared.online
  {
    assert Close !in s.threads[fd].ops;
  }

  lemma StepRouted(s: State, l: Label)
    requires Routed(s)
    requires l.Begin? ==> Authenticates(s, l.request).None?
    ensures Routed(Step(s, l))
  {
    match l
    case Begin(fd, r, order) => if Idle(s, fd) { BeginSession(s, fd, r, order); }
    case Continue(fd, order) =>
      if fd in s.threads && s.threads[fd].ops != [] {
        var op := s.threads[fd].ops[0];
        if op.Cleanup? {
          CleanupRouted(s, fd, order);
        } else if op.Close? {
          assert Close in s.threads[fd].ops;
          CloseRouted(s, fd, order);
        } else {
          ContinueSession(s, fd, order);
        }
      }
    case _ =>
  }

  lemma CleanupRouted(s: State, fd: int, order: seq<int>)
    requires Routed(s) && fd in s.threads && s.threads[fd].ops != [] && s.threads[fd].ops[0].Cleanup?
    ensures Routed(ContinueThread(s, fd, order))
  {
    var ops := s.threads[fd].ops;
    if Close in ops[1..] { assert Close in ops; }
  }

  lemma CloseRouted(s: State, fd: int, order: seq<int>)
    requires Routed(s) && fd in s.threads && s.threads[fd].ops != [] && s.threads[fd].ops[0].Close?
    requires s.threads[fd].ops == [Close]
    ensures Routed(ContinueThread(s, fd, order))
  {}

  /** Every authentication of the run happens on a clean connection. */
  ghost predicate Disciplined(users: Directory.Users, labels: seq<Label>) {
    forall i :: 0 <= i < |labels| ==> LabelClean(Run(Init(users), labels[..i]), labels[i])
  }

  predicate LabelClean(s: State, l: Label) {
    l.Begin? && Idle(s, l.fd) && Authenticates(s, l.request).Some? ==> Clean(s, l.fd, Authenticates(s, l.request).value)
  }

  lemma StepRoutedExact(s: State, l: Label)
    requires Routed(s) && Directory.Consistent(s.shared.users)
    ensures Routed(Step(s, l)) <==> LabelClean(s, l)
  {
    if l.Begin? && Authenticates(s, l.request).Some? {
      if Idle(s, l.fd) { AuthenticateExact(s, l.fd, l.request, l.order); }
    } else {
      StepRouted(s, l);
    }
  }

  ghost predicate AlwaysRouted(users: Directory.Users, labels: seq<Label>) {
    forall i :: 0 <= i <= |labels| ==> Routed(Run(Init(users), labels[..i]))
  }

  lemma RunSnoc(s: State, init: seq<Label>, l: Label)
    ensures Run(s, init + [l]) == Step(Run(s, init), l)
  {
    assert (init + [l])[..|init|] == init;
  }

  lemma AlwaysRoutedSnoc(users: Directory.Users, init: seq<Label>, l: Label)
    ensures AlwaysRouted(users, init + [l]) <==> AlwaysRouted(users, init) && Routed(Step(Run(Init(users), init), l))
    ensures AlwaysRouted(users, init) ==> Routed(Run(Init(users), init))
  {
    hide Routed, Run, Step, Init;
    RunSnoc(Init(users), init, l);
    var labels := init + [l];
    assert labels[..|init|] == init && labels[..|labels|] == labels && init[..|init|] == init;
    forall i | 0 <= i <= |init| ensures init[..i] == labels[..i] {}
    if AlwaysRouted(users, labels) {
      assert Routed(Run(Init(users), labels[..|labels|]));
      forall i | 0 <= i <= |init| ensures Routed(Run(Init(users), init[..i])) {
        assert Routed(Run(Init(users), labels[..i]));
      }
    }
  }

  lemma DisciplinedSnoc(users: Directory.Users, init: seq<Label>, l: Label)
    ensures Disciplined(users, init + [l]) <==> Disciplined(users, init) && LabelClean(Run(Init(users), init), l)
  {
    var labels := init + [l];
    assert labels[..|init|] == init;
    forall i | 0 <= i < |init| ensures init[..i] == labels[..i] && init[i] == labels[i] {}
    if Disciplined(users, labels) {
      assert LabelClean(Run(Init(users), labels[..|init|]), labels[|init|]);
      forall i | 0 <= i < |init| ensures LabelClean(Run(Init(users), init[..i]), init[i]) {
        assert LabelClean(Run(Init(users), labels[..i]), labels[i]);
      }
    }
  }

  /** The routing is sound at every lock boundary of a run if and only if the run is disciplined. */
  lemma {:induction false} RoutedIffDisciplined(users: Directory.Users, labels: seq<Label>)
    requires Directory.Consistent(users)
    ensures AlwaysRouted(users, labels) <==> Disciplined(users, labels)
  {
    if labels == [] {
      assert Routed(Init(users));
    } else {
      var n := |labels| - 1;
      var init, l := labels[..n], labels[n];
      assert labels == init + [l];
      RoutedIffDisciplined(users, init);
      RunTables(users, init);
      AlwaysRoutedSnoc(users, init, l);
      DisciplinedSnoc(users, init, l);
      if AlwaysRouted(users, init) {
        StepRoutedExact(Run(Init(users), init), l);
      }
    }
  }

  /** The request, if it authenticates, comes from a connection nobody has logged in on. */
  predicate FirstLogin(s: State, l: Label) {
    l.Begin? && Idle(s, l.fd) && Authenticates(s, l.request).Some? ==> s.threads[l.fd].user == 0
  }

  /** Connections that authenticate at most once make a disciplined run, so their runs are always routed. */
  lemma {:induction false} OnceIsRouted(users: Directory.Users, labels: seq<Label>)
    requires Directory.Consistent(users)
    requires forall i :: 0 <= i < |labels| ==> FirstLogin(Run(Init(users), labels[..i]), labels[i])
    ensures AlwaysRouted(users, labels)
  {
    if labels != [] {
      var n := |labels| - 1;
      var init, l := labels[..n], labels[n];
      assert labels == init + [l];
      forall i | 0 <= i < n ensures FirstLogin(Run(Init(users), init[..i]), init[i]) {
        assert init[..i] == labels[..i] && init[i] == labels[i];
        assert FirstLogin(Run(Init(users), labels[..i]), labels[i]);
      }
      OnceIsRouted(users, init);
      AlwaysRoutedSnoc(users, init, l);
      DisciplinedSnoc(users, init, l);
      assert FirstLogin(Run(Init(users), labels[..n]), labels[n]);
      RunTables(users, init);
      StepRoutedExact(Run(Init(users), init), l);
    } else {
      assert Routed(Init(users));
    }
  }

  /** Two registrations on one connection leave the first user routed to a connection of the second. */
  lemma ReauthenticationMisroutes()
    ensures var s := Run(Init(Directory.EMPTY),
                         [Connect(7), Begin(7, Register("ann", "x", ""), []), Begin(7, Register("bob", "y", ""), [])]);
            s.shared.Lookup(1) == Some(7) && !Routed(s)
  {
    var l0, l1, l2 := Connect(7), Begin(7, Register("ann", "x", ""), []), Begin(7, Register("bob", "y", ""), []);
    assert [l0, l1, l2][..2] == [l0, l1];
    var s2 := Run(Init(Directory.EMPTY), [l0, l1]);
    AnnRegistered();
    assert "ann"[0] != "bob"[0];
    assert Authenticates(s2, l2.request) == Some(2);
    AuthenticateExact(s2, 7, l2.request, []);
    AuthenticateEffect(s2, 7, l2.request, []);
  }

  lemma AnnRegistered()
    ensures var s := Run(Init(Directory.EMPTY), [Connect(7), Begin(7, Register("ann", "x", ""), [])]);
            && s.threads == map[7 := Thread(1, [])] && s.shared.online == map[1 := 7] && s.shared.users.nextId == 2
            && s.shared.users.byName.Keys == {"ann"} && Directory.Consistent(s.shared.users) && Routed(s)
  {
    var l0, l1 := Connect(7), Begin(7, Register("ann", "x", ""), []);
    var s0 := Init(Directory.EMPTY);
    assert [l0, l1][..1] == [l0] && [l0][..0] == [];
    assert Run(s0, [l0]) == Step(s0, l0);
    assert Run(s0, [l0, l1]) == Step(Step(s0, l0), l1);
  }

  // ---------------------------------------------------------------- who is online, by history

  /** What a step does to the online entry of u: set it to a socket, remove it, or leave it. */
  function OnlineTouch(s: State, l: Label, u: int): Option<Option<int>> {
    match l
    case Begin(fd, r, _) =>
      if !Idle(s, fd) then None
      else if Authenticates(s, r) == Some(u) then Some(Some(fd))
      else if r.Logout? && s.threads[fd].user == u != 0 then Some(None)
      else None
    case Continue(fd, _) =>
      if fd in s.threads && s.threads[fd].ops != [] && s.threads[fd].ops[0].Cleanup? && s.threads[fd].user == u != 0
      then Some(None) else None
    case _ => None
  }

  lemma BeginOnline(s: State, fd: int, r: Request, order: seq<int>, u: int)
    requires Idle(s, fd)
    ensures BeginRequest(s, fd, r, order).shared.Lookup(u)
         == match OnlineTouch(s, Begin(fd, r, order), u) { case Some(e) => e case None => s.shared.Lookup(u) }
  {}

  lemma ContinueOnline(s: State, fd: int, order: seq<int>, u: int)
    requires fd in s.threads && s.threads[fd].ops != []
    ensures ContinueThread(s, fd, order).shared.Lookup(u)
         == match OnlineTouch(s, Continue(fd, order), u) { case Some(e) => e case None => s.shared.Lookup(u) }
  {
    hide ContinueThread;
    if s.threads[fd].ops[0].Cleanup? { CleanupOnline(s, fd, order); } else { OthersOnline(s, fd, order); }
  }

  lemma CleanupOnline(s: State, fd: int, order: seq<int>)
    requires fd in s.threads && s.threads[fd].ops != [] && s.threads[fd].ops[0].Cleanup?
    ensures ContinueThread(s, fd, order).shared == GoOffline(s.shared, s.threads[fd].user)
  {}

  lemma OthersOnline(s: State, fd: int, order: seq<int>)
    requires fd in s.threads && s.threads[fd].ops != [] && !s.threads[fd].ops[0].Cleanup?
    ensures ContinueThread(s, fd, order).shared.online == s.shared.online
  {}

  lemma OnlineStep(s: State, l: Label, u: int)
    ensures Step(s, l).shared.Lookup(u)
         == match OnlineTouch(s, l, u) { case Some(e) => e case None => s.shared.Lookup(u) }
  {
    match l
    case Begin(fd, r, order) => if Idle(s, fd) { BeginOnline(s, fd, r, order, u); }
    case Continue(fd, order) =>
      if fd in s.threads && s.threads[fd].ops != [] { ContinueOnline(s, fd, order, u); }
    case _ =>
  }

  /** At time t, u logged in on fd, and no later step has touched u's entry. */
  ghost predicate LoggedInAt(users: Directory.Users, labels: seq<Label>, u: int, fd: int, t: int) {
    && 0 <= t < |labels| && OnlineTouch(Run(Init(users), labels[..t]), labels[t], u) == Some(Some(fd))
    && forall k :: t < k < |labels| ==> OnlineTouch(Run(Init(users), labels[..k]), labels[k], u).None?
  }

  lemma LoggedInSnoc(users: Directory.Users, init: seq<Label>, l: Label, u: int, fd: int, t: int)
    requires 0 <= t < |init|
    ensures LoggedInAt(users, init + [l], u, fd, t) <==>
            LoggedInAt(users, init, u, fd, t) && OnlineTouch(Run(Init(users), init), l, u).None?
  {
    var labels := init + [l];
    assert labels[..|init|] == init;
    forall k | 0 <= k < |init| ensures labels[..k] == init[..k] && labels[k] == init[k] {}
    if LoggedInAt(users, labels, u, fd, t) {
      assert OnlineTouch(Run(Init(users), labels[..|init|]), labels[|init|], u).None?;
      forall k | t < k < |init| ensures OnlineTouch(Run(Init(users), init[..k]), init[k], u).None? {
        assert OnlineTouch(Run(Init(users), labels[..k]), labels[k], u).None?;
      }
    }
  }

  /** u is online at fd exactly when u's last login, logout or cleanup in the run was a login on fd. */
  lemma {:induction false} OnlineByHistory(users: Directory.Users, labels: seq<Label>, u: int, fd: int)
    ensures Run(Init(users), labels).shared.Lookup(u) == Some(fd) <==> exists t :: LoggedInAt(users, labels, u, fd, t)
  {
    if labels != [] {
      var n := |labels| - 1;
      var init, l := labels[..n], labels[n];
      assert labels == init + [l];
      OnlineByHistory(users, init, u, fd);
      OnlineStep(Run(Init(users), init), l, u);
      if Run(Init(users), labels).shared.Lookup(u) == Some(fd) {
        if OnlineTouch(Run(Init(users), init), l, u).None? {
          var t :| LoggedInAt(users, init, u, fd, t);
          LoggedInSnoc(users, init, l, u, fd, t);
        } else {
          assert LoggedInAt(users, labels, u, fd, n);
        }
      } else if t :| LoggedInAt(users, labels, u, fd, t) {
        if t < n { LoggedInSnoc(users, init, l, u, fd, t); }
      }
    }
  }

  // ---------------------------------------------------------------- whose session a connection is

  /** The user of the session on fd, 0 before any login; None for no connection. */
  function Session(s: State, fd: int): Option<int> {
    if fd in s.threads then Some(s.threads[fd].user) else None
  }

  /** What a step does to the session on fd: opens it for nobody, gives it to a user, or closes it. */
  function SessionTouch(s: State, l: Label, fd: int): Option<Option<int>> {
    if l.fd != fd then None
    else
      match l
      case Connect(_) => if fd in s.threads then None else Some(Some(0))
      case Begin(_, r, _) => if Idle(s, fd) && Authenticates(s, r).Some? then Some(Authenticates(s, r)) else None
      case Continue(_, _) => if fd in s.threads && s.threads[fd].ops == [Close] then Some(None) else None
      case Drop(_) => None
  }

  lemma ContinueThreads(s: State, fd: int, order: seq<int>)
    requires fd in s.threads && s.threads[fd].ops != []
    ensures var t := ContinueThread(s, fd, order);
            if s.threads[fd].ops == [Close] then t.threads == s.threads - {fd}
            else fd in t.threads && t.threads == s.threads[fd := t.threads[fd]] && t.threads[fd].user == s.threads[fd].user
  {
    if s.threads[fd].ops[0].Close? { assert s.threads[fd].ops == [Close] <==> s.threads[fd].ops[1..] == []; }
  }

  lemma SessionStep(s: State, l: Label, fd: int)
    ensures Session(Step(s, l), fd) == match SessionTouch(s, l, fd) { case Some(x) => x case None => Session(s, fd) }
  {
    hide BeginRequest, ContinueThread;
    match l
    case Begin(f, r, order) =>
      if Idle(s, f) {
        if Authenticates(s, r).Some? { AuthenticateEffect(s, f, r, order); } else { BeginThread(s, f, r, order); }
      }
    case Continue(f, order) =>
      if f in s.threads && s.threads[f].ops != [] { ContinueThreads(s, f, order); }
    case _ =>
  }

  function SessionTouchAt(users: Directory.Users, labels: seq<Label>, k: nat, fd: int): Option<Option<int>> {
    if k < |labels| then SessionTouch(At(users, labels, k), labels[k], fd) else None
  }

  ghost function SessionTouches(users: Directory.Users, labels: seq<Label>, fd: int): nat -> Option<Option<int>> {
    (k: nat) => SessionTouchAt(users, labels, k, fd)
  }

  function SessionAt(users: Directory.Users, labels: seq<Label>, k: nat, fd: int): Option<int> {
    if k <= |labels| then Session(At(users, labels, k), fd) else None
  }

  lemma SessionFollows(users: Directory.Users, labels: seq<Label>, k: nat, fd: int)
    requires k < |labels|
    ensures SessionAt(users, labels, k + 1, fd)
         == match SessionTouchAt(users, labels, k, fd) { case Some(x) => x case None => SessionAt(users, labels, k, fd) }
  {
    AtNext(users, labels, k);
    hide At, Step, SessionTouch;
    SessionStep(At(users, labels, k), labels[k], fd);
  }

  /** A connection is open for a user exactly when its last opening, login or closing made it so; it opens for nobody. */
  lemma SessionsByHistory(users: Directory.Users, labels: seq<Label>, n: nat, fd: int, user: int)
    requires n <= |labels|
    ensures Session(At(users, labels, n), fd) == Some(user)
       <==> exists t: nat :: History.LastTouch(SessionTouches(users, labels, fd), n, t)
                             && SessionTouchAt(users, labels, t, fd) == Some(Some(user))
  {
    var value, touch := (k: nat) => SessionAt(users, labels, k, fd), SessionTouches(users, labels, fd);
    assert labels[..0] == [];
    assert value(0) == None;
    forall k: nat | k < n ensures History.Follows(value, touch, k) { SessionFollows(users, labels, k, fd); }
    History.LastTouchDecides(value, touch, n);
    History.OneLastTouch(touch, n);
  }
}
