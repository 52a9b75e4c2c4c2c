/**
 Friendship over whole runs, read off the labels: which request by which session
 performs which friend act, and what the acts of a run leave.
 */
module Friendship {
  import opened Wrappers
  import opened Machine
  import opened History
  import Critical
  import Directory
  import Social
  import Routing

  /** The friend act a step performs, by the request or the section under way and the session's user. */
  function ActOf(s: State, l: Label): Option<Social.Act> {
    match l
    case Begin(fd, r, _) =>
      if !Idle(s, fd) then None
      else
        var user := s.threads[fd].user;
        (match r
         case FriendRequest(target) => if target == user then None else Some(Social.Request(user, target))
         case FriendAccept(other) => Some(Social.Accept(user, other))
         case FriendDecline(other) => Some(Social.Decline(user, other))
         case Unfriend(other) => Some(Social.Unfriend(user, other))
         case _ => None)
    case Continue(fd, _) =>
      if fd in s.threads && s.threads[fd].ops != [] && s.threads[fd].ops[0].Befriend?
      then Some(Social.Request(s.threads[fd].user, s.threads[fd].ops[0].asked)) else None
    case _ => None
  }

  function After(g: Social.Graph, act: Option<Social.Act>): Social.Graph {
    if act.Some? then Social.Apply(g, act.value) else g
  }

  function Record(acts: seq<Social.Act>, act: Option<Social.Act>): seq<Social.Act> {
    if act.Some? then acts + [act.value] else acts
  }

  lemma BeginAct(s: State, fd: int, r: Request, order: seq<int>)
    requires Idle(s, fd)
    ensures var t, act := BeginRequest(s, fd, r, order), ActOf(s, Begin(fd, r, order));
            t.shared.graph == After(s.shared.graph, act) && t.acts == Record(s.acts, act)
  {
    hide Social.Apply;
  }

  lemma ContinueAct(s: State, fd: int, order: seq<int>)
    requires fd in s.threads && s.threads[fd].ops != []
    ensures var t, act := ContinueThread(s, fd, order), ActOf(s, Continue(fd, order));
            t.shared.graph == After(s.shared.graph, act) && t.acts == Record(s.acts, act)
  {
    hide ContinueThread, Social.Apply;
    if s.threads[fd].ops[0].Befriend? { BefriendAct(s, fd, order); } else { NoAct(s, fd, order); }
  }

  lemma BefriendAct(s: State, fd: int, order: seq<int>)
    requires fd in s.threads && s.threads[fd].ops != [] && s.threads[fd].ops[0].Befriend?
    ensures var t, a := ContinueThread(s, fd, order), Social.Request(s.threads[fd].user, s.threads[fd].ops[0].asked);
            t.shared.graph == Social.Apply(s.shared.graph, a) && t.acts == s.acts + [a]
  {
    hide Social.Apply;
  }

  lemma NoAct(s: State, fd: int, order: seq<int>)
    requires fd in s.threads && s.threads[fd].ops != [] && !s.threads[fd].ops[0].Befriend?
    ensures var t := ContinueThread(s, fd, order); t.shared.graph == s.shared.graph && t.acts == s.acts
  {
    hide ContinueThread;
    if s.threads[fd].ops[0].Gather? { GatherNoAct(s, fd, order); } else { OtherNoAct(s, fd, order); }
  }

  lemma GatherNoAct(s: State, fd: int, order: seq<int>)
    requires fd in s.threads && s.threads[fd].ops != [] && s.threads[fd].ops[0].Gather?
    ensures var t := ContinueThread(s, fd, order); t.shared.graph == s.shared.graph && t.acts == s.acts
  {}

  lemma OtherNoAct(s: State, fd: int, order: seq<int>)
    requires fd in s.threads && s.threads[fd].ops != [] && !s.threads[fd].ops[0].Befriend? && !s.threads[fd].ops[0].Gather?
    ensures var t := ContinueThread(s, fd, order); t.shared.graph == s.shared.graph && t.acts == s.acts
  {}

  /** Every step performs exactly the act its label names. */
  lemma StepAct(s: State, l: Label)
    ensures Step(s, l).shared.graph == After(s.shared.graph, ActOf(s, l))
    ensures Step(s, l).acts == Record(s.acts, ActOf(s, l))
  {
    hide BeginRequest, ContinueThread, Social.Apply;
    match l
    case Begin(fd, r, order) => if Idle(s, fd) { BeginAct(s, fd, r, order); }
    case Continue(fd, order) =>
      if fd in s.threads && s.threads[fd].ops != [] { ContinueAct(s, fd, order); }
    case _ =>
  }

  function ActAt(users: Directory.Users, labels: seq<Label>, k: nat): Option<Social.Act> {
    if k < |labels| then ActOf(At(users, labels, k), labels[k]) else None
  }

  predicate FriendAt(users: Directory.Users, labels: seq<Label>, k: nat, u: int, v: int) {
    k <= |labels| && v in At(users, labels, k).shared.graph.Friends(u)
  }

  predicate WaitsAt(users: Directory.Users, labels: seq<Label>, k: nat, u: int, v: int) {
    k <= |labels| && u in At(users, labels, k).shared.graph.Pending(v)
  }

  /** The pair's automaton moves by the act of the step. */
  lemma PairNext(users: Directory.Users, labels: seq<Label>, k: nat, u: int, v: int)
    requires Directory.Consistent(users) && k < |labels|
    ensures var g, h, act := At(users, labels, k).shared.graph, At(users, labels, k + 1).shared.graph, ActAt(users, labels, k);
            Social.View(h, u, v) == if act.None? then Social.View(g, u, v)
                                    else Social.PairStep(Social.View(g, u, v), act.value, u, v)
  {
    Routing.RunTables(users, labels[..k]);
    AtNext(users, labels, k);
    var s := At(users, labels, k);
    assert Social.Sound(s.shared.graph);
    hide At, Step, ActOf, Social.Apply, Social.PairStep, Social.View;
    StepAct(s, labels[k]);
    if ActAt(users, labels, k).Some? {
      assert Social.Fits(Social.View(s.shared.graph, u, v), Social.View(s.shared.graph, v, u), u == v);
      Social.ApplyRefinesPair(s.shared.graph, ActAt(users, labels, k).value, u, v);
    }
  }

  // ---------------------------------------------------------------- friends

  /** FRIEND_ACCEPT between u and v makes them friends, UNFRIEND between them ends it, nothing else matters. */
  function FriendTouch(act: Option<Social.Act>, u: int, v: int): Option<bool> {
    match act
    case Some(Accept(a, b)) => if (a == u && b == v) || (a == v && b == u) then Some(true) else None
    case Some(Unfriend(a, b)) => if (a == u && b == v) || (a == v && b == u) then Some(false) else None
    case _ => None
  }

  ghost function FriendTouches(users: Directory.Users, labels: seq<Label>, u: int, v: int): nat -> Option<bool> {
    (k: nat) => FriendTouch(ActAt(users, labels, k), u, v)
  }

  lemma FriendFollows(users: Directory.Users, labels: seq<Label>, k: nat, u: int, v: int)
    requires Directory.Consistent(users) && k < |labels|
    ensures FriendAt(users, labels, k + 1, u, v)
         == match FriendTouch(ActAt(users, labels, k), u, v) { case Some(b) => b case None => FriendAt(users, labels, k, u, v) }
  {
    hide At, ActAt;
    PairNext(users, labels, k, u, v);
  }

  /** The two are friends exactly when some FRIEND_ACCEPT of the run between them has no later UNFRIEND between them. */
  lemma FriendsByLabels(users: Directory.Users, labels: seq<Label>, n: nat, u: int, v: int)
    requires Directory.Consistent(users) && n <= |labels|
    ensures v in At(users, labels, n).shared.graph.Friends(u)
       <==> exists t: nat :: SetAt(FriendTouches(users, labels, u, v), n, t)
  {
    var value, touch := (k: nat) => FriendAt(users, labels, k, u, v), FriendTouches(users, labels, u, v);
    assert labels[..0] == [];
    assert !value(0);
    hide At, ActAt, SetAt;
    forall k: nat | k < n ensures Follows(value, touch, k) { FriendFollows(users, labels, k, u, v); }
    SetDecides(value, touch, n);
  }

  // ---------------------------------------------------------------- pending requests

  /**
   A request of u to v waits from the act that makes it, unless the two are friends
   by the labels before it, until they become friends, unfriend or v declines.
   */
  ghost function WaitTouch(users: Directory.Users, labels: seq<Label>, k: nat, u: int, v: int): Option<bool> {
    match ActAt(users, labels, k)
    case Some(Request(a, b)) =>
      if a == u && b == v && u != v && !(exists t: nat :: SetAt(FriendTouches(users, labels, u, v), k, t)) then Some(true) else None
    case Some(Decline(a, b)) => if a == v && b == u then Some(false) else None
    case Some(Accept(a, b)) => if (a == u && b == v) || (a == v && b == u) then Some(false) else None
    case Some(Unfriend(a, b)) => if (a == u && b == v) || (a == v && b == u) then Some(false) else None
    case None => None
  }

  ghost function WaitTouches(users: Directory.Users, labels: seq<Label>, u: int, v: int): nat -> Option<bool> {
    (k: nat) => WaitTouch(users, labels, k, u, v)
  }

  lemma WaitFollows(users: Directory.Users, labels: seq<Label>, k: nat, u: int, v: int)
    requires Directory.Consistent(users) && k < |labels|
    ensures WaitsAt(users, labels, k + 1, u, v)
         == match WaitTouch(users, labels, k, u, v) { case Some(b) => b case None => WaitsAt(users, labels, k, u, v) }
  {
    FriendsByLabels(users, labels, k, u, v);
    if u == v { Loners(users, labels, k, u); }
    hide At, ActAt, SetAt;
    PairNext(users, labels, k, u, v);
  }

  lemma Loners(users: Directory.Users, labels: seq<Label>, k: nat, u: int)
    requires Directory.Consistent(users) && k <= |labels|
    ensures u !in At(users, labels, k).shared.graph.Pending(u)
  {
    Routing.RunTables(users, labels[..k]);
    Social.SoundMeaning(At(users, labels, k).shared.graph, u, u);
  }

  /** u waits in v's list exactly when a request of the run put it there and nothing in the run has ended it. */
  lemma PendingByLabels(users: Directory.Users, labels: seq<Label>, n: nat, u: int, v: int)
    requires Directory.Consistent(users) && n <= |labels|
    ensures u in At(users, labels, n).shared.graph.Pending(v)
       <==> exists t: nat :: SetAt(WaitTouches(users, labels, u, v), n, t)
  {
    var value, touch := (k: nat) => WaitsAt(users, labels, k, u, v), WaitTouches(users, labels, u, v);
    assert labels[..0] == [];
    assert !value(0);
    hide At, ActAt, SetAt, WaitTouch;
    forall k: nat | k < n ensures Follows(value, touch, k) { WaitFollows(users, labels, k, u, v); }
    SetDecides(value, touch, n);
  }
}
