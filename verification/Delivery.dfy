/**
 What becomes of a message under every interleaving: a fan-out hands exactly one
 copy to each user of its audience, and what is queued for a user is what that
 user's logins drained followed by what is still queued.
 */
module Delivery {
  import opened Wrappers
  import opened Critical
  import opened Machine
  import Directory
  import Social

  // ---------------------------------------------------------------- fan-out

  function OpLeft(op: Op, j: nat): multiset<int> {
    match op
    case Fan(k, todo) => if k == j then multiset(todo) else multiset{}
    case Hand(k, uid, _) => if k == j then multiset{uid} else multiset{}
    case _ => multiset{}
  }

  /** The users a handler has yet to serve for job j. */
  function Left(ops: seq<Op>, j: nat): multiset<int> {
    if ops == [] then multiset{} else OpLeft(ops[0], j) + Left(ops[1..], j)
  }

  function LeftAt(s: State, fd: int, j: nat): multiset<int> {
    if fd in s.threads then Left(s.threads[fd].ops, j) else multiset{}
  }

  /** The users served so far for job j. */
  function Served(handed: seq<Handed>, j: nat): multiset<int> {
    if handed == [] then multiset{}
    else
      var n := |handed| - 1;
      Served(handed[..n], j) + (if handed[n].job == j then multiset{handed[n].uid} else multiset{})
  }

  /** Served and still to be served make up the audience; only the owner of a job works on it. */
  ghost predicate Balanced(s: State) {
    && (forall j: nat :: j < |s.jobs| ==>
          Served(s.handed, j) + LeftAt(s, s.jobs[j].owner, j) == multiset(s.jobs[j].audience))
    && (forall fd, j: nat :: (j >= |s.jobs| || s.jobs[j].owner != fd) ==> LeftAt(s, fd, j) == multiset{})
    && (forall j: nat :: j >= |s.jobs| ==> Served(s.handed, j) == multiset{})
  }

  /** Every copy handed over is the message of its job. */
  ghost predicate Faithful(s: State) {
    forall i :: 0 <= i < |s.handed| ==>
      s.handed[i].job < |s.jobs| && s.handed[i].msg == s.jobs[s.handed[i].job].msg
  }

  lemma LeftCons(op: Op, ops: seq<Op>, j: nat)
    ensures Left([op] + ops, j) == OpLeft(op, j) + Left(ops, j)
  {
    assert ([op] + ops)[1..] == ops;
  }

  lemma ServedSnoc(handed: seq<Handed>, h: Handed, j: nat)
    ensures Served(handed + [h], j)
         == Served(handed, j) + (if h.job == j then multiset{h.uid} else multiset{})
  {
    assert (handed + [h])[..|handed|] == handed;
  }

  /** A step that changes one thread without changing what it owes keeps the balance. */
  lemma PutBalanced(s: State, t: State, fd: int)
    requires Balanced(s)
    requires t.jobs == s.jobs && t.handed == s.handed
    requires forall f :: f != fd ==> (f in t.threads <==> f in s.threads)
    requires forall f :: f != fd && f in s.threads ==> t.threads[f] == s.threads[f]
    requires forall j: nat :: LeftAt(t, fd, j) == LeftAt(s, fd, j)
    ensures Balanced(t)
  {
    assert forall f, j: nat :: LeftAt(t, f, j) == LeftAt(s, f, j);
  }

  /** A new job is balanced when its thread owes its whole audience and nobody owes anything else more or less. */
  lemma JobBalanced(s: State, t: State, fd: int, audience: seq<int>, msg: Msg)
    requires Balanced(s) && t.jobs == s.jobs + [Job(fd, audience, msg)] && t.handed == s.handed
    requires forall f, j: nat :: LeftAt(t, f, j) == if f == fd && j == |s.jobs| then multiset(audience) else LeftAt(s, f, j)
    ensures Balanced(t)
  {
    hide LeftAt, Served;
    forall j: nat | j < |t.jobs|
      ensures Served(t.handed, j) + LeftAt(t, t.jobs[j].owner, j) == multiset(t.jobs[j].audience)
    {
      if j < |s.jobs| {
        assert t.jobs[j] == s.jobs[j];
        assert LeftAt(t, s.jobs[j].owner, j) == LeftAt(s, s.jobs[j].owner, j);
      } else {
        assert Served(s.handed, j) == multiset{};
      }
    }
    forall f, j: nat | j >= |t.jobs| || t.jobs[j].owner != f ensures LeftAt(t, f, j) == multiset{} {
      assert j < |s.jobs| ==> t.jobs[j] == s.jobs[j];
      assert LeftAt(s, f, j) == multiset{};
    }
  }

  /** Starting a job adds its whole audience to what its thread owes. */
  lemma StartBalanced(s: State, fd: int, user: int, audience: seq<int>, msg: Msg, rest: seq<Op>)
    requires Balanced(s)
    requires forall j: nat :: LeftAt(s, fd, j) == Left(rest, j)
    ensures Balanced(Start(s, fd, user, audience, msg, rest))
    ensures fd in Start(s, fd, user, audience, msg, rest).threads
    ensures forall j: nat :: Left(Start(s, fd, user, audience, msg, rest).threads[fd].ops, j)
                          == LeftAt(Start(s, fd, user, audience, msg, rest), fd, j)
  {
    hide Balanced, Left;
    var t := Start(s, fd, user, audience, msg, rest);
    forall f, j: nat
      ensures LeftAt(t, f, j) == if f == fd && j == |s.jobs| then multiset(audience) else LeftAt(s, f, j)
    {
      assert f == fd ==> LeftAt(s, fd, j) == Left(rest, j);
      StartLeft(s, fd, user, audience, msg, rest, f, j);
    }
    JobBalanced(s, t, fd, audience, msg);
  }

  lemma StartLeft(s: State, fd: int, user: int, audience: seq<int>, msg: Msg, rest: seq<Op>, f: int, j: nat)
    requires Balanced(s) && (f == fd ==> LeftAt(s, fd, j) == Left(rest, j))
    ensures LeftAt(Start(s, fd, user, audience, msg, rest), f, j)
         == if f == fd && j == |s.jobs| then multiset(audience) else LeftAt(s, f, j)
  {
    if f == fd {
      LeftCons(Fan(|s.jobs|, audience), rest, j);
    }
  }

  /** RemoveFromGroup plans its removal notice as a job before it runs anything. */
  lemma PlanBalanced(s: State, t: State, fd: int, audience: seq<int>, msg: Msg)
    requires Balanced(s) && Idle(s, fd)
    requires t.jobs == s.jobs + [Job(fd, audience, msg)] && t.handed == s.handed
    requires t.threads.Keys == s.threads.Keys
    requires forall f :: f != fd && f in s.threads ==> t.threads[f] == s.threads[f]
    requires forall j: nat :: LeftAt(t, fd, j) == if j == |s.jobs| then multiset(audience) else multiset{}
    ensures Balanced(t)
  {
    hide Balanced;
    forall f, j: nat
      ensures LeftAt(t, f, j) == if f == fd && j == |s.jobs| then multiset(audience) else LeftAt(s, f, j)
    {
      assert f == fd ==> LeftAt(s, f, j) == multiset{};
    }
    JobBalanced(s, t, fd, audience, msg);
  }

  predicate Quiet(ops: seq<Op>) {
    forall i :: 0 <= i < |ops| ==> !ops[i].Fan? && !ops[i].Hand?
  }

  lemma {:induction false} QuietLeft(quiet: seq<Op>, rest: seq<Op>, j: nat)
    requires Quiet(quiet)
    ensures Left(quiet + rest, j) == Left(rest, j)
  {
    if quiet == [] {
      assert quiet + rest == rest;
    } else {
      var tail := quiet[1..] + rest;
      assert quiet + rest == [quiet[0]] + tail;
      QuietLeft(quiet[1..], rest, j);
      LeftCons(quiet[0], tail, j);
      assert OpLeft(quiet[0], j) == multiset{};
    }
  }

  /** Outside the thread of fd nothing moves. */
  ghost predicate Apart(s: State, t: State, fd: int) {
    && (forall f :: f != fd ==> (f in t.threads <==> f in s.threads))
    && forall f :: f in s.threads && f in t.threads && f != fd ==> t.threads[f] == s.threads[f]
  }

  predicate Plans(r: Request) {
    r.DirectMessage? || r.GroupMessage? || r.RemoveFromGroup?
  }

  /** A handler that plans no job at its start leaves jobs and deliveries alone and starts quietly. */
  lemma BeginQuiet(s: State, fd: int, r: Request, order: seq<int>)
    requires Idle(s, fd) && !Plans(r)
    ensures var t := BeginRequest(s, fd, r, order);
            t.jobs == s.jobs && t.handed == s.handed && Apart(s, t, fd) && fd in t.threads && Quiet(t.threads[fd].ops)
  {}

  lemma BeginBalanced(s: State, fd: int, r: Request, order: seq<int>)
    requires Balanced(s) && Idle(s, fd)
    ensures Balanced(BeginRequest(s, fd, r, order))
  {
    var user := s.threads[fd].user;
    if Plans(r) {
      assert forall j: nat :: LeftAt(s, fd, j) == multiset{};
      match r
      case DirectMessage(recipient, text) =>
        StartBalanced(s, fd, user, [recipient], Msg(DIRECT_MESSAGE, text, user), []);
      case GroupMessage(gid, text) =>
        StartBalanced(s, fd, user, order, Msg(GROUP_MESSAGE, text, user), []);
      case RemoveFromGroup(gid, uid, text, removed, notice) =>
        RemoveBalanced(s, fd, r, order);
    } else {
      var t := BeginRequest(s, fd, r, order);
      BeginQuiet(s, fd, r, order);
      var ops := t.threads[fd].ops;
      forall j: nat ensures LeftAt(t, fd, j) == LeftAt(s, fd, j) {
        QuietLeft(ops, [], j);
        assert ops + [] == ops;
      }
      PutBalanced(s, t, fd);
    }
  }

  lemma LoneFan(a: Op, b: Op, fan: Op, d: Op, j: nat)
    requires Quiet([a, b]) && Quiet([d])
    ensures Left([a, b, fan, d], j) == OpLeft(fan, j)
  {
    assert [a, b, fan, d] == [a, b] + ([fan] + [d]);
    QuietLeft([a, b], [fan] + [d], j);
    LeftCons(fan, [d], j);
    assert [d] == [d] + [];
    QuietLeft([d], [], j);
  }

  lemma RemoveBalanced(s: State, fd: int, r: Request, order: seq<int>)
    requires Balanced(s) && Idle(s, fd) && r.RemoveFromGroup?
    ensures Balanced(BeginRequest(s, fd, r, order))
  {
    var t := BeginRequest(s, fd, r, order);
    if t != s {
      var ops := t.threads[fd].ops;
      assert ops == [ops[0], ops[1], ops[2], ops[3]];
      forall j: nat ensures LeftAt(t, fd, j) == if j == |s.jobs| then multiset([r.uid]) else multiset{} {
        LoneFan(ops[0], ops[1], ops[2], ops[3], j);
      }
      PlanBalanced(s, t, fd, [r.uid], Notice(r.removed));
    }
  }

  lemma ContinueQuiet(s: State, fd: int, order: seq<int>)
    requires fd in s.threads && s.threads[fd].ops != []
    requires var op := s.threads[fd].ops[0]; !op.Gather? && !op.Fan? && !op.Hand?
    ensures var t := ContinueThread(s, fd, order);
            && t.jobs == s.jobs && t.handed == s.handed && Apart(s, t, fd)
            && (fd in t.threads ==> t.threads[fd].ops == s.threads[fd].ops[1..] || t == s)
            && (fd !in t.threads ==> s.threads[fd].ops[1..] == [])
  {}

  lemma GatherBalanced(s: State, fd: int, order: seq<int>)
    requires Balanced(s) && fd in s.threads && s.threads[fd].ops != [] && s.threads[fd].ops[0].Gather?
    ensures Balanced(ContinueThread(s, fd, order))
  {
    var ops := s.threads[fd].ops;
    var rest, user, op := ops[1..], s.threads[fd].user, ops[0];
    var (g', members) := Critical.Gather(s.shared, op.gid, op.create);
    if Enumerates(order, members) {
      var s0 := s.(shared := g');
      forall j: nat ensures LeftAt(s0, fd, j) == Left(rest, j) {
        QuietLeft([op], rest, j);
        assert ops == [op] + rest;
      }
      PutBalanced(s, s0, fd);
      if op.second.None? {
        StartBalanced(s0, fd, user, order, op.first, rest);
      } else {
        StartBalanced(s0, fd, user, order, op.second.value, rest);
        var s1 := Start(s0, fd, user, order, op.second.value, rest);
        StartBalanced(s1, fd, user, order, op.first, s1.threads[fd].ops);
      }
    }
  }

  lemma SplitFan(hand: Op, k: nat, todo: seq<int>, rest: seq<Op>, j: nat)
    requires todo != [] && hand.Hand? && hand.job == k && hand.uid == todo[0]
    ensures Left([hand, Fan(k, todo[1..])] + rest, j) == Left([Fan(k, todo)] + rest, j)
  {
    hide Left, OpLeft;
    var tail := [Fan(k, todo[1..])] + rest;
    assert [hand, Fan(k, todo[1..])] + rest == [hand] + tail;
    LeftCons(hand, tail, j);
    LeftCons(Fan(k, todo[1..]), rest, j);
    LeftCons(Fan(k, todo), rest, j);
    HeadAndTail(hand, k, todo, j);
  }

  lemma HeadAndTail(hand: Op, k: nat, todo: seq<int>, j: nat)
    requires todo != [] && hand.Hand? && hand.job == k && hand.uid == todo[0]
    ensures OpLeft(Fan(k, todo), j) == OpLeft(hand, j) + OpLeft(Fan(k, todo[1..]), j)
  {
    assert todo == [todo[0]] + todo[1..];
  }

  lemma FanBalanced(s: State, fd: int, order: seq<int>)
    requires Balanced(s) && fd in s.threads && s.threads[fd].ops != [] && s.threads[fd].ops[0].Fan?
    ensures Balanced(ContinueThread(s, fd, order))
  {
    var t := ContinueThread(s, fd, order);
    var ops := s.threads[fd].ops;
    var rest, k, todo := ops[1..], ops[0].job, ops[0].todo;
    assert ops == [Fan(k, todo)] + rest;
    forall j: nat ensures LeftAt(t, fd, j) == LeftAt(s, fd, j) {
      if todo == [] {
        LeftCons(ops[0], rest, j);
      } else {
        SplitFan(Hand(k, todo[0], s.shared.Lookup(todo[0])), k, todo, rest, j);
      }
    }
    PutBalanced(s, t, fd);
  }

  lemma ContinueBalanced(s: State, fd: int, order: seq<int>)
    requires Balanced(s) && fd in s.threads && s.threads[fd].ops != []
    ensures Balanced(ContinueThread(s, fd, order))
  {
    var ops := s.threads[fd].ops;
    if ops[0].Gather? {
      GatherBalanced(s, fd, order);
    } else if ops[0].Fan? {
      FanBalanced(s, fd, order);
    } else if ops[0].Hand? {
      HandBalanced(s, fd, order);
    } else {
      var t := ContinueThread(s, fd, order);
      ContinueQuiet(s, fd, order);
      forall j: nat ensures LeftAt(t, fd, j) == LeftAt(s, fd, j) {
        QuietLeft([ops[0]], ops[1..], j);
        assert ops == [ops[0]] + ops[1..];
      }
      PutBalanced(s, t, fd);
    }
  }

  lemma HandBalanced(s: State, fd: int, order: seq<int>)
    requires Balanced(s) && fd in s.threads && s.threads[fd].ops != [] && s.threads[fd].ops[0].Hand?
    ensures Balanced(ContinueThread(s, fd, order))
    ensures s.threads[fd].ops[0].job < |s.jobs|
  {
    var t := ContinueThread(s, fd, order);
    var ops := s.threads[fd].ops;
    var rest := ops[1..];
    var k, uid := ops[0].job, ops[0].uid;
    assert ops == [ops[0]] + rest;
    forall j: nat
      ensures Left(ops, j) == (if j == k then multiset{uid} else multiset{}) + Left(rest, j)
      ensures Served(t.handed, j) == Served(s.handed, j) + (if j == k then multiset{uid} else multiset{})
    {
      LeftCons(ops[0], rest, j);
      ServedSnoc(s.handed, t.handed[|s.handed|], j);
    }
    assert uid in LeftAt(s, fd, k);
    assert k < |s.jobs| && s.jobs[k].owner == fd;
    forall f, j: nat | f != fd ensures LeftAt(t, f, j) == LeftAt(s, f, j) {}
    forall j: nat | j < |t.jobs|
      ensures Served(t.handed, j) + LeftAt(t, t.jobs[j].owner, j) == multiset(t.jobs[j].audience)
    {
      assert Served(s.handed, j) + LeftAt(s, s.jobs[j].owner, j) == multiset(s.jobs[j].audience);
    }
    forall f, j: nat | j >= |t.jobs| || t.jobs[j].owner != f ensures LeftAt(t, f, j) == multiset{} {
      assert LeftAt(s, f, j) == multiset{};
    }
  }

  lemma StepBalanced(s: State, l: Label)
    requires Balanced(s)
    ensures Balanced(Step(s, l))
  {
    match l
    case Connect(fd) =>
      if fd !in s.threads { PutBalanced(s, Step(s, l), fd); }
    case Begin(fd, r, order) => if Idle(s, fd) { BeginBalanced(s, fd, r, order); }
    case Continue(fd, order) =>
      if fd in s.threads && s.threads[fd].ops != [] { ContinueBalanced(s, fd, order); }
    case Drop(fd) =>
      if Idle(s, fd) {
        var t := Step(s, l);
        forall j: nat ensures LeftAt(t, fd, j) == LeftAt(s, fd, j) {
          QuietLeft([Cleanup, Close], [], j);
          assert [Cleanup, Close] + [] == [Cleanup, Close];
        }
        PutBalanced(s, t, fd);
      }
  }

  lemma BeginFaithful(s: State, fd: int, r: Request, order: seq<int>)
    requires Idle(s, fd) && Faithful(s)
    ensures Faithful(BeginRequest(s, fd, r, order))
  {
    var t := BeginRequest(s, fd, r, order);
    assert t.handed == s.handed && s.jobs <= t.jobs;
  }

  lemma UnhandedFaithful(s: State, fd: int, order: seq<int>)
    requires Faithful(s) && fd in s.threads && s.threads[fd].ops != [] && !s.threads[fd].ops[0].Hand?
    ensures Faithful(ContinueThread(s, fd, order))
  {
    var t := ContinueThread(s, fd, order);
    assert t.handed == s.handed && s.jobs <= t.jobs;
  }

  lemma HandFaithful(s: State, fd: int, order: seq<int>)
    requires Faithful(s) && fd in s.threads && s.threads[fd].ops != [] && s.threads[fd].ops[0].Hand?
    requires s.threads[fd].ops[0].job < |s.jobs|
    ensures Faithful(ContinueThread(s, fd, order))
  {}

  lemma StepFaithful(s: State, l: Label)
    requires Balanced(s) && Faithful(s)
    ensures Faithful(Step(s, l))
  {
    match l
    case Begin(fd, r, order) => if Idle(s, fd) { BeginFaithful(s, fd, r, order); }
    case Continue(fd, order) =>
      if fd in s.threads && s.threads[fd].ops != [] {
        if s.threads[fd].ops[0].Hand? {
          HandBalanced(s, fd, order);
          HandFaithful(s, fd, order);
        } else {
          UnhandedFaithful(s, fd, order);
        }
      }
    case _ =>
  }

  lemma {:induction false} RunBalanced(users: Directory.Users, labels: seq<Label>)
    ensures Balanced(Run(Init(users), labels)) && Faithful(Run(Init(users), labels))
  {
    if labels != [] {
      var n := |labels| - 1;
      RunBalanced(users, labels[..n]);
      StepBalanced(Run(Init(users), labels[..n]), labels[n]);
      StepFaithful(Run(Init(users), labels[..n]), labels[n]);
    }
  }

  function Copies(handed: seq<Handed>, j: nat, u: int): nat {
    Served(handed, j)[u]
  }

  /**
   When the handler that owns a job has nothing left to do for it, every user
   has been handed exactly as many copies as the audience names it: one for a
   user in an audience without repeats, none for anyone else.
   */
  lemma FanOutExactlyOnce(users: Directory.Users, labels: seq<Label>, j: nat, u: int)
    requires j < |Run(Init(users), labels).jobs|
    requires LeftAt(Run(Init(users), labels), Run(Init(users), labels).jobs[j].owner, j) == multiset{}
    ensures var s := Run(Init(users), labels);
            && Copies(s.handed, j, u) == multiset(s.jobs[j].audience)[u]
            && (Social.NoRepeats(s.jobs[j].audience) ==>
                  Copies(s.handed, j, u) == if u in s.jobs[j].audience then 1 else 0)
  {
    RunBalanced(users, labels);
    var s := Run(Init(users), labels);
    assert Served(s.handed, j) == multiset(s.jobs[j].audience);
    if Social.NoRepeats(s.jobs[j].audience) { CountNoRepeats(s.jobs[j].audience, u); }
  }

  lemma {:induction false} CountNoRepeats(xs: seq<int>, x: int)
    requires Social.NoRepeats(xs)
    ensures multiset(xs)[x] == if x in xs then 1 else 0
  {
    if xs != [] {
      var n := |xs| - 1;
      assert xs == xs[..n] + [xs[n]];
      CountNoRepeats(xs[..n], x);
    }
  }

  // ---------------------------------------------------------------- a group message, from request to last copy

  lemma StepJobs(s: State, l: Label)
    ensures s.jobs <= Step(s, l).jobs
  {
    match l
    case Begin(fd, r, order) =>
      if Idle(s, fd) {
        if !Plans(r) { BeginQuiet(s, fd, r, order); }
      }
    case Continue(fd, order) =>
    case _ =>
  }

  lemma {:induction false} RunJobs(s: State, labels: seq<Label>)
    ensures s.jobs <= Run(s, labels).jobs
  {
    if labels != [] {
      RunJobs(s, labels[..|labels| - 1]);
      StepJobs(Run(s, labels[..|labels| - 1]), labels[|labels| - 1]);
    }
  }

  lemma {:induction false} RunAppend(s: State, a: seq<Label>, b: seq<Label>)
    ensures Run(s, a + b) == Run(Run(s, a), b)
  {
    if b == [] {
      assert a + b == a;
    } else {
      var n := |b| - 1;
      RunAppend(s, a, b[..n]);
      assert (a + b)[..|a + b| - 1] == a + b[..n];
    }
  }

  /**
   A GROUP_MESSAGE accepted at any point of any run, followed by any steps of any
   threads: once its handler has nothing left to hand out for it, each user who
   was a member when it was accepted, other than its sender, has been handed one
   copy, and nobody else has been handed any.
   */
  lemma GroupMessageExactlyOnce(users: Directory.Users, before: seq<Label>, fd: int, gid: int, text: string,
                                order: seq<int>, after: seq<Label>, u: int)
    requires var s := Run(Init(users), before);
             && Idle(s, fd) && s.shared.IsMember(gid, s.threads[fd].user)
             && Enumerates(order, s.shared.groups[gid].members - {s.threads[fd].user})
             && LeftAt(Run(Init(users), before + [Begin(fd, GroupMessage(gid, text), order)] + after), fd, |s.jobs|)
                == multiset{}
    ensures var s := Run(Init(users), before);
            var t := Run(Init(users), before + [Begin(fd, GroupMessage(gid, text), order)] + after);
            && |s.jobs| < |t.jobs| && t.jobs[|s.jobs|].msg == Msg(0x34, text, s.threads[fd].user)
            && Copies(t.handed, |s.jobs|, u)
               == if s.shared.IsMember(gid, u) && u != s.threads[fd].user then 1 else 0
  {
    var s := Run(Init(users), before);
    var l := Begin(fd, GroupMessage(gid, text), order);
    var s1 := Step(s, l);
    assert (before + [l])[..|before|] == before;
    assert Run(Init(users), before + [l]) == s1;
    RunAppend(Init(users), before + [l], after);
    RunJobs(s1, after);
    var t := Run(Init(users), before + [l] + after);
    assert s1.jobs[|s.jobs|] == Job(fd, order, Msg(GROUP_MESSAGE, text, s.threads[fd].user));
    assert t.jobs[|s.jobs|] == s1.jobs[|s.jobs|];
    FanOutExactlyOnce(users, before + [l] + after, |s.jobs|, u);
    var members := s.shared.groups[gid].members - {s.threads[fd].user};
    assert (set x | x in order) == members;
    assert u in order <==> u in members;
    assert t.jobs[|s.jobs|].audience == order;
  }

  // ---------------------------------------------------------------- every other delivery

  /** A job that a step starts, followed by any steps of any threads until its handler owes nothing for it. */
  lemma JobExactlyOnce(users: Directory.Users, before: seq<Label>, l: Label, after: seq<Label>, j: nat, u: int)
    requires var s1 := Step(Run(Init(users), before), l);
             && |Run(Init(users), before).jobs| <= j < |s1.jobs|
             && LeftAt(Run(Init(users), before + [l] + after), s1.jobs[j].owner, j) == multiset{}
    ensures var s1, t := Step(Run(Init(users), before), l), Run(Init(users), before + [l] + after);
            && j < |t.jobs| && t.jobs[j] == s1.jobs[j]
            && Copies(t.handed, j, u) == multiset(s1.jobs[j].audience)[u]
  {
    var s1 := Step(Run(Init(users), before), l);
    assert (before + [l])[..|before|] == before;
    assert Run(Init(users), before + [l]) == s1;
    RunAppend(Init(users), before + [l], after);
    RunJobs(s1, after);
    hide Run, Step, Copies, LeftAt;
    FanOutExactlyOnce(users, before + [l] + after, j, u);
  }

  /** A DIRECT_MESSAGE accepted anywhere in any run gives its recipient one copy, and nobody else any. */
  lemma DirectMessageExactlyOnce(users: Directory.Users, before: seq<Label>, fd: int, recipient: int, text: string,
                                 order: seq<int>, after: seq<Label>, u: int)
    requires var s := Run(Init(users), before);
             && Idle(s, fd)
             && LeftAt(Run(Init(users), before + [Begin(fd, DirectMessage(recipient, text), order)] + after), fd, |s.jobs|)
                == multiset{}
    ensures var s := Run(Init(users), before);
            var t := Run(Init(users), before + [Begin(fd, DirectMessage(recipient, text), order)] + after);
            && |s.jobs| < |t.jobs| && t.jobs[|s.jobs|].msg == Msg(0x20, text, s.threads[fd].user)
            && Copies(t.handed, |s.jobs|, u) == if u == recipient then 1 else 0
  {
    var s, l := Run(Init(users), before), Begin(fd, DirectMessage(recipient, text), order);
    DirectJob(s, fd, recipient, text, order);
    hide Run, Step, Copies, LeftAt;
    JobExactlyOnce(users, before, l, after, |s.jobs|, u);
  }

  lemma DirectJob(s: State, fd: int, recipient: int, text: string, order: seq<int>)
    requires Idle(s, fd)
    ensures Step(s, Begin(fd, DirectMessage(recipient, text), order)).jobs
         == s.jobs + [Job(fd, [recipient], Msg(0x20, text, s.threads[fd].user))]
  {}

  /** The notice to a removed user: one copy for the user who was to be removed, none for anyone else. */
  lemma RemovalNoticeExactlyOnce(users: Directory.Users, before: seq<Label>, fd: int, r: Request, order: seq<int>,
                                 after: seq<Label>, u: int)
    requires var s := Run(Init(users), before);
             && Idle(s, fd) && r.RemoveFromGroup?
             && r.gid in s.shared.groups && (r.uid == s.threads[fd].user || s.shared.IsAdmin(r.gid, s.threads[fd].user))
             && LeftAt(Run(Init(users), before + [Begin(fd, r, order)] + after), fd, |s.jobs|) == multiset{}
    ensures var s, t := Run(Init(users), before), Run(Init(users), before + [Begin(fd, r, order)] + after);
            && |s.jobs| < |t.jobs| && t.jobs[|s.jobs|].msg == Msg(0x34, r.removed, 0)
            && Copies(t.handed, |s.jobs|, u) == if u == r.uid then 1 else 0
  {
    var s := Run(Init(users), before);
    RemovalJob(s, fd, r, order);
    hide Run, Step, Copies, LeftAt;
    JobExactlyOnce(users, before, Begin(fd, r, order), after, |s.jobs|, u);
  }

  lemma RemovalJob(s: State, fd: int, r: Request, order: seq<int>)
    requires Idle(s, fd) && r.RemoveFromGroup?
    requires r.gid in s.shared.groups && (r.uid == s.threads[fd].user || s.shared.IsAdmin(r.gid, s.threads[fd].user))
    ensures Step(s, Begin(fd, r, order)).jobs == s.jobs + [Job(fd, [r.uid], Msg(0x34, r.removed, 0))]
  {}

  /** Which notice of a broadcast is job number |jobs| + k: the second one is queued up behind the first. */
  function NoticeOf(op: Op, k: nat): Msg
    requires op.Gather? && k < if op.second.None? then 1 else 2
  {
    if op.second.None? || k == 1 then op.first else op.second.value
  }

  lemma NoticeJob(s: State, fd: int, order: seq<int>, k: nat)
    requires fd in s.threads && s.threads[fd].ops != [] && s.threads[fd].ops[0].Gather?
    requires k < if s.threads[fd].ops[0].second.None? then 1 else 2
    requires Enumerates(order, AtKey(s.shared, s.threads[fd].ops[0].gid).members)
    ensures var jobs := Step(s, Continue(fd, order)).jobs;
            |s.jobs| + k < |jobs| && jobs[|s.jobs| + k] == Job(fd, order, NoticeOf(s.threads[fd].ops[0], k))
  {}

  /**
   A broadcast to a group, begun anywhere in any run: of each of its notices every
   user who is a member at that section gets one copy, and nobody else any.
   */
  lemma NoticeExactlyOnce(users: Directory.Users, before: seq<Label>, fd: int, order: seq<int>, k: nat,
                          after: seq<Label>, u: int)
    requires var s := Run(Init(users), before);
             && fd in s.threads && s.threads[fd].ops != [] && s.threads[fd].ops[0].Gather?
             && k < (if s.threads[fd].ops[0].second.None? then 1 else 2)
             && Enumerates(order, AtKey(s.shared, s.threads[fd].ops[0].gid).members)
             && LeftAt(Run(Init(users), before + [Continue(fd, order)] + after), fd, |s.jobs| + k) == multiset{}
    ensures var s, t := Run(Init(users), before), Run(Init(users), before + [Continue(fd, order)] + after);
            var op := s.threads[fd].ops[0];
            && |s.jobs| + k < |t.jobs| && t.jobs[|s.jobs| + k].msg == NoticeOf(op, k)
            && Copies(t.handed, |s.jobs| + k, u) == if s.shared.IsMember(op.gid, u) then 1 else 0
  {
    var s := Run(Init(users), before);
    hide Run, Step, Copies, LeftAt, Enumerates, AtKey, NoticeOf;
    var gid, j := s.threads[fd].ops[0].gid, |s.jobs| + k;
    NoticeJob(s, fd, order, k);
    ListedOnce(order, AtKey(s.shared, gid).members, u);
    MemberAtKey(s.shared, gid, u);
    JobExactlyOnce(users, before, Continue(fd, order), after, j, u);
  }

  lemma MemberAtKey(g: Shared, gid: int, u: int)
    ensures u in AtKey(g, gid).members <==> g.IsMember(gid, u)
  {}

  lemma ListedOnce(order: seq<int>, members: set<int>, u: int)
    requires Enumerates(order, members)
    ensures multiset(order)[u] == if u in members then 1 else 0
  {
    CountNoRepeats(order, u);
    assert (set x | x in order) == members;
    assert u in order <==> u in members;
  }

  // ---------------------------------------------------------------- the offline queues

  /** Everything ever queued for u, in order. */
  function QueuedFor(handed: seq<Handed>, u: int): seq<Msg> {
    if handed == [] then []
    else
      var h := handed[|handed| - 1];
      QueuedFor(handed[..|handed| - 1], u) + (if h.uid == u && h.via.None? then [h.msg] else [])
  }

  /** Everything the logins of u have taken out of its queue, in order. */
  function DrainedBy(drained: seq<(int, seq<Msg>)>, u: int): seq<Msg> {
    if drained == [] then []
    else
      var d := drained[|drained| - 1];
      DrainedBy(drained[..|drained| - 1], u) + (if d.0 == u then d.1 else [])
  }

  /** No loss, no repeat, no reordering, for user u. */
  predicate Conserved(s: State, u: int) {
    QueuedFor(s.handed, u) == DrainedBy(s.drained, u) + s.shared.Queue(u)
  }

  predicate SameMail(s: State, t: State) {
    t.shared.queues == s.shared.queues && t.handed == s.handed && t.drained == s.drained
  }

  lemma BeginMail(s: State, fd: int, r: Request, order: seq<int>)
    requires Idle(s, fd) && !r.Login?
    ensures SameMail(s, BeginRequest(s, fd, r, order))
  {}

  lemma ContinueMail(s: State, fd: int, order: seq<int>)
    requires fd in s.threads && s.threads[fd].ops != [] && !s.threads[fd].ops[0].Hand?
    ensures SameMail(s, ContinueThread(s, fd, order))
  {}

  lemma QueuedSnoc(handed: seq<Handed>, h: Handed, u: int)
    ensures QueuedFor(handed + [h], u) == QueuedFor(handed, u) + (if h.uid == u && h.via.None? then [h.msg] else [])
  {
    assert (handed + [h])[..|handed|] == handed;
  }

  lemma DrainedSnoc(drained: seq<(int, seq<Msg>)>, d: (int, seq<Msg>), u: int)
    ensures DrainedBy(drained + [d], u) == DrainedBy(drained, u) + (if d.0 == u then d.1 else [])
  {
    assert (drained + [d])[..|drained|] == drained;
  }

  lemma LoginConserved(s: State, fd: int, r: Request, order: seq<int>, u: int)
    requires Idle(s, fd) && r.Login? && Conserved(s, u)
    ensures Conserved(BeginRequest(s, fd, r, order), u)
  {
    hide QueuedFor, DrainedBy;
    var (g', who) := Critical.Login(s.shared, fd, r.name, r.password);
    if who.Some? {
      DrainedSnoc(s.drained, who.value, u);
    }
  }

  lemma HandConserved(s: State, fd: int, order: seq<int>, u: int)
    requires fd in s.threads && s.threads[fd].ops != [] && s.threads[fd].ops[0].Hand? && Conserved(s, u)
    ensures Conserved(ContinueThread(s, fd, order), u)
  {
    hide QueuedFor, DrainedBy;
    var t, op := ContinueThread(s, fd, order), s.threads[fd].ops[0];
    var h := Handed(op.job, op.uid, JobMsg(s.jobs, op.job), op.at);
    assert t.handed == s.handed + [h];
    QueuedSnoc(s.handed, h, u);
    if h.uid == u && h.via.None? {
      assert t.shared.Queue(u) == s.shared.Queue(u) + [h.msg];
      assert DrainedBy(s.drained, u) + t.shared.Queue(u) == DrainedBy(s.drained, u) + s.shared.Queue(u) + [h.msg];
    } else {
      assert t.shared.Queue(u) == s.shared.Queue(u);
    }
  }

  lemma StepConserved(s: State, l: Label, u: int)
    requires Conserved(s, u)
    ensures Conserved(Step(s, l), u)
  {
    match l
    case Begin(fd, r, order) =>
      if Idle(s, fd) {
        if r.Login? { LoginConserved(s, fd, r, order, u); } else { BeginMail(s, fd, r, order); }
      }
    case Continue(fd, order) =>
      if fd in s.threads && s.threads[fd].ops != [] {
        if s.threads[fd].ops[0].Hand? { HandConserved(s, fd, order, u); } else { ContinueMail(s, fd, order); }
      }
    case _ =>
  }

  /** In every run and for every user, what was ever queued is what logins drained, then what is still queued. */
  lemma {:induction false} OfflineConservation(users: Directory.Users, labels: seq<Label>, u: int)
    ensures Conserved(Run(Init(users), labels), u)
  {
    if labels != [] {
      var n := |labels| - 1;
      OfflineConservation(users, labels[..n], u);
      StepConserved(Run(Init(users), labels[..n]), labels[n], u);
    }
  }

  /** What a step does to the queue of u: adds to it, hands it to a login, or leaves it. */
  function QueueTouch(s: State, l: Label, u: int): Option<bool> {
    match l
    case Begin(fd, r, _) =>
      if Idle(s, fd) && r.Login? && r.name in s.shared.users.byName
         && s.shared.users.byName[r.name].password == r.password && s.shared.users.byName[r.name].id == u
      then Some(false) else None
    case Continue(fd, _) =>
      if fd in s.threads && s.threads[fd].ops != [] && s.threads[fd].ops[0].Hand?
         && s.threads[fd].ops[0].uid == u && s.threads[fd].ops[0].at.None?
      then Some(true) else None
    case _ => None
  }

  lemma QueueStep(s: State, l: Label, u: int)
    ensures Step(s, l).shared.Queue(u) != [] <==>
            match QueueTouch(s, l, u) { case Some(b) => b case None => s.shared.Queue(u) != [] }
  {
    match l
    case Begin(fd, r, order) => if Idle(s, fd) && !r.Login? { BeginMail(s, fd, r, order); }
    case Continue(fd, order) =>
      if fd in s.threads && s.threads[fd].ops != [] && !s.threads[fd].ops[0].Hand? { ContinueMail(s, fd, order); }
    case _ =>
  }

  function QueueTouchAt(users: Directory.Users, labels: seq<Label>, k: nat, u: int): Option<bool> {
    if k < |labels| then QueueTouch(At(users, labels, k), labels[k], u) else None
  }

  predicate Stocked(users: Directory.Users, labels: seq<Label>, n: nat, u: int)
    requires n <= |labels|
  {
    At(users, labels, n).shared.Queue(u) != []
  }

  /** A copy for u was queued at time k, and no login of u has come between that and time n. */
  ghost predicate QueuedAt(users: Directory.Users, labels: seq<Label>, n: nat, u: int, k: nat) {
    && k < n && QueueTouchAt(users, labels, k, u) == Some(true)
    && forall m: nat :: k < m < n ==> QueueTouchAt(users, labels, m, u) != Some(false)
  }

  lemma StockedNext(users: Directory.Users, labels: seq<Label>, n: nat, u: int)
    requires n < |labels|
    ensures Stocked(users, labels, n + 1, u) <==>
            match QueueTouchAt(users, labels, n, u) { case Some(b) => b case None => Stocked(users, labels, n, u) }
  {
    hide At, Step, QueueTouch;
    AtNext(users, labels, n);
    QueueStep(At(users, labels, n), labels[n], u);
  }

  lemma {:induction false} StockedIff(users: Directory.Users, labels: seq<Label>, n: nat, u: int)
    requires n <= |labels|
    ensures Stocked(users, labels, n, u) <==> exists k: nat :: QueuedAt(users, labels, n, u, k)
    decreases n
  {
    if n == 0 {
      assert labels[..0] == [];
    } else {
      hide Stocked, QueueTouchAt;
      StockedNext(users, labels, n - 1, u);
      StockedIff(users, labels, n - 1, u);
      if QueueTouchAt(users, labels, n - 1, u) == Some(true) {
        assert QueuedAt(users, labels, n, u, n - 1);
      } else if Stocked(users, labels, n, u) {
        var k: nat :| QueuedAt(users, labels, n - 1, u, k);
        assert QueuedAt(users, labels, n, u, k);
      }
      forall k: nat | QueuedAt(users, labels, n, u, k) ensures Stocked(users, labels, n, u) {
        if k < n - 1 { assert QueuedAt(users, labels, n - 1, u, k); }
      }
    }
  }

  /**
   At every boundary of every run, online or not, a user's queue holds something
   exactly when a copy was queued for the user since the user's last login.
   */
  lemma QueueByHistory(users: Directory.Users, labels: seq<Label>, n: nat, u: int)
    requires n <= |labels|
    ensures At(users, labels, n).shared.Queue(u) != [] <==> exists k: nat :: QueuedAt(users, labels, n, u, k)
  {
    hide QueuedAt;
    StockedIff(users, labels, n, u);
  }

  // ---------------------------------------------------------------- where a copy goes

  /** At time t, a handler at work on job j looks uid up in the online map and finds `at`. */
  predicate LooksUp(users: Directory.Users, labels: seq<Label>, t: nat, j: nat, uid: int, at: Option<int>) {
    && t < |labels| && labels[t].Continue?
    && var s, fd := At(users, labels, t), labels[t].fd;
       && fd in s.threads && s.threads[fd].ops != []
       && s.threads[fd].ops[0].Fan? && s.threads[fd].ops[0].job == j
       && s.threads[fd].ops[0].todo != [] && s.threads[fd].ops[0].todo[0] == uid
       && s.shared.Lookup(uid) == at
  }

  /** At time k, a handler hands over copy number i of the run. */
  predicate HandsOver(users: Directory.Users, labels: seq<Label>, k: nat, i: nat) {
    && k < |labels| && labels[k].Continue?
    && |At(users, labels, k).handed| == i < |At(users, labels, k + 1).handed|
  }

  /** The handler on fd does nothing between the times t and n. */
  ghost predicate Undisturbed(labels: seq<Label>, t: nat, n: nat, fd: int) {
    forall m :: t < m < n && m < |labels| ==> !(labels[m].Continue? && labels[m].fd == fd)
  }

  /** The handler on fd looked up at time t what `hand` holds, and has done nothing since. */
  ghost predicate Fetched(users: Directory.Users, labels: seq<Label>, t: nat, fd: int, hand: Op) {
    && hand.Hand? && LooksUp(users, labels, t, hand.job, hand.uid, hand.at) && labels[t].fd == fd
    && Undisturbed(labels, t, |labels|, fd)
  }

  /** Copy i was looked up at time t and handed over at time k, by one handler and as its next act. */
  ghost predicate Followed(users: Directory.Users, labels: seq<Label>, t: nat, k: nat, i: nat, h: Handed) {
    && t < k && LooksUp(users, labels, t, h.job, h.uid, h.via) && HandsOver(users, labels, k, i)
    && labels[k].fd == labels[t].fd && Undisturbed(labels, t, k, labels[t].fd)
  }

  ghost predicate CopyAimed(users: Directory.Users, labels: seq<Label>, i: nat, h: Handed) {
    exists t, k :: Followed(users, labels, t, k, i, h)
  }

  /** Only the front of a handler's list hands over. */
  predicate FrontOnly(ops: seq<Op>) {
    forall i :: 0 < i < |ops| ==> !ops[i].Hand?
  }

  ghost predicate ThreadAimed(users: Directory.Users, labels: seq<Label>, fd: int, ops: seq<Op>) {
    && FrontOnly(ops)
    && (ops != [] && ops[0].Hand? ==> exists t :: Fetched(users, labels, t, fd, ops[0]))
  }

  ghost predicate Aimed(users: Directory.Users, labels: seq<Label>, s: State) {
    && (forall fd :: fd in s.threads ==> ThreadAimed(users, labels, fd, s.threads[fd].ops))
    && (forall i :: 0 <= i < |s.handed| ==> CopyAimed(users, labels, i, s.handed[i]))
  }

  lemma AtPrefix(users: Directory.Users, init: seq<Label>, l: Label, t: nat)
    requires t <= |init|
    ensures At(users, init + [l], t) == At(users, init, t)
  {
    assert (init + [l])[..t] == init[..t];
  }

  lemma LooksUpLater(users: Directory.Users, init: seq<Label>, l: Label, t: nat, j: nat, uid: int, at: Option<int>)
    requires LooksUp(users, init, t, j, uid, at)
    ensures LooksUp(users, init + [l], t, j, uid, at)
  {
    AtPrefix(users, init, l, t);
  }

  lemma FetchedLater(users: Directory.Users, init: seq<Label>, l: Label, t: nat, fd: int, hand: Op)
    requires Fetched(users, init, t, fd, hand) && !(l.Continue? && l.fd == fd)
    ensures Fetched(users, init + [l], t, fd, hand)
  {
    LooksUpLater(users, init, l, t, hand.job, hand.uid, hand.at);
  }

  lemma FollowedLater(users: Directory.Users, init: seq<Label>, l: Label, t: nat, k: nat, i: nat, h: Handed)
    requires Followed(users, init, t, k, i, h)
    ensures Followed(users, init + [l], t, k, i, h)
  {
    hide At;
    LooksUpLater(users, init, l, t, h.job, h.uid, h.via);
    AtPrefix(users, init, l, k);
    AtPrefix(users, init, l, k + 1);
  }

  lemma BeginHands(s: State, fd: int, r: Request, order: seq<int>, i: int)
    requires Idle(s, fd)
    ensures var t := BeginRequest(s, fd, r, order);
            && fd in t.threads && t.handed == s.handed && Apart(s, t, fd)
            && (0 <= i < |t.threads[fd].ops| ==> !t.threads[fd].ops[i].Hand?)
  {}

  lemma ContinueApart(s: State, fd: int, order: seq<int>)
    requires fd in s.threads && s.threads[fd].ops != []
    ensures Apart(s, ContinueThread(s, fd, order), fd)
  {}

  lemma ContinueHanded(s: State, fd: int, order: seq<int>)
    requires fd in s.threads && s.threads[fd].ops != []
    ensures var t, op := ContinueThread(s, fd, order), s.threads[fd].ops[0];
            t.handed == if op.Hand? then s.handed + [Handed(op.job, op.uid, JobMsg(s.jobs, op.job), op.at)] else s.handed
  {}

  lemma GatherFront(s: State, fd: int, order: seq<int>)
    requires fd in s.threads && s.threads[fd].ops != [] && s.threads[fd].ops[0].Gather? && FrontOnly(s.threads[fd].ops)
    ensures var t := ContinueThread(s, fd, order);
            fd in t.threads && FrontOnly(t.threads[fd].ops) && t.threads[fd].ops != [] && !t.threads[fd].ops[0].Hand?
  {}

  lemma FanFront(s: State, fd: int, order: seq<int>)
    requires fd in s.threads && s.threads[fd].ops != [] && s.threads[fd].ops[0].Fan? && FrontOnly(s.threads[fd].ops)
    ensures var t, op := ContinueThread(s, fd, order), s.threads[fd].ops[0];
            && fd in t.threads && FrontOnly(t.threads[fd].ops)
            && (t.threads[fd].ops != [] && t.threads[fd].ops[0].Hand? ==>
                  op.todo != [] && t.threads[fd].ops[0] == Hand(op.job, op.todo[0], s.shared.Lookup(op.todo[0])))
  {}

  lemma OtherFront(s: State, fd: int, order: seq<int>)
    requires fd in s.threads && s.threads[fd].ops != [] && FrontOnly(s.threads[fd].ops)
    requires !s.threads[fd].ops[0].Gather? && !s.threads[fd].ops[0].Fan?
    ensures var t := ContinueThread(s, fd, order);
            fd in t.threads ==>
              FrontOnly(t.threads[fd].ops) && (t.threads[fd].ops != [] ==> !t.threads[fd].ops[0].Hand?)
  {}

  /** A handler that goes on holds a lookup afterwards only if it made it in that very step. */
  lemma ContinueAimed(users: Directory.Users, init: seq<Label>, fd: int, order: seq<int>)
    requires var s := Run(Init(users), init);
             fd in s.threads && s.threads[fd].ops != [] && FrontOnly(s.threads[fd].ops)
    ensures var t := ContinueThread(Run(Init(users), init), fd, order);
            fd in t.threads ==> ThreadAimed(users, init + [Continue(fd, order)], fd, t.threads[fd].ops)
  {
    var s, n, l := Run(Init(users), init), |init|, Continue(fd, order);
    hide Run, ContinueThread;
    var op := s.threads[fd].ops[0];
    if op.Gather? {
      GatherFront(s, fd, order);
    } else if op.Fan? {
      FanFront(s, fd, order);
      var ops := ContinueThread(s, fd, order).threads[fd].ops;
      if ops != [] && ops[0].Hand? {
        AtPrefix(users, init, l, n);
        assert init[..n] == init;
        assert Fetched(users, init + [l], n, fd, ops[0]);
      }
    } else {
      OtherFront(s, fd, order);
    }
  }

  lemma StepApart(s: State, l: Label)
    ensures Apart(s, Step(s, l), l.fd)
  {
    match l
    case Begin(fd, r, order) => if Idle(s, fd) { BeginHands(s, fd, r, order, 0); }
    case Continue(fd, order) =>
      if fd in s.threads && s.threads[fd].ops != [] { ContinueApart(s, fd, order); }
    case _ =>
  }

  lemma KeptAimed(users: Directory.Users, init: seq<Label>, l: Label, fd: int, ops: seq<Op>)
    requires ThreadAimed(users, init, fd, ops) && (!(l.Continue? && l.fd == fd) || ops == [])
    ensures ThreadAimed(users, init + [l], fd, ops)
  {
    if ops != [] && ops[0].Hand? {
      var t :| Fetched(users, init, t, fd, ops[0]);
      FetchedLater(users, init, l, t, fd, ops[0]);
    }
  }

  lemma StepThreadAimed(users: Directory.Users, init: seq<Label>, l: Label, fd: int)
    requires Aimed(users, init, Run(Init(users), init)) && fd in Step(Run(Init(users), init), l).threads
    ensures ThreadAimed(users, init + [l], fd, Step(Run(Init(users), init), l).threads[fd].ops)
  {
    var s := Run(Init(users), init);
    hide Run, ThreadAimed, BeginRequest, ContinueThread;
    if fd != l.fd {
      StepApart(s, l);
      KeptAimed(users, init, l, fd, s.threads[fd].ops);
    } else if l.Begin? && Idle(s, fd) {
      NoHands(users, init + [l], s, fd, l.request, l.order);
    } else if l.Continue? && fd in s.threads && s.threads[fd].ops != [] {
      FrontOfAimed(users, init, fd, s.threads[fd].ops);
      ContinueAimed(users, init, fd, l.order);
    } else if l.Connect? && fd !in s.threads {
      PlainAimed(users, init + [l], fd, []);
    } else if l.Drop? && Idle(s, fd) {
      PlainAimed(users, init + [l], fd, [Cleanup, Close]);
    } else {
      KeptAimed(users, init, l, fd, s.threads[fd].ops);
    }
  }

  lemma FrontOfAimed(users: Directory.Users, labels: seq<Label>, fd: int, ops: seq<Op>)
    requires ThreadAimed(users, labels, fd, ops)
    ensures FrontOnly(ops)
  {}

  lemma PlainAimed(users: Directory.Users, labels: seq<Label>, fd: int, ops: seq<Op>)
    requires forall i :: 0 <= i < |ops| ==> !ops[i].Hand?
    ensures ThreadAimed(users, labels, fd, ops)
  {}

  lemma NoHands(users: Directory.Users, labels: seq<Label>, s: State, fd: int, r: Request, order: seq<int>)
    requires Idle(s, fd)
    ensures var t := BeginRequest(s, fd, r, order);
            fd in t.threads && ThreadAimed(users, labels, fd, t.threads[fd].ops)
  {
    var t := BeginRequest(s, fd, r, order);
    hide BeginRequest, ThreadAimed;
    BeginHands(s, fd, r, order, 0);
    forall i | 0 <= i < |t.threads[fd].ops| ensures !t.threads[fd].ops[i].Hand? { BeginHands(s, fd, r, order, i); }
    PlainAimed(users, labels, fd, t.threads[fd].ops);
  }

  lemma StepHanded(s: State, l: Label)
    ensures var t := Step(s, l);
            if l.Continue? && l.fd in s.threads && s.threads[l.fd].ops != [] && s.threads[l.fd].ops[0].Hand?
            then var op := s.threads[l.fd].ops[0];
                 t.handed == s.handed + [Handed(op.job, op.uid, JobMsg(s.jobs, op.job), op.at)]
            else t.handed == s.handed
  {
    hide BeginRequest, ContinueThread;
    match l
    case Begin(fd, r, order) => if Idle(s, fd) { BeginHands(s, fd, r, order, 0); }
    case Continue(fd, order) =>
      if fd in s.threads && s.threads[fd].ops != [] { ContinueHanded(s, fd, order); }
    case _ =>
  }

  /** The step that hands a copy over is the next act of the handler that looked its user up. */
  lemma NewCopyFollowed(users: Directory.Users, init: seq<Label>, l: Label)
    requires var s := Run(Init(users), init);
             && l.Continue? && l.fd in s.threads && s.threads[l.fd].ops != [] && s.threads[l.fd].ops[0].Hand?
             && ThreadAimed(users, init, l.fd, s.threads[l.fd].ops)
    ensures var s := Run(Init(users), init);
            var op := s.threads[l.fd].ops[0];
            CopyAimed(users, init + [l], |s.handed|, Handed(op.job, op.uid, JobMsg(s.jobs, op.job), op.at))
  {
    var s, n := Run(Init(users), init), |init|;
    hide Run, At, Step, LooksUp, HandsOver;
    var op := s.threads[l.fd].ops[0];
    var t :| Fetched(users, init, t, l.fd, op);
    LooksUpWithin(users, init, t, op.job, op.uid, op.at);
    LooksUpLater(users, init, l, t, op.job, op.uid, op.at);
    NewCopyHanded(users, init, l);
    var h := Handed(op.job, op.uid, JobMsg(s.jobs, op.job), op.at);
    assert Followed(users, init + [l], t, n, |s.handed|, h);
  }

  lemma LooksUpWithin(users: Directory.Users, labels: seq<Label>, t: nat, j: nat, uid: int, at: Option<int>)
    requires LooksUp(users, labels, t, j, uid, at)
    ensures t < |labels|
  {}

  lemma NewCopyHanded(users: Directory.Users, init: seq<Label>, l: Label)
    requires var s := Run(Init(users), init);
             l.Continue? && l.fd in s.threads && s.threads[l.fd].ops != [] && s.threads[l.fd].ops[0].Hand?
    ensures HandsOver(users, init + [l], |init|, |Run(Init(users), init).handed|)
  {
    var s, n := Run(Init(users), init), |init|;
    assert (init + [l])[..n + 1] == init + [l] && (init + [l])[..n] == init;
    assert At(users, init + [l], n) == s && At(users, init + [l], n + 1) == Step(s, l);
    hide Run, Step, At;
    StepHanded(s, l);
  }

  lemma StepCopies(users: Directory.Users, init: seq<Label>, l: Label, i: nat)
    requires Aimed(users, init, Run(Init(users), init)) && i < |Step(Run(Init(users), init), l).handed|
    ensures CopyAimed(users, init + [l], i, Step(Run(Init(users), init), l).handed[i])
  {
    var s := Run(Init(users), init);
    hide Run, Step, ThreadAimed, Followed;
    StepHanded(s, l);
    if i < |s.handed| {
      assert CopyAimed(users, init, i, s.handed[i]);
      var t, k :| Followed(users, init, t, k, i, s.handed[i]);
      FollowedLater(users, init, l, t, k, i, s.handed[i]);
    } else {
      NewCopyFollowed(users, init, l);
    }
  }

  lemma {:induction false} CopiesAimed(users: Directory.Users, labels: seq<Label>)
    ensures Aimed(users, labels, Run(Init(users), labels))
  {
    if labels != [] {
      var n := |labels| - 1;
      var init, l := labels[..n], labels[n];
      assert labels == init + [l];
      CopiesAimed(users, init);
      var t := Step(Run(Init(users), init), l);
      assert Run(Init(users), labels) == t;
      hide Run, Step, ThreadAimed, CopyAimed;
      forall fd | fd in t.threads ensures ThreadAimed(users, labels, fd, t.threads[fd].ops) {
        StepThreadAimed(users, init, l, fd);
      }
      forall i | 0 <= i < |t.handed| ensures CopyAimed(users, labels, i, t.handed[i]) {
        StepCopies(users, init, l, i);
      }
    }
  }

  lemma {:induction false} FanOwes(ops: seq<Op>, j: nat)
    requires ops != [] && ops[0].Fan? && ops[0].job == j && ops[0].todo != []
    ensures ops[0].todo[0] in Left(ops, j)
  {
    assert ops[0].todo[0] in multiset(ops[0].todo);
  }

  /** A handler looks users up only for jobs of its own that exist by then. */
  lemma LookupForOwnJob(users: Directory.Users, labels: seq<Label>, t: nat, j: nat, uid: int, at: Option<int>)
    requires LooksUp(users, labels, t, j, uid, at)
    ensures j < |At(users, labels, t).jobs| && At(users, labels, t).jobs[j].owner == labels[t].fd
  {
    var s, fd := At(users, labels, t), labels[t].fd;
    RunBalanced(users, labels[..t]);
    FanOwes(s.threads[fd].ops, j);
    assert uid in LeftAt(s, fd, j);
  }

  /**
   Every copy was aimed for its job: the handler that owns the job, once the job
   existed, looked the user up and found the socket the copy went to, or found
   none for a copy that was queued; and handing the copy over was its next act.
   */
  lemma CopyFollowsLookup(users: Directory.Users, labels: seq<Label>, i: nat) returns (t: nat, k: nat)
    requires i < |Run(Init(users), labels).handed|
    ensures var h := Run(Init(users), labels).handed[i];
            && Followed(users, labels, t, k, i, h)
            && h.job < |At(users, labels, t).jobs| && At(users, labels, t).jobs[h.job].owner == labels[t].fd
            && At(users, labels, t).shared.Lookup(h.uid) == h.via
  {
    CopiesAimed(users, labels);
    var h := Run(Init(users), labels).handed[i];
    assert CopyAimed(users, labels, i, h);
    t, k :| Followed(users, labels, t, k, i, h);
    LookupForOwnJob(users, labels, t, h.job, h.uid, h.via);
  }
}
