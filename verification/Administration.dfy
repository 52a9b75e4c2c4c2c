/**
 Group ids and admin flags over whole runs. The check of MAKE_ADMIN and the write
 it allows are separate critical sections, so other threads may run in between.
 */
module Administration {
  import opened Wrappers
  import opened Critical
  import opened Machine
  import Directory

  /** At time t, `who` creates group gid. */
  predicate Founds(users: Directory.Users, labels: seq<Label>, t: nat, gid: int, who: int) {
    && t < |labels| && labels[t].Begin? && labels[t].request.CreateGroup?
    && Idle(At(users, labels, t), labels[t].fd)
    && At(users, labels, t).threads[labels[t].fd].user == who
    && At(users, labels, t).shared.nextGroup == gid
  }

  /** At time t, `granter` is an admin of gid and asks to make `who` one. */
  predicate Grants(users: Directory.Users, labels: seq<Label>, t: nat, gid: int, granter: int, who: int) {
    && t < |labels| && labels[t].Begin? && labels[t].request.MakeAdmin?
    && labels[t].request.gid == gid && labels[t].request.uid == who
    && Idle(At(users, labels, t), labels[t].fd)
    && At(users, labels, t).threads[labels[t].fd].user == granter
    && At(users, labels, t).shared.IsAdmin(gid, granter)
  }

  /** `who` created gid, or was made admin by a user who was admin then and has such a chain himself. */
  ghost predicate Chain(users: Directory.Users, labels: seq<Label>, n: nat, gid: int, who: int)
    decreases n
  {
    exists t: nat :: t < n &&
      (Founds(users, labels, t, gid, who)
       || exists granter :: Grants(users, labels, t, gid, granter, who) && Chain(users, labels, t, gid, granter))
  }

  ghost predicate Origin(users: Directory.Users, labels: seq<Label>, n: nat, gid: int, who: int) {
    exists t: nat :: t < n && (Founds(users, labels, t, gid, who) || Granted(users, labels, t, gid, who))
  }

  ghost predicate Granted(users: Directory.Users, labels: seq<Label>, t: nat, gid: int, who: int) {
    exists granter :: Grants(users, labels, t, gid, granter, who)
  }

  /** Where a step can take admin flags and pending admin writes from. */
  lemma BeginAdmins(s: State, fd: int, r: Request, order: seq<int>, gid: int, who: int)
    requires Idle(s, fd)
    ensures var t := BeginRequest(s, fd, r, order);
            t.shared.IsAdmin(gid, who) ==>
              s.shared.IsAdmin(gid, who) || (r.CreateGroup? && gid == s.shared.nextGroup && who == s.threads[fd].user)
  {}

  lemma BeginOps(s: State, fd: int, r: Request, order: seq<int>, i: int)
    requires Idle(s, fd)
    ensures var t := BeginRequest(s, fd, r, order);
            && fd in t.threads && t.threads == s.threads[fd := t.threads[fd]]
            && (0 <= i < |t.threads[fd].ops| ==>
                  var op := t.threads[fd].ops[i];
                  && (op.Promote? ==> r.MakeAdmin? && op.gid == r.gid && op.uid == r.uid
                                      && s.shared.IsAdmin(r.gid, s.threads[fd].user))
                  && (op.Rewrite? ==> r.CreateGroup? && op.gid == s.shared.nextGroup
                                      && t.threads[fd].user == s.threads[fd].user))
  {}

  lemma ContinueAdmins(s: State, fd: int, order: seq<int>, gid: int, who: int)
    requires fd in s.threads && s.threads[fd].ops != []
    ensures var t, op := ContinueThread(s, fd, order), s.threads[fd].ops[0];
            t.shared.IsAdmin(gid, who) ==>
              || s.shared.IsAdmin(gid, who)
              || (op.Promote? && op.gid == gid && op.uid == who)
              || (op.Rewrite? && op.gid == gid && who == s.threads[fd].user)
  {
    hide ContinueThread;
    if GroupWrite(s.threads[fd].ops[0]) { WriteAdmins(s, fd, order, gid, who); } else { QuietAdmins(s, fd, order, gid, who); }
  }

  predicate GroupWrite(op: Op) {
    op.Promote? || op.Rewrite? || op.Admit? || op.Expel?
  }

  lemma WriteAdmins(s: State, fd: int, order: seq<int>, gid: int, who: int)
    requires fd in s.threads && s.threads[fd].ops != [] && GroupWrite(s.threads[fd].ops[0])
    ensures var t, op := ContinueThread(s, fd, order), s.threads[fd].ops[0];
            t.shared.IsAdmin(gid, who) ==>
              || s.shared.IsAdmin(gid, who)
              || (op.Promote? && op.gid == gid && op.uid == who)
              || (op.Rewrite? && op.gid == gid && who == s.threads[fd].user)
  {}

  lemma QuietAdmins(s: State, fd: int, order: seq<int>, gid: int, who: int)
    requires fd in s.threads && s.threads[fd].ops != [] && !GroupWrite(s.threads[fd].ops[0])
    ensures ContinueThread(s, fd, order).shared.IsAdmin(gid, who) ==> s.shared.IsAdmin(gid, who)
  {}

  lemma ContinueOps(s: State, fd: int, order: seq<int>, i: int)
    requires fd in s.threads && s.threads[fd].ops != []
    ensures var t := ContinueThread(s, fd, order);
            && (forall f :: f in t.threads ==> f in s.threads && t.threads[f].user == s.threads[f].user)
            && (forall f :: f in t.threads && f != fd ==> t.threads[f] == s.threads[f])
            && (fd in t.threads && 0 <= i < |t.threads[fd].ops| ==>
                  t.threads[fd].ops[i] in s.threads[fd].ops
                  || t.threads[fd].ops[i].Fan? || t.threads[fd].ops[i].Hand?)
  {
    hide ContinueThread;
    ContinueOthers(s, fd, order);
    var op := s.threads[fd].ops[0];
    if op.Gather? || op.Fan? { SpreadOps(s, fd, order, i); } else { PlainOps(s, fd, order, i); }
  }

  lemma ContinueOthers(s: State, fd: int, order: seq<int>)
    requires fd in s.threads && s.threads[fd].ops != []
    ensures var t := ContinueThread(s, fd, order);
            && (forall f :: f in t.threads ==> f in s.threads && t.threads[f].user == s.threads[f].user)
            && (forall f :: f in t.threads && f != fd ==> t.threads[f] == s.threads[f])
  {
    hide ContinueThread;
    ContinueKeeps(s, fd, order);
  }

  lemma ContinueKeeps(s: State, fd: int, order: seq<int>)
    requires fd in s.threads && s.threads[fd].ops != []
    ensures var t := ContinueThread(s, fd, order);
            t.threads == s.threads - {fd}
            || (fd in t.threads && t.threads == s.threads[fd := t.threads[fd]] && t.threads[fd].user == s.threads[fd].user)
  {}

  lemma SpreadOps(s: State, fd: int, order: seq<int>, i: int)
    requires fd in s.threads && s.threads[fd].ops != [] && (s.threads[fd].ops[0].Gather? || s.threads[fd].ops[0].Fan?)
    ensures var t := ContinueThread(s, fd, order);
            fd in t.threads && 0 <= i < |t.threads[fd].ops| ==>
              t.threads[fd].ops[i] in s.threads[fd].ops || t.threads[fd].ops[i].Fan? || t.threads[fd].ops[i].Hand?
  {}

  lemma PlainOps(s: State, fd: int, order: seq<int>, i: int)
    requires fd in s.threads && s.threads[fd].ops != [] && !s.threads[fd].ops[0].Gather? && !s.threads[fd].ops[0].Fan?
    ensures var t := ContinueThread(s, fd, order);
            fd in t.threads && 0 <= i < |t.threads[fd].ops| ==> t.threads[fd].ops[i] in s.threads[fd].ops
  {}

  /** What a pending admin write of a thread needs in its past. */
  ghost predicate Backed(users: Directory.Users, labels: seq<Label>, n: nat, user: int, op: Op) {
    && (op.Promote? ==> Origin(users, labels, n, op.gid, op.uid))
    && (op.Rewrite? ==> Origin(users, labels, n, op.gid, user))
  }

  ghost predicate AdminsBacked(users: Directory.Users, labels: seq<Label>, n: nat, s: State) {
    && (forall gid, who :: s.shared.IsAdmin(gid, who) ==> Origin(users, labels, n, gid, who))
    && (forall fd, i :: fd in s.threads && 0 <= i < |s.threads[fd].ops| ==>
          Backed(users, labels, n, s.threads[fd].user, s.threads[fd].ops[i]))
  }

  lemma StepBacked(users: Directory.Users, labels: seq<Label>, n: nat)
    requires n < |labels|
    requires AdminsBacked(users, labels, n, At(users, labels, n))
    ensures AdminsBacked(users, labels, n + 1, Step(At(users, labels, n), labels[n]))
  {
    var s, l := At(users, labels, n), labels[n];
    assert forall gid, who :: Origin(users, labels, n, gid, who) ==> Origin(users, labels, n + 1, gid, who);
    if l.Begin? && Idle(s, l.fd) {
      BeginBacked(users, labels, n);
    } else if l.Continue? && l.fd in s.threads && s.threads[l.fd].ops != [] {
      ContinueBacked(users, labels, n);
    } else {
      var t := Step(s, l);
      forall fd, i | fd in t.threads && 0 <= i < |t.threads[fd].ops|
        ensures Backed(users, labels, n + 1, t.threads[fd].user, t.threads[fd].ops[i])
      {
        if fd in s.threads && t.threads[fd] == s.threads[fd] {
          assert Backed(users, labels, n, s.threads[fd].user, s.threads[fd].ops[i]);
        }
      }
    }
  }

  lemma BeginBacked(users: Directory.Users, labels: seq<Label>, n: nat)
    requires n < |labels| && labels[n].Begin? && Idle(At(users, labels, n), labels[n].fd)
    requires AdminsBacked(users, labels, n, At(users, labels, n))
    requires forall gid, who :: Origin(users, labels, n, gid, who) ==> Origin(users, labels, n + 1, gid, who)
    ensures AdminsBacked(users, labels, n + 1, Step(At(users, labels, n), labels[n]))
  {
    var s, l := At(users, labels, n), labels[n];
    var fd, r, user := l.fd, l.request, s.threads[l.fd].user;
    var t := Step(s, l);
    if r.CreateGroup? { assert Founds(users, labels, n, s.shared.nextGroup, user); }
    forall gid, who | t.shared.IsAdmin(gid, who) ensures Origin(users, labels, n + 1, gid, who) {
      BeginAdmins(s, fd, r, l.order, gid, who);
    }
    forall f, i | f in t.threads && 0 <= i < |t.threads[f].ops|
      ensures Backed(users, labels, n + 1, t.threads[f].user, t.threads[f].ops[i])
    {
      BeginOps(s, fd, r, l.order, i);
      if f != fd {
        assert Backed(users, labels, n, s.threads[f].user, s.threads[f].ops[i]);
      } else if t.threads[f].ops[i].Promote? {
        assert Grants(users, labels, n, r.gid, user, r.uid);
        assert Granted(users, labels, n, r.gid, r.uid);
      }
    }
  }

  lemma ContinueBacked(users: Directory.Users, labels: seq<Label>, n: nat)
    requires n < |labels| && labels[n].Continue?
    requires labels[n].fd in At(users, labels, n).threads && At(users, labels, n).threads[labels[n].fd].ops != []
    requires AdminsBacked(users, labels, n, At(users, labels, n))
    requires forall gid, who :: Origin(users, labels, n, gid, who) ==> Origin(users, labels, n + 1, gid, who)
    ensures AdminsBacked(users, labels, n + 1, Step(At(users, labels, n), labels[n]))
  {
    var s, l := At(users, labels, n), labels[n];
    var fd := l.fd;
    var t := Step(s, l);
    assert Backed(users, labels, n, s.threads[fd].user, s.threads[fd].ops[0]);
    forall gid, who | t.shared.IsAdmin(gid, who) ensures Origin(users, labels, n + 1, gid, who) {
      ContinueAdmins(s, fd, l.order, gid, who);
    }
    forall f, i | f in t.threads && 0 <= i < |t.threads[f].ops|
      ensures Backed(users, labels, n + 1, t.threads[f].user, t.threads[f].ops[i])
    {
      ContinueOps(s, fd, l.order, i);
      if f != fd {
        assert Backed(users, labels, n, s.threads[f].user, s.threads[f].ops[i]);
      } else if t.threads[f].ops[i] in s.threads[fd].ops {
        var k :| 0 <= k < |s.threads[fd].ops| && s.threads[fd].ops[k] == t.threads[f].ops[i];
        assert Backed(users, labels, n, s.threads[fd].user, s.threads[fd].ops[k]);
      }
    }
  }

  lemma {:induction false} RunBacked(users: Directory.Users, labels: seq<Label>, n: nat)
    requires n <= |labels|
    ensures AdminsBacked(users, labels, n, At(users, labels, n))
  {
    if n > 0 {
      RunBacked(users, labels, n - 1);
      StepBacked(users, labels, n - 1);
      assert labels[..n][..n - 1] == labels[..n - 1];
    }
  }

  /** In every reachable state every admin flag is linked to the creator of its group by grants of admins. */
  lemma {:induction false} AdminProvenance(users: Directory.Users, labels: seq<Label>, n: nat, gid: int, who: int)
    requires n <= |labels| && At(users, labels, n).shared.IsAdmin(gid, who)
    ensures Chain(users, labels, n, gid, who)
    decreases n
  {
    RunBacked(users, labels, n);
    var t: nat :| t < n && (Founds(users, labels, t, gid, who) || Granted(users, labels, t, gid, who));
    if !Founds(users, labels, t, gid, who) {
      var granter :| Grants(users, labels, t, gid, granter, who);
      AdminProvenance(users, labels, t, gid, granter);
    }
  }

  // ---------------------------------------------------------------- group ids

  lemma StepNextGroup(s: State, l: Label)
    ensures Step(s, l).shared.nextGroup >= s.shared.nextGroup
    ensures l.Begin? && l.request.CreateGroup? && Idle(s, l.fd) ==>
              Step(s, l).shared.nextGroup == s.shared.nextGroup + 1
  {
    match l
    case Begin(fd, r, order) => if Idle(s, fd) { BeginNextGroup(s, fd, r, order); }
    case Continue(fd, order) =>
    case _ =>
  }

  lemma BeginNextGroup(s: State, fd: int, r: Request, order: seq<int>)
    requires Idle(s, fd)
    ensures BeginRequest(s, fd, r, order).shared.nextGroup
         == if r.CreateGroup? then s.shared.nextGroup + 1 else s.shared.nextGroup
  {}

  lemma {:induction false} NextGroupGrows(users: Directory.Users, labels: seq<Label>, t: nat, n: nat)
    requires t <= n <= |labels|
    ensures At(users, labels, t).shared.nextGroup <= At(users, labels, n).shared.nextGroup
  {
    if t < n {
      NextGroupGrows(users, labels, t, n - 1);
      assert labels[..n][..n - 1] == labels[..n - 1];
      StepNextGroup(At(users, labels, n - 1), labels[n - 1]);
    }
  }

  /** A group id is handed out once in a run, whatever happens to the group. */
  lemma GroupIdsNeverReused(users: Directory.Users, labels: seq<Label>, t: nat, t': nat, gid: int, who: int, who': int)
    requires Founds(users, labels, t, gid, who) && Founds(users, labels, t', gid, who')
    ensures t == t' && who == who'
  {
    if t < t' {
      FoundLater(users, labels, t, t', gid, who);
    } else if t' < t {
      FoundLater(users, labels, t', t, gid, who');
    }
  }

  lemma FoundLater(users: Directory.Users, labels: seq<Label>, t: nat, n: nat, gid: int, who: int)
    requires t < n <= |labels| && Founds(users, labels, t, gid, who)
    ensures At(users, labels, n).shared.nextGroup > gid
  {
    assert labels[..t + 1][..t] == labels[..t];
    StepNextGroup(At(users, labels, t), labels[t]);
    NextGroupGrows(users, labels, t + 1, n);
  }

  // ---------------------------------------------------------------- members, by history

  /** What a step does to the seat of u in group gid: fill it, empty it, or leave it. */
  function SeatTouch(s: State, l: Label, gid: int, u: int): Option<bool> {
    match l
    case Begin(fd, r, _) =>
      if !Idle(s, fd) then None
      else if r.CreateGroup? && s.shared.nextGroup == gid then Some(u == s.threads[fd].user || u in r.invited)
      else if r == AcceptGroupInvite(gid) && s.threads[fd].user == u && gid in s.shared.groups then Some(true)
      else if r == LeaveGroup(gid) && s.threads[fd].user == u then Some(false)
      else None
    case Continue(fd, _) =>
      if fd !in s.threads || s.threads[fd].ops == [] then None
      else
        (match s.threads[fd].ops[0]
         case Rewrite(g, _, invited) => if g == gid then Some(u == s.threads[fd].user || u in invited) else None
         case Admit(g, uid) => if g == gid && uid == u then Some(true) else None
         case Expel(g, uid) => if g == gid && uid == u then Some(false) else None
         case _ => None)
    case _ => None
  }

  lemma BeginSeat(s: State, fd: int, r: Request, order: seq<int>, gid: int, u: int)
    requires Idle(s, fd)
    ensures BeginRequest(s, fd, r, order).shared.IsMember(gid, u)
         == match SeatTouch(s, Begin(fd, r, order), gid, u) { case Some(b) => b case None => s.shared.IsMember(gid, u) }
  {}

  lemma GatherSeat(s: State, fd: int, order: seq<int>, gid: int, u: int)
    requires fd in s.threads && s.threads[fd].ops != [] && s.threads[fd].ops[0].Gather?
    ensures ContinueThread(s, fd, order).shared.IsMember(gid, u) == s.shared.IsMember(gid, u)
  {
    var op := s.threads[fd].ops[0];
    var (g', members) := Critical.Gather(s.shared, op.gid, op.create);
    assert g'.IsMember(gid, u) == s.shared.IsMember(gid, u);
    var t := ContinueThread(s, fd, order);
    assert t.shared == g' || t.shared == s.shared;
  }

  lemma EditSeat(s: State, fd: int, order: seq<int>, gid: int, u: int)
    requires fd in s.threads && s.threads[fd].ops != [] && GroupWrite(s.threads[fd].ops[0])
    ensures ContinueThread(s, fd, order).shared.IsMember(gid, u)
         == match SeatTouch(s, Continue(fd, order), gid, u) { case Some(b) => b case None => s.shared.IsMember(gid, u) }
  {}

  lemma OtherSeat(s: State, fd: int, order: seq<int>, gid: int, u: int)
    requires fd in s.threads && s.threads[fd].ops != []
    requires !GroupWrite(s.threads[fd].ops[0]) && !s.threads[fd].ops[0].Gather?
    ensures ContinueThread(s, fd, order).shared.IsMember(gid, u) == s.shared.IsMember(gid, u)
  {}

  lemma ContinueSeat(s: State, fd: int, order: seq<int>, gid: int, u: int)
    requires fd in s.threads && s.threads[fd].ops != []
    ensures ContinueThread(s, fd, order).shared.IsMember(gid, u)
         == match SeatTouch(s, Continue(fd, order), gid, u) { case Some(b) => b case None => s.shared.IsMember(gid, u) }
  {
    hide ContinueThread;
    if s.threads[fd].ops[0].Gather? {
      GatherSeat(s, fd, order, gid, u);
    } else if GroupWrite(s.threads[fd].ops[0]) {
      EditSeat(s, fd, order, gid, u);
    } else {
      OtherSeat(s, fd, order, gid, u);
    }
  }

  lemma SeatStep(s: State, l: Label, gid: int, u: int)
    ensures Step(s, l).shared.IsMember(gid, u)
         == match SeatTouch(s, l, gid, u) { case Some(b) => b case None => s.shared.IsMember(gid, u) }
  {
    match l
    case Begin(fd, r, order) => if Idle(s, fd) { BeginSeat(s, fd, r, order, gid, u); }
    case Continue(fd, order) =>
      if fd in s.threads && s.threads[fd].ops != [] { ContinueSeat(s, fd, order, gid, u); }
    case _ =>
  }

  function SeatTouchAt(users: Directory.Users, labels: seq<Label>, k: nat, gid: int, u: int): Option<bool> {
    if k < |labels| then SeatTouch(At(users, labels, k), labels[k], gid, u) else None
  }

  predicate Seated(users: Directory.Users, labels: seq<Label>, n: nat, gid: int, u: int)
    requires n <= |labels|
  {
    At(users, labels, n).shared.IsMember(gid, u)
  }

  /** At time t, u was seated in gid, and no later step up to n touched that seat. */
  ghost predicate SeatedAt(users: Directory.Users, labels: seq<Label>, n: nat, gid: int, u: int, t: nat) {
    && t < n && SeatTouchAt(users, labels, t, gid, u) == Some(true)
    && forall k: nat :: t < k < n ==> SeatTouchAt(users, labels, k, gid, u).None?
  }

  lemma SeatedNext(users: Directory.Users, labels: seq<Label>, n: nat, gid: int, u: int)
    requires n < |labels|
    ensures Seated(users, labels, n + 1, gid, u)
         == match SeatTouchAt(users, labels, n, gid, u) { case Some(b) => b case None => Seated(users, labels, n, gid, u) }
  {
    assert labels[..n + 1][..n] == labels[..n];
    assert At(users, labels, n + 1) == Step(At(users, labels, n), labels[n]);
    hide At, Step, SeatTouch;
    SeatStep(At(users, labels, n), labels[n], gid, u);
  }

  lemma {:induction false} SeatedIff(users: Directory.Users, labels: seq<Label>, n: nat, gid: int, u: int)
    requires n <= |labels|
    ensures Seated(users, labels, n, gid, u) <==> exists t: nat :: SeatedAt(users, labels, n, gid, u, t)
    decreases n
  {
    if n == 0 {
      assert labels[..0] == [];
    } else {
      hide Seated, SeatTouchAt;
      SeatedNext(users, labels, n - 1, gid, u);
      SeatedIff(users, labels, n - 1, gid, u);
      if SeatTouchAt(users, labels, n - 1, gid, u) == Some(true) {
        assert SeatedAt(users, labels, n, gid, u, n - 1);
      } else if Seated(users, labels, n, gid, u) {
        var t: nat :| SeatedAt(users, labels, n - 1, gid, u, t);
        assert SeatedAt(users, labels, n, gid, u, t);
      }
      forall t: nat | SeatedAt(users, labels, n, gid, u, t) ensures Seated(users, labels, n, gid, u) {
        if t < n - 1 { assert SeatedAt(users, labels, n - 1, gid, u, t); }
      }
    }
  }

  /** u is a member of gid exactly when the last step that touched its seat filled it. */
  lemma MembersByHistory(users: Directory.Users, labels: seq<Label>, n: nat, gid: int, u: int)
    requires n <= |labels|
    ensures At(users, labels, n).shared.IsMember(gid, u) <==> exists t: nat :: SeatedAt(users, labels, n, gid, u, t)
  {
    hide SeatedAt;
    SeatedIff(users, labels, n, gid, u);
  }
}
