/**
 The friend graph and the pending friend requests of the server, the maps
 `g_friends` and `g_friend_requests`, with the four memory-mode critical
 sections that change them. The maps are compared with one small automaton per
 pair of users, which mentions no map, no list and no third user.
 */
module Social {

  /** `friends[u]` holds the friends of u; `pending[u]` lists who asked u, in order of arrival. */
  datatype Graph = Graph(friends: map<int, set<int>>, pending: map<int, seq<int>>) {
    function Friends(u: int): set<int> {
      if u in friends then friends[u] else {}
    }

    function Pending(u: int): seq<int> {
      if u in pending then pending[u] else []
    }
  }

  const EMPTY := Graph(map[], map[])

  datatype Act =
    | Request(from: int, to: int)
    | Accept(who: int, other: int)
    | Decline(who: int, other: int)
    | Unfriend(who: int, other: int)

  /** The erase-remove idiom on a list of ids. */
  function Without(xs: seq<int>, x: int): (r: seq<int>)
    ensures forall y :: y in r <==> y in xs && y != x
  {
    if xs == [] then []
    else (if xs[0] == x then [] else [xs[0]]) + Without(xs[1..], x)
  }

  /** The same by one pass over the list. */
  method Erase(list: seq<int>, x: int) returns (kept: seq<int>)
    ensures kept == Without(list, x)
  {
    kept := [];
    for i := 0 to |list|
      invariant kept + Without(list[i..], x) == Without(list, x)
    {
      assert list[i..][0] == list[i] && list[i..][1..] == list[i + 1..];
      if list[i] != x {
        kept := kept + [list[i]];
      }
    }
    assert list[|list|..] == [];
  }

  function Drop(g: Graph, owner: int, x: int): Graph {
    g.(pending := g.pending[owner := Without(g.Pending(owner), x)])
  }

  function Link(g: Graph, u: int, o: int): Graph {
    g.(friends := g.friends[u := g.Friends(u) + {o}])
  }

  function Cut(g: Graph, u: int, o: int): Graph {
    g.(friends := g.friends[u := g.Friends(u) - {o}])
  }

  /** One critical section on the friend graph; an act refused by the server leaves it unchanged. */
  function Apply(g: Graph, a: Act): Graph {
    match a
    case Request(u, t) =>
      if u == t || t in g.Friends(u) || u in g.Friends(t) || u in g.Pending(t) then g
      else g.(pending := g.pending[t := g.Pending(t) + [u]])
    case Accept(u, o) => Link(Link(Drop(Drop(g, u, o), o, u), u, o), o, u)
    case Decline(u, o) => Drop(g, u, o)
    case Unfriend(u, o) => Drop(Drop(Cut(Cut(g, u, o), o, u), u, o), o, u)
  }

  function Run(g: Graph, acts: seq<Act>): Graph {
    if acts == [] then g else Apply(Run(g, acts[..|acts| - 1]), acts[|acts| - 1])
  }

  // ---------------------------------------------------------------- the pair automaton

  /** What the graph says about the ordered pair (u, v). */
  datatype Pair = Pair(friends: bool, asked: bool, askedBack: bool)

  predicate Between(a: Act, u: int, v: int) {
    match a
    case Accept(b, o) => (b == u && o == v) || (b == v && o == u)
    case Unfriend(b, o) => (b == u && o == v) || (b == v && o == u)
    case _ => false
  }

  /** The life of one pair: u asks v, v asks u, either accepts, declines or ends the friendship. */
  function PairStep(p: Pair, a: Act, u: int, v: int): Pair {
    if Between(a, u, v) then Pair(a.Accept?, false, false)
    else if u == v || (p.friends && a.Request?) then p
    else if a == Request(u, v) then p.(asked := true)
    else if a == Request(v, u) then p.(askedBack := true)
    else if a == Decline(v, u) then p.(asked := false)
    else if a == Decline(u, v) then p.(askedBack := false)
    else p
  }

  function PairRun(acts: seq<Act>, u: int, v: int): Pair {
    if acts == [] then Pair(false, false, false)
    else PairStep(PairRun(acts[..|acts| - 1], u, v), acts[|acts| - 1], u, v)
  }

  function View(g: Graph, u: int, v: int): Pair {
    Pair(v in g.Friends(u), u in g.Pending(v), v in g.Pending(u))
  }

  // ---------------------------------------------------------------- the invariant

  predicate NoRepeats(xs: seq<int>) {
    forall i, j :: 0 <= i < j < |xs| ==> xs[i] != xs[j]
  }

  /** What a sound graph may say about a pair, seen from both ends. */
  predicate Fits(p: Pair, q: Pair, same: bool) {
    && p.friends == q.friends
    && (p.friends || same ==> !p.asked && !p.askedBack)
  }

  ghost predicate Sound(g: Graph) {
    && (forall u :: NoRepeats(g.Pending(u)))
    && (forall u, v :: Fits(View(g, u, v), View(g, v, u), u == v))
  }

  /** Sound, spelled out: friendship is symmetric, no one waits on himself, friends have no request either way. */
  lemma SoundMeaning(g: Graph, u: int, v: int)
    requires Sound(g)
    ensures v in g.Friends(u) <==> u in g.Friends(v)
    ensures NoRepeats(g.Pending(u)) && u !in g.Pending(u)
    ensures v in g.Friends(u) ==> u !in g.Pending(v) && v !in g.Pending(u)
  {
    assert Fits(View(g, u, v), View(g, v, u), u == v);
    assert Fits(View(g, u, u), View(g, u, u), true);
  }

  lemma WithoutFirst(y: int, ys: seq<int>, x: int)
    ensures Without([y] + ys, x) == (if y == x then [] else [y]) + Without(ys, x)
    ensures Without([], x) == []
  {
    assert ([y] + ys)[1..] == ys;
  }

  /** What is left keeps its order. */
  lemma {:induction false} WithoutKeepsOrder(xs: seq<int>, ys: seq<int>, x: int)
    ensures Without(xs + ys, x) == Without(xs, x) + Without(ys, x)
  {
    hide Without;
    WithoutFirst(0, ys, x);
    if xs == [] {
      assert xs + ys == ys;
    } else {
      var y, rest := xs[0], xs[1..];
      assert xs == [y] + rest && xs + ys == [y] + (rest + ys);
      WithoutKeepsOrder(rest, ys, x);
      WithoutFirst(y, rest, x);
      WithoutFirst(y, rest + ys, x);
    }
  }

  /** Requests wait in order of arrival: a new one goes last, and one that ends leaves the others in order. */
  lemma ArrivalOrder(g: Graph, a: Act, v: int)
    ensures var before, after := g.Pending(v), Apply(g, a).Pending(v);
            if a.Request? then after == before || (a.to == v && after == before + [a.from])
            else
              var left := if a.who == v then Without(before, a.other) else before;
              after == if !a.Decline? && a.other == v then Without(left, a.who) else left
  {
    hide Without;
  }

  lemma {:induction false} WithoutNoRepeats(xs: seq<int>, x: int)
    requires NoRepeats(xs)
    ensures NoRepeats(Without(xs, x))
  {
    if xs != [] {
      WithoutNoRepeats(xs[1..], x);
      assert xs[0] !in xs[1..];
    }
  }

  /** The maps refine the product of the pair automata: no act disturbs a pair it does not name. */
  lemma ApplyRefinesPair(g: Graph, a: Act, u: int, v: int)
    requires Fits(View(g, u, v), View(g, v, u), u == v)
    ensures View(Apply(g, a), u, v) == PairStep(View(g, u, v), a, u, v)
  {
    hide View;
    match a
    case Request(f, t) => RequestView(g, f, t, u, v);
    case Accept(b, o) => AcceptView(g, b, o, u, v);
    case Decline(b, o) => DeclineView(g, b, o, u, v);
    case Unfriend(b, o) => UnfriendView(g, b, o, u, v);
  }

  lemma AcceptView(g: Graph, b: int, o: int, u: int, v: int)
    ensures View(Apply(g, Accept(b, o)), u, v) == PairStep(View(g, u, v), Accept(b, o), u, v)
  {
    hide Drop, Link;
    var g1 := Drop(g, b, o);
    var g2 := Drop(g1, o, b);
    DropView(g, b, o, u, v);
    DropView(g1, o, b, u, v);
    LinkView(g2, b, o, u, v);
    LinkView(Link(g2, b, o), o, b, u, v);
  }

  lemma DeclineView(g: Graph, b: int, o: int, u: int, v: int)
    requires Fits(View(g, u, v), View(g, v, u), u == v)
    ensures View(Apply(g, Decline(b, o)), u, v) == PairStep(View(g, u, v), Decline(b, o), u, v)
  {
    hide Drop;
    DropView(g, b, o, u, v);
  }

  lemma UnfriendView(g: Graph, b: int, o: int, u: int, v: int)
    ensures View(Apply(g, Unfriend(b, o)), u, v) == PairStep(View(g, u, v), Unfriend(b, o), u, v)
  {
    hide Drop, Cut;
    var g1 := Cut(g, b, o);
    var g2 := Cut(g1, o, b);
    CutView(g, b, o, u, v);
    CutView(g1, o, b, u, v);
    DropView(g2, b, o, u, v);
    DropView(Drop(g2, b, o), o, b, u, v);
  }

  lemma RequestView(g: Graph, f: int, t: int, u: int, v: int)
    requires Fits(View(g, u, v), View(g, v, u), u == v)
    ensures View(Apply(g, Request(f, t)), u, v) == PairStep(View(g, u, v), Request(f, t), u, v)
  {}

  lemma DropView(g: Graph, owner: int, x: int, u: int, v: int)
    ensures View(Drop(g, owner, x), u, v)
         == Pair(v in g.Friends(u),
                 u in g.Pending(v) && !(owner == v && x == u),
                 v in g.Pending(u) && !(owner == u && x == v))
  {}

  lemma LinkView(g: Graph, a: int, b: int, u: int, v: int)
    ensures View(Link(g, a, b), u, v) == View(g, u, v).(friends := v in g.Friends(u) || (a == u && b == v))
  {}

  lemma CutView(g: Graph, a: int, b: int, u: int, v: int)
    ensures View(Cut(g, a, b), u, v) == View(g, u, v).(friends := v in g.Friends(u) && !(a == u && b == v))
  {}

  lemma DropNoRepeats(g: Graph, owner: int, x: int)
    requires forall u :: NoRepeats(g.Pending(u))
    ensures forall u :: NoRepeats(Drop(g, owner, x).Pending(u))
  {
    WithoutNoRepeats(g.Pending(owner), x);
    forall u ensures NoRepeats(Drop(g, owner, x).Pending(u)) {
      if u != owner { assert Drop(g, owner, x).Pending(u) == g.Pending(u); }
    }
  }

  lemma ApplyNoRepeats(g: Graph, a: Act)
    requires forall u :: NoRepeats(g.Pending(u))
    ensures forall u :: NoRepeats(Apply(g, a).Pending(u))
  {
    match a
    case Request(f, t) =>
      forall u ensures NoRepeats(Apply(g, a).Pending(u)) {
        assert NoRepeats(g.Pending(u));
      }
    case Accept(b, o) =>
      DropNoRepeats(g, b, o);
      DropNoRepeats(Drop(g, b, o), o, b);
      assert forall u :: Apply(g, a).Pending(u) == Drop(Drop(g, b, o), o, b).Pending(u);
    case Decline(b, o) => DropNoRepeats(g, b, o);
    case Unfriend(b, o) =>
      var g2 := Cut(Cut(g, b, o), o, b);
      assert forall u :: g2.Pending(u) == g.Pending(u);
      DropNoRepeats(g2, b, o);
      DropNoRepeats(Drop(g2, b, o), o, b);
  }

  /** The automata of a pair seen from its two ends stay in step. */
  lemma PairStepFits(p: Pair, q: Pair, a: Act, u: int, v: int)
    requires Fits(p, q, u == v) && q.asked == p.askedBack && q.askedBack == p.asked
    ensures Fits(PairStep(p, a, u, v), PairStep(q, a, v, u), u == v)
  {}

  lemma ApplySound(g: Graph, a: Act)
    requires Sound(g)
    ensures Sound(Apply(g, a))
  {
    var h := Apply(g, a);
    ApplyNoRepeats(g, a);
    hide Apply, PairStep, NoRepeats;
    forall u, v ensures Fits(View(h, u, v), View(h, v, u), u == v) {
      assert Fits(View(g, u, v), View(g, v, u), u == v);
      ApplyRefinesPair(g, a, u, v);
      ApplyRefinesPair(g, a, v, u);
      PairStepFits(View(g, u, v), View(g, v, u), a, u, v);
    }
  }

  /** Every run from an empty graph is sound and shows, for every pair, what that pair's automaton shows. */
  lemma {:induction false} RunSound(acts: seq<Act>)
    ensures Sound(Run(EMPTY, acts))
    ensures forall u, v :: View(Run(EMPTY, acts), u, v) == PairRun(acts, u, v)
  {
    if acts != [] {
      var init, last := acts[..|acts| - 1], acts[|acts| - 1];
      RunSound(init);
      var g := Run(EMPTY, init);
      ApplySound(g, last);
      forall u, v ensures View(Apply(g, last), u, v) == PairRun(acts, u, v) {
        ApplyRefinesPair(g, last, u, v);
        assert View(g, u, v) == PairRun(init, u, v);
      }
    }
  }

  // ---------------------------------------------------------------- what history alone decides

  lemma LastStep(acts: seq<Act>, u: int, v: int)
    requires acts != []
    ensures View(Run(EMPTY, acts), u, v)
         == PairStep(View(Run(EMPTY, acts[..|acts| - 1]), u, v), acts[|acts| - 1], u, v)
  {
    var init, last := acts[..|acts| - 1], acts[|acts| - 1];
    var g := Run(EMPTY, init);
    assert Run(EMPTY, acts) == Apply(g, last);
    RunSound(init);
    hide Run, Apply, PairStep;
    assert Fits(View(g, u, v), View(g, v, u), u == v);
    ApplyRefinesPair(g, last, u, v);
  }

  ghost predicate AcceptedAt(acts: seq<Act>, u: int, v: int, i: int) {
    && 0 <= i < |acts| && acts[i].Accept? && Between(acts[i], u, v)
    && forall j :: i < j < |acts| ==> !(acts[j].Unfriend? && Between(acts[j], u, v))
  }

  lemma AcceptedAtInit(acts: seq<Act>, u: int, v: int, i: int)
    requires 0 <= i < |acts| - 1
    ensures AcceptedAt(acts, u, v, i) <==>
            AcceptedAt(acts[..|acts| - 1], u, v, i) && !(acts[|acts| - 1].Unfriend? && Between(acts[|acts| - 1], u, v))
  {
    var init := acts[..|acts| - 1];
    assert forall j :: i <= j < |init| ==> init[j] == acts[j];
    if AcceptedAt(init, u, v, i) && !(acts[|acts| - 1].Unfriend? && Between(acts[|acts| - 1], u, v)) {
      forall j | i < j < |acts| ensures !(acts[j].Unfriend? && Between(acts[j], u, v)) {
        assert j < |init| ==> init[j] == acts[j];
      }
    }
  }

  lemma FriendsLast(acts: seq<Act>, u: int, v: int)
    requires acts != []
    ensures v in Run(EMPTY, acts).Friends(u) <==>
      if Between(acts[|acts| - 1], u, v) then acts[|acts| - 1].Accept?
      else v in Run(EMPTY, acts[..|acts| - 1]).Friends(u)
  {
    hide Run;
    LastStep(acts, u, v);
  }

  /** u and v are friends exactly when some acceptance between them has no later unfriending between them. */
  lemma {:induction false} FriendsByHistory(acts: seq<Act>, u: int, v: int)
    ensures v in Run(EMPTY, acts).Friends(u) <==> exists i :: AcceptedAt(acts, u, v, i)
  {
    if acts != [] {
      var n := |acts| - 1;
      FriendsByHistory(acts[..n], u, v);
      FriendsLast(acts, u, v);
      hide Run;
      if v in Run(EMPTY, acts).Friends(u) {
        if Between(acts[n], u, v) {
          assert AcceptedAt(acts, u, v, n);
        } else {
          var i :| AcceptedAt(acts[..n], u, v, i);
          AcceptedAtInit(acts, u, v, i);
        }
      }
      forall i | AcceptedAt(acts, u, v, i) ensures v in Run(EMPTY, acts).Friends(u) {
        if i < n { AcceptedAtInit(acts, u, v, i); }
      }
    }
  }

  /** Ends a request from u to v: the pair becomes friends or is unfriended, or v declines u. */
  predicate Ends(a: Act, u: int, v: int) {
    Between(a, u, v) || a == Decline(v, u)
  }

  ghost predicate AskedAt(acts: seq<Act>, u: int, v: int, i: int) {
    && 0 <= i < |acts| && acts[i] == Request(u, v) && v !in Run(EMPTY, acts[..i]).Friends(u)
    && forall j :: i < j < |acts| ==> !Ends(acts[j], u, v)
  }

  lemma AskedAtInit(acts: seq<Act>, u: int, v: int, i: int)
    requires 0 <= i < |acts| - 1
    ensures AskedAt(acts, u, v, i) <==> AskedAt(acts[..|acts| - 1], u, v, i) && !Ends(acts[|acts| - 1], u, v)
  {
    var init := acts[..|acts| - 1];
    assert init[..i] == acts[..i];
    assert forall j :: i < j < |init| ==> init[j] == acts[j];
    if AskedAt(init, u, v, i) && !Ends(acts[|acts| - 1], u, v) {
      forall j | i < j < |acts| ensures !Ends(acts[j], u, v) {
        assert j < |init| ==> init[j] == acts[j];
      }
    }
  }

  lemma PendingLast(acts: seq<Act>, u: int, v: int)
    requires acts != [] && u != v
    ensures var n := |acts| - 1;
            u in Run(EMPTY, acts).Pending(v) <==>
              !Ends(acts[n], u, v)
              && (u in Run(EMPTY, acts[..n]).Pending(v)
                  || (acts[n] == Request(u, v) && v !in Run(EMPTY, acts[..n]).Friends(u)))
  {
    hide Run;
    LastStep(acts, u, v);
  }

  /** v's pending list holds u exactly when u asked while they were not friends and nothing has ended the request. */
  lemma {:induction false} PendingByHistory(acts: seq<Act>, u: int, v: int)
    requires u != v
    ensures u in Run(EMPTY, acts).Pending(v) <==> exists i :: AskedAt(acts, u, v, i)
  {
    if acts != [] {
      var n := |acts| - 1;
      PendingByHistory(acts[..n], u, v);
      PendingLast(acts, u, v);
      hide Run;
      if u in Run(EMPTY, acts).Pending(v) {
        if u in Run(EMPTY, acts[..n]).Pending(v) {
          var i :| AskedAt(acts[..n], u, v, i);
          AskedAtInit(acts, u, v, i);
        } else {
          assert AskedAt(acts, u, v, n);
        }
      }
      forall i | AskedAt(acts, u, v, i) ensures u in Run(EMPTY, acts).Pending(v) {
        if i < n { AskedAtInit(acts, u, v, i); }
      }
    }
  }
}
