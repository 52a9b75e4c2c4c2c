/**
 Friendship with the database on: the maps `g_friends` and `g_friend_requests`
 are a cache beside three tables. A call to the store applies fully or changes
 nothing; whether it did is part of the label of the step. A restart empties the
 cache and reads it back, and any of those reads may fail.
 */
module FriendStore {
  import Social
  import opened Wrappers

  /** Rows of `friends` are kept with the smaller id first. */
  datatype Store = Store(users: set<int>, friends: set<(int, int)>, requests: set<(int, int)>)

  datatype State = State(store: Store, cache: Social.Graph)

  datatype Label =
    | Register(uid: int)
    | Ask(from: int, to: int, seen: bool, stored: bool)
    | Accept(who: int, other: int, stored: bool)
    | Decline(who: int, other: int, stored: bool)
    | Unfriend(who: int, other: int)
    | Login(uid: int, froms: seq<int>)
    | Sync(uid: int, froms: seq<int>)
    | Restart(read: set<int>)

  function Canonical(a: int, b: int): (int, int) {
    if a > b then (b, a) else (a, b)
  }

  /** The symmetric closure of the rows, as the view `v_user_friends` gives it. */
  predicate Stored(store: Store, u: int, v: int) {
    (u, v) in store.friends || (v, u) in store.friends
  }

  /** What the schema enforces. */
  predicate WellFormed(store: Store) {
    && (forall r :: r in store.friends ==> r.0 < r.1 && r.0 in store.users && r.1 in store.users)
    && (forall r :: r in store.requests ==> r.0 in store.users && r.1 in store.users)
  }

  /** The answer of `get_friends`. */
  function GetFriends(store: Store, u: int): set<int> {
    set v | v in store.users && Stored(store, u, v)
  }

  /** Adds the ids that are missing, at the end. */
  function Merge(xs: seq<int>, froms: seq<int>): seq<int>
    decreases |froms|
  {
    if froms == [] then xs
    else Merge(if froms[0] in xs then xs else xs + [froms[0]], froms[1..])
  }

  /** Everything the server knows of u's friends after start-up, given whose lists it could read. */
  function Loaded(store: Store, read: set<int>): Social.Graph {
    Social.Graph(map u | u in store.users * read && GetFriends(store, u) != {} :: GetFriends(store, u), map[])
  }

  /** The outcomes the tables' constraints allow. */
  predicate Possible(s: State, l: Label) {
    match l
    case Register(uid) => uid !in s.store.users
    case Ask(u, t, seen, stored) =>
      && (seen ==> (u, t) in s.store.requests)
      && (stored ==> u in s.store.users && t in s.store.users)
    case Accept(u, o, stored) => stored ==> u != o && u in s.store.users && o in s.store.users
    case Login(uid, froms) => forall k :: 0 <= k < |froms| ==> (froms[k], uid) in s.store.requests
    case _ => true
  }

  function Step(s: State, l: Label): State {
    var store, g := s.store, s.cache;
    match l
    case Register(uid) =>
      State(store.(users := store.users + {uid}),
            Social.Graph(g.friends[uid := g.Friends(uid)], g.pending[uid := g.Pending(uid)]))
    case Ask(u, t, seen, stored) =>
      if u == t || t in g.Friends(u) || u in g.Friends(t) || seen || !stored then s
      else
        State(store.(requests := store.requests + {(u, t)}),
              if u in g.Pending(t) then g else g.(pending := g.pending[t := g.Pending(t) + [u]]))
    case Accept(u, o, stored) =>
      if !stored then s
      else
        State(store.(friends := store.friends + {Canonical(o, u)}, requests := store.requests - {(o, u)}),
              Social.Apply(g, Social.Accept(u, o)))
    case Decline(u, o, stored) =>
      State(if stored then store.(requests := store.requests - {(o, u)}) else store, Social.Apply(g, Social.Decline(u, o)))
    case Unfriend(u, o) => State(store, Social.Apply(g, Social.Unfriend(u, o)))
    case Login(uid, froms) => State(store, g.(pending := g.pending[uid := Merge(g.Pending(uid), froms)]))
    case Sync(uid, froms) => State(store, g.(pending := g.pending[uid := Merge(g.Pending(uid), froms)]))
    case Restart(read) => State(store, Loaded(store, read))
  }

  /** A server that has not started yet, beside the tables it will find. */
  function Init(store: Store): State {
    State(store, Social.EMPTY)
  }

  function Run(store: Store, trace: seq<Label>): State {
    if trace == [] then Init(store) else Step(Run(store, trace[..|trace| - 1]), trace[|trace| - 1])
  }

  predicate Feasible(store: Store, trace: seq<Label>) {
    trace == [] || (
      var before := trace[..|trace| - 1];
      Feasible(store, before) && Possible(Run(store, before), trace[|trace| - 1]))
  }

  // ---------------------------------------------------------------- what the labels alone say

  predicate About(l: Label, u: int, v: int) {
    (l.Accept? || l.Unfriend?) && ((l.who == u && l.other == v) || (l.who == v && l.other == u))
  }

  /** u's cached list misses v: its read failed at start-up, or the pair was unfriended since and not accepted again. */
  predicate Missing(trace: seq<Label>, u: int, v: int) {
    if trace == [] then true
    else
      var before, l := trace[..|trace| - 1], trace[|trace| - 1];
      if l.Restart? then u !in l.read
      else if About(l, u, v) && (l.Unfriend? || l.stored) then l.Unfriend?
      else Missing(before, u, v)
  }

  /** The pair was accepted in the database at some point. */
  predicate Accepted(trace: seq<Label>, u: int, v: int) {
    exists k :: 0 <= k < |trace| && trace[k].Accept? && trace[k].stored && About(trace[k], u, v)
  }

  lemma LoadedFriends(store: Store, read: set<int>, u: int, v: int)
    requires WellFormed(store)
    ensures v in Loaded(store, read).Friends(u) <==> Stored(store, u, v) && u in read
  {}

  lemma StepWellFormed(s: State, l: Label)
    requires WellFormed(s.store) && Possible(s, l)
    ensures WellFormed(Step(s, l).store)
  {}

  lemma {:induction false} RunWellFormed(store: Store, trace: seq<Label>)
    requires WellFormed(store) && Feasible(store, trace)
    ensures WellFormed(Run(store, trace).store)
  {
    if trace != [] {
      RunWellFormed(store, trace[..|trace| - 1]);
      StepWellFormed(Run(store, trace[..|trace| - 1]), trace[|trace| - 1]);
    }
  }

  /** The user rows are those found at first and those registered since. */
  lemma {:induction false} UsersByHistory(store: Store, trace: seq<Label>, u: int)
    ensures u in Run(store, trace).store.users <==>
            u in store.users || exists k :: 0 <= k < |trace| && trace[k] == Register(u)
  {
    if trace != [] {
      var n := |trace| - 1;
      UsersByHistory(store, trace[..n], u);
      UsersStep(Run(store, trace[..n]), trace[n], u);
      hide Step;
      if k :| 0 <= k < n && trace[..n][k] == Register(u) {
        assert trace[k] == Register(u);
      }
      if trace[n] != Register(u) {
        if k :| 0 <= k < |trace| && trace[k] == Register(u) {
          assert trace[..n][k] == Register(u);
        }
      }
    }
  }

  lemma UsersStep(s: State, l: Label, u: int)
    ensures u in Step(s, l).store.users <==> u in s.store.users || l == Register(u)
  {}

  /** The effect of one step on one ordered pair of the cache. */
  lemma CacheStep(s: State, l: Label, u: int, v: int)
    requires WellFormed(s.store)
    ensures v in Step(s, l).cache.Friends(u) <==>
      if l.Restart? then Stored(s.store, u, v) && u in l.read
      else if About(l, u, v) && (l.Unfriend? || l.stored) then l.Accept?
      else v in s.cache.Friends(u)
  {
    if l.Restart? { LoadedFriends(s.store, l.read, u, v); }
  }

  /** Rows of `friends` only appear, and only by an acceptance. */
  lemma StoredStep(s: State, l: Label, u: int, v: int)
    ensures Stored(Step(s, l).store, u, v) <==> Stored(s.store, u, v) || (l.Accept? && l.stored && About(l, u, v))
  {}

  /** The cache is the closure of the rows, minus exactly what the labels say is missing. */
  lemma {:induction false} CacheByHistory(store: Store, trace: seq<Label>, u: int, v: int)
    requires WellFormed(store) && Feasible(store, trace)
    ensures var s := Run(store, trace);
            v in s.cache.Friends(u) <==> Stored(s.store, u, v) && !Missing(trace, u, v)
  {
    hide Step, Stored;
    if trace != [] {
      var before, l := trace[..|trace| - 1], trace[|trace| - 1];
      var s := Run(store, before);
      CacheByHistory(store, before, u, v);
      RunWellFormed(store, before);
      CacheStep(s, l, u, v);
      StoredStep(s, l, u, v);
    }
  }

  /** The rows are those found at first, and the pairs accepted since. */
  lemma {:induction false} RowsByHistory(store: Store, trace: seq<Label>, u: int, v: int)
    ensures Stored(Run(store, trace).store, u, v) <==> Stored(store, u, v) || Accepted(trace, u, v)
  {
    hide Step, Stored, About;
    if trace != [] {
      var n := |trace| - 1;
      RowsByHistory(store, trace[..n], u, v);
      StoredStep(Run(store, trace[..n]), trace[n], u, v);
      if Accepted(trace[..n], u, v) {
        var k :| 0 <= k < n && trace[..n][k].Accept? && trace[..n][k].stored && About(trace[..n][k], u, v);
        assert trace[k] == trace[..n][k];
      }
      if Accepted(trace, u, v) && !(trace[n].Accept? && trace[n].stored && About(trace[n], u, v)) {
        var k :| 0 <= k < |trace| && trace[k].Accept? && trace[k].stored && About(trace[k], u, v);
        assert trace[..n][k] == trace[k];
      }
    }
  }

  // ---------------------------------------------------------------- consequences

  /** The last start-up read the two lists alike. */
  predicate ReadAlike(trace: seq<Label>, u: int, v: int) {
    trace == [] || (
      var l := trace[|trace| - 1];
      if l.Restart? then u in l.read <==> v in l.read else ReadAlike(trace[..|trace| - 1], u, v))
  }

  lemma {:induction false} MissingSymmetric(trace: seq<Label>, u: int, v: int)
    requires ReadAlike(trace, u, v)
    ensures Missing(trace, u, v) <==> Missing(trace, v, u)
  {
    if trace != [] && !trace[|trace| - 1].Restart? {
      MissingSymmetric(trace[..|trace| - 1], u, v);
    }
  }

  /** The cache never claims more than the rows. */
  lemma CacheWithinStore(store: Store, trace: seq<Label>, u: int, v: int)
    requires WellFormed(store) && Feasible(store, trace)
    ensures var s := Run(store, trace);
            v in s.cache.Friends(u) ==> Stored(s.store, u, v) && u != v
  {
    CacheByHistory(store, trace, u, v);
    RunWellFormed(store, trace);
  }

  /** The labels decide where the cache is symmetric: everywhere but on stored pairs that are missing one way only. */
  lemma SymmetricIff(store: Store, trace: seq<Label>, u: int, v: int)
    requires WellFormed(store) && Feasible(store, trace)
    ensures var s := Run(store, trace);
            && ((v in s.cache.Friends(u) <==> u in s.cache.Friends(v)) <==>
                  (Stored(store, u, v) || Accepted(trace, u, v) ==> (Missing(trace, u, v) <==> Missing(trace, v, u))))
            && (ReadAlike(trace, u, v) ==> (v in s.cache.Friends(u) <==> u in s.cache.Friends(v)))
  {
    CacheByHistory(store, trace, u, v);
    CacheByHistory(store, trace, v, u);
    RowsByHistory(store, trace, u, v);
    RowsByHistory(store, trace, v, u);
    if ReadAlike(trace, u, v) { MissingSymmetric(trace, u, v); }
  }

  /** Once accepted, a friendship is back after every start-up that reads the list, whatever was unfriended in between. */
  lemma RestartRestores(store: Store, trace: seq<Label>, read: set<int>, u: int, v: int)
    requires WellFormed(store) && Feasible(store, trace)
    ensures v in Run(store, trace + [Restart(read)]).cache.Friends(u)
       <==> u in read && (Stored(store, u, v) || Accepted(trace, u, v))
  {
    assert (trace + [Restart(read)])[..|trace|] == trace;
    RunWellFormed(store, trace);
    CacheStep(Run(store, trace), Restart(read), u, v);
    RowsByHistory(store, trace, u, v);
  }

  // ---------------------------------------------------------------- requests

  lemma {:induction false} MergeNoRepeats(xs: seq<int>, froms: seq<int>)
    requires Social.NoRepeats(xs)
    ensures Social.NoRepeats(Merge(xs, froms))
    ensures forall x :: x in Merge(xs, froms) <==> x in xs || x in froms
    decreases |froms|
  {
    if froms != [] {
      MergeNoRepeats(if froms[0] in xs then xs else xs + [froms[0]], froms[1..]);
    }
  }

  /** No pending list ever names a user twice, whatever is merged into it from the tables. */
  lemma {:induction false} PendingNoRepeats(store: Store, trace: seq<Label>, u: int)
    ensures Social.NoRepeats(Run(store, trace).cache.Pending(u))
  {
    if trace != [] {
      var s, l := Run(store, trace[..|trace| - 1]), trace[|trace| - 1];
      PendingNoRepeats(store, trace[..|trace| - 1], u);
      PendingStep(s, l, u);
    }
  }

  lemma TwiceWithout(xs: seq<int>, x: int, y: int)
    requires Social.NoRepeats(xs)
    ensures Social.NoRepeats(Social.Without(xs, x)) && Social.NoRepeats(Social.Without(xs, y))
    ensures Social.NoRepeats(Social.Without(Social.Without(xs, x), y))
  {
    Social.WithoutNoRepeats(xs, x);
    Social.WithoutNoRepeats(xs, y);
    Social.WithoutNoRepeats(Social.Without(xs, x), y);
  }

  lemma PendingStep(s: State, l: Label, u: int)
    requires Social.NoRepeats(s.cache.Pending(u))
    ensures Social.NoRepeats(Step(s, l).cache.Pending(u))
  {
    hide Social.NoRepeats;
    var xs := s.cache.Pending(u);
    match l
    case Ask(from, _, _, _) => if from !in xs { SnocNoRepeats(xs, from); }
    case Accept(who, other, _) => TwiceWithout(xs, other, who);
    case Unfriend(who, other) => TwiceWithout(xs, other, who);
    case Decline(who, other, _) => Social.WithoutNoRepeats(xs, other);
    case Login(_, froms) => MergeNoRepeats(xs, froms);
    case Sync(_, froms) => MergeNoRepeats(xs, froms);
    case Restart(_) => NothingRepeats();
    case _ =>
  }

  lemma SnocNoRepeats(xs: seq<int>, x: int)
    requires Social.NoRepeats(xs) && x !in xs
    ensures Social.NoRepeats(xs + [x])
  {}

  lemma NothingRepeats()
    ensures Social.NoRepeats([])
  {}

  /** What the labels alone say of the friends in u's cached list. */
  predicate Cached(store: Store, trace: seq<Label>, u: int, v: int) {
    (Stored(store, u, v) || Accepted(trace, u, v)) && !Missing(trace, u, v)
  }

  lemma CachedIs(store: Store, trace: seq<Label>, u: int, v: int)
    requires WellFormed(store) && Feasible(store, trace)
    ensures v in Run(store, trace).cache.Friends(u) <==> Cached(store, trace, u, v)
  {
    CacheByHistory(store, trace, u, v);
    RowsByHistory(store, trace, u, v);
  }

  /** What a label does to x's place in u's pending list, given whether the two are strangers in the cache. */
  function Touches(l: Label, x: int, u: int, strangers: bool): Option<bool> {
    match l
    case Register(_) => None
    case Ask(from, to, seen, stored) =>
      if from == x && to == u && x != u && strangers && !seen && stored then Some(true) else None
    case Accept(_, _, stored) => if stored && About(l, x, u) then Some(false) else None
    case Unfriend(_, _) => if About(l, x, u) then Some(false) else None
    case Decline(who, other, _) => if who == u && other == x then Some(false) else None
    case Login(uid, froms) => if uid == u && x in froms then Some(true) else None
    case Sync(uid, froms) => if uid == u && x in froms then Some(true) else None
    case Restart(_) => Some(false)
  }

  predicate Strangers(g: Social.Graph, x: int, u: int) {
    u !in g.Friends(x) && x !in g.Friends(u)
  }

  lemma {:induction false} MergeHolds(xs: seq<int>, froms: seq<int>, x: int)
    ensures x in Merge(xs, froms) <==> x in xs || x in froms
    decreases |froms|
  {
    if froms != [] {
      MergeHolds(if froms[0] in xs then xs else xs + [froms[0]], froms[1..], x);
    }
  }

  /** Merged requests go behind those that wait already. */
  lemma {:induction false} MergeGoesBehind(xs: seq<int>, froms: seq<int>)
    ensures xs <= Merge(xs, froms)
    decreases |froms|
  {
    if froms != [] {
      MergeGoesBehind(if froms[0] in xs then xs else xs + [froms[0]], froms[1..]);
    }
  }

  /** The effect of one step on one place of one pending list. */
  lemma PlaceStep(s: State, l: Label, x: int, u: int)
    ensures x in Step(s, l).cache.Pending(u)
       <==> match Touches(l, x, u, Strangers(s.cache, x, u)) { case Some(b) => b case None => x in s.cache.Pending(u) }
  {
    match l
    case Login(uid, froms) => MergeHolds(s.cache.Pending(uid), froms, x);
    case Sync(uid, froms) => MergeHolds(s.cache.Pending(uid), froms, x);
    case _ =>
  }

  /** x waits in u's list, by the labels: the last one that touched that place filled it. */
  predicate Waiting(store: Store, trace: seq<Label>, x: int, u: int) {
    trace != [] && (
      var before, l := trace[..|trace| - 1], trace[|trace| - 1];
      match Touches(l, x, u, !Cached(store, before, x, u) && !Cached(store, before, u, x))
      case Some(b) => b
      case None => Waiting(store, before, x, u))
  }

  /** The pending lists hold exactly what the labels say. */
  lemma {:induction false} PendingByHistory(store: Store, trace: seq<Label>, x: int, u: int)
    requires WellFormed(store) && Feasible(store, trace)
    ensures x in Run(store, trace).cache.Pending(u) <==> Waiting(store, trace, x, u)
  {
    hide Step, Cached, Touches;
    if trace != [] {
      var before, l := trace[..|trace| - 1], trace[|trace| - 1];
      PendingByHistory(store, before, x, u);
      PlaceStep(Run(store, before), l, x, u);
      CachedIs(store, before, x, u);
      CachedIs(store, before, u, x);
    }
  }

  /** What a label does to the request row from f to t. */
  function TouchesRow(l: Label, f: int, t: int, strangers: bool): Option<bool> {
    match l
    case Ask(from, to, seen, stored) =>
      if from == f && to == t && f != t && strangers && !seen && stored then Some(true) else None
    case Accept(who, other, stored) => if stored && who == t && other == f then Some(false) else None
    case Decline(who, other, stored) => if stored && who == t && other == f then Some(false) else None
    case _ => None
  }

  predicate RowWaiting(store: Store, trace: seq<Label>, f: int, t: int) {
    if trace == [] then (f, t) in store.requests
    else
      var before, l := trace[..|trace| - 1], trace[|trace| - 1];
      match TouchesRow(l, f, t, !Cached(store, before, f, t) && !Cached(store, before, t, f))
      case Some(b) => b
      case None => RowWaiting(store, before, f, t)
  }

  lemma RowStep(s: State, l: Label, f: int, t: int)
    ensures (f, t) in Step(s, l).store.requests
       <==> match TouchesRow(l, f, t, Strangers(s.cache, f, t)) { case Some(b) => b case None => (f, t) in s.store.requests }
  {}

  /** Request rows end only by the answer to that very request: one that crosses an acceptance keeps its row. */
  lemma {:induction false} RequestRowsByHistory(store: Store, trace: seq<Label>, f: int, t: int)
    requires WellFormed(store) && Feasible(store, trace)
    ensures (f, t) in Run(store, trace).store.requests <==> RowWaiting(store, trace, f, t)
  {
    hide Step, Cached, TouchesRow;
    if trace != [] {
      var before, l := trace[..|trace| - 1], trace[|trace| - 1];
      RequestRowsByHistory(store, before, f, t);
      RowStep(Run(store, before), l, f, t);
      CachedIs(store, before, f, t);
      CachedIs(store, before, t, f);
    }
  }

  // ---------------------------------------------------------------- friends with a pending request

  predicate DisjointAt(g: Social.Graph, u: int, v: int) {
    v in g.Friends(u) ==> u !in g.Pending(v) && v !in g.Pending(u)
  }

  /** No two friends have a pending request. */
  ghost predicate Disjoint(g: Social.Graph) {
    forall u, v :: DisjointAt(g, u, v)
  }

  /** A merge of requests read from the database names no friend, in either direction. */
  predicate CleanMerge(g: Social.Graph, l: Label) {
    l.Login? || l.Sync? ==> forall k :: 0 <= k < |l.froms| ==> Strangers(g, l.froms[k], l.uid)
  }

  lemma DisjointStepAt(s: State, l: Label, u: int, v: int)
    requires WellFormed(s.store) && DisjointAt(s.cache, u, v) && CleanMerge(s.cache, l)
    ensures DisjointAt(Step(s, l).cache, u, v)
  {
    hide Step;
    CacheStep(s, l, u, v);
    PlaceStep(s, l, u, v);
    PlaceStep(s, l, v, u);
  }

  lemma UncleanMerge(s: State, l: Label, k: int)
    requires WellFormed(s.store) && (l.Login? || l.Sync?) && 0 <= k < |l.froms| && !Strangers(s.cache, l.froms[k], l.uid)
    ensures !Disjoint(Step(s, l).cache)
  {
    hide Step;
    var x, u, g := l.froms[k], l.uid, Step(s, l).cache;
    CacheStep(s, l, u, x);
    CacheStep(s, l, x, u);
    PlaceStep(s, l, x, u);
    assert !DisjointAt(g, u, x) || !DisjointAt(g, x, u);
  }

  /** One step keeps friends and requests apart if and only if it is not a merge that names a friend. */
  lemma DisjointStepIff(s: State, l: Label)
    requires WellFormed(s.store) && Disjoint(s.cache)
    ensures Disjoint(Step(s, l).cache) <==> CleanMerge(s.cache, l)
  {
    hide Step;
    if CleanMerge(s.cache, l) {
      forall u, v ensures DisjointAt(Step(s, l).cache, u, v) {
        assert DisjointAt(s.cache, u, v);
        DisjointStepAt(s, l, u, v);
      }
    } else {
      var k :| 0 <= k < |l.froms| && !Strangers(s.cache, l.froms[k], l.uid);
      UncleanMerge(s, l, k);
    }
  }

  ghost predicate AlwaysDisjoint(store: Store, trace: seq<Label>) {
    forall i :: 0 <= i <= |trace| ==> Disjoint(Run(store, trace[..i]).cache)
  }

  /** The labels before step i make no one that step merges a friend. */
  predicate MergesStrangers(store: Store, before: seq<Label>, l: Label) {
    l.Login? || l.Sync? ==> forall k :: 0 <= k < |l.froms| ==>
      !Cached(store, before, l.froms[k], l.uid) && !Cached(store, before, l.uid, l.froms[k])
  }

  ghost predicate AllMergesClean(store: Store, trace: seq<Label>) {
    forall i :: 0 <= i < |trace| ==> MergesStrangers(store, trace[..i], trace[i])
  }

  lemma CleanMergeByLabels(store: Store, before: seq<Label>, l: Label)
    requires WellFormed(store) && Feasible(store, before)
    ensures CleanMerge(Run(store, before).cache, l) <==> MergesStrangers(store, before, l)
  {
    hide Cached, Run;
    if l.Login? || l.Sync? {
      forall k | 0 <= k < |l.froms|
        ensures Strangers(Run(store, before).cache, l.froms[k], l.uid)
           <==> !Cached(store, before, l.froms[k], l.uid) && !Cached(store, before, l.uid, l.froms[k])
      {
        CachedIs(store, before, l.froms[k], l.uid);
        CachedIs(store, before, l.uid, l.froms[k]);
      }
    }
  }

  lemma AlwaysDisjointSnoc(store: Store, before: seq<Label>, l: Label)
    ensures AlwaysDisjoint(store, before + [l]) <==>
            AlwaysDisjoint(store, before) && Disjoint(Step(Run(store, before), l).cache)
    ensures AlwaysDisjoint(store, before) ==> Disjoint(Run(store, before).cache)
  {
    OneMore(store, before, l);
    hide Disjoint, Run, Step;
    var trace := before + [l];
    assert trace[..|trace|] == trace && before[..|before|] == before;
    forall i | 0 <= i <= |before| ensures before[..i] == trace[..i] {}
    if AlwaysDisjoint(store, trace) {
      assert Disjoint(Run(store, trace[..|trace|]).cache);
      forall i | 0 <= i <= |before| ensures Disjoint(Run(store, before[..i]).cache) {
        assert Disjoint(Run(store, trace[..i]).cache);
      }
    }
  }

  lemma AllMergesCleanSnoc(store: Store, before: seq<Label>, l: Label)
    ensures AllMergesClean(store, before + [l]) <==> AllMergesClean(store, before) && MergesStrangers(store, before, l)
  {
    hide MergesStrangers;
    var trace := before + [l];
    assert trace[..|before|] == before;
    forall i | 0 <= i < |before| ensures before[..i] == trace[..i] && before[i] == trace[i] {}
    if AllMergesClean(store, trace) {
      assert MergesStrangers(store, trace[..|before|], trace[|before|]);
      forall i | 0 <= i < |before| ensures MergesStrangers(store, before[..i], before[i]) {
        assert MergesStrangers(store, trace[..i], trace[i]);
      }
    }
  }

  /**
   Friends have no pending request at any boundary of a run if and only if no
   login and no GET_FRIENDS_LIST of it merges a request of a friend, which the
   labels before that merge decide.
   */
  lemma {:induction false} DisjointIffMergesClean(store: Store, trace: seq<Label>)
    requires WellFormed(store) && Feasible(store, trace)
    ensures AlwaysDisjoint(store, trace) <==> AllMergesClean(store, trace)
  {
    if trace == [] {
      assert Disjoint(Run(store, []).cache);
    } else {
      hide Disjoint, MergesStrangers, Step, CleanMerge;
      var n := |trace| - 1;
      var before, l := trace[..n], trace[n];
      assert trace == before + [l];
      DisjointIffMergesClean(store, before);
      AlwaysDisjointSnoc(store, before, l);
      AllMergesCleanSnoc(store, before, l);
      RunWellFormed(store, before);
      CleanMergeByLabels(store, before, l);
      if AlwaysDisjoint(store, before) {
        DisjointStepIff(Run(store, before), l);
      }
    }
  }

  lemma OneMore(store: Store, trace: seq<Label>, l: Label)
    ensures Run(store, trace + [l]) == Step(Run(store, trace), l)
    ensures Feasible(store, trace + [l]) <==> Feasible(store, trace) && Possible(Run(store, trace), l)
  {
    assert (trace + [l])[..|trace|] == trace;
  }

  /** Two users who ask each other, one acceptance, one login: friends with a request still pending. */
  lemma FriendsYetPending()
    ensures var store := Store({1, 2}, {}, {});
            var trace := [Ask(1, 2, false, true)] + [Ask(2, 1, false, true)] + [Accept(2, 1, true)] + [Login(1, [2])];
            && WellFormed(store) && Feasible(store, trace)
            && 2 in Run(store, trace).cache.Friends(1) && 2 in Run(store, trace).cache.Pending(1)
  {
    var store := Store({1, 2}, {}, {});
    var t1 := [Ask(1, 2, false, true)];
    OneMore(store, [], t1[0]);
    assert [] + t1 == t1;
    var t2 := t1 + [Ask(2, 1, false, true)];
    OneMore(store, t1, Ask(2, 1, false, true));
    OneMore(store, t2, Accept(2, 1, true));
    OneMore(store, t2 + [Accept(2, 1, true)], Login(1, [2]));
    MergeNoRepeats([], [2]);
  }

  // ---------------------------------------------------------------- the server

  /** The friend handlers with the database on; each is one critical section. */
  class Server {
    var store: Store
    var friends: map<int, set<int>>
    var friendRequests: map<int, seq<int>>

    ghost function Value(): State
      reads this
    {
      State(store, Social.Graph(friends, friendRequests))
    }

    constructor (tables: Store)
      ensures Value() == Init(tables)
    {
      store, friends, friendRequests := tables, map[], map[];
    }

    function FriendsOf(u: int): set<int>
      reads this
    {
      if u in friends then friends[u] else {}
    }

    function RequestsTo(u: int): seq<int>
      reads this
    {
      if u in friendRequests then friendRequests[u] else []
    }

    /** The transaction of `accept_friend_request`: the row in canonical order, then the request's deletion. */
    method AcceptFriendRequest(from: int, to: int, available: bool) returns (success: bool)
      modifies this`store
      ensures success ==> from != to && from in store.users && to in store.users
      ensures !success ==> store == old(store)
      ensures success ==> store == old(store).(friends := old(store).friends + {Canonical(from, to)},
                                               requests := old(store).requests - {(from, to)})
    {
      var a, b := from, to;
      if a > b {
        a, b := b, a;
      }
      if !available || !(a < b) || a !in store.users || b !in store.users {
        return false;
      }
      store := store.(friends := store.friends + {(a, b)});
      store := store.(requests := store.requests - {(from, to)});
      return true;
    }

    method Drop(owner: int, x: int)
      modifies this`friendRequests
      ensures Social.Graph(friends, friendRequests) == Social.Drop(old(Social.Graph(friends, friendRequests)), owner, x)
    {
      var kept := Social.Erase(RequestsTo(owner), x);
      friendRequests := friendRequests[owner := kept];
    }

    method FriendAccept(user: int, other: int, available: bool) returns (success: bool)
      modifies this
      ensures Possible(old(Value()), Accept(user, other, success))
      ensures Value() == Step(old(Value()), Accept(user, other, success))
    {
      success := AcceptFriendRequest(other, user, available);
      if success {
        Drop(user, other);
        Drop(other, user);
        friends := friends[user := FriendsOf(user) + {other}];
        friends := friends[other := FriendsOf(other) + {user}];
      }
    }

    method FriendDecline(user: int, other: int, available: bool)
      modifies this
      ensures Value() == Step(old(Value()), Decline(user, other, available))
    {
      if available {
        store := store.(requests := store.requests - {(other, user)});
      }
      Drop(user, other);
    }

    method EndFriendship(user: int, other: int)
      modifies this
      ensures Value() == Step(old(Value()), Unfriend(user, other))
    {
      friends := friends[user := FriendsOf(user) - {other}];
      friends := friends[other := FriendsOf(other) - {user}];
      Drop(user, other);
      Drop(other, user);
    }

    method FriendRequest(user: int, target: int, readable: bool, available: bool) returns (seen: bool, stored: bool)
      modifies this
      ensures Possible(old(Value()), Ask(user, target, seen, stored))
      ensures Value() == Step(old(Value()), Ask(user, target, seen, stored))
    {
      seen, stored := false, false;
      if user == target || target in FriendsOf(user) || user in FriendsOf(target) {
        return;
      }
      seen := readable && (user, target) in store.requests;
      if seen {
        return;
      }
      stored := available && user in store.users && target in store.users;
      if !stored {
        return;
      }
      store := store.(requests := store.requests + {(user, target)});
      if user !in RequestsTo(target) {
        friendRequests := friendRequests[target := RequestsTo(target) + [user]];
      }
    }

    /** Part of LOGIN and of GET_FRIENDS_LIST: requests read from the database go into the cache. */
    method MergeRequests(user: int, froms: seq<int>)
      modifies this
      ensures Value() == Step(old(Value()), Sync(user, froms))
    {
      var merged := RequestsTo(user);
      for i := 0 to |froms|
        invariant Merge(merged, froms[i..]) == Merge(RequestsTo(user), froms)
      {
        assert froms[i..][0] == froms[i] && froms[i..][1..] == froms[i + 1..];
        if froms[i] !in merged {
          merged := merged + [froms[i]];
        }
      }
      friendRequests := friendRequests[user := merged];
    }

    method LoadFriends(user: int, answer: seq<int>)
      requires user !in friends
      modifies this`friends
      ensures friends == if answer == [] then old(friends) else old(friends)[user := Holds(answer)]
    {
      for i := 0 to |answer|
        invariant friends == if i == 0 then old(friends) else old(friends)[user := Holds(answer[..i])]
      {
        assert Holds(answer[..i + 1]) == Holds(answer[..i]) + {answer[i]};
        ghost var was := FriendsOf(user);
        assert was == Holds(answer[..i]);
        friends := friends[user := FriendsOf(user) + {answer[i]}];
        assert friends == old(friends)[user := was + {answer[i]}];
      }
      assert answer[..|answer|] == answer;
    }

    /** A restart: `listing` is the answer of the user query, and answers[k] that of the friend query for listing[k]. */
    method Boot(listing: seq<int>, answers: seq<seq<int>>)
      requires |answers| == |listing| && Social.NoRepeats(listing)
      requires forall k :: 0 <= k < |listing| ==> Answer(store, listing[k], answers[k])
      modifies this
      ensures Value() == Step(old(Value()), Restart(Answered(listing, answers)))
    {
      friends, friendRequests := map[], map[];
      for k := 0 to |listing|
        invariant store == old(store) && friendRequests == map[]
        invariant friends == Loaded(store, Answered(listing[..k], answers[..k])).friends
      {
        AnsweredSnoc(listing, answers, k);
        assert Answer(store, listing[k], answers[k]);
        LoadedSnoc(store, Answered(listing[..k], answers[..k]), listing[k], answers[k]);
        LoadFriends(listing[k], answers[k]);
      }
      assert listing[..|listing|] == listing && answers[..|answers|] == answers;
    }
  }

  function Holds(xs: seq<int>): set<int> {
    set x | x in xs
  }

  /** The users whose friends were read. */
  function Answered(listing: seq<int>, answers: seq<seq<int>>): set<int>
    requires |answers| == |listing|
  {
    if listing == [] then {}
    else
      var n := |listing| - 1;
      Answered(listing[..n], answers[..n]) + if answers[n] == [] then {} else {listing[n]}
  }

  /** What the friend query may answer for a user: nothing, or all of the user's friends. */
  predicate Answer(store: Store, user: int, answer: seq<int>) {
    user in store.users && (answer == [] || Holds(answer) == GetFriends(store, user))
  }

  lemma {:induction false} AnsweredListed(listing: seq<int>, answers: seq<seq<int>>, x: int)
    requires |answers| == |listing| && x !in listing
    ensures x !in Answered(listing, answers)
  {
    if listing != [] {
      var n := |listing| - 1;
      AnsweredListed(listing[..n], answers[..n], x);
    }
  }

  lemma AnsweredSnoc(listing: seq<int>, answers: seq<seq<int>>, k: nat)
    requires k < |listing| == |answers| && Social.NoRepeats(listing)
    ensures Answered(listing[..k + 1], answers[..k + 1])
         == Answered(listing[..k], answers[..k]) + if answers[k] == [] then {} else {listing[k]}
    ensures listing[k] !in Answered(listing[..k], answers[..k])
  {
    assert listing[..k + 1][..k] == listing[..k] && answers[..k + 1][..k] == answers[..k];
    AnsweredListed(listing[..k], answers[..k], listing[k]);
  }

  lemma LoadedSnoc(store: Store, read: set<int>, user: int, answer: seq<int>)
    requires Answer(store, user, answer) && user !in read
    ensures var was := Loaded(store, read).friends;
            && user !in was
            && Loaded(store, read + if answer == [] then {} else {user}).friends
               == if answer == [] then was else was[user := Holds(answer)]
  {
    if answer == [] {
      assert read + {} == read;
    } else {
      assert answer[0] in GetFriends(store, user);
      assert store.users * (read + {user}) == store.users * read + {user};
    }
  }
}
