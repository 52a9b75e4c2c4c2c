/**
 The fallback users file: one line per user, four fields between tabs. A
 registration in memory mode writes the file before it adds its own user.
 */
module UsersFile {
  import opened Wrappers
  import opened Text
  import opened Directory

  // ---------------------------------------------------------------- the format

  function Line(u: User): string
    requires u.id >= 0
  {
    Decimal(u.id) + ['\t'] + (u.username + ['\t'] + (u.password + ['\t'] + u.phone))
  }

  function FileText(us: seq<User>): string
    requires forall k :: 0 <= k < |us| ==> us[k].id >= 0
  {
    if us == [] then "" else Line(us[0]) + ['\n'] + FileText(us[1..])
  }

  function Field(tokens: seq<string>, k: nat): string {
    if k < |tokens| then tokens[k] else ""
  }

  /** One line read back; None where `std::stoi` would throw. */
  function ParseLine(line: string): Option<User> {
    var t := Getlines(line, '\t');
    match Stoi(Field(t, 0))
    case None => None
    case Some(id) => Some(User(id, Field(t, 1), Field(t, 2), Field(t, 3)))
  }

  function Insert(d: Users, u: User): Users {
    Users(d.byName[u.username := u], d.byId[u.id := u], if u.id >= d.nextId then u.id + 1 else d.nextId)
  }

  function LoadLines(d: Users, lines: seq<string>): Option<Users>
    decreases |lines|
  {
    if lines == [] then Some(d)
    else
      match ParseLine(lines[0])
      case None => None
      case Some(u) => LoadLines(Insert(d, u), lines[1..])
  }

  function Load(file: string): Option<Users> {
    LoadLines(EMPTY, Getlines(file, '\n'))
  }

  // ---------------------------------------------------------------- the two loops

  /** `save_users`; `order` is the iteration order of the hash map. */
  method SaveUsers(byName: map<string, User>, order: seq<string>) returns (file: string)
    requires forall k :: 0 <= k < |order| ==> order[k] in byName && byName[order[k]].id >= 0
    ensures file == FileText(Listed(byName, order))
  {
    hide FileText, Line, Listed;
    file := "";
    assert order[0..] == order;
    for i := 0 to |order|
      invariant file + FileText(Listed(byName, order[i..])) == FileText(Listed(byName, order))
    {
      var u := byName[order[i]];
      FileStep(byName, order, i);
      file := file + Line(u) + ['\n'];
    }
    FileEnd(byName, order);
  }

  lemma FileStep(byName: map<string, User>, order: seq<string>, i: nat)
    requires i < |order| && forall k :: 0 <= k < |order| ==> order[k] in byName && byName[order[k]].id >= 0
    ensures FileText(Listed(byName, order[i..]))
         == Line(byName[order[i]]) + ['\n'] + FileText(Listed(byName, order[i + 1..]))
  {
    hide Line;
    ListedTail(byName, order, i);
  }

  lemma FileEnd(byName: map<string, User>, order: seq<string>)
    requires forall k :: 0 <= k < |order| ==> order[k] in byName && byName[order[k]].id >= 0
    ensures FileText(Listed(byName, order[|order|..])) == ""
  {}

  function Listed(byName: map<string, User>, order: seq<string>): (us: seq<User>)
    requires forall k :: 0 <= k < |order| ==> order[k] in byName
    ensures |us| == |order| && forall k :: 0 <= k < |us| ==> us[k] == byName[order[k]]
  {
    seq(|order|, i requires 0 <= i < |order| => byName[order[i]])
  }

  lemma ListedTail(byName: map<string, User>, order: seq<string>, i: nat)
    requires i < |order| && forall k :: 0 <= k < |order| ==> order[k] in byName
    ensures Listed(byName, order[i..])[0] == byName[order[i]]
    ensures Listed(byName, order[i..])[1..] == Listed(byName, order[i + 1..])
  {
    var a, b := Listed(byName, order[i..])[1..], Listed(byName, order[i + 1..]);
    assert |a| == |b|;
    forall k | 0 <= k < |a| ensures a[k] == b[k] {
      assert order[i..][k + 1] == order[i + 1..][k];
    }
  }

  /** `load_users`, reading line by line. */
  method LoadUsers(file: string) returns (r: Option<Users>)
    ensures r == Load(file)
  {
    var rest, d := file, EMPTY;
    while rest != ""
      invariant LoadLines(d, Getlines(rest, '\n')) == Load(file)
      decreases |rest|
    {
      var i := Find(rest, '\n');
      var u := ParseLine(rest[..i]);
      if u.None? {
        return None;
      }
      d := Insert(d, u.value);
      rest := if i == |rest| then "" else rest[i + 1..];
    }
    return Some(d);
  }

  // ---------------------------------------------------------------- what survives the file

  predicate CleanText(s: string) {
    Free(s, '\t') && Free(s, '\n')
  }

  predicate CleanUser(u: User) {
    CleanText(u.username) && CleanText(u.password) && CleanText(u.phone)
  }

  lemma DecimalClean(n: nat)
    ensures CleanText(Decimal(n))
  {}

  lemma ConsTokens(a: string, t: string, ts: seq<string>)
    requires Free(a, '\t') && Getlines(t, '\t') == ts
    ensures Getlines(a + ['\t'] + t, '\t') == [a] + ts
  {
    GetlinesCons(a, '\t', t);
  }

  lemma LineTokens(a: string, b: string, c: string, d: string, line: string)
    requires Free(a, '\t') && Free(b, '\t') && Free(c, '\t') && Free(d, '\t')
    requires line == a + ['\t'] + (b + ['\t'] + (c + ['\t'] + d))
    ensures Getlines(line, '\t') == [a] + ([b] + ([c] + (if d == "" then [] else [d])))
  {
    var t3 := c + ['\t'] + d;
    var t2 := b + ['\t'] + t3;
    var ts := if d == "" then [] else [d];
    GetlinesLast(d, '\t');
    ConsTokens(c, d, ts);
    ConsTokens(b, t3, [c] + ts);
    ConsTokens(a, t2, [b] + ([c] + ts));
  }

  lemma ParseLineRoundTrip(u: User)
    requires u.id >= 0 && CleanUser(u)
    ensures ParseLine(Line(u)) == Some(u)
  {
    DecimalClean(u.id);
    StoiDecimal(u.id);
    LineTokens(Decimal(u.id), u.username, u.password, u.phone, Line(u));
  }

  lemma LineClean(u: User)
    requires u.id >= 0 && CleanUser(u)
    ensures Free(Line(u), '\n')
  {
    DecimalClean(u.id);
  }

  function InsertAll(d: Users, us: seq<User>): Users
    decreases |us|
  {
    if us == [] then d else InsertAll(Insert(d, us[0]), us[1..])
  }

  predicate CleanUsers(us: seq<User>) {
    forall k :: 0 <= k < |us| ==> us[k].id >= 0 && CleanUser(us[k])
  }

  function Lines(us: seq<User>): (r: seq<string>)
    requires forall k :: 0 <= k < |us| ==> us[k].id >= 0
    ensures |r| == |us| && forall k :: 0 <= k < |r| ==> r[k] == Line(us[k])
  {
    seq(|us|, i requires 0 <= i < |us| => Line(us[i]))
  }

  lemma {:induction false} FileLines(us: seq<User>)
    requires CleanUsers(us)
    ensures Getlines(FileText(us), '\n') == Lines(us)
  {
    if us != [] {
      var line, rest := Line(us[0]), us[1..];
      assert CleanUsers(rest);
      LineClean(us[0]);
      FileLines(rest);
      GetlinesCons(line, '\n', FileText(rest));
      assert Lines(us) == [line] + Lines(rest);
    }
  }

  lemma {:induction false} LoadInserts(d: Users, us: seq<User>)
    requires CleanUsers(us)
    ensures LoadLines(d, Lines(us)) == Some(InsertAll(d, us))
    decreases |us|
  {
    if us != [] {
      ParseLineRoundTrip(us[0]);
      LoadInserts(Insert(d, us[0]), us[1..]);
      assert Lines(us)[1..] == Lines(us[1..]);
    }
  }

  /** `order` names every user of the table, and nobody else. */
  ghost predicate Covers(order: seq<string>, byName: map<string, User>) {
    && (forall k :: 0 <= k < |order| ==> order[k] in byName)
    && (forall n :: n in byName ==> exists k :: 0 <= k < |order| && order[k] == n)
  }

  /** e holds some of the users of d, and its next id is one above the largest of theirs. */
  ghost predicate PartOf(e: Users, d: Users) {
    && (forall n :: n in e.byName ==> n in d.byName && e.byName[n] == d.byName[n])
    && (forall i :: i in e.byId ==> i in d.byId && e.byId[i] == d.byId[i] && i < e.nextId)
    && 1 <= e.nextId && (e.nextId == 1 || e.nextId - 1 in e.byId)
  }

  lemma {:induction false} InsertAllPart(e: Users, us: seq<User>, d: Users)
    requires PartOf(e, d)
    requires forall k :: 0 <= k < |us| ==> us[k].id >= 1 && Holds(d.byId, us[k]) && Named(d.byName, us[k])
    ensures PartOf(InsertAll(e, us), d)
    ensures e.byName.Keys <= InsertAll(e, us).byName.Keys && e.byId.Keys <= InsertAll(e, us).byId.Keys
    ensures forall k :: 0 <= k < |us| ==>
              us[k].username in InsertAll(e, us).byName && us[k].id in InsertAll(e, us).byId
    decreases |us|
  {
    if us != [] {
      var u := us[0];
      assert Holds(d.byId, u) && Named(d.byName, u);
      var e1 := Insert(e, u);
      InsertAllPart(e1, us[1..], d);
      assert u.username in e1.byName.Keys && u.id in e1.byId.Keys;
      forall k | 0 <= k < |us|
        ensures us[k].username in InsertAll(e, us).byName && us[k].id in InsertAll(e, us).byId
      {
        if k > 0 { assert us[k] == us[1..][k - 1]; }
      }
    }
  }

  lemma PartIsWhole(e: Users, d: Users)
    requires Consistent(d) && PartOf(e, d)
    requires forall n :: n in d.byName ==> n in e.byName
    requires forall i :: i in d.byId ==> i in e.byId
    ensures e == d
  {
    assert e.byName == d.byName;
    assert forall i :: i in e.byId <==> i in d.byId;
    assert e.byId.Keys == d.byId.Keys;
    forall i: int | i in d.byId ensures e.byId[i] == d.byId[i] {}
    assert e.byId == d.byId;
    if e.nextId > 1 { ConsistentAt(d, e.nextId - 1); }
    assert d.nextId == 1 || d.nextId - 1 in e.byId;
    assert e.nextId == d.nextId;
  }

  lemma RebuildsUser(d: Users, order: seq<string>, e: Users, u: User)
    requires Covers(order, d.byName) && Named(d.byName, u)
    requires forall k :: 0 <= k < |order| ==>
               d.byName[order[k]].username in e.byName && d.byName[order[k]].id in e.byId
    ensures u.username in e.byName && u.id in e.byId
  {
    var k :| 0 <= k < |order| && order[k] == u.username;
  }

  /** Reading back every user of a consistent table rebuilds the table and its next id. */
  lemma InsertRebuilds(d: Users, order: seq<string>)
    requires Consistent(d) && Covers(order, d.byName)
    ensures InsertAll(EMPTY, Listed(d.byName, order)) == d
  {
    var us := Listed(d.byName, order);
    forall k | 0 <= k < |us| ensures us[k].id >= 1 && Holds(d.byId, us[k]) && Named(d.byName, us[k]) {
      NameAt(d, order[k]);
    }
    InsertAllPart(EMPTY, us, d);
    var e := InsertAll(EMPTY, us);
    assert forall k :: 0 <= k < |order| ==> us[k].username in e.byName && us[k].id in e.byId;
    hide InsertAll, Listed;
    forall n | n in d.byName ensures n in e.byName {
      NameAt(d, n);
      RebuildsUser(d, order, e, d.byName[n]);
    }
    forall i | i in d.byId ensures i in e.byId {
      ConsistentAt(d, i);
      RebuildsUser(d, order, e, d.byId[i]);
    }
    PartIsWhole(e, d);
  }

  lemma NameAt(d: Users, n: string)
    requires Consistent(d) && n in d.byName
    ensures d.byName[n].username == n && Holds(d.byId, d.byName[n]) && d.byName[n].id >= 1
  {
    ConsistentAt(d, d.byName[n].id);
  }

  lemma {:induction false} LoadedClean(d: Users, lines: seq<string>)
    requires forall n :: n in d.byName ==> CleanUser(d.byName[n])
    requires forall k :: 0 <= k < |lines| ==> Free(lines[k], '\n')
    requires LoadLines(d, lines).Some?
    ensures forall n :: n in LoadLines(d, lines).value.byName ==> CleanUser(LoadLines(d, lines).value.byName[n])
    decreases |lines|
  {
    if lines != [] {
      ParsedClean(lines[0]);
      LoadedClean(Insert(d, ParseLine(lines[0]).value), lines[1..]);
    }
  }

  lemma ParsedClean(line: string)
    requires Free(line, '\n') && ParseLine(line).Some?
    ensures CleanUser(ParseLine(line).value)
  {
    var t := Getlines(line, '\t');
    forall k: nat | k < |t| ensures CleanText(t[k]) { GetlinesFree(line, '\t', k); }
  }

  /**
   The file written from a consistent table, in any order, loads back to exactly
   that table and its next id if and only if no field holds a tab or a newline.
   */
  lemma RestoresIffClean(d: Users, order: seq<string>)
    requires Consistent(d) && Covers(order, d.byName)
    requires forall k :: 0 <= k < |order| ==> d.byName[order[k]].id >= 0
    ensures Load(FileText(Listed(d.byName, order))) == Some(d)
       <==> forall n :: n in d.byName ==> CleanUser(d.byName[n])
  {
    var us := Listed(d.byName, order);
    if forall n :: n in d.byName ==> CleanUser(d.byName[n]) {
      assert CleanUsers(us);
      FileLines(us);
      LoadInserts(EMPTY, us);
      InsertRebuilds(d, order);
    }
    var lines := Getlines(FileText(us), '\n');
    if LoadLines(EMPTY, lines) == Some(d) {
      forall k: nat | k < |lines| ensures Free(lines[k], '\n') { GetlinesFree(FileText(us), '\n', k); }
      LoadedClean(EMPTY, lines);
    }
  }

  /**
   A restart right after a registration: the file that registration wrote holds
   the table before it, and the next user to register gets the id it handed out.
   */
  lemma RestartReusesId(d: Users, order: seq<string>, name: string, password: string, phone: string,
                        name': string, password': string, phone': string)
    requires Consistent(d) && Covers(order, d.byName) && forall n :: n in d.byName ==> CleanUser(d.byName[n])
    requires forall k :: 0 <= k < |order| ==> d.byName[order[k]].id >= 0
    requires Register(d, name, password, phone).1.Some?
    ensures var loaded := Load(FileText(Listed(d.byName, order)));
            && loaded == Some(d) && name !in loaded.value.byName
            && (name' != "" && password' != "" && name' !in d.byName ==>
                  Register(loaded.value, name', password', phone').1 == Register(d, name, password, phone).1)
  {
    RestoresIffClean(d, order);
  }

  /** The line of a user: id, name, password, phone. */
  lemma LineExample()
    ensures Line(User(7, "ann", "x", "55")) == "7\tann\tx\t55"
    ensures FileText([User(7, "ann", "x", "55")]) == "7\tann\tx\t55\n"
  {
    assert Decimal(7) == "7";
    var us := [User(7, "ann", "x", "55")];
    assert us[1..] == [];
  }
}
