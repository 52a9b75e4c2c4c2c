/**
 The user table of the server in memory mode: `g_users_by_name`,
 `g_users_by_id` and `g_next_user_id`.
 */
module Directory {
  import opened Wrappers

  datatype User = User(id: int, username: string, password: string, phone: string)

  datatype Users = Users(byName: map<string, User>, byId: map<int, User>, nextId: int)

  const EMPTY := Users(map[], map[], 1)

  /** REGISTER, up to the session: refused for an empty or taken name or an empty password. */
  function Register(d: Users, name: string, password: string, phone: string): (r: (Users, Option<int>)) {
    if name == "" || password == "" || name in d.byName then (d, None)
    else
      var u := User(d.nextId, name, password, phone);
      (Users(d.byName[name := u], d.byId[d.nextId := u], d.nextId + 1), Some(d.nextId))
  }

  /** The two indexes are inverse bijections, and the next id is one above the largest id in use. */
  ghost predicate Consistent(d: Users) {
    && d.nextId >= 1
    && (forall n :: n in d.byName ==> d.byName[n].username == n && Holds(d.byId, d.byName[n]))
    && (forall i :: i in d.byId ==> d.byId[i].id == i && 1 <= i < d.nextId && Named(d.byName, d.byId[i]))
    && (d.nextId == 1 || d.nextId - 1 in d.byId)
  }

  predicate Holds(byId: map<int, User>, u: User) {
    u.id in byId && byId[u.id] == u
  }

  predicate Named(byName: map<string, User>, u: User) {
    u.username in byName && byName[u.username] == u
  }

  lemma ConsistentAt(d: Users, i: int)
    requires Consistent(d) && i in d.byId
    ensures d.byId[i].id == i && 1 <= i < d.nextId && Named(d.byName, d.byId[i])
  {}

  /**
   A registration is refused exactly for an empty name or password or a taken name;
   it keeps the indexes a bijection, hands out an id never used before and
   adds exactly one user.
   */
  lemma RegisterConsistent(d: Users, name: string, password: string, phone: string)
    requires Consistent(d)
    ensures var (d', uid) := Register(d, name, password, phone);
            && Consistent(d')
            && (uid.None? <==> name == "" || password == "" || name in d.byName)
            && (uid.None? ==> d' == d)
            && (uid.Some? ==>
                  && uid.value !in d.byId
                  && d'.byId.Keys == d.byId.Keys + {uid.value}
                  && d'.byName.Keys == d.byName.Keys + {name}
                  && Named(d'.byName, User(uid.value, name, password, phone))
                  && (forall n :: n in d.byName ==> n in d'.byName && d'.byName[n] == d.byName[n]))
  {
    var (d', uid) := Register(d, name, password, phone);
    if uid.Some? {
      forall n | n in d'.byName ensures d'.byName[n].username == n && Holds(d'.byId, d'.byName[n]) {
        if n != name { assert Holds(d.byId, d.byName[n]); }
      }
      forall i | i in d'.byId ensures d'.byId[i].id == i && 1 <= i < d'.nextId && Named(d'.byName, d'.byId[i]) {
        if i != uid.value { assert Named(d.byName, d.byId[i]); }
      }
    }
  }
}
