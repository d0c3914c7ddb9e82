// The connection manager: one map from connection ids, one from users and platforms, which must agree.
module Connections {
  import opened Options

  // ---------- The manager as a value ----------

  // The sessions of the live connections, and the connection bound to each user and platform.
  datatype Registry = Registry(sessions: map<int, (int, string)>, bound: map<(int, string), int>)

  datatype Op =
    | Add(conn: int)
    | BindSession(conn: int, user: int, platform: string)
    | BindUser(conn: int, user: int, platform: string)
    | Remove(conn: int)

  const Unbound := (0, "")

  // A session counts only with a positive user id and a platform.
  predicate IsBound(session: (int, string)) {
    session.0 > 0 && session.1 != ""
  }

  function Step(r: Registry, op: Op): Registry {
    match op
    case Add(c) => r.(sessions := r.sessions[c := Unbound])
    case BindSession(c, u, p) => if c in r.sessions then r.(sessions := r.sessions[c := (u, p)]) else r
    case BindUser(c, u, p) => if c in r.sessions then r.(bound := r.bound[(u, p) := c]) else r
    case Remove(c) =>
      if c !in r.sessions then r
      else
        var s := r.sessions[c];
        var owns := IsBound(s) && s in r.bound && r.bound[s] == c;
        Registry(r.sessions - {c}, if owns then r.bound - {s} else r.bound)
  }

  // Removing a connection without a user or a platform gives up no binding.
  lemma UnboundRemovesNothing(r: Registry, c: int)
    requires c in r.sessions ==> r.sessions[c].0 <= 0 || r.sessions[c].1 == ""
    ensures Step(r, Remove(c)).bound == r.bound
  {
  }

  class Connection {
    const id: int
    var userID: int
    var platform: string

    constructor (id: int)
      ensures this.id == id && (userID, platform) == Unbound
    {
      this.id, userID, platform := id, 0, "";
    }

    function Session(): (int, string)
      reads this
    {
      (userID, platform)
    }

    method BindSession(user: int, platform: string)
      modifies this
      ensures Session() == (user, platform)
    {
      userID := user;
      this.platform := platform;
    }
  }

  // The nested map of users and platforms as one map.
  ghost function Flat(userConns: map<int, map<string, Connection>>): map<(int, string), int> {
    map u, p | u in userConns && p in userConns[u] :: (u, p) := userConns[u][p].id
  }

  function Platforms(userConns: map<int, map<string, Connection>>, user: int): map<string, Connection> {
    if user in userConns then userConns[user] else map[]
  }

  // No user has an empty map of platforms.
  ghost predicate NoneEmpty(userConns: map<int, map<string, Connection>>) {
    forall u :: u in userConns ==> userConns[u] != map[]
  }

  lemma PutLeavesNoneEmpty(userConns: map<int, map<string, Connection>>, u: int, p: string, conn: Connection)
    requires NoneEmpty(userConns)
    ensures NoneEmpty(userConns[u := Platforms(userConns, u)[p := conn]])
  {
    assert p in Platforms(userConns, u)[p := conn];
  }

  lemma DeleteLeavesNoneEmpty(userConns: map<int, map<string, Connection>>, u: int, p: string)
    requires NoneEmpty(userConns) && u in userConns
    ensures NoneEmpty(userConns - {u})
    ensures userConns[u] - {p} != map[] ==> NoneEmpty(userConns[u := userConns[u] - {p}])
  {
  }

  lemma SameMap(l: map<(int, string), int>, r: map<(int, string), int>)
    requires forall k :: k in l <==> k in r
    requires forall k :: k in l && k in r ==> l[k] == r[k]
    ensures l == r
  {
  }

  lemma FlatPut(userConns: map<int, map<string, Connection>>, u: int, p: string, conn: Connection)
    ensures Flat(userConns[u := Platforms(userConns, u)[p := conn]]) == Flat(userConns)[(u, p) := conn.id]
  {
    var m := userConns[u := Platforms(userConns, u)[p := conn]];
    var l, r := Flat(m), Flat(userConns)[(u, p) := conn.id];
    hide Flat;
    forall k: (int, string)
      ensures (k in l <==> k in r) && (k in l && k in r ==> l[k] == r[k])
    {
      FlatAt(m, k.0, k.1);
      FlatAt(userConns, k.0, k.1);
    }
    SameMap(l, r);
  }

  // Taking one platform away, and the user with the last one.
  lemma FlatDelete(userConns: map<int, map<string, Connection>>, u: int, p: string)
    requires u in userConns
    ensures Flat(userConns[u := userConns[u] - {p}]) == Flat(userConns) - {(u, p)}
  {
    var m := userConns[u := userConns[u] - {p}];
    var l, r := Flat(m), Flat(userConns) - {(u, p)};
    hide Flat;
    forall k: (int, string)
      ensures (k in l <==> k in r) && (k in l && k in r ==> l[k] == r[k])
    {
      FlatAt(m, k.0, k.1);
      FlatAt(userConns, k.0, k.1);
    }
    SameMap(l, r);
  }

  // A user with an empty map counts for nothing.
  lemma FlatEmpty(userConns: map<int, map<string, Connection>>, u: int)
    ensures Flat(userConns[u := map[]]) == Flat(userConns - {u})
  {
    var l, r := Flat(userConns[u := map[]]), Flat(userConns - {u});
    hide Flat;
    forall k: (int, string)
      ensures (k in l <==> k in r) && (k in l && k in r ==> l[k] == r[k])
    {
      FlatAt(userConns[u := map[]], k.0, k.1);
      FlatAt(userConns - {u}, k.0, k.1);
    }
    SameMap(l, r);
  }

  lemma FlatDeleteLast(userConns: map<int, map<string, Connection>>, u: int, p: string)
    requires u in userConns && userConns[u] - {p} == map[]
    ensures Flat(userConns - {u}) == Flat(userConns) - {(u, p)}
  {
    FlatDelete(userConns, u, p);
    FlatEmpty(userConns, u);
  }

  function SessionsOf(connections: map<int, Connection>): map<int, (int, string)>
    reads connections.Values
  {
    map c | c in connections :: connections[c].Session()
  }

  lemma SessionsPut(connections: map<int, Connection>, c: int, conn: Connection)
    ensures SessionsOf(connections[c := conn]) == SessionsOf(connections)[c := conn.Session()]
  {
  }

  lemma SessionsDelete(connections: map<int, Connection>, c: int)
    ensures SessionsOf(connections - {c}) == SessionsOf(connections) - {c}
  {
  }

  class Manager {
    var connections: map<int, Connection>
    var userConns: map<int, map<string, Connection>>

    // Ids and objects agree, and no user keeps an empty map of platforms.
    ghost predicate Valid()
      reads this
    {
      (forall c :: c in connections ==> connections[c].id == c) && NoneEmpty(userConns)
    }

    ghost function View(): Registry
      reads this, connections.Values
    {
      Registry(SessionsOf(connections), Flat(userConns))
    }

    constructor ()
      ensures Valid() && View() == Registry(map[], map[])
    {
      connections, userConns := map[], map[];
    }

    method Add(conn: Connection)
      requires Valid()
      modifies this`connections
      ensures Valid() && connections == old(connections)[conn.id := conn]
      ensures View() == old(View()).(sessions := old(View()).sessions[conn.id := conn.Session()])
      ensures conn.Session() == Unbound ==> View() == Step(old(View()), Op.Add(conn.id))
    {
      hide Flat;
      SessionsPut(connections, conn.id, conn);
      connections := connections[conn.id := conn];
    }

    method Remove(connID: int)
      requires Valid()
      modifies this
      ensures Valid() && connections == old(connections) - {connID}
      ensures View() == Step(old(View()), Op.Remove(connID))
    {
      hide SessionsOf, Flat;
      SessionsDelete(connections, connID);
      SessionAt(connections, connID);
      if connID !in connections {
        assert connections == connections - {connID};
        return;
      }
      var conn := connections[connID];
      connections := connections - {connID};
      if conn.userID > 0 && conn.platform != "" {
        Unbind(conn.userID, conn.platform, connID);
      }
    }

    // The part of Remove that gives up the binding, if it is still this connection's.
    method Unbind(user: int, platform: string, connID: int)
      requires Valid()
      modifies this`userConns
      ensures Valid()
      ensures var before := old(Flat(userConns));
        Flat(userConns) ==
          if (user, platform) in before && before[(user, platform)] == connID then before - {(user, platform)}
          else before
    {
      FlatAt(userConns, user, platform);
      hide Flat, NoneEmpty;
      if user in userConns {
        FlatDelete(userConns, user, platform);
        DeleteLeavesNoneEmpty(userConns, user, platform);
        var platforms := userConns[user];
        if platform in platforms && platforms[platform].id == connID {
          platforms := platforms - {platform};
          if |platforms| == 0 {
            FlatDeleteLast(userConns, user, platform);
            userConns := userConns - {user};
          } else {
            userConns := userConns[user := platforms];
          }
        }
      }
    }

    // BindUser: the connection that was bound before is returned for the caller to close.
    method BindUser(connID: int, user: int, platform: string) returns (before: Connection?)
      requires Valid()
      modifies this`userConns
      ensures Valid()
      ensures View() == Step(old(View()), Op.BindUser(connID, user, platform))
      ensures before == null <==> connID !in old(connections) || (user, platform) !in old(View()).bound
      ensures before != null ==> before.id == old(View()).bound[(user, platform)]
    {
      hide SessionsOf, Flat, NoneEmpty, Platforms;
      SessionAt(connections, connID);
      PlatformAt(userConns, user, platform);
      if connID !in connections {
        return null;
      }
      var conn, platforms := connections[connID], Platforms(userConns, user);
      FlatPut(userConns, user, platform, conn);
      PutLeavesNoneEmpty(userConns, user, platform, conn);
      before := if platform in platforms then platforms[platform] else null;
      userConns := userConns[user := platforms[platform := conn]];
    }

    method GetByUserIDAndPlatform(user: int, platform: string) returns (conn: Connection?)
      ensures conn == null <==> (user, platform) !in View().bound
      ensures conn != null ==> conn.id == View().bound[(user, platform)]
    {
      if user !in userConns {
        return null;
      }
      if platform !in userConns[user] {
        return null;
      }
      return userConns[user][platform];
    }

    // GetByUserID: the connections of all of the user's platforms, one for each.
    method GetByUserID(user: int) returns (conns: seq<Connection>)
      ensures forall p :: p in Platforms(userConns, user) ==> Platforms(userConns, user)[p] in conns
      ensures forall conn :: conn in conns ==> conn in Platforms(userConns, user).Values
      ensures |conns| == |Platforms(userConns, user)|
    {
      conns := [];
      if user !in userConns {
        return;
      }
      var platforms := userConns[user];
      var left := platforms.Keys;
      while left != {}
        invariant left <= platforms.Keys && |conns| + |left| == |platforms|
        invariant forall p :: p in platforms && p !in left ==> platforms[p] in conns
        invariant forall conn :: conn in conns ==> conn in platforms.Values
        decreases left
      {
        var p :| p in left;
        left := left - {p};
        conns := conns + [platforms[p]];
      }
    }
  }

  lemma SessionAt(connections: map<int, Connection>, c: int)
    ensures c in SessionsOf(connections) <==> c in connections
    ensures c in connections ==> SessionsOf(connections)[c] == connections[c].Session()
  {
  }

  lemma PlatformAt(userConns: map<int, map<string, Connection>>, u: int, p: string)
    ensures (u, p) in Flat(userConns) <==> p in Platforms(userConns, u)
    ensures (u, p) in Flat(userConns) ==> Flat(userConns)[(u, p)] == Platforms(userConns, u)[p].id
  {
  }

  lemma FlatAt(userConns: map<int, map<string, Connection>>, u: int, p: string)
    ensures (u, p) in Flat(userConns) <==> u in userConns && p in userConns[u]
    ensures (u, p) in Flat(userConns) ==> Flat(userConns)[(u, p)] == userConns[u][p].id
  {
  }

  // ---------- Histories ----------

  ghost function After(history: seq<Op>): Registry {
    if history == [] then Registry(map[], map[])
    else Step(After(history[..|history| - 1]), history[|history| - 1])
  }

  predicate Added(history: seq<Op>, c: int) {
    exists i :: 0 <= i < |history| && history[i] == Add(c)
  }

  predicate Removed(history: seq<Op>, c: int) {
    exists i :: 0 <= i < |history| && history[i] == Remove(c)
  }

  predicate Live(history: seq<Op>, c: int) {
    Added(history, c) && !Removed(history, c)
  }

  // What the server's code does: ids are fresh, a connection authenticates once, with a positive user id
  // and a platform, and is bound to the user and platform of its session; it is removed after it was added.
  ghost predicate Disciplined(history: seq<Op>) {
    forall i :: 0 <= i < |history| ==> Proper(history[..i], history[i])
  }

  ghost predicate Proper(before: seq<Op>, op: Op) {
    match op
    case Add(c) => !Added(before, c) && !Removed(before, c)
    case BindSession(c, u, p) =>
      u > 0 && p != "" && Added(before, c) && forall u', p' :: BindSession(c, u', p') !in before
    case BindUser(c, u, p) => BindSession(c, u, p) in before
    case Remove(c) => Added(before, c)
  }

  // The last connection that was bound, while it was live, to the user and platform.
  function LastBound(history: seq<Op>, user: int, platform: string): Option<int> {
    if history == [] then None
    else
      var before, last := history[..|history| - 1], history[|history| - 1];
      if last.BindUser? && last.user == user && last.platform == platform && Live(before, last.conn) then
        Some(last.conn)
      else LastBound(before, user, platform)
  }

  lemma {:induction false} LiveStep(before: seq<Op>, op: Op, c: int)
    ensures Added(before + [op], c) <==> Added(before, c) || op == Add(c)
    ensures Removed(before + [op], c) <==> Removed(before, c) || op == Remove(c)
  {
    var h := before + [op];
    assert h[|before|] == op;
    if i :| 0 <= i < |before| && before[i] == Add(c) {
      assert h[i] == Add(c);
    }
    if i :| 0 <= i < |before| && before[i] == Remove(c) {
      assert h[i] == Remove(c);
    }
  }

  // ---------- The maps agree with the history ----------

  // The live connections are those with a session, and each has the session it was bound with.
  ghost predicate SessionsFaithful(history: seq<Op>, r: Registry) {
    (forall c :: c in r.sessions <==> Live(history, c)) &&
    forall i :: 0 <= i < |history| && history[i].BindSession? ==> SessionFaithful(history, r, history[i])
  }

  ghost predicate SessionFaithful(history: seq<Op>, r: Registry, op: Op)
    requires op.BindSession?
  {
    op.user > 0 && op.platform != "" && Added(history, op.conn) &&
    (op.conn in r.sessions ==> r.sessions[op.conn] == (op.user, op.platform))
  }

  // A pair of user and platform is bound exactly to the last connection bound to it, while that one lives.
  ghost predicate BoundFaithful(history: seq<Op>, r: Registry, user: int, platform: string) {
    var last := LastBound(history, user, platform);
    if last.Some? && Live(history, last.value) then
      (user, platform) in r.bound && r.bound[(user, platform)] == last.value
    else (user, platform) !in r.bound
  }

  lemma AppendLast(history: seq<Op>)
    requires history != []
    ensures history == history[..|history| - 1] + [history[|history| - 1]]
  {
  }

  lemma DisciplinedPrefix(history: seq<Op>)
    requires history != [] && Disciplined(history)
    ensures Disciplined(history[..|history| - 1]) && Proper(history[..|history| - 1], history[|history| - 1])
  {
    var before := history[..|history| - 1];
    forall i | 0 <= i < |before|
      ensures Proper(before[..i], before[i])
    {
      assert history[..i] == before[..i];
      assert Proper(history[..i], history[i]);
    }
    assert Proper(history[..|before|], history[|before|]);
  }

  lemma {:induction false} SessionsAre(history: seq<Op>)
    requires Disciplined(history)
    ensures SessionsFaithful(history, After(history))
  {
    if history != [] {
      var before, op := history[..|history| - 1], history[|history| - 1];
      AppendLast(history);
      DisciplinedPrefix(history);
      SessionsAre(before);
      SessionsStep(before, After(before), op);
    }
  }

  lemma SessionsStep(before: seq<Op>, r: Registry, op: Op)
    requires SessionsFaithful(before, r) && Proper(before, op)
    ensures SessionsFaithful(before + [op], Step(r, op))
  {
    var h, next := before + [op], Step(r, op);
    forall c
      ensures c in next.sessions <==> Live(h, c)
    {
      LiveStep(before, op, c);
    }
    forall i | 0 <= i < |h| && h[i].BindSession?
      ensures SessionFaithful(h, next, h[i])
    {
      LiveStep(before, op, h[i].conn);
      if i < |before| {
        assert h[i] == before[i] && before[i] in before;
        assert SessionFaithful(before, r, before[i]);
      }
    }
  }

  // The last connection bound to a pair was added and has its session for that pair.
  lemma {:induction false} LastBoundHasSession(history: seq<Op>, user: int, platform: string)
    requires Disciplined(history)
    ensures var last := LastBound(history, user, platform);
      last.Some? ==> Added(history, last.value) && BindSession(last.value, user, platform) in history
  {
    if history != [] {
      var before, op := history[..|history| - 1], history[|history| - 1];
      AppendLast(history);
      DisciplinedPrefix(history);
      LastBoundHasSession(before, user, platform);
      var last := LastBound(history, user, platform);
      if last.Some? {
        LiveStep(before, op, last.value);
      }
    }
  }

  // GetByUserIDAndPlatform after any disciplined history: the last connection bound to the pair, if it
  // has not been removed, and nothing otherwise. So removing a connection that has been replaced never
  // unbinds its replacement, and a replaced connection never comes back.
  lemma {:induction false} BoundIsLastLive(history: seq<Op>, user: int, platform: string)
    requires Disciplined(history)
    ensures BoundFaithful(history, After(history), user, platform)
  {
    if history != [] {
      var before, op := history[..|history| - 1], history[|history| - 1];
      AppendLast(history);
      DisciplinedPrefix(history);
      BoundIsLastLive(before, user, platform);
      SessionsAre(before);
      LastBoundHasSession(before, user, platform);
      BoundStep(before, After(before), op, user, platform);
    }
  }

  lemma LastBoundStep(before: seq<Op>, op: Op, user: int, platform: string)
    ensures LastBound(before + [op], user, platform) ==
      if op.BindUser? && op.user == user && op.platform == platform && Live(before, op.conn) then Some(op.conn)
      else LastBound(before, user, platform)
  {
    assert (before + [op])[..|before|] == before;
  }

  lemma BoundStep(before: seq<Op>, r: Registry, op: Op, user: int, platform: string)
    requires BoundFaithful(before, r, user, platform) && SessionsFaithful(before, r) && Proper(before, op)
    requires var last := LastBound(before, user, platform);
      last.Some? ==> Added(before, last.value) && BindSession(last.value, user, platform) in before
    ensures BoundFaithful(before + [op], Step(r, op), user, platform)
  {
    LastBoundStep(before, op, user, platform);
    var last, next := LastBound(before, user, platform), LastBound(before + [op], user, platform);
    if next.Some? {
      LiveStep(before, op, next.value);
    }
    if last.Some? {
      LiveStep(before, op, last.value);
      assert SessionFaithful(before, r, BindSession(last.value, user, platform));
    }
    hide Added, Removed, LastBound;
  }
}
