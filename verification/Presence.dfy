/** Who is where: the child table and the user tables of the rooms, as src/server.c, src/room.c and
    the room requests of src/server_reqs.c keep them. */
module Presence {
  import opened Guard
  import opened Wrappers

  type Pid = int

  /** `placed` is history: the user has been put into the table of `room`. */
  datatype Child = Child(user: Option<string>, room: int, placed: bool)

  type UserTable = map<string, Pid>

  /** A user is in a room's table exactly when a child of that name has been placed there. */
  ghost predicate Present(children: map<Pid, Child>, tables: map<int, UserTable>) {
    forall n: nat {:trigger Opened(n)} :: Opened(n) ==>
      && (forall r, u :: r in tables && u in tables[r] ==> IsIn(children, tables[r][u], u, r))
      && (forall p :: p in children && children[p].placed ==> IsListed(tables, p, children[p]))
  }

  ghost predicate IsIn(children: map<Pid, Child>, p: Pid, u: string, r: int) {
    p in children && children[p] == Child(Some(u), r, true)
  }

  ghost predicate IsListed(tables: map<int, UserTable>, p: Pid, c: Child) {
    c.user.Some? && c.room in tables && c.user.value in tables[c.room] && tables[c.room][c.user.value] == p
  }

  /** No two live connections are logged in under the same name. */
  ghost predicate OnePerName(children: map<Pid, Child>) {
    forall n: nat {:trigger Opened(n)} :: Opened(n) ==>
      forall p, q :: p in children && q in children && children[p].user.Some? && children[p].user == children[q].user ==> p == q
  }

  /** A live child of that name has been placed in the room. */
  ghost predicate LivesIn(children: map<Pid, Child>, r: int, u: string) {
    exists p :: p in children && children[p] == Child(Some(u), r, true)
  }

  /** The promise in full, for one room and one name. */
  lemma PresentMeans(children: map<Pid, Child>, tables: map<int, UserTable>, r: int, u: string)
    requires Present(children, tables) && r in tables
    ensures u in tables[r] <==> LivesIn(children, r, u)
  {
    assert Opened(0);
    if u in tables[r] {
      assert IsIn(children, tables[r][u], u, r);
    }
    if p :| p in children && children[p] == Child(Some(u), r, true) {
      assert IsListed(tables, p, children[p]);
    }
  }

  lemma PresentEverywhere(children: map<Pid, Child>, tables: map<int, UserTable>)
    requires Present(children, tables)
    ensures forall r, u :: r in tables ==> (u in tables[r] <==> LivesIn(children, r, u))
  {
    forall r, u | r in tables ensures u in tables[r] <==> LivesIn(children, r, u) {
      PresentMeans(children, tables, r, u);
    }
  }

  lemma TablesAre(children: map<Pid, Child>, tables: map<int, UserTable>)
    requires Present(children, tables)
    ensures forall r, u :: r in tables && u in tables[r] ==> tables[r][u] in children && children[tables[r][u]] == Child(Some(u), r, true)
    ensures forall p :: p in children && children[p].placed ==>
              var c := children[p]; c.user.Some? && c.room in tables && c.user.value in tables[c.room] && tables[c.room][c.user.value] == p
  {
    assert Opened(0);
    forall r, u | r in tables && u in tables[r] ensures tables[r][u] in children && children[tables[r][u]] == Child(Some(u), r, true) {
      assert IsIn(children, tables[r][u], u, r);
    }
    forall p | p in children && children[p].placed
      ensures var c := children[p]; c.user.Some? && c.room in tables && c.user.value in tables[c.room] && tables[c.room][c.user.value] == p
    {
      assert IsListed(tables, p, children[p]);
    }
  }

  function Insert(t: UserTable, u: string, p: Pid): UserTable {
    if u in t then t else t[u := p]
  }

  lemma Placed(children: map<Pid, Child>, tables: map<int, UserTable>, p: Pid, r: int)
    requires Present(children, tables) && OnePerName(children) && p in children && r in tables && !children[p].placed
    ensures children[p].user.Some? ==>
              var u := children[p].user.value;
              && u !in tables[r]
              && Present(children[p := Child(Some(u), r, true)], tables[r := Insert(tables[r], u, p)])
              && OnePerName(children[p := Child(Some(u), r, true)])
    ensures children[p].user.None? ==>
              Present(children[p := children[p].(room := r)], tables) && OnePerName(children[p := children[p].(room := r)])
  {
    assert Opened(0);
    if children[p].user.Some? {
      var u := children[p].user.value;
      assert u in tables[r] ==> IsIn(children, tables[r][u], u, r);
    }
  }

  lemma Removed(children: map<Pid, Child>, tables: map<int, UserTable>, p: Pid)
    requires Present(children, tables) && OnePerName(children) && p in children && children[p].room in tables
    ensures var c := children[p];
            var t := if c.user.Some? then tables[c.room := tables[c.room] - {c.user.value}] else tables;
            && Present(children[p := c.(placed := false)], t) && OnePerName(children[p := c.(placed := false)])
            && Present(children - {p}, t) && OnePerName(children - {p})
  {
    assert Opened(0);
  }

  /** child_set_room does not take a user out of the room before: for a child that is placed
      already the tables stay right exactly when the room is the same. */
  lemma SecondPlacement(children: map<Pid, Child>, tables: map<int, UserTable>, p: Pid, r: int)
    requires Present(children, tables) && OnePerName(children) && p in children && children[p].placed && r in tables
    requires children[p].user.Some?
    ensures Present(children[p := children[p].(room := r)], tables[r := Insert(tables[r], children[p].user.value, p)])
            <==> r == children[p].room
  {
    assert Opened(0);
    var c := children[p];
    assert IsListed(tables, p, c);
    var after, u := children[p := c.(room := r)], c.user.value;
    if r == c.room {
      assert after == children && tables[r := Insert(tables[r], u, p)] == tables;
    } else if Present(after, tables[r := Insert(tables[r], u, p)]) {
      PresentMeans(after, tables[r := Insert(tables[r], u, p)], c.room, u);
    }
  }

  lemma PlacedHasName(children: map<Pid, Child>, tables: map<int, UserTable>, p: Pid)
    requires Present(children, tables) && p in children && children[p].placed
    ensures children[p].user.Some?
  {
    assert Opened(0);
    assert IsListed(tables, p, children[p]);
  }

  lemma SameRoom(children: map<Pid, Child>, p: Pid, r: int)
    requires p in children && children[p].placed && children[p].user.Some?
    ensures Child(children[p].user, r, children[p].user.Some?) == children[p].(room := r)
    ensures r == children[p].room ==> children[p := children[p].(room := r)] == children
  {
  }

  class Server {
    var numClients: int
    var children: map<Pid, Child>
    var tables: map<int, UserTable>

    ghost predicate Inv()
      reads this
    {
      && numClients == |children| && Present(children, tables) && OnePerName(children) && 0 in tables
      && forall p :: p in children ==> children[p].room in tables
    }

    constructor (rooms: set<int>)
      requires 0 in rooms
      ensures Inv() && children == map[] && tables.Keys == rooms
    {
      numClients, children, tables := 0, map[], map r | r in rooms :: map[];
    }

    /** new_connection_cb in the parent; the child starts out nameless, in room 0. */
    method Connect(pid: Pid)
      requires Inv() && pid !in children
      modifies this
      ensures Inv() && children == old(children)[pid := Child(None, 0, false)] && tables == old(tables)
    {
      numClients := numClients + 1;
      assert Opened(0);
      children := children[pid := Child(None, 0, false)];
    }

    /** req_change_user, for a name that no other connection uses. */
    method ChangeUser(pid: Pid, name: string)
      requires Inv() && pid in children && children[pid].user == None
      requires forall p :: p in children ==> children[p].user != Some(name)
      modifies `children
      ensures Inv() && children == old(children)[pid := old(children)[pid].(user := Some(name))]
    {
      assert Opened(0);
      children := children[pid := children[pid].(user := Some(name))];
    }

    /** room_user_add: refuses a name that is there already, and a nameless child. */
    method RoomUserAdd(room: int, pid: Pid) returns (ok: bool)
      requires pid in children && room in tables
      modifies `tables
      ensures ok == (children[pid].user.Some? && children[pid].user.value !in old(tables)[room])
      ensures tables == if children[pid].user.Some? then old(tables)[room := Insert(old(tables)[room], children[pid].user.value, pid)]
                        else old(tables)
    {
      ok := false;
      if children[pid].user.Some? {
        var u := children[pid].user.value;
        ok := u !in tables[room];
        tables := tables[room := Insert(tables[room], u, pid)];
      }
    }

    /** room_user_del */
    method RoomUserDel(room: int, pid: Pid) returns (ok: bool)
      requires pid in children && room in tables
      modifies `tables
      ensures ok == (children[pid].user.Some? && children[pid].user.value in old(tables)[room])
      ensures tables == if children[pid].user.Some? then old(tables)[room := old(tables)[room] - {children[pid].user.value}]
                        else old(tables)
    {
      ok := false;
      if children[pid].user.Some? {
        var u := children[pid].user.value;
        ok := u in tables[room];
        tables := tables[room := tables[room] - {u}];
      }
    }

    /** child_set_room: the tables stay right exactly if the child had not been placed before, or in
        the same room. */
    method SetRoom(pid: Pid, room: int)
      requires Inv() && pid in children && room in tables
      modifies `children, `tables
      ensures Inv() <==> !old(children)[pid].placed || old(children)[pid].room == room
      ensures children == old(children)[pid := Child(old(children)[pid].user, room, old(children)[pid].user.Some?)]
      ensures tables == var user := old(children)[pid].user;
                        if user.Some? then old(tables)[room := Insert(old(tables)[room], user.value, pid)] else old(tables)
    {
      if children[pid].placed {
        PlacedHasName(children, tables, pid);
        SecondPlacement(children, tables, pid, room);
        SameRoom(children, pid, room);
      } else {
        Placed(children, tables, pid, room);
      }
      children := children[pid := Child(children[pid].user, room, children[pid].user.Some?)];
      var ok := RoomUserAdd(room, pid);
    }

    /** req_move_room once the hooks have agreed: leave the old table, enter the new one. */
    method MoveRoom(pid: Pid, room: int)
      requires Inv() && pid in children && room in tables
      modifies `children, `tables
      ensures Inv() && children == old(children)[pid := Child(old(children)[pid].user, room, old(children)[pid].user.Some?)]
      ensures tables.Keys == old(tables.Keys)
    {
      Removed(children, tables, pid);
      var ok := RoomUserDel(children[pid].room, pid);
      children := children[pid := children[pid].(placed := false)];
      SetRoom(pid, room);
    }

    /** One round of the loop in handle_disconnects. */
    method Reap(pid: Pid)
      requires Inv() && pid in children
      modifies this
      ensures Inv() && children == old(children) - {pid} && tables.Keys == old(tables.Keys)
    {
      Removed(children, tables, pid);
      var ok := RoomUserDel(children[pid].room, pid);
      numClients := numClients - 1;
      assert |children - {pid}| == |children| - 1 by {
        assert (children - {pid}).Keys == children.Keys - {pid};
      }
      children := children - {pid};
    }

    /** handle_disconnects: all the processes that have ended. */
    method HandleDisconnects(pids: seq<Pid>)
      requires Inv() && (forall i :: 0 <= i < |pids| ==> pids[i] in children)
      requires forall i, j :: 0 <= i < j < |pids| ==> pids[i] != pids[j]
      modifies this
      ensures Inv() && (children == old(children) - set i | 0 <= i < |pids| :: pids[i])
      ensures tables.Keys == old(tables.Keys)
    {
      for i := 0 to |pids|
        invariant Inv() && tables.Keys == old(tables.Keys)
        invariant children == old(children) - set j | 0 <= j < i :: pids[j]
      {
        Reap(pids[i]);
      }
    }
  }

  // whole runs

  datatype Event =
    | Connected(pid: Pid) | LoggedIn(pid: Pid, name: string) | RoomSet(pid: Pid, room: int) | Moved(pid: Pid, room: int)
    | Ended(pids: seq<Pid>)

  /** One login per connection, under a name of its own; no second room without a move; no unknown
      rooms. */
  ghost predicate Legal(children: map<Pid, Child>, rooms: set<int>, e: Event) {
    match e
    case Connected(p) => p !in children
    case LoggedIn(p, n) => p in children && children[p].user == None && forall q :: q in children ==> children[q].user != Some(n)
    case RoomSet(p, r) => p in children && r in rooms && (!children[p].placed || children[p].room == r)
    case Moved(p, r) => p in children && r in rooms
    case Ended(ps) => (forall i :: 0 <= i < |ps| ==> ps[i] in children) && forall i, j :: 0 <= i < j < |ps| ==> ps[i] != ps[j]
  }

  /** Who is connected, as whom and where, after a legal event: no table takes part in this. */
  ghost function After(children: map<Pid, Child>, e: Event): map<Pid, Child> {
    match e
    case Connected(p) => children[p := Child(None, 0, false)]
    case LoggedIn(p, n) => if p in children then children[p := children[p].(user := Some(n))] else children
    case RoomSet(p, r) => if p in children then children[p := Child(children[p].user, r, children[p].user.Some?)] else children
    case Moved(p, r) => if p in children then children[p := Child(children[p].user, r, children[p].user.Some?)] else children
    case Ended(ps) => children - set i | 0 <= i < |ps| :: ps[i]
  }

  ghost function AfterAll(children: map<Pid, Child>, es: seq<Event>): map<Pid, Child> {
    if es == [] then children else After(AfterAll(children, es[..|es| - 1]), es[|es| - 1])
  }

  /** Only the child or children of the event change; a login changes the name alone, and a room is
      taken, under whatever name there is, exactly as asked. */
  lemma AfterMeans(children: map<Pid, Child>, rooms: set<int>, e: Event)
    requires Legal(children, rooms, e)
    ensures var now := After(children, e);
            && (e.Connected? ==> e.pid !in children && now.Keys == children.Keys + {e.pid} && now[e.pid] == Child(None, 0, false))
            && (e.LoggedIn? ==> e.pid in children && now.Keys == children.Keys && now[e.pid].user == Some(e.name)
                                && now[e.pid].room == children[e.pid].room && now[e.pid].placed == children[e.pid].placed)
            && (e.RoomSet? ==> e.pid in children && now.Keys == children.Keys && now[e.pid].room == e.room
                               && now[e.pid].user == children[e.pid].user && (now[e.pid].placed <==> children[e.pid].user.Some?))
            && (e.Moved? ==> e.pid in children && now.Keys == children.Keys && now[e.pid].room == e.room
                             && now[e.pid].user == children[e.pid].user && (now[e.pid].placed <==> children[e.pid].user.Some?))
            && (e.Ended? ==> forall p :: p in now <==> p in children && p !in e.pids)
            && forall p :: p in children && p in now && (e.Ended? || p != e.pid) ==> now[p] == children[p]
  {
  }

  /** A run is one event after another, from no children at all. */
  lemma RunNext(es: seq<Event>, i: nat)
    requires i < |es|
    ensures AfterAll(map[], es[..0]) == map[]
    ensures AfterAll(map[], es[..i + 1]) == After(AfterAll(map[], es[..i]), es[i])
  {
    assert es[..i + 1][..i] == es[..i];
  }

  ghost predicate LegalRun(rooms: set<int>, es: seq<Event>) {
    forall i :: 0 <= i < |es| ==> Legal(AfterAll(map[], es[..i]), rooms, es[i])
  }

  method Handle(s: Server, e: Event)
    requires s.Inv() && Legal(s.children, s.tables.Keys, e)
    modifies s
    ensures s.Inv() && s.tables.Keys == old(s.tables.Keys) && s.children == After(old(s.children), e)
    ensures e.RoomSet? || e.Moved? ==>
              s.children == old(s.children)[e.pid := Child(old(s.children)[e.pid].user, e.room, old(s.children)[e.pid].user.Some?)]
  {
    match e
    case Connected(p) => s.Connect(p);
    case LoggedIn(p, n) => s.ChangeUser(p, n);
    case RoomSet(p, r) => s.SetRoom(p, r);
    case Moved(p, r) => s.MoveRoom(p, r);
    case Ended(ps) => s.HandleDisconnects(ps);
  }

  /** In every legal run the client counter is the size of the child table, and a room's user
      table lists exactly the live children that have been placed in it, by name. */
  method Run(rooms: set<int>, es: seq<Event>) returns (s: Server)
    requires 0 in rooms && LegalRun(rooms, es)
    ensures s.children == AfterAll(map[], es) && s.tables.Keys == rooms
    ensures s.numClients == |s.children|
    ensures forall r, u :: r in rooms ==> (u in s.tables[r] <==> LivesIn(s.children, r, u))
    ensures forall r, u :: r in rooms && u in s.tables[r] ==>
              s.tables[r][u] in s.children && s.children[s.tables[r][u]] == Child(Some(u), r, true)
    ensures forall p :: p in s.children && s.children[p].placed ==>
              var c := s.children[p]; c.user.Some? && c.room in rooms && c.user.value in s.tables[c.room] && s.tables[c.room][c.user.value] == p
  {
    s := new Server(rooms);
    assert es[..0] == [];
    for i := 0 to |es|
      invariant s.Inv() && s.tables.Keys == rooms && s.children == AfterAll(map[], es[..i])
      invariant fresh(s)
    {
      Handle(s, es[i]);
      RunNext(es, i);
    }
    assert es[..|es|] == es;
    PresentEverywhere(s.children, s.tables);
    TablesAre(s.children, s.tables);
  }
}
