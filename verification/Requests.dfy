/** Whole runs of the requests that move objects: the state they lead to and the reference counts
    in it. */
module Requests {
  import opened Guard
  import opened Ownership
  import opened World
  import opened Stores

  /** The world's hooks decide which objects a take or a drop accepts. */
  datatype Req =
    | Take(user: string, room: nat, name: string, accept: ObjId -> bool)
    | Drop(user: string, room: nat, name: string, accept: ObjId -> bool)
    | RoomDelete(room: nat, name: string)
    | InventoryDelete(user: string, name: string)
    | AddAlias(room: nat, obj: ObjId, alias: string)
    | New(name: string)
    | File(room: nat, obj: ObjId)
    | Create(room: nat, name: string)
    | AddUser(user: string)
    | RemoveUser(user: string)

  /** What a request is about exists, an object is filed only if it is in no container, and an alias
      is added only where that keeps the invariant.  Any other request is ignored here. */
  ghost predicate Ready(s: Snapshot, r: Req) {
    match r
    case Take(user, room, _, _) => Room(room) in s.boxes && Inventory(user) in s.boxes
    case Drop(user, room, _, _) => Room(room) in s.boxes && Inventory(user) in s.boxes
    case RoomDelete(room, _) => Room(room) in s.boxes
    case InventoryDelete(user, _) => Inventory(user) in s.boxes
    case AddAlias(room, o, alias) => Room(room) in s.boxes && AliasFits(s, o, Room(room), alias)
    case New(_) => true
    case File(room, o) => Room(room) in s.boxes && o in s.objs && Of(s.places, o) == {}
    case Create(room, _) => Room(room) in s.boxes
    case AddUser(_) => true
    case RemoveUser(user) => Inventory(user) in s.boxes
  }

  ghost function Yes(os: set<ObjId>, accept: ObjId -> bool): set<ObjId> {
    set o | o in os && accept(o)
  }

  ghost function No(os: set<ObjId>, accept: ObjId -> bool): set<ObjId> {
    set o | o in os && !accept(o)
  }

  /** The entries that stay are `places`; an object without entry or outstanding reference goes. */
  ghost function Left(s: Snapshot, places: set<Place>): Snapshot {
    var objs := Live(s.objs, places, s.extra);
    s.(objs := objs, places := places, extra := map o | o in objs && o in s.extra :: s.extra[o])
  }

  ghost function Made(s: Snapshot, name: string): Snapshot {
    s.(objs := s.objs[s.counter := Obj(name, [], 1)], extra := s.extra[s.counter := 1], counter := s.counter + 1)
  }

  /** The state after one request. */
  ghost function After(s: Snapshot, r: Req): Snapshot {
    if !Ready(s, r) then s else
    match r
    case Take(user, room, name, accept) =>
      s.(places := Resettle(s.places, Yes(NamedIn(s.places, Room(room), name), accept), Inventory(user)))
    case Drop(user, room, name, accept) =>
      var dropped := NamedIn(s.places, Inventory(user), name);
      s.(places := Resettle(s.places, Yes(dropped, accept), Room(room)),
         objs := Held(s.objs, No(dropped, accept)), extra := Owed(s.extra, No(dropped, accept)))
    case RoomDelete(room, name) => Left(s, Except(s.places, NamedIn(s.places, Room(room), name)))
    case InventoryDelete(user, name) => Left(s, Except(s.places, NamedIn(s.places, Inventory(user), name)))
    case AddAlias(room, o, alias) => AliasedIn(FiledIfMissing(s, o, Room(room)), o, Room(room), alias)
    case New(name) => Made(s, name)
    case File(room, o) => FiledIn(s, o, Room(room))
    case Create(room, name) =>
      s.(objs := s.objs[s.counter := Obj(name, [], 1)], extra := s.extra[s.counter := 0],
         places := s.places + {Place(s.counter, Room(room), name)}, counter := s.counter + 1)
    case AddUser(user) => s.(boxes := s.boxes + {Inventory(user)})
    case RemoveUser(user) => Left(s, Outside(s.places, Inventory(user))).(boxes := s.boxes - {Inventory(user)})
  }

  /** The state after a run. */
  ghost function AfterAll(s: Snapshot, reqs: seq<Req>): Snapshot
    decreases |reqs|
  {
    if reqs == [] then s else After(AfterAll(s, reqs[..|reqs| - 1]), reqs[|reqs| - 1])
  }

  ghost function Except(places: set<Place>, gone: set<ObjId>): set<Place> {
    set p | p in places && p.obj !in gone
  }

  // what a request means, entry by entry

  /** A take moves every entry of the objects listed under the name that the hook lets go, and
      nothing else changes. */
  lemma TakeMeans(s: Snapshot, user: string, room: nat, name: string, accept: ObjId -> bool)
    ensures After(s, Take(user, room, name, accept)) ==
            if Room(room) in s.boxes && Inventory(user) in s.boxes then
              s.(places := set p | p in s.places ::
                   if Place(p.obj, Room(room), name) in s.places && accept(p.obj) then Place(p.obj, Inventory(user), p.key) else p)
            else s
  {
    NamedAre(s.places, Room(room), name);
    var os := NamedIn(s.places, Room(room), name);
    assert Resettle(s.places, Yes(os, accept), Inventory(user)) == set p | p in s.places ::
        if Place(p.obj, Room(room), name) in s.places && accept(p.obj) then Place(p.obj, Inventory(user), p.key) else p;
  }

  /** A drop does the same the other way, and an object that the hook holds back has a reference more. */
  lemma DropMeans(s: Snapshot, user: string, room: nat, name: string, accept: ObjId -> bool)
    ensures After(s, Drop(user, room, name, accept)) ==
            if Room(room) in s.boxes && Inventory(user) in s.boxes then
              Snapshot(map o | o in s.objs ::
                         if Place(o, Inventory(user), name) in s.places && !accept(o) then s.objs[o].(refs := s.objs[o].refs + 1) else s.objs[o],
                       set p | p in s.places ::
                         if Place(p.obj, Inventory(user), name) in s.places && accept(p.obj) then Place(p.obj, Room(room), p.key) else p,
                       map o | o in s.extra ::
                         if Place(o, Inventory(user), name) in s.places && !accept(o) then s.extra[o] + 1 else s.extra[o],
                       s.boxes, s.counter)
            else s
  {
    NamedAre(s.places, Inventory(user), name);
    var os := NamedIn(s.places, Inventory(user), name);
    assert Resettle(s.places, Yes(os, accept), Room(room)) == set p | p in s.places ::
        if Place(p.obj, Inventory(user), name) in s.places && accept(p.obj) then Place(p.obj, Room(room), p.key) else p;
  }

  lemma NamedAre(places: set<Place>, b: Box, name: string)
    ensures forall o :: o in NamedIn(places, b, name) <==> Place(o, b, name) in places
  {
    forall o | o in NamedIn(places, b, name) ensures Place(o, b, name) in places {
      var p :| p in places && p.box == b && p.key == name && p.obj == o;
    }
  }

  /** What is left when some objects lose all their entries: they give back a reference for each, and
      are gone with the last. */
  lemma LeftMeans(s: Snapshot, gone: set<ObjId>)
    requires Consistent(s)
    ensures var s' := Left(s, Except(s.places, gone));
            && (forall o :: o in s'.objs <==> o in s.objs && (o in gone ==> s.objs[o].refs > |Of(s.places, o)|))
            && (forall o :: o in s'.objs ==>
                  s'.objs[o] == s.objs[o].(refs := s.objs[o].refs - if o in gone then |Of(s.places, o)| else 0))
  {
    var places := Except(s.places, gone);
    forall o | o in s.objs ensures Of(places, o) == if o in gone then {} else Of(s.places, o) {
      RefsAre(s.objs, s.places, s.extra, o);
    }
    forall o | o in s.objs ensures o in s.extra && s.objs[o].refs == |Of(s.places, o)| + s.extra[o] > 0 {
      RefsAre(s.objs, s.places, s.extra, o);
    }
  }

  /** A deletion by name takes away every entry of every object listed under it. */
  lemma DeleteMeans(s: Snapshot, b: Box, name: string, r: Req)
    requires Consistent(s) && b in s.boxes
    requires match b case Room(room) => r == RoomDelete(room, name) case Inventory(user) => r == InventoryDelete(user, name)
    ensures var s' := After(s, r);
            && s'.places == (set p | p in s.places && Place(p.obj, b, name) !in s.places)
            && (forall o :: o in s'.objs <==> o in s.objs && (Place(o, b, name) in s.places ==> s.objs[o].refs > |Of(s.places, o)|))
            && (forall o :: o in s'.objs ==>
                  s'.objs[o] == s.objs[o].(refs := s.objs[o].refs - if Place(o, b, name) in s.places then |Of(s.places, o)| else 0))
            && s'.boxes == s.boxes && s'.counter == s.counter
  {
    NamedAre(s.places, b, name);
    LeftMeans(s, NamedIn(s.places, b, name));
  }

  /** Removing a user does so with everything in the inventory, and takes the inventory away. */
  lemma RemoveUserMeans(s: Snapshot, user: string)
    requires Consistent(s)
    ensures var s', b := After(s, RemoveUser(user)), Inventory(user);
            && s'.boxes == s.boxes - {b} && s'.counter == s.counter
            && (b !in s.boxes ==> s' == s)
            && (b in s.boxes ==>
                  && s'.places == (set p | p in s.places && p.box != b)
                  && (forall o :: o in s'.objs <==> o in s.objs && s.objs[o].refs > |set p | p in s.places && p.obj == o && p.box == b|)
                  && (forall o :: o in s'.objs ==>
                        s'.objs[o] == s.objs[o].(refs := s.objs[o].refs - |set p | p in s.places && p.obj == o && p.box == b|)))
  {
    var b := Inventory(user);
    forall o | o in s.objs
      ensures o in s.extra && s.objs[o].refs == |Of(s.places, o)| + s.extra[o] > 0
      ensures |Of(s.places, o)| == |Of(Outside(s.places, b), o)| + |set p | p in s.places && p.obj == o && p.box == b|
    {
      RefsAre(s.objs, s.places, s.extra, o);
      var inside := set p | p in s.places && p.obj == o && p.box == b;
      assert Of(s.places, o) == Of(Outside(s.places, b), o) + inside;
    }
  }

  /** The entries of an object under all its keys. */
  lemma FileMeans(s: Snapshot, room: nat, o: ObjId)
    ensures After(s, File(room, o)) ==
            if Room(room) in s.boxes && o in s.objs && (forall p :: p in s.places ==> p.obj != o) then
              s.(objs := s.objs[o := s.objs[o].(refs := s.objs[o].refs + |s.objs[o].aliases|)],
                 places := s.places + (set k | k in [s.objs[o].name] + s.objs[o].aliases :: Place(o, Room(room), k)),
                 extra := s.extra[o := (if o in s.extra then s.extra[o] else 0) - 1])
            else s
  {
    Nowhere(s.places, o);
    if o in s.objs { KeysAre(s.objs[o]); }
  }

  /** An alias request files the object first if the room lists nothing under its name, and gives an
      alias that is new to the object an entry of its own; it is for an object of the room, for one
      that is nowhere and has no namesake in the room, or for an alias that is not new. */
  lemma AddAliasMeans(s: Snapshot, room: nat, o: ObjId, alias: string)
    requires Room(room) in s.boxes && o in s.objs
    ensures var s', b, rec := After(s, AddAlias(room, o, alias)), Room(room), s.objs[o];
            var missing := forall x :: Place(x, b, rec.name) !in s.places;
            var isNew := alias != rec.name && alias !in rec.aliases;
            if Place(o, b, rec.name) in s.places || (if missing then forall p :: p in s.places ==> p.obj != o else !isNew) then
              && s'.objs == s.objs[o := Obj(rec.name, if isNew then [alias] + rec.aliases else rec.aliases,
                                            rec.refs + (if missing then |rec.aliases| else 0) + if isNew then 1 else 0)]
              && s'.places == s.places + (if missing then set k | k in [rec.name] + rec.aliases :: Place(o, b, k) else {})
                                       + (if isNew then {Place(o, b, alias)} else {})
              && s'.boxes == s.boxes && s'.counter == s.counter
            else s' == s
  {
    var rec := s.objs[o];
    NamedAre(s.places, Room(room), rec.name);
    assert Place(o, Room(room), rec.name) in s.places ==> o in NamedIn(s.places, Room(room), rec.name);
    KeysAre(rec);
    Nowhere(s.places, o);
  }

  lemma KeysAre(rec: Obj)
    ensures KeysOf(rec) == set k | k in [rec.name] + rec.aliases
  {
  }

  lemma Nowhere(places: set<Place>, o: ObjId)
    ensures Of(places, o) == {} <==> forall p :: p in places ==> p.obj != o
  {
    forall p | p in places && p.obj == o ensures p in Of(places, o) {}
  }

  // what a request does to the containers and their hash tables

  function ListedIn(boxes: map<Box, Shelf>, b: Box, k: string): seq<ObjId> {
    if b in boxes then Listed(boxes[b], k) else []
  }

  /** The multimap calls of a request, in their order. */
  ghost function Acts(f: Store, s: Snapshot, r: Req): seq<Act> {
    if !Ready(s, r) then [] else
    match r
    case Take(user, room, name, accept) =>
      TakeActs(s.objs, ListedIn(f.boxes, Room(room), name), accept, Room(room), Inventory(user))
    case Drop(user, room, name, accept) =>
      DropActs(s.objs, ListedIn(f.boxes, Inventory(user), name), accept, Inventory(user), Room(room))
    case RoomDelete(room, name) => DeleteActs(s.objs, ListedIn(f.boxes, Room(room), name), Room(room))
    case InventoryDelete(user, name) => DeleteActs(s.objs, ListedIn(f.boxes, Inventory(user), name), Inventory(user))
    case AddAlias(room, o, alias) =>
      AliasActs(Room(room), o, s.objs[o], NamedIn(s.places, Room(room), s.objs[o].name) == {}, alias)
    case New(_) => []
    case File(room, o) => FileActs(Room(room), o, s.objs[o])
    case Create(room, name) => [Put(Room(room), name, s.counter)]
    case AddUser(user) => if Inventory(user) in s.boxes then [] else [Open(Inventory(user), INVENTORY_SIZE)]
    case RemoveUser(user) => [Shut(Inventory(user))]
  }

  /** The whole state: what the objects are, and the lists and tables they are filed in. */
  datatype Whole = Whole(snap: Snapshot, store: Store)

  ghost function Next(w: Whole, r: Req): Whole {
    Whole(After(w.snap, r), DoAll(w.store, Acts(w.store, w.snap, r)))
  }

  ghost function NextAll(w: Whole, reqs: seq<Req>): Whole
    decreases |reqs|
  {
    if reqs == [] then w else Next(NextAll(w, reqs[..|reqs| - 1]), reqs[|reqs| - 1])
  }

  lemma {:induction false} NextAllSnap(w: Whole, reqs: seq<Req>)
    ensures NextAll(w, reqs).snap == AfterAll(w.snap, reqs)
    decreases |reqs|
  {
    if reqs != [] { NextAllSnap(w, reqs[..|reqs| - 1]); }
  }

  // serving one request

  lemma ChosenAre(os: seq<ObjId>, accept: ObjId -> bool)
    ensures Accepted(os, accept) == Yes(Elems(os), accept) && Refused(os, accept) == No(Elems(os), accept)
  {
  }

  lemma StripIs(places: set<Place>, os: seq<ObjId>)
    ensures Strip(places, os) == Except(places, Elems(os))
  {
  }

  lemma LeftIs(s: Snapshot, objs': map<ObjId, Obj>, places': set<Place>, extra': map<ObjId, int>)
    requires Released(s.objs, s.extra, objs', places', extra')
    ensures s.(objs := objs', places := places', extra := extra') == Left(s, places')
    ensures objs'.Keys <= s.objs.Keys
  {
    assert Sealed(0);
  }

  /** The keys of a container in some order, as iterating its table yields them. */
  method KeyOrder(s: Shelf) returns (order: seq<string>)
    ensures forall k :: k in s <==> k in order
    ensures forall i, j :: 0 <= i < j < |order| ==> order[i] != order[j]
  {
    order := [];
    var left := s.Keys;
    while left != {}
      invariant forall k :: k in s <==> k in left || k in order
      invariant forall k :: k in left ==> k !in order
      invariant forall i, j :: 0 <= i < j < |order| ==> order[i] != order[j]
      decreases |left|
    {
      var k :| k in left;
      order, left := order + [k], left - {k};
    }
  }

  method ServeTake(w: World, user: string, room: nat, name: string, accept: ObjId -> bool) returns (ok: bool)
    requires w.Inv() && w.Numbered() && w.sane && Room(room) in w.boxes && Inventory(user) in w.boxes
    modifies w`objs, w`boxes, w`tables, w`sane, w`places, w`extra
    ensures Served(old(w.Snap()), old(w.State()), Take(user, room, name, accept), w.Snap(), w.State(), ok)
    ensures ok ==> w.Inv() && w.Numbered()
  {
    NamedListed(w.boxes, w.places, Room(room), name);
    var visited;
    ok, visited := w.Take(user, room, name, accept);
    ChosenAre(visited, accept);
  }

  method ServeDrop(w: World, user: string, room: nat, name: string, accept: ObjId -> bool) returns (ok: bool)
    requires w.Inv() && w.Numbered() && w.sane && Room(room) in w.boxes && Inventory(user) in w.boxes
    modifies w`objs, w`boxes, w`tables, w`sane, w`places, w`extra
    ensures Served(old(w.Snap()), old(w.State()), Drop(user, room, name, accept), w.Snap(), w.State(), ok)
    ensures ok ==> w.Inv() && w.Numbered()
  {
    NamedListed(w.boxes, w.places, Inventory(user), name);
    var visited;
    ok, visited := w.Drop(user, room, name, accept);
    ChosenAre(visited, accept);
  }

  /** What serving a request means: the process gets through it exactly if all its multimap calls do,
      and then the state is the one that Next gives. */
  ghost predicate Served(s: Snapshot, f: Store, r: Req, s': Snapshot, f': Store, ok: bool) {
    && ok == f'.sane == Through(f, Acts(f, s, r))
    && (ok ==> s' == After(s, r) && Went(f, Acts(f, s, r), f'))
  }

  lemma ServedBy(s: Snapshot, f: Store, r: Req, s': Snapshot, f': Store)
    requires s' == After(s, r) && Went(f, Acts(f, s, r), f')
    ensures Served(s, f, r, s', f', f'.sane)
  {
    ThroughWent(f, Acts(f, s, r), f');
  }

  /** A deletion by name in a room or an inventory. */
  method ServeDelete(w: World, b: Box, name: string)
    requires w.Inv() && w.Numbered() && b in w.boxes
    modifies w`objs, w`boxes, w`tables, w`places, w`extra
    ensures w.Inv() && w.Numbered()
    ensures w.Snap() == Left(old(w.Snap()), Except(old(w.places), NamedIn(old(w.places), b, name)))
    ensures Went(old(w.State()), DeleteActs(old(w.objs), Listed(old(w.boxes)[b], name), b), w.State())
  {
    ghost var s := w.Snap();
    NamedListed(w.boxes, w.places, b, name);
    var visited := w.DeleteByName(b, name);
    StripIs(s.places, visited);
    LeftIs(s, w.objs, w.places, w.extra);
  }

  method ServeRemove(w: World, user: string)
    requires w.Inv() && w.Numbered() && Inventory(user) in w.boxes
    modifies w`objs, w`boxes, w`tables, w`places, w`extra
    ensures w.Inv() && w.Numbered() && w.Snap() == After(old(w.Snap()), RemoveUser(user))
    ensures Went(old(w.State()), [Shut(Inventory(user))], w.State())
  {
    ghost var s := w.Snap();
    var order := KeyOrder(w.boxes[Inventory(user)]);
    w.RemoveBox(Inventory(user), order);
    LeftIs(s, w.objs, w.places, w.extra);
  }

  /** The requests that only file and make objects. */
  method ServeFiling(w: World, r: Req)
    requires w.Inv() && w.Numbered() && Ready(w.Snap(), r) && (r.AddAlias? || r.File? || r.New? || r.Create?)
    modifies w
    ensures w.Inv() && w.Numbered() && w.Snap() == After(old(w.Snap()), r)
    ensures Went(old(w.State()), Acts(old(w.State()), old(w.Snap()), r), w.State())
  {
    ghost var s := w.Snap();
    match r
    case AddAlias(room, o, alias) =>
      var status := w.AddAlias(Room(room), o, alias);
      assert w.objs.Keys == s.objs.Keys;
    case File(room, o) => var status := w.FileNew(Room(room), o);
    case New(name) =>
      WentNowhere(w.State());
      var o := w.ObjNew(name);
    case Create(room, name) => var o := w.Create(Room(room), name);
  }

  /** The requests that move and delete, for use where After need not be seen. */
  lemma Meanings(s: Snapshot, r: Req)
    requires Consistent(s)
    ensures r.Take? && Room(r.room) in s.boxes && Inventory(r.user) in s.boxes ==>
              && After(s, r).objs == s.objs
              && After(s, r).places == set p | p in s.places ::
                   if Place(p.obj, Room(r.room), r.name) in s.places && r.accept(p.obj) then Place(p.obj, Inventory(r.user), p.key) else p
    ensures r.Drop? && Room(r.room) in s.boxes && Inventory(r.user) in s.boxes ==>
              && After(s, r).objs == (map o | o in s.objs ::
                   if Place(o, Inventory(r.user), r.name) in s.places && !r.accept(o) then s.objs[o].(refs := s.objs[o].refs + 1) else s.objs[o])
              && After(s, r).places == set p | p in s.places ::
                   if Place(p.obj, Inventory(r.user), r.name) in s.places && r.accept(p.obj) then Place(p.obj, Room(r.room), p.key) else p
    ensures r.RoomDelete? && Room(r.room) in s.boxes ==>
              After(s, r).places == set p | p in s.places && Place(p.obj, Room(r.room), r.name) !in s.places
    ensures r.InventoryDelete? && Inventory(r.user) in s.boxes ==>
              After(s, r).places == set p | p in s.places && Place(p.obj, Inventory(r.user), r.name) !in s.places
    ensures r.RemoveUser? && Inventory(r.user) in s.boxes ==>
              After(s, r).places == (set p | p in s.places && p.box != Inventory(r.user)) && After(s, r).boxes == s.boxes - {Inventory(r.user)}
  {
    match r
    case Take(user, room, name, accept) => TakeMeans(s, user, room, name, accept);
    case Drop(user, room, name, accept) => DropMeans(s, user, room, name, accept);
    case RoomDelete(room, name) => if Room(room) in s.boxes { DeleteMeans(s, Room(room), name, r); }
    case InventoryDelete(user, name) => if Inventory(user) in s.boxes { DeleteMeans(s, Inventory(user), name, r); }
    case RemoveUser(user) => RemoveUserMeans(s, user);
    case _ =>
  }

  /** One request: what it does to the whole state is Next; a take, a drop and a deletion by name are
      also described entry by entry. */
  method Serve(w: World, r: Req) returns (ok: bool)
    requires w.Inv() && w.Numbered() && w.sane
    modifies w
    ensures Served(old(w.Snap()), old(w.State()), r, w.Snap(), w.State(), ok)
    ensures ok ==> w.Inv() && w.Numbered()
    ensures ok && r.Take? && Room(r.room) in old(w.boxes) && Inventory(r.user) in old(w.boxes) ==>
              && w.objs == old(w.objs)
              && w.places == set p | p in old(w.places) ::
                   if Place(p.obj, Room(r.room), r.name) in old(w.places) && r.accept(p.obj) then Place(p.obj, Inventory(r.user), p.key) else p
    ensures ok && r.Drop? && Room(r.room) in old(w.boxes) && Inventory(r.user) in old(w.boxes) ==>
              && w.objs == (map o | o in old(w.objs) ::
                   if Place(o, Inventory(r.user), r.name) in old(w.places) && !r.accept(o)
                   then old(w.objs)[o].(refs := old(w.objs)[o].refs + 1) else old(w.objs)[o])
              && w.places == set p | p in old(w.places) ::
                   if Place(p.obj, Inventory(r.user), r.name) in old(w.places) && r.accept(p.obj) then Place(p.obj, Room(r.room), p.key) else p
    ensures ok && r.RoomDelete? && Room(r.room) in old(w.boxes) ==>
              w.places == set p | p in old(w.places) && Place(p.obj, Room(r.room), r.name) !in old(w.places)
    ensures ok && r.InventoryDelete? && Inventory(r.user) in old(w.boxes) ==>
              w.places == set p | p in old(w.places) && Place(p.obj, Inventory(r.user), r.name) !in old(w.places)
    ensures ok && r.RemoveUser? && Inventory(r.user) in old(w.boxes) ==>
              w.places == (set p | p in old(w.places) && p.box != Inventory(r.user)) && w.boxes.Keys == old(w.boxes).Keys - {Inventory(r.user)}
    ensures ok && r.Create? && Room(r.room) in old(w.boxes) ==>
              && w.objs == old(w.objs)[old(w.idCounter) := Obj(r.name, [], 1)]
              && w.places == old(w.places) + {Place(old(w.idCounter), Room(r.room), r.name)}
    ensures ok && r.New? ==> w.objs == old(w.objs)[old(w.idCounter) := Obj(r.name, [], 1)] && w.places == old(w.places)
    ensures ok && r.AddUser? ==>
              w.boxes.Keys == old(w.boxes).Keys + {Inventory(r.user)} && w.places == old(w.places) && w.objs == old(w.objs)
  {
    ghost var s, f := w.Snap(), w.State();
    Meanings(s, r);
    var ready := IsReady(w, r);
    if !ready {
      WentNowhere(w.State());
      ServedBy(s, f, r, w.Snap(), w.State());
      return true;
    }
    match r {
      case Take(user, room, name, accept) =>
        ok := ServeTake(w, user, room, name, accept);
        return;
      case Drop(user, room, name, accept) =>
        ok := ServeDrop(w, user, room, name, accept);
        return;
      case RoomDelete(room, name) => ServeDelete(w, Room(room), name);
      case InventoryDelete(user, name) => ServeDelete(w, Inventory(user), name);
      case AddUser(user) => w.AddUser(user);
      case RemoveUser(user) => ServeRemove(w, user);
      case _ => ServeFiling(w, r);
    }
    ServedBy(s, f, r, w.Snap(), w.State());
    ok := w.sane;
  }

  /** Whether an object is in some container. */
  method IsFiled(w: World, o: ObjId) returns (filed: bool)
    requires w.Inv() && o in w.objs
    ensures filed == (Of(w.places, o) != {})
  {
    filed := false;
    var left := w.boxes.Keys;
    var name := w.objs[o].name;
    while left != {}
      invariant left <= w.boxes.Keys
      invariant filed <==> exists b :: b in w.boxes && b !in left && o in Listed(w.boxes[b], name)
      decreases |left|
    {
      var b :| b in left;
      filed, left := filed || o in Listed(w.boxes[b], name), left - {b};
    }
    FiledSomewhere(w.objs, w.boxes, w.places, w.extra, o);
  }

  lemma FiledSomewhere(objs: map<ObjId, Obj>, boxes: map<Box, Shelf>, places: set<Place>, extra: map<ObjId, int>, o: ObjId)
    requires Filed(boxes, places) && Counted(objs, places, extra) && Closed(objs, places) && o in objs
    ensures Of(places, o) != {} <==> exists b :: b in boxes && o in Listed(boxes[b], objs[o].name)
  {
    if p :| p in Of(places, o) {
      LocatedIn(objs, places, extra, p);
      var q := Place(o, p.box, objs[o].name);
      assert q in Of(places, o);
      EntryIs(boxes, places, q);
    }
    if b :| b in boxes && o in Listed(boxes[b], objs[o].name) {
      EntryIs(boxes, places, Place(o, b, objs[o].name));
      assert Place(o, b, objs[o].name) in Of(places, o);
    }
  }

  /** The condition of an alias request, read off the state. */
  method FitsAlias(w: World, b: Box, o: ObjId, alias: string) returns (fits: bool)
    requires w.Inv() && b in w.boxes && o in w.objs
    ensures fits == AliasFits(w.Snap(), o, b, alias)
  {
    var name := w.objs[o].name;
    EntryIs(w.boxes, w.places, Place(o, b, name));
    NamedListed(w.boxes, w.places, b, name);
    if o in Listed(w.boxes[b], name) {
      return true;
    }
    if Listed(w.boxes[b], name) == [] {
      var filed := IsFiled(w, o);
      return !filed;
    }
    return alias in KeysOf(w.objs[o]);
  }

  method IsReady(w: World, r: Req) returns (ready: bool)
    requires w.Inv()
    ensures ready == Ready(w.Snap(), r)
  {
    match r
    case Take(user, room, _, _) => ready := Room(room) in w.boxes && Inventory(user) in w.boxes;
    case Drop(user, room, _, _) => ready := Room(room) in w.boxes && Inventory(user) in w.boxes;
    case RoomDelete(room, _) => ready := Room(room) in w.boxes;
    case InventoryDelete(user, _) => ready := Inventory(user) in w.boxes;
    case AddAlias(room, o, alias) =>
      ready := Room(room) in w.boxes && o in w.objs;
      if ready {
        RefsAre(w.objs, w.places, w.extra, o);
        ready := FitsAlias(w, Room(room), o, alias);
      }
    case New(_) => ready := true;
    case File(room, o) =>
      ready := Room(room) in w.boxes && o in w.objs;
      if ready {
        RefsAre(w.objs, w.places, w.extra, o);
        var filed := IsFiled(w, o);
        ready := !filed;
      }
    case Create(room, _) => ready := Room(room) in w.boxes;
    case AddUser(_) => ready := true;
    case RemoveUser(user) => ready := Inventory(user) in w.boxes;
  }

  // where the outstanding references come from

  /** What a request adds to the references of `o` held outside the containers: one for a refused
      drop and for its creation, and one less when it is filed with its creating reference. */
  ghost function Gained(s: Snapshot, r: Req, o: ObjId): int {
    if !Ready(s, r) then 0 else
    match r
    case Drop(user, _, name, accept) => if o in No(NamedIn(s.places, Inventory(user), name), accept) then 1 else 0
    case New(_) => if o == s.counter then 1 else 0
    case File(_, obj) => if o == obj then -1 else 0
    case AddAlias(room, obj, _) => if o == obj && NamedIn(s.places, Room(room), s.objs[o].name) == {} then -1 else 0
    case _ => 0
  }

  /** The sum over a run. */
  ghost function Tally(s: Snapshot, reqs: seq<Req>, o: ObjId): int
    decreases |reqs|
  {
    if reqs == [] then 0
    else
      var sofar := reqs[..|reqs| - 1];
      Tally(s, sofar, o) + Gained(AfterAll(s, sofar), reqs[|reqs| - 1], o)
  }

  ghost predicate Bounded(s: Snapshot) {
    && s.objs.Keys == s.extra.Keys
    && (forall o :: o in s.objs ==> o < s.counter)
    && (forall p :: p in s.places ==> p.obj in s.objs)
  }

  ghost predicate BoundedAll(s: Snapshot, reqs: seq<Req>)
    decreases |reqs|
  {
    Bounded(AfterAll(s, reqs)) && (reqs != [] ==> BoundedAll(s, reqs[..|reqs| - 1]))
  }

  /** What a request does to the outstanding references of one object. */
  lemma GainedIs(s: Snapshot, r: Req, o: ObjId)
    requires Bounded(s)
    ensures s.counter <= After(s, r).counter
    ensures var s' := After(s, r);
            && (o in s'.extra ==> s'.extra[o] == Outstanding(s, o) + Gained(s, r, o))
            && (o in s'.extra && o !in s.extra ==> s.counter <= o < s'.counter)
            && (o !in s'.extra && o !in s.extra ==> Gained(s, r, o) == 0)
  {
  }

  /** The outstanding references of an object at the end of a run are those it had plus what the
      requests of the run have added. */
  lemma {:induction false} Tallied(s: Snapshot, reqs: seq<Req>, o: ObjId)
    requires BoundedAll(s, reqs)
    ensures var s' := AfterAll(s, reqs);
            && s.counter <= s'.counter
            && (o in s'.extra ==> s'.extra[o] == Outstanding(s, o) + Tally(s, reqs, o))
            && (o >= s'.counter ==> Outstanding(s, o) == 0 == Tally(s, reqs, o))
    decreases |reqs|
  {
    if reqs != [] {
      var sofar, r := reqs[..|reqs| - 1], reqs[|reqs| - 1];
      Tallied(s, sofar, o);
      GainedIs(AfterAll(s, sofar), r, o);
    }
  }

  lemma AfterOne(w: Whole, reqs: seq<Req>, i: nat)
    requires i < |reqs|
    ensures NextAll(w, reqs[..i + 1]) == Next(NextAll(w, reqs[..i]), reqs[i])
    ensures AfterAll(w.snap, reqs[..i + 1]) == After(AfterAll(w.snap, reqs[..i]), reqs[i])
    ensures BoundedAll(w.snap, reqs[..i]) && Bounded(AfterAll(w.snap, reqs[..i + 1])) ==> BoundedAll(w.snap, reqs[..i + 1])
  {
    assert reqs[..i + 1][..i] == reqs[..i];
  }

  /** A failed assertion is the end. */
  lemma {:induction false} SaneSoFar(w: Whole, reqs: seq<Req>, i: nat)
    requires i <= |reqs| && NextAll(w, reqs).store.sane
    ensures NextAll(w, reqs[..i]).store.sane
    decreases |reqs|
  {
    if i == |reqs| {
      assert reqs[..i] == reqs;
    } else {
      var front, last := reqs[..|reqs| - 1], reqs[|reqs| - 1];
      SaneBefore(NextAll(w, front).store, Acts(NextAll(w, front).store, NextAll(w, front).snap, last));
      SaneSoFar(w, front, i);
      assert front[..i] == reqs[..i];
    }
  }

  lemma ServedIs(s: Snapshot, f: Store, r: Req, s': Snapshot, f': Store, ok: bool)
    requires Served(s, f, r, s', f', ok)
    ensures ok == Next(Whole(s, f), r).store.sane && (ok ==> Whole(s', f') == Next(Whole(s, f), r))
  {
    ThroughIs(f, Acts(f, s, r));
    if ok { WentIs(f, Acts(f, s, r), f'); }
  }

  /** Any run of requests, as far as the process gets: `ok` says that it gets through, which is what
      the state that NextAll gives says, too.  That state is then the one it leads to; in it every
      object is filed under all its keys in one container or nowhere, and its count is the number of
      its entries plus the references the run has left outstanding. */
  method Run(w: World, reqs: seq<Req>) returns (ok: bool)
    requires w.Inv() && w.Numbered() && w.sane
    modifies w
    ensures ok == NextAll(Whole(old(w.Snap()), old(w.State())), reqs).store.sane
    ensures ok ==> w.Inv() && w.Numbered() && w.sane
    ensures ok ==> Whole(w.Snap(), w.State()) == NextAll(Whole(old(w.Snap()), old(w.State())), reqs)
    ensures ok ==> w.Snap() == AfterAll(old(w.Snap()), reqs)
    ensures ok ==> forall o :: o in w.objs ==>
              w.objs[o].refs == |Of(w.places, o)| + Outstanding(old(w.Snap()), o) + Tally(old(w.Snap()), reqs, o)
  {
    ghost var s := w.Snap();
    ghost var start := Whole(s, w.State());
    BoundedInv(w.objs, w.places, w.extra);
    for i := 0 to |reqs|
      invariant w.Inv() && w.Numbered() && w.sane && Whole(w.Snap(), w.State()) == NextAll(start, reqs[..i])
      invariant w.Snap() == AfterAll(s, reqs[..i]) && BoundedAll(s, reqs[..i])
    {
      ghost var before, store := w.Snap(), w.State();
      ok := Serve(w, reqs[i]);
      ServedIs(before, store, reqs[i], w.Snap(), w.State(), ok);
      AfterOne(start, reqs, i);
      if !ok {
        if NextAll(start, reqs).store.sane { SaneSoFar(start, reqs, i + 1); }
        return;
      }
      BoundedInv(w.objs, w.places, w.extra);
    }
    ok := true;
    assert reqs[..|reqs|] == reqs;
    forall o | o in w.objs
      ensures w.objs[o].refs == |Of(w.places, o)| + Outstanding(s, o) + Tally(s, reqs, o)
    {
      RefsAre(w.objs, w.places, w.extra, o);
      Tallied(s, reqs, o);
    }
  }

  // when a run gets through

  /** One of the insertions of request `i` makes a table grow while emptied keys have gone uncounted. */
  ghost predicate TripsIn(w: Whole, reqs: seq<Req>, i: nat)
    requires i < |reqs|
  {
    forall n: nat {:trigger Sealed(n)} :: Sealed(n) ==> TripsNow(NextAll(w, reqs[..i]), reqs[i])
  }

  lemma {:induction false} NextAllTabled(w: Whole, reqs: seq<Req>)
    requires Tabled(w.store)
    ensures Tabled(NextAll(w, reqs).store) && NextAll(w, reqs).store.signed == w.store.signed
    decreases |reqs|
  {
    if reqs != [] {
      var before := NextAll(w, reqs[..|reqs| - 1]);
      NextAllTabled(w, reqs[..|reqs| - 1]);
      DoAllTabled(before.store, Acts(before.store, before.snap, reqs[|reqs| - 1]));
    }
  }

  /** A run gets through exactly if none of its insertions does so. */
  lemma {:induction false} ThroughWhen(w: Whole, reqs: seq<Req>)
    requires Tabled(w.store) && w.store.sane
    ensures NextAll(w, reqs).store.sane <==> !TripsSome(w, reqs)
    decreases |reqs|
  {
    if reqs != [] {
      var front, last := reqs[..|reqs| - 1], reqs[|reqs| - 1];
      ThroughWhen(w, front);
      NextAllTabled(w, front);
      LastThrough(NextAll(w, front), last);
      TripsLast(w, reqs);
      if TripsSome(w, front) || TripsIn(w, reqs, |front|) { TripsFront(w, reqs); }
      if TripsSome(w, reqs) && !TripsIn(w, reqs, |front|) { TripsBack(w, reqs); }
    }
  }

  ghost predicate TripsSome(w: Whole, reqs: seq<Req>) {
    exists i :: 0 <= i < |reqs| && TripsIn(w, reqs, i)
  }

  lemma TripsFront(w: Whole, reqs: seq<Req>)
    requires reqs != [] && (TripsSome(w, reqs[..|reqs| - 1]) || TripsIn(w, reqs, |reqs| - 1))
    ensures TripsSome(w, reqs)
  {
    var front := reqs[..|reqs| - 1];
    if i :| 0 <= i < |front| && TripsIn(w, front, i) { TripsPrefix(w, reqs, i); }
  }

  lemma TripsBack(w: Whole, reqs: seq<Req>)
    requires reqs != [] && TripsSome(w, reqs) && !TripsIn(w, reqs, |reqs| - 1)
    ensures TripsSome(w, reqs[..|reqs| - 1])
  {
    var i :| 0 <= i < |reqs| && TripsIn(w, reqs, i);
    TripsPrefix(w, reqs, i);
  }

  lemma TripsPrefix(w: Whole, reqs: seq<Req>, i: nat)
    requires i < |reqs| - 1
    ensures TripsIn(w, reqs, i) <==> TripsIn(w, reqs[..|reqs| - 1], i)
  {
    assert Sealed(0);
    assert reqs[..i] == reqs[..|reqs| - 1][..i];
  }

  lemma TripsLast(w: Whole, reqs: seq<Req>)
    requires reqs != []
    ensures TripsIn(w, reqs, |reqs| - 1) <==> TripsNow(NextAll(w, reqs[..|reqs| - 1]), reqs[|reqs| - 1])
  {
    assert Sealed(0);
  }

  ghost predicate TripsNow(before: Whole, r: Req) {
    TripsAny(before.store, Acts(before.store, before.snap, r))
  }

  lemma LastThrough(before: Whole, r: Req)
    requires Tabled(before.store)
    ensures Next(before, r).store.sane <==> before.store.sane && !TripsNow(before, r)
  {
    SaneWhen(before.store, Acts(before.store, before.snap, r));
  }

  predicate Unfiles(r: Req) {
    r.Take? || r.Drop? || r.RoomDelete? || r.InventoryDelete?
  }

  lemma NoCuts(f: Store, s: Snapshot, r: Req)
    requires !Unfiles(r)
    ensures forall i :: 0 <= i < |Acts(f, s, r)| ==> !Acts(f, s, r)[i].Cut?
  {
  }

  /** A run that takes nothing out of a container other than by removing its user gets through. */
  lemma {:induction false} NothingUnfiled(w: Whole, reqs: seq<Req>)
    requires Tabled(w.store) && Exact(w.store) && w.store.sane
    requires forall i :: 0 <= i < |reqs| ==> !Unfiles(reqs[i])
    ensures NextAll(w, reqs).store.sane && Exact(NextAll(w, reqs).store)
    decreases |reqs|
  {
    if reqs != [] {
      var before, last := NextAll(w, reqs[..|reqs| - 1]), reqs[|reqs| - 1];
      NothingUnfiled(w, reqs[..|reqs| - 1]);
      NextAllTabled(w, reqs[..|reqs| - 1]);
      NoCuts(before.store, before.snap, last);
      NoCutNoTrip(before.store, Acts(before.store, before.snap, last));
    }
  }

  // a run of takes and drops

  /** Which object is filed under which key, wherever it is. */
  ghost function Belongings(places: set<Place>): set<(ObjId, string)> {
    set p | p in places :: (p.obj, p.key)
  }

  lemma ResettleKeeps(places: set<Place>, moved: set<ObjId>, to: Box)
    ensures Belongings(Resettle(places, moved, to)) == Belongings(places)
  {
    var now := Resettle(places, moved, to);
    forall p | p in places ensures (p.obj, p.key) in Belongings(now) {
      var q := if p.obj in moved then Place(p.obj, to, p.key) else p;
      assert q in now;
    }
  }

  lemma AfterNext(s: Snapshot, reqs: seq<Req>, r: Req)
    ensures AfterAll(s, reqs + [r]) == After(AfterAll(s, reqs), r)
    ensures forall o :: Tally(s, reqs + [r], o) == Tally(s, reqs, o) + Gained(AfterAll(s, reqs), r, o)
  {
    assert (reqs + [r])[..|reqs|] == reqs;
  }

  /** Takes and drops neither lose nor duplicate an object or an entry, and leave the names alone. */
  lemma {:induction false} MovesConserve(s: Snapshot, reqs: seq<Req>)
    requires forall i :: 0 <= i < |reqs| ==> reqs[i].Take? || reqs[i].Drop?
    ensures var s' := AfterAll(s, reqs);
            && s'.objs.Keys == s.objs.Keys && s'.boxes == s.boxes && s'.counter == s.counter
            && (forall o :: o in s.objs ==> s'.objs[o] == s.objs[o].(refs := s'.objs[o].refs))
            && Belongings(s'.places) == Belongings(s.places)
    decreases |reqs|
  {
    if reqs != [] {
      var sofar, r := reqs[..|reqs| - 1], reqs[|reqs| - 1];
      MovesConserve(s, sofar);
      var mid := AfterAll(s, sofar);
      match r
      case Take(user, room, name, accept) =>
        ResettleKeeps(mid.places, Yes(NamedIn(mid.places, Room(room), name), accept), Inventory(user));
      case Drop(user, room, name, accept) =>
        ResettleKeeps(mid.places, Yes(NamedIn(mid.places, Inventory(user), name), accept), Room(room));
    }
  }

  // two runs that show what fails

  /** An empty room and nothing else. */
  ghost function Bare(room: nat): Snapshot {
    Snapshot(map[], {}, map[], {Room(room)}, 1)
  }

  function Everybody(): ObjId -> bool { _ => true }

  function Nobody(): ObjId -> bool { _ => false }

  /** A refused drop leaves two references and one entry, and when the user goes the object stays,
      in no container. */
  lemma RefusedDrop(user: string, room: nat, name: string)
    ensures var reqs := [AddUser(user), Create(room, name), Take(user, room, name, Everybody()), Drop(user, room, name, Nobody())];
            var s := AfterAll(Bare(room), reqs);
            && s.objs == map[1 := Obj(name, [], 2)] && s.places == {Place(1, Inventory(user), name)}
            && Tally(Bare(room), reqs, 1) == 1
            && var s' := After(s, RemoveUser(user));
               s'.objs == map[1 := Obj(name, [], 1)] && s'.places == {}
  {
    var none: seq<Req> := [];
    var r1, r2, r3, r4 := AddUser(user), Create(room, name), Take(user, room, name, Everybody()), Drop(user, room, name, Nobody());
    var b, inv := Bare(room), Inventory(user);
    AfterNext(b, none, r1);
    AfterNext(b, none + [r1], r2);
    AfterNext(b, none + [r1] + [r2], r3);
    AfterNext(b, none + [r1] + [r2] + [r3], r4);
    assert none + [r1] + [r2] + [r3] + [r4] == [r1, r2, r3, r4];
    var s1 := Snapshot(map[], {}, map[], {Room(room), inv}, 1);
    assert After(b, r1) == s1;
    var s2 := Snapshot(map[1 := Obj(name, [], 1)], {Place(1, Room(room), name)}, map[1 := 0], {Room(room), inv}, 2);
    assert After(s1, r2) == s2;
    OneTaken(user, room, name, s2);
    var s3 := s2.(places := {Place(1, inv, name)});
    OneRefused(user, room, name, s3);
    var s4 := s3.(objs := map[1 := Obj(name, [], 2)], extra := map[1 := 1]);
    OneRemoved(user, name, s4);
  }

  lemma OneTaken(user: string, room: nat, name: string, s: Snapshot)
    requires Room(room) in s.boxes && Inventory(user) in s.boxes && s.places == {Place(1, Room(room), name)}
    ensures After(s, Take(user, room, name, Everybody())) == s.(places := {Place(1, Inventory(user), name)})
  {
    var os := NamedIn(s.places, Room(room), name);
    assert Place(1, Room(room), name) in s.places;
    assert os == {1};
    assert Yes(os, Everybody()) == {1};
    assert Resettle(s.places, {1}, Inventory(user)) == {Place(1, Inventory(user), name)};
  }

  lemma OneRefused(user: string, room: nat, name: string, s: Snapshot)
    requires Room(room) in s.boxes && Inventory(user) in s.boxes && s.places == {Place(1, Inventory(user), name)}
    requires s.objs == map[1 := Obj(name, [], 1)] && s.extra == map[1 := 0]
    ensures After(s, Drop(user, room, name, Nobody())) == s.(objs := map[1 := Obj(name, [], 2)], extra := map[1 := 1])
    ensures Gained(s, Drop(user, room, name, Nobody()), 1) == 1
  {
    var os := NamedIn(s.places, Inventory(user), name);
    assert Place(1, Inventory(user), name) in s.places;
    assert os == {1};
    assert No(os, Nobody()) == {1} && Yes(os, Nobody()) == {};
    ResettleNone(s.places, Room(room));
  }

  lemma OneRemoved(user: string, name: string, s: Snapshot)
    requires Inventory(user) in s.boxes && s.places == {Place(1, Inventory(user), name)}
    requires s.objs == map[1 := Obj(name, [], 2)] && s.extra == map[1 := 1]
    ensures After(s, RemoveUser(user)).objs == map[1 := Obj(name, [], 1)] && After(s, RemoveUser(user)).places == {}
  {
    assert Outside(s.places, Inventory(user)) == {};
    assert Of({}, 1) == {};
  }

  /** An alias for a second object of the same name, made but not filed: the alias alone is filed. */
  lemma SecondOfItsName(room: nat, name: string, alias: string)
    requires alias != name
    ensures var s := AfterAll(Bare(room), [Create(room, name), New(name)]);
            && Consistent(s) && 2 in s.objs
            && !AliasFits(s, 2, Room(room), alias)
            && var s' := AliasedIn(FiledIfMissing(s, 2, Room(room)), 2, Room(room), alias);
               Place(2, Room(room), alias) in s'.places && Place(2, Room(room), name) !in s'.places && !Closed(s'.objs, s'.places)
  {
    var none: seq<Req> := [];
    var r1, r2 := Create(room, name), New(name);
    var b, p := Bare(room), Place(1, Room(room), name);
    AfterNext(b, none, r1);
    AfterNext(b, none + [r1], r2);
    assert none + [r1] + [r2] == [r1, r2];
    var s := Snapshot(map[1 := Obj(name, [], 1), 2 := Obj(name, [], 1)], {p}, map[1 := 0, 2 := 1], {Room(room)}, 3);
    assert After(After(b, r1), r2) == s;
    assert p in s.places;
    assert 1 in NamedIn(s.places, Room(room), name);
    assert Of(s.places, 1) == {p} && Of(s.places, 2) == {};
    assert Spread(1, s.objs[1], Room(room)) == {p};
    AliasCloses(s, 2, Room(room), alias);
  }
}
