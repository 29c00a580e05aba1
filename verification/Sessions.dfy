/** A run, a save, a load and a run: the master's state read back from its own files
    (server_save_state of src/server.c, world_load of src/world.c, userdb_init of src/userdb.c). */
module Sessions {
  import opened Guard
  import opened Ownership
  import opened World
  import opened Pictures
  import opened Stores
  import opened Rereads
  import Requests
  import F = Files
  import WF = WorldFile

  // the loaded containers

  type Stocks<U> = map<Box, C.Stock<U>>

  /** One loaded container holds, with the right counts, what the state has there. */
  ghost predicate RestockedAt<U(!new)>(objs: map<ObjId, Obj>, shelf: Shelf, look: ObjId -> Look<U>, stock: C.Stock<U>) {
    exists bins: seq<C.Bin<U>> :: Views(objs, shelf, look, bins) && WF.SameStock(bins, stock)
  }

  ghost predicate Restocked<U(!new)>(s: Snapshot, boxes: map<Box, Shelf>, look: ObjId -> Look<U>, st: Stocks<U>) {
    st.Keys == boxes.Keys == s.boxes && forall b :: b in boxes ==> RestockedAt(s.objs, boxes[b], look, st[b])
  }

  lemma StockThing<U(!new)>(s: Snapshot, boxes: map<Box, Shelf>, look: ObjId -> Look<U>, b: Box, stock: C.Stock<U>, k: string, o: Thing<U>)
    requires Filed(boxes, s.places) && Consistent(s) && b in boxes && RestockedAt(s.objs, boxes[b], look, stock)
    requires o in C.At(stock.shelf, k)
    ensures o.id in s.objs && o == ThingOf(o.id, s.objs[o.id], look(o.id)) && Place(o.id, b, k) in s.places
    ensures o.id in stock.refs && stock.refs[o.id] == |Of(s.places, o.id)|
  {
    var bins: seq<C.Bin<U>> :| Views(s.objs, boxes[b], look, bins) && WF.SameStock(bins, stock);
    var i := StockBin(bins, stock.shelf, k, o);
    ViewedThing(s, boxes, look, b, bins, i, o);
    StockCount(s, boxes, look, b, bins, o.id, k);
  }

  lemma StockBin<U(!new)>(bins: seq<C.Bin<U>>, m: C.Shelf<U>, k: string, o: Thing<U>) returns (i: nat)
    requires C.SameContents(bins, m) && o in C.At(m, k)
    ensures i < |bins| && bins[i].key == k && o in bins[i].things
  {
    i :| i < |bins| && bins[i].key == k;
    assert o in multiset(m[k]);
    assert o in multiset(bins[i].things);
  }

  /** The count taken while loading is the number of entries. */
  lemma StockCount<U(!new)>(s: Snapshot, boxes: map<Box, Shelf>, look: ObjId -> Look<U>, b: Box, bins: seq<C.Bin<U>>, id: ObjId, k: string)
    requires Filed(boxes, s.places) && Consistent(s) && b in boxes && Views(s.objs, boxes[b], look, bins)
    requires Place(id, b, k) in s.places
    ensures id in C.Refs(C.Primaries(bins)) && C.Refs(C.Primaries(bins))[id] == |Of(s.places, id)|
  {
    PrimariesShown(s, boxes, look, b, bins);
    var os := C.Primaries(bins);
    assert id in Ids(os);
    var j: nat :| j < |os| && Ids(os)[j] == id;
    C.RefsAt(os, j);
    EntriesOf(s, id, b);
  }

  lemma EntriesOf(s: Snapshot, id: ObjId, b: Box)
    requires Consistent(s) && id in s.objs && Of(s.places, id) == Spread(id, s.objs[id], b)
    ensures |Of(s.places, id)| == 1 + |s.objs[id].aliases|
  {
    RefsAre(s.objs, s.places, s.extra, id);
    SpreadAdds({}, id, s.objs[id], b);
    assert Of({} + Spread(id, s.objs[id], b), id) == Spread(id, s.objs[id], b);
    assert Of({}, id) == {};
  }

  lemma StockHas<U(!new)>(s: Snapshot, boxes: map<Box, Shelf>, look: ObjId -> Look<U>, b: Box, stock: C.Stock<U>, k: string, id: ObjId)
    requires Filed(boxes, s.places) && Consistent(s) && b in boxes && RestockedAt(s.objs, boxes[b], look, stock)
    requires Place(id, b, k) in s.places
    ensures id in s.objs && ThingOf(id, s.objs[id], look(id)) in C.At(stock.shelf, k)
  {
    var bins: seq<C.Bin<U>> :| Views(s.objs, boxes[b], look, bins) && WF.SameStock(bins, stock);
    PlacedThing(s, boxes, look, b, bins, id, k);
    var o := ThingOf(id, s.objs[id], look(id));
    var i: nat :| i < |bins| && bins[i].key == k && o in bins[i].things;
    assert o in multiset(bins[i].things);
    assert o in multiset(stock.shelf[k]);
  }

  // the objects of the loaded containers

  function LoadedObj<U>(stock: C.Stock<U>, o: Thing<U>): Obj {
    Obj(o.name, o.aliases, if o.id in stock.refs then stock.refs[o.id] else 0)
  }

  function Read<U>(st: Stocks<U>): set<(ObjId, Obj)> {
    set b, k, i | b in st && k in st[b].shelf && 0 <= i < |st[b].shelf[k]| :: (st[b].shelf[k][i].id, LoadedObj(st[b], st[b].shelf[k][i]))
  }

  /** Whatever is loaded under one id is one object with one count. */
  ghost predicate OnePerId(read: set<(ObjId, Obj)>, objs: map<ObjId, Obj>) {
    forall p :: p in read ==> p.0 in objs && p.1 == objs[p.0]
  }

  lemma ReadOnePerId<U(!new)>(s: Snapshot, boxes: map<Box, Shelf>, look: ObjId -> Look<U>, st: Stocks<U>)
    requires Filed(boxes, s.places) && Consistent(s) && Restocked(s, boxes, look, st)
    ensures OnePerId(Read(st), Restarted(s).objs)
  {
    forall p | p in Read(st) ensures p.0 in Restarted(s).objs && p.1 == Restarted(s).objs[p.0] {
      var b, k, i :| b in st && k in st[b].shelf && 0 <= i < |st[b].shelf[k]|
                     && p == (st[b].shelf[k][i].id, LoadedObj(st[b], st[b].shelf[k][i]));
      var o := st[b].shelf[k][i];
      StockThing(s, boxes, look, b, st[b], k, o);
      assert Place(o.id, b, k) in Of(s.places, o.id);
    }
  }

  function Gathered(read: set<(ObjId, Obj)>, ghost objs: map<ObjId, Obj>): (r: map<ObjId, Obj>)
    requires OnePerId(read, objs)
    ensures forall id :: id in r ==> id in objs && r[id] == objs[id]
  {
    map p | p in read :: p.0 := p.1
  }

  /** The objects loaded are those the restarted state is to have. */
  lemma LoadedAre<U(!new)>(s: Snapshot, boxes: map<Box, Shelf>, look: ObjId -> Look<U>, st: Stocks<U>)
    requires Filed(boxes, s.places) && Consistent(s) && Restocked(s, boxes, look, st)
    ensures OnePerId(Read(st), Restarted(s).objs) && Gathered(Read(st), Restarted(s).objs) == Restarted(s).objs
  {
    ReadOnePerId(s, boxes, look, st);
    LoadedAll(s, boxes, look, st, Restarted(s).objs);
  }

  lemma LoadedAll<U(!new)>(s: Snapshot, boxes: map<Box, Shelf>, look: ObjId -> Look<U>, st: Stocks<U>, want: map<ObjId, Obj>)
    requires Filed(boxes, s.places) && Consistent(s) && Restocked(s, boxes, look, st)
    requires OnePerId(Read(st), want) && forall id :: id in want ==> Of(s.places, id) != {}
    ensures Gathered(Read(st), want) == want
  {
    forall id | id in want ensures id in Gathered(Read(st), want) {
      LoadedEntry(s, boxes, look, st, want, id);
    }
    Agree(Gathered(Read(st), want), want);
  }

  lemma LoadedEntry<U(!new)>(s: Snapshot, boxes: map<Box, Shelf>, look: ObjId -> Look<U>, st: Stocks<U>, want: map<ObjId, Obj>, id: ObjId)
    requires Filed(boxes, s.places) && Consistent(s) && Restocked(s, boxes, look, st)
    requires OnePerId(Read(st), want) && Of(s.places, id) != {}
    ensures id in Gathered(Read(st), want)
  {
    var p :| p in Of(s.places, id);
    EntryIs(boxes, s.places, p);
    StockHas(s, boxes, look, p.box, st[p.box], p.key, id);
    var o := ThingOf(id, s.objs[id], look(id));
    var i :| 0 <= i < |st[p.box].shelf[p.key]| && st[p.box].shelf[p.key][i] == o;
    assert (st[p.box].shelf[p.key][i].id, LoadedObj(st[p.box], st[p.box].shelf[p.key][i])) in Read(st);
  }

  function Shelves<U>(st: Stocks<U>): map<Box, Shelf> {
    map b | b in st :: IdShelf(st[b].shelf)
  }

  lemma ShelvesFiled<U(!new)>(s: Snapshot, boxes: map<Box, Shelf>, look: ObjId -> Look<U>, st: Stocks<U>)
    requires Filed(boxes, s.places) && Restocked(s, boxes, look, st)
    ensures Filed(Shelves(st), s.places)
  {
    var shelves := Shelves(st);
    assert shelves.Keys == boxes.Keys;
    forall b | b in boxes ensures SameLists(boxes[b], shelves[b]) {
      ShelvesAt(st, b);
      RestockedLists(s.objs, boxes[b], look, st[b]);
    }
    FiledSame(boxes, shelves, s.places);
  }

  lemma ShelvesAt<U>(st: Stocks<U>, b: Box)
    requires b in st
    ensures b in Shelves(st) && Shelves(st)[b] == IdShelf(st[b].shelf)
  {
  }

  lemma RestockedLists<U(!new)>(objs: map<ObjId, Obj>, shelf: Shelf, look: ObjId -> Look<U>, stock: C.Stock<U>)
    requires RestockedAt(objs, shelf, look, stock)
    ensures SameLists(shelf, IdShelf(stock.shelf))
  {
    var bins: seq<C.Bin<U>> :| Views(objs, shelf, look, bins) && WF.SameStock(bins, stock);
    StockLists(objs, shelf, look, bins, stock.shelf);
  }

  /** What was read is what was shown, in that order. */
  ghost predicate Reads<U(!new)>(f: Store, objs: map<ObjId, Obj>, look: ObjId -> Look<U>, st: Stocks<U>) {
    st.Keys == f.boxes.Keys && forall b :: b in st ==> st[b] == C.StockOf(C.Primaries(Shown(f, objs, look, b)))
  }

  /** The loaded lists, and the tables that filing the objects as they were read has made. */
  function LoadedStore<U>(signed: bool, st: Stocks<U>): Store {
    Store(signed, Shelves(st), LoadedTables(signed, st), true)
  }

  function LoadedTables<U>(signed: bool, st: Stocks<U>): Indices {
    map b | b in st :: IndexOf(signed, b, |st[b].read|, FileThings(b, st[b].read))
  }

  lemma LoadedTable<U>(signed: bool, st: Stocks<U>, b: Box)
    requires b in st
    ensures b in LoadedTables(signed, st)
    ensures LoadedTables(signed, st)[b] == IndexOf(signed, b, |st[b].read|, FileThings(b, st[b].read))
  {
  }

  lemma LoadedBox<U(!new)>(f: Store, objs: map<ObjId, Obj>, look: ObjId -> Look<U>, st: Stocks<U>, b: Box)
    requires Tabled(f) && Reads(f, objs, look, st) && b in f.boxes
    ensures b in Shelves(st) && b in LoadedTables(f.signed, st)
    ensures Shelves(st)[b] == ShelfOf(f, objs, b)
    ensures LoadedTables(f.signed, st)[b] == RereadIndex(f, objs, b)
    ensures Indexed(f.signed, LoadedTables(f.signed, st)[b], Shelves(st)[b]) && LoadedTables(f.signed, st)[b].drift.nodes == 0
  {
    var os := C.Primaries(Shown(f, objs, look, b));
    assert st[b] == C.StockOf(os);
    ShelvesAt(st, b);
    LoadedTable(f.signed, st, b);
    RereadAt(f, objs, look, b, os);
    LoadedIndex(f.signed, b, |os|, os);
  }

  lemma LoadedKeys<U>(signed: bool, st: Stocks<U>)
    ensures LoadedStore(signed, st).boxes.Keys == st.Keys == LoadedStore(signed, st).tables.Keys
  {
  }

  lemma LoadedIs<U(!new)>(f: Store, objs: map<ObjId, Obj>, look: ObjId -> Look<U>, st: Stocks<U>)
    requires Tabled(f) && Reads(f, objs, look, st)
    ensures LoadedStore(f.signed, st) == Reread(f, objs) && Tabled(Reread(f, objs)) && Exact(Reread(f, objs))
  {
    var g := LoadedStore(f.signed, st);
    LoadedKeys(f.signed, st);
    forall b | b in f.boxes
      ensures g.boxes[b] == ShelfOf(f, objs, b) && g.tables[b] == RereadIndex(f, objs, b)
      ensures Indexed(g.signed, g.tables[b], g.boxes[b]) && g.tables[b].drift.nodes == 0
    {
      LoadedBox(f, objs, look, st, b);
    }
    RereadIs(f, objs, g);
    TabledFrom(g);
  }

  lemma TabledFrom(f: Store)
    requires f.tables.Keys == f.boxes.Keys
    requires forall b :: b in f.boxes ==> Indexed(f.signed, f.tables[b], f.boxes[b]) && f.tables[b].drift.nodes == 0
    ensures Tabled(f) && Exact(f)
  {
  }

  /** The loaded containers as the master's state: it meets the invariant of every run, no reference
      is held by anything but an entry, and no table has a deletion uncounted. */
  method Resume<U(!new)>(st: Stocks<U>, counter: ObjId, signed: bool, ghost s: Snapshot, ghost f: Store, ghost look: ObjId -> Look<U>)
    returns (w: World)
    requires Filed(f.boxes, s.places) && Consistent(s) && Restocked(s, f.boxes, look, st)
    requires Tabled(f) && Reads(f, s.objs, look, st) && signed == f.signed
    requires counter == Restarted(s).counter && forall o :: o in s.objs ==> o < s.counter
    ensures fresh(w) && w.Inv() && w.Numbered() && w.Snap() == Restarted(s)
    ensures w.State() == Reread(f, s.objs) && w.sane && Tabled(w.State()) && Exact(w.State())
  {
    ghost var t := Restarted(s);
    Resumable(s, f.boxes, look, st);
    LoadedIs(f, s.objs, look, st);
    w := new World(Gathered(Read(st), t.objs), LoadedStore(signed, st), counter, t.places, t.extra);
  }

  lemma Resumable<U(!new)>(s: Snapshot, boxes: map<Box, Shelf>, look: ObjId -> Look<U>, st: Stocks<U>)
    requires Filed(boxes, s.places) && Consistent(s) && Restocked(s, boxes, look, st)
    requires forall o :: o in s.objs ==> o < s.counter
    ensures var t := Restarted(s);
            && OnePerId(Read(st), t.objs) && Gathered(Read(st), t.objs) == t.objs && Shelves(st).Keys == t.boxes
            && Filed(Shelves(st), t.places) && Consistent(t) && forall o :: o in t.objs ==> o < t.counter
  {
    LoadedAre(s, boxes, look, st);
    ShelvesFiled(s, boxes, look, st);
    RestartedConsistent(s);
  }

  // from the files' rooms and users to containers and back

  function StocksOf<U, W, D>(l: WF.LoadedWorld<U, W>, t: map<string, UF.LoadedUser<U, D>>): Stocks<U> {
    (map i | 0 <= i < |l.rooms| :: Room(i) := l.rooms[i].objects) + (map n | n in t :: Inventory(n) := t[n].objects)
  }

  lemma StocksRestocked<U(!new), W(!new), D(!new)>(s: Snapshot, boxes: map<Box, Shelf>, look: ObjId -> Look<U>, w: WC.World<U, W>,
                                                   us: seq<UF.User<U, D>>, l: WF.LoadedWorld<U, W>, t: map<string, UF.LoadedUser<U, D>>)
    requires Pictured(s, boxes, look, w, us) && WF.SameWorld(w, l) && UF.SameUsers(us, t)
    ensures Restocked(s, boxes, look, StocksOf(l, t))
  {
    var st := StocksOf(l, t);
    StocksKeys(w, us, l, t);
    forall b | b in boxes ensures RestockedAt(s.objs, boxes[b], look, st[b]) {
      StockKeys(l, t, b);
      match b
      case Room(i) => RoomRestocked(s, boxes, look, w, us, l, i);
      case Inventory(n) => UserRestocked(s, boxes, look, w, us, t, n);
    }
  }

  lemma RoomRestocked<U(!new), W(!new), D(!new)>(s: Snapshot, boxes: map<Box, Shelf>, look: ObjId -> Look<U>, w: WC.World<U, W>,
                                                 us: seq<UF.User<U, D>>, l: WF.LoadedWorld<U, W>, i: nat)
    requires Pictured(s, boxes, look, w, us) && WF.SameWorld(w, l) && i < |w.rooms|
    ensures Room(i) in boxes && RestockedAt(s.objs, boxes[Room(i)], look, l.rooms[i].objects)
  {
    assert WF.SameRoom(w.rooms[i], l.rooms[i]);
    assert Views(s.objs, boxes[Room(i)], look, w.rooms[i].bins);
  }

  lemma UserRestocked<U(!new), W(!new), D(!new)>(s: Snapshot, boxes: map<Box, Shelf>, look: ObjId -> Look<U>, w: WC.World<U, W>,
                                                 us: seq<UF.User<U, D>>, t: map<string, UF.LoadedUser<U, D>>, n: string)
    requires Pictured(s, boxes, look, w, us) && UF.SameUsers(us, t) && n in t
    ensures Inventory(n) in boxes && RestockedAt(s.objs, boxes[Inventory(n)], look, t[n].objects)
  {
    var j :| 0 <= j < |us| && UF.UserName(us[j].fields) == n;
    assert UF.SameUser(us[j], t[n]) && UserOf(us[j]) == n;
    assert Views(s.objs, boxes[Inventory(n)], look, us[j].bins);
  }

  lemma StockKeys<U, W, D>(l: WF.LoadedWorld<U, W>, t: map<string, UF.LoadedUser<U, D>>, b: Box)
    ensures var st := StocksOf(l, t);
            match b
            case Room(i) => (b in st <==> i < |l.rooms|) && (b in st ==> st[b] == l.rooms[i].objects)
            case Inventory(n) => (b in st <==> n in t) && (b in st ==> st[b] == t[n].objects)
  {
  }

  lemma StocksKeys<U, W, D>(w: WC.World<U, W>, us: seq<UF.User<U, D>>, l: WF.LoadedWorld<U, W>, t: map<string, UF.LoadedUser<U, D>>)
    requires WF.SameWorld(w, l) && UF.SameUsers(us, t)
    ensures StocksOf(l, t).Keys == BoxSet(|w.rooms|, us)
  {
    SameUserSet(us, t);
    forall b ensures b in StocksOf(l, t).Keys <==> b in BoxSet(|w.rooms|, us) {
      StockKeys(l, t, b);
      BoxIn(|w.rooms|, us, b);
    }
  }

  lemma BoxIn<U, D>(n: nat, us: seq<UF.User<U, D>>, b: Box)
    ensures b in BoxSet(n, us) <==>
            match b
            case Room(i) => i < n
            case Inventory(name) => exists j :: 0 <= j < |us| && UserOf(us[j]) == name
  {
  }

  lemma SameUserSet<U, D>(us: seq<UF.User<U, D>>, t: map<string, UF.LoadedUser<U, D>>)
    requires UF.SameUsers(us, t)
    ensures forall n :: n in t <==> exists j :: 0 <= j < |us| && UserOf(us[j]) == n
  {
    forall n ensures n in t <==> exists j :: 0 <= j < |us| && UserOf(us[j]) == n {
      if n in t {
        var i :| 0 <= i < |us| && UF.UserName(us[i].fields) == n;
        assert UserOf(us[i]) == n;
      }
      if j :| 0 <= j < |us| && UserOf(us[j]) == n {
        assert UF.UserName(us[j].fields) in t;
      }
    }
  }

  // the objects the user file holds

  ghost function CarriedBy<U, D>(s: Snapshot, us: seq<UF.User<U, D>>): set<ObjId> {
    set p, j | p in s.places && 0 <= j < |us| && p.box == Inventory(UserOf(us[j])) :: p.obj
  }

  lemma {:induction false} CreatedAre<U(!new), D(!new)>(s: Snapshot, boxes: map<Box, Shelf>, look: ObjId -> Look<U>, us: seq<UF.User<U, D>>)
    requires Filed(boxes, s.places) && Consistent(s) && UsersApart(us)
    requires forall j :: 0 <= j < |us| ==>
               Inventory(UserOf(us[j])) in boxes && Views(s.objs, boxes[Inventory(UserOf(us[j]))], look, us[j].bins)
    ensures UF.Created(UF.UserRecords(us)) == |CarriedBy(s, us)|
  {
    if us == [] {
      assert CarriedBy(s, us) == {};
    } else {
      var front, last := us[..|us| - 1], us[|us| - 1];
      CreatedAre(s, boxes, look, front);
      assert UF.UserRecords(us)[..|us| - 1] == UF.UserRecords(front);
      var b, os := Inventory(UserOf(last)), C.Primaries(last.bins);
      PrimariesShown(s, boxes, look, b, last.bins);
      IdsFew(os, s.objs.Keys);
      var ids := set id | id in Ids(os);
      CarriedLast(s, us, ids);
    }
  }

  lemma CarriedLast<U, D>(s: Snapshot, us: seq<UF.User<U, D>>, ids: set<ObjId>)
    requires Consistent(s) && UsersApart(us) && us != []
    requires forall id :: id in ids <==> HasEntry(s.places, id, Inventory(UserOf(us[|us| - 1])))
    ensures |CarriedBy(s, us)| == |CarriedBy(s, us[..|us| - 1])| + |ids|
  {
    var front, b := us[..|us| - 1], Inventory(UserOf(us[|us| - 1]));
    forall id ensures id in CarriedBy(s, us) <==> id in CarriedBy(s, front) || id in ids {
      if p, j :| p in s.places && 0 <= j < |us| && p.box == Inventory(UserOf(us[j])) && p.obj == id {
        if j < |front| { assert front[j] == us[j]; } else { assert p == Place(id, b, p.key); }
      }
      if p, j :| p in s.places && 0 <= j < |front| && p.box == Inventory(UserOf(front[j])) && p.obj == id {
        assert us[j] == front[j];
      }
    }
    assert CarriedBy(s, us) == CarriedBy(s, front) + ids;
    forall id | id in ids ensures id !in CarriedBy(s, front) {
      var k :| Place(id, b, k) in s.places;
      if p, j :| p in s.places && 0 <= j < |front| && p.box == Inventory(UserOf(front[j])) && p.obj == id {
        assert us[j] == front[j];
        InOneBox(s, p, Place(id, b, k));
      }
    }
  }

  lemma InOneBox(s: Snapshot, p: Place, q: Place)
    requires Consistent(s) && p in s.places && q in s.places && p.obj == q.obj
    ensures p.box == q.box
  {
    assert Closed(s.objs, s.places);
    assert Opened(0);
  }

  lemma CreatedIsCarried<U(!new), W(!new), D(!new)>(s: Snapshot, boxes: map<Box, Shelf>, look: ObjId -> Look<U>, w: WC.World<U, W>,
                                                    us: seq<UF.User<U, D>>)
    requires Filed(boxes, s.places) && Consistent(s) && Pictured(s, boxes, look, w, us)
    ensures UF.Created(UF.UserRecords(us)) == |Carried(s)|
  {
    CreatedAre(s, boxes, look, us);
    forall p | p in s.places && p.box.Inventory? ensures p.obj in CarriedBy(s, us) {
      EntryIs(boxes, s.places, p);
      var j :| 0 <= j < |us| && p.box == Inventory(UserOf(us[j]));
    }
    assert CarriedBy(s, us) == Carried(s);
  }

  // saving

  /** One container as iterating its table shows it. */
  method BinsOf<U(!new)>(w: World, b: Box, look: ObjId -> Look<U>) returns (bins: seq<C.Bin<U>>)
    requires Tabled(w.State()) && b in w.boxes
    ensures bins == Shown(w.State(), w.objs, look, b)
  {
    bins := BinsIn(w.objs, w.boxes[b], TableOrder(w.tables[b]), look);
  }

  /** The rooms of the world, with their objects filled in. */
  method RoomsOf<U(!new), W>(w: World, look: ObjId -> Look<U>, frame: seq<WC.Room<U, W>>) returns (rooms: seq<WC.Room<U, W>>)
    requires Tabled(w.State()) && forall i :: 0 <= i < |frame| ==> Room(i) in w.boxes
    ensures |rooms| == |frame|
    ensures forall i :: 0 <= i < |rooms| ==> rooms[i] == frame[i].(bins := Shown(w.State(), w.objs, look, Room(i)))
  {
    rooms := [];
    for i := 0 to |frame|
      invariant |rooms| == i
      invariant forall j :: 0 <= j < i ==> rooms[j] == frame[j].(bins := Shown(w.State(), w.objs, look, Room(j)))
    {
      var bins := BinsOf(w, Room(i), look);
      rooms := rooms + [frame[i].(bins := bins)];
    }
  }

  method UsersOf<U(!new), D>(w: World, look: ObjId -> Look<U>, frame: seq<UF.User<U, D>>) returns (us: seq<UF.User<U, D>>)
    requires Tabled(w.State()) && forall j :: 0 <= j < |frame| ==> Inventory(UserOf(frame[j])) in w.boxes
    ensures |us| == |frame|
    ensures forall j :: 0 <= j < |us| ==> us[j] == frame[j].(bins := Shown(w.State(), w.objs, look, Inventory(UserOf(frame[j]))))
  {
    us := [];
    for i := 0 to |frame|
      invariant |us| == i
      invariant forall j :: 0 <= j < i ==> us[j] == frame[j].(bins := Shown(w.State(), w.objs, look, Inventory(UserOf(frame[j]))))
    {
      var bins := BinsOf(w, Inventory(UserOf(frame[i])), look);
      us := us + [frame[i].(bins := bins)];
    }
  }

  /** What a save needs besides the state: texts, exits, verbs and user records that can be written,
      for exactly the rooms and users there are. */
  ghost predicate Frames<U, W, D>(s: Snapshot, m: WC.Module<U, W>, mu: UF.Module<U, D>, frame: WC.World<U, W>, users: seq<UF.User<U, D>>) {
    && WC.GoodRecord(m, WC.Recorded(frame))
    && |users| < B.SIZE_LIMIT && (forall j :: 0 <= j < |users| ==> |users[j].fields| == UF.FIELDS && |users[j].addresses| == UF.ADDRESSES)
    && UsersApart(users) && s.boxes == BoxSet(|frame.rooms|, users)
  }

  /** The rooms and users that go into the files, with what their tables list. */
  ghost predicate ShownIn<U, W, D>(f: Store, objs: map<ObjId, Obj>, look: ObjId -> Look<U>, w: WC.World<U, W>, us: seq<UF.User<U, D>>) {
    && (forall i :: 0 <= i < |w.rooms| ==> w.rooms[i].bins == Shown(f, objs, look, Room(i)))
    && (forall j :: 0 <= j < |us| ==> us[j].bins == Shown(f, objs, look, Inventory(UserOf(us[j]))))
  }

  lemma ShownPictured<U(!new), W, D>(s: Snapshot, f: Store, look: ObjId -> Look<U>, w: WC.World<U, W>, us: seq<UF.User<U, D>>)
    requires Tabled(f) && ShownIn(f, s.objs, look, w, us)
    requires w.counter == s.counter && UsersApart(us) && f.boxes.Keys == s.boxes == BoxSet(|w.rooms|, us)
    ensures Pictured(s, f.boxes, look, w, us)
  {
    BoxesThere(|w.rooms|, us);
    forall i | 0 <= i < |w.rooms| ensures Room(i) in f.boxes && Views(s.objs, f.boxes[Room(i)], look, w.rooms[i].bins) {
      ShownViews(f, s.objs, look, Room(i));
    }
    forall j | 0 <= j < |us|
      ensures Inventory(UserOf(us[j])) in f.boxes && Views(s.objs, f.boxes[Inventory(UserOf(us[j]))], look, us[j].bins)
    {
      ShownViews(f, s.objs, look, Inventory(UserOf(us[j])));
    }
  }

  /** The state as world_save and userdb_write find it. */
  method Picture<U(!new), W, D>(w: World, look: ObjId -> Look<U>, frame: WC.World<U, W>, users: seq<UF.User<U, D>>)
    returns (ww: WC.World<U, W>, us: seq<UF.User<U, D>>)
    requires Tabled(w.State()) && UsersApart(users) && w.boxes.Keys == BoxSet(|frame.rooms|, users)
    ensures Pictured(w.Snap(), w.boxes, look, ww, us) && ShownIn(w.State(), w.objs, look, ww, us)
    ensures ww == frame.(rooms := ww.rooms, counter := w.idCounter) && |ww.rooms| == |frame.rooms| && |us| == |users|
    ensures forall i :: 0 <= i < |ww.rooms| ==> ww.rooms[i] == frame.rooms[i].(bins := ww.rooms[i].bins)
    ensures forall j :: 0 <= j < |us| ==> us[j] == users[j].(bins := us[j].bins)
  {
    BoxesThere(|frame.rooms|, users);
    var rooms := RoomsOf(w, look, frame.rooms);
    us := UsersOf(w, look, users);
    ww := frame.(rooms := rooms, counter := w.idCounter);
    SameBoxes(|ww.rooms|, us, users);
    ShownPictured(w.Snap(), w.State(), look, ww, us);
  }

  lemma BoxesThere<U, D>(n: nat, us: seq<UF.User<U, D>>)
    ensures forall i :: 0 <= i < n ==> Room(i) in BoxSet(n, us)
    ensures forall j :: 0 <= j < |us| ==> Inventory(UserOf(us[j])) in BoxSet(n, us)
  {
  }

  lemma SameBoxes<U, D>(n: nat, us: seq<UF.User<U, D>>, users: seq<UF.User<U, D>>)
    requires |us| == |users| && forall j :: 0 <= j < |us| ==> us[j] == users[j].(bins := us[j].bins)
    ensures BoxSet(n, us) == BoxSet(n, users) && (UsersApart(users) ==> UsersApart(us))
    ensures forall j :: 0 <= j < |us| ==> UserOf(us[j]) == UserOf(users[j])
  {
    forall j | 0 <= j < |us| ensures UserOf(us[j]) == UserOf(users[j]) {
      assert us[j].fields == users[j].fields;
    }
  }

  lemma FramedStorable<U(!new), W(!new), D(!new)>(s: Snapshot, boxes: map<Box, Shelf>, look: ObjId -> Look<U>, m: WC.Module<U, W>,
                                                  mu: UF.Module<U, D>, frame: WC.World<U, W>, users: seq<UF.User<U, D>>,
                                                  w: WC.World<U, W>, us: seq<UF.User<U, D>>)
    requires Filed(boxes, s.places) && Consistent(s) && Pictured(s, boxes, look, w, us) && Frames(s, m, mu, frame, users)
    requires AllStorable(s, look, m.objClasses) && AllStorable(s, look, mu.classes) && 0 <= s.counter < B.SIZE_LIMIT
    requires w == frame.(rooms := w.rooms, counter := s.counter) && |w.rooms| == |frame.rooms| && |us| == |users|
    requires forall i :: 0 <= i < |w.rooms| ==> w.rooms[i] == frame.rooms[i].(bins := w.rooms[i].bins)
    requires forall j :: 0 <= j < |us| ==> us[j] == users[j].(bins := us[j].bins)
    ensures WF.GoodWorld(m, w) && UF.GoodUsers(mu, us)
  {
    forall i: nat | i < |w.rooms|
      ensures WC.GoodRoom(m, WC.RoomRecords(w.rooms)[i]) && C.ClosedBins(w.rooms[i].bins)
    {
      WC.GoodRoomAt(m, WC.RoomRecords(frame.rooms), i);
      assert WC.RoomRecords(frame.rooms)[i] == WC.RecordOf(frame.rooms[i]);
      ShownStorable(s, boxes, look, m.objClasses, Room(i), w.rooms[i].bins);
    }
    forall j | 0 <= j < |us| ensures UF.GoodUser(mu, us[j]) {
      ShownStorable(s, boxes, look, mu.classes, Inventory(UserOf(us[j])), us[j].bins);
    }
    assert WC.GoodRooms(m, WC.RoomRecords(w.rooms));
  }

  /** Both files are written, over an old world file, and both are read back. */
  method ThroughFiles<U(!new), W(!new), D(!new)>(m: WC.Module<U, W>, mu: UF.Module<U, D>, w: WC.World<U, W>, us: seq<UF.User<U, D>>,
                                                 oldFile: string)
    returns (l: WF.LoadedWorld<U, W>, t: map<string, UF.LoadedUser<U, D>>, counter: int)
    requires WC.Faithful(m) && UF.Faithful(mu) && WF.GoodWorld(m, w) && UF.GoodUsers(mu, us)
    requires 0 <= w.counter && w.counter + UF.Created(UF.UserRecords(us)) < B.SIZE_LIMIT
    requires Restart.Numbered((at, o) => Restart.Saved(w, us, at, o), w.counter)
    ensures WF.SameWorld(w, l) && UF.SameUsers(us, t) && counter == w.counter + UF.Created(UF.UserRecords(us))
  {
    var worldFile := new F.Output(oldFile);
    WF.Save(worldFile, m, w);
    var userFile := new F.Output("");
    UF.Save(userFile, mu, us);
    var f := new F.Input(worldFile.bytes, 1);
    ghost var junk := F.Beyond(oldFile, |WC.WriteWorld(m, WC.Recorded(w))|);
    l, t := Restart.Restore(f, m, mu, userFile.bytes, w, us, junk, |w.rooms|, w.name);
    counter := f.counter;
  }

  /** What is read back of each container is what was shown of it. */
  lemma StocksRead<U(!new), W(!new), D(!new)>(f: Store, objs: map<ObjId, Obj>, look: ObjId -> Look<U>, w: WC.World<U, W>,
                                              us: seq<UF.User<U, D>>, l: WF.LoadedWorld<U, W>, t: map<string, UF.LoadedUser<U, D>>)
    requires ShownIn(f, objs, look, w, us) && f.boxes.Keys == BoxSet(|w.rooms|, us)
    requires WF.SameWorld(w, l) && UF.SameUsers(us, t)
    ensures Reads(f, objs, look, StocksOf(l, t))
  {
    var st := StocksOf(l, t);
    StocksKeys(w, us, l, t);
    forall b | b in st ensures st[b] == C.StockOf(C.Primaries(Shown(f, objs, look, b))) {
      StockKeys(l, t, b);
      match b
      case Room(i) =>
        assert WF.SameRoom(w.rooms[i], l.rooms[i]);
      case Inventory(n) =>
        var j :| 0 <= j < |us| && UF.UserName(us[j].fields) == n;
        assert UF.SameUser(us[j], t[n]) && UserOf(us[j]) == n;
    }
  }

  method PictureThroughFiles<U(!new), W(!new), D(!new)>(ghost s: Snapshot, ghost boxes: map<Box, Shelf>, ghost look: ObjId -> Look<U>,
                                                        m: WC.Module<U, W>, mu: UF.Module<U, D>, w: WC.World<U, W>,
                                                        us: seq<UF.User<U, D>>, oldFile: string)
    returns (l: WF.LoadedWorld<U, W>, t: map<string, UF.LoadedUser<U, D>>, counter: int)
    requires WC.Faithful(m) && UF.Faithful(mu) && WF.GoodWorld(m, w) && UF.GoodUsers(mu, us)
    requires Filed(boxes, s.places) && Consistent(s) && Pictured(s, boxes, look, w, us)
    requires 0 <= s.counter && Restarted(s).counter < B.SIZE_LIMIT && forall o :: o in s.objs ==> o < s.counter
    ensures WF.SameWorld(w, l) && UF.SameUsers(us, t) && counter == Restarted(s).counter
  {
    PictureNumbered(s, boxes, look, w, us);
    CreatedIsCarried(s, boxes, look, w, us);
    l, t, counter := ThroughFiles(m, mu, w, us, oldFile);
  }

  method FromFiles<U(!new), W(!new), D(!new)>(l: WF.LoadedWorld<U, W>, t: map<string, UF.LoadedUser<U, D>>, counter: ObjId, signed: bool,
                                              ghost s: Snapshot, ghost f: Store, ghost look: ObjId -> Look<U>,
                                              ghost w: WC.World<U, W>, ghost us: seq<UF.User<U, D>>)
    returns (w': World)
    requires Filed(f.boxes, s.places) && Consistent(s) && Tabled(f) && signed == f.signed
    requires Pictured(s, f.boxes, look, w, us) && ShownIn(f, s.objs, look, w, us)
    requires WF.SameWorld(w, l) && UF.SameUsers(us, t)
    requires counter == Restarted(s).counter && forall o :: o in s.objs ==> o < s.counter
    ensures fresh(w') && w'.Inv() && w'.Numbered() && w'.Snap() == Restarted(s)
    ensures w'.State() == Reread(f, s.objs) && w'.sane && Tabled(w'.State()) && Exact(w'.State())
  {
    StocksRestocked(s, f.boxes, look, w, us, l, t);
    StocksRead(f, s.objs, look, w, us, l, t);
    w' := Resume(StocksOf(l, t), counter, signed, s, f, look);
  }

  /** The master goes on from its own files with everything in its place and no reference that is
      not an entry's, and with hash tables made afresh in the order of the old ones. */
  method SaveAndLoad<U(!new), W(!new), D(!new)>(w: World, look: ObjId -> Look<U>, m: WC.Module<U, W>, mu: UF.Module<U, D>,
                                                frame: WC.World<U, W>, users: seq<UF.User<U, D>>, oldFile: string)
    returns (w': World)
    requires w.Inv() && w.Numbered() && Tabled(w.State()) && WC.Faithful(m) && UF.Faithful(mu)
    requires Frames(w.Snap(), m, mu, frame, users) && AllStorable(w.Snap(), look, m.objClasses) && AllStorable(w.Snap(), look, mu.classes)
    requires 0 <= w.idCounter && Restarted(w.Snap()).counter < B.SIZE_LIMIT
    ensures fresh(w') && w'.Inv() && w'.Numbered() && w'.Snap() == Restarted(w.Snap())
    ensures w'.State() == Reread(w.State(), w.objs) && w'.sane && Tabled(w'.State()) && Exact(w'.State())
  {
    ghost var s, f, boxes := w.Snap(), w.State(), w.boxes;
    var ww, us := Picture(w, look, frame, users);
    FramedStorable(s, boxes, look, m, mu, frame, users, ww, us);
    var l, t, counter := PictureThroughFiles(s, boxes, look, m, mu, ww, us, oldFile);
    w' := FromFiles(l, t, counter, w.signed, s, f, look, ww, us);
  }

  /** The state that a save and a load lead to. */
  ghost function Reloaded(w: Requests.Whole): Requests.Whole {
    Requests.Whole(Restarted(w.snap), Reread(w.store, w.snap.objs))
  }

  /** A run, a restart and a run: the second run starts from what the first has left in containers,
      and both get through exactly if no assertion of a hash table fails. */
  method Session<U(!new), W(!new), D(!new)>(w: World, before: seq<Requests.Req>, look: ObjId -> Look<U>, m: WC.Module<U, W>, mu: UF.Module<U, D>,
                                            frame: WC.World<U, W>, users: seq<UF.User<U, D>>, oldFile: string, after: seq<Requests.Req>)
    returns (ok: bool, w': World)
    requires w.Inv() && w.Numbered() && w.sane && Tabled(w.State()) && WC.Faithful(m) && UF.Faithful(mu)
    requires var s := Requests.AfterAll(w.Snap(), before);
             Requests.NextAll(Requests.Whole(w.Snap(), w.State()), before).store.sane ==>
               && Frames(s, m, mu, frame, users) && AllStorable(s, look, m.objClasses) && AllStorable(s, look, mu.classes)
               && 0 <= s.counter && Restarted(s).counter < B.SIZE_LIMIT
    modifies w
    ensures var mid := Requests.NextAll(Requests.Whole(old(w.Snap()), old(w.State())), before);
            && ok == (mid.store.sane && Requests.NextAll(Reloaded(mid), after).store.sane)
            && (ok ==> Requests.Whole(w'.Snap(), w'.State()) == Requests.NextAll(Reloaded(mid), after))
    ensures ok ==> fresh(w') && w'.Inv() && w'.Numbered()
    ensures ok ==> w'.Snap() == Requests.AfterAll(Restarted(Requests.AfterAll(old(w.Snap()), before)), after)
    ensures ok ==> forall o :: o in w'.objs ==>
              w'.objs[o].refs == |Of(w'.places, o)| + Requests.Tally(Restarted(Requests.AfterAll(old(w.Snap()), before)), after, o)
  {
    ghost var start := Requests.Whole(w.Snap(), w.State());
    Requests.NextAllTabled(start, before);
    ok := Requests.Run(w, before);
    if !ok {
      return false, w;
    }
    w' := SaveAndLoad(w, look, m, mu, frame, users, oldFile);
    ok := Requests.Run(w', after);
  }
}
