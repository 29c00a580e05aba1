/** The order in which a save writes the objects of a container, and the lists and the hash table that
    reading them back in that order gives. */
module Rereads {
  import opened Guard
  import opened HashSpec
  import opened HashLaws
  import opened Ownership
  import opened Stores
  import opened Pictures

  // saving: the table's order of the keys, and of each list the objects of that name

  function KeysIn(es: Chain<string, ()>): (r: seq<string>)
    ensures |r| == |es| && forall i :: 0 <= i < |r| ==> r[i] == es[i].key
  {
    seq(|es|, i requires 0 <= i < |es| => es[i].key)
  }

  function TableOrder(x: Index): seq<string> { KeysIn(Flat(x.table.buckets)) }

  /** The iterator of a container's table meets each of its keys once. */
  lemma TableOrderIs(signed: bool, x: Index, s: Shelf)
    requires Indexed(signed, x, s)
    ensures forall k :: k in TableOrder(x) <==> k in s
    ensures forall i, j :: 0 <= i < j < |TableOrder(x)| ==> TableOrder(x)[i] != TableOrder(x)[j]
  {
    assert Opened(0);
    KeysFit(signed);
    var es, m := Flat(x.table.buckets), Abs(Keys(signed), x.table);
    EntriesDistinct(Keys(signed), x.table.buckets);
    forall k ensures k in TableOrder(x) <==> k in m {
      if k in TableOrder(x) {
        var i :| 0 <= i < |es| && es[i].key == k;
        assert es[i] in es;
      }
      if k in m {
        var e :| e in es && e.key == k;
        var i :| 0 <= i < |es| && es[i] == e;
        assert TableOrder(x)[i] == k;
      }
    }
  }

  function OwnName(objs: map<ObjId, Obj>, k: string, ids: seq<ObjId>): seq<ObjId> {
    if ids == [] then []
    else if Rec(objs, ids[0]).name == k then [ids[0]] + OwnName(objs, k, ids[1..])
    else OwnName(objs, k, ids[1..])
  }

  function SavedIds(objs: map<ObjId, Obj>, shelf: Shelf, order: seq<string>): seq<ObjId> {
    if order == [] then [] else OwnName(objs, order[0], Listed(shelf, order[0])) + SavedIds(objs, shelf, order[1..])
  }

  function BinsIn<U>(objs: map<ObjId, Obj>, shelf: Shelf, order: seq<string>, look: ObjId -> Look<U>): (r: seq<C.Bin<U>>)
    ensures |r| == |order|
    ensures forall i :: 0 <= i < |r| ==> r[i] == C.Bin(order[i], Things(objs, Listed(shelf, order[i]), look))
  {
    seq(|order|, i requires 0 <= i < |order| => C.Bin(order[i], Things(objs, Listed(shelf, order[i]), look)))
  }

  lemma ThingsCons<U>(objs: map<ObjId, Obj>, ids: seq<ObjId>, look: ObjId -> Look<U>)
    requires ids != []
    ensures Things(objs, ids, look) == [ThingOf(ids[0], Rec(objs, ids[0]), look(ids[0]))] + Things(objs, ids[1..], look)
    ensures Things(objs, ids, look)[1..] == Things(objs, ids[1..], look)
  {
  }

  lemma ThingsJoin<U>(objs: map<ObjId, Obj>, a: seq<ObjId>, b: seq<ObjId>, look: ObjId -> Look<U>)
    ensures Things(objs, a + b, look) == Things(objs, a, look) + Things(objs, b, look)
  {
  }

  lemma {:induction false} NamedThings<U>(objs: map<ObjId, Obj>, k: string, ids: seq<ObjId>, look: ObjId -> Look<U>)
    ensures C.Named(k, Things(objs, ids, look)) == Things(objs, OwnName(objs, k, ids), look)
  {
    if ids != [] {
      ThingsCons(objs, ids, look);
      NamedThings(objs, k, ids[1..], look);
      if Rec(objs, ids[0]).name == k {
        ThingsJoin(objs, [ids[0]], OwnName(objs, k, ids[1..]), look);
      }
    }
  }

  /** What is written of a container, in its order. */
  lemma {:induction false} PrimariesIn<U>(objs: map<ObjId, Obj>, shelf: Shelf, order: seq<string>, look: ObjId -> Look<U>)
    ensures C.Primaries(BinsIn(objs, shelf, order, look)) == Things(objs, SavedIds(objs, shelf, order), look)
  {
    if order != [] {
      PrimariesIn(objs, shelf, order[1..], look);
      assert BinsIn(objs, shelf, order, look)[1..] == BinsIn(objs, shelf, order[1..], look);
      NamedThings(objs, order[0], Listed(shelf, order[0]), look);
      ThingsJoin(objs, OwnName(objs, order[0], Listed(shelf, order[0])), SavedIds(objs, shelf, order[1..]), look);
    }
  }

  // loading: each object under its name and its aliases

  function FileIds(b: Box, objs: map<ObjId, Obj>, ids: seq<ObjId>): seq<Act> {
    if ids == [] then [] else FileIds(b, objs, ids[..|ids| - 1]) + FileActs(b, ids[|ids| - 1], Rec(objs, ids[|ids| - 1]))
  }

  function FileThings<U>(b: Box, os: seq<Thing<U>>): seq<Act> {
    if os == [] then []
    else
      var o := os[|os| - 1];
      FileThings(b, os[..|os| - 1]) + FileActs(b, o.id, Obj(o.name, o.aliases, 0))
  }

  lemma {:induction false} SameFiles<U>(b: Box, objs: map<ObjId, Obj>, ids: seq<ObjId>, look: ObjId -> Look<U>)
    ensures FileThings(b, Things(objs, ids, look)) == FileIds(b, objs, ids)
  {
    if ids != [] {
      var front := ids[..|ids| - 1];
      SameFiles(b, objs, front, look);
      assert Things(objs, ids, look)[..|ids| - 1] == Things(objs, front, look);
    }
  }

  /** room_init_maps has tables of eight, userdb_init of at most as many as there are objects. */
  function LoadSize(b: Box, n: nat): nat {
    match b
    case Room(_) => INVENTORY_SIZE
    case Inventory(_) => if n < INVENTORY_SIZE then n else INVENTORY_SIZE
  }

  function Alone(signed: bool, b: Box, n: nat): Store {
    Do(Store(signed, map[], map[], true), Open(b, LoadSize(b, n)))
  }

  lemma AloneTabled(signed: bool, b: Box, n: nat)
    ensures Tabled(Alone(signed, b, n)) && Exact(Alone(signed, b, n)) && Alone(signed, b, n).sane
  {
    IndexedFresh(signed, LoadSize(b, n));
    OneTabled(signed, b, Fresh(LoadSize(b, n)));
  }

  lemma OneTabled(signed: bool, b: Box, x: Index)
    requires Indexed(signed, x, map[]) && x.drift.nodes == 0
    ensures var f := Store(signed, map[b := map[]], map[b := x], true); Tabled(f) && Exact(f)
  {
  }

  /** Filing one object in the lists is what filing it in the rebuilt container is. */
  lemma {:induction false} PutUnder<U>(f: Store, b: Box, m: C.Shelf<U>, ks: seq<string>, o: Thing<U>)
    requires b in f.boxes && f.boxes[b] == IdShelf(m)
    ensures var f' := DoAll(f, PutAll(b, o.id, ks));
            b in f'.boxes && f'.boxes[b] == IdShelf(C.AddUnder(m, ks, o)) && f'.boxes.Keys == f.boxes.Keys
  {
    if ks == [] {
      assert PutAll(b, o.id, ks) == [];
    } else {
      var front, n := ks[..|ks| - 1], |ks| - 1;
      PutUnder(f, b, m, front, o);
      assert PutAll(b, o.id, ks)[..n] == PutAll(b, o.id, front);
      PutOne(DoAll(f, PutAll(b, o.id, front)), b, C.AddUnder(m, front, o), ks[n], o);
    }
  }

  lemma PutOne<U>(f: Store, b: Box, m: C.Shelf<U>, k: string, o: Thing<U>)
    requires b in f.boxes && f.boxes[b] == IdShelf(m)
    ensures var f' := Do(f, Put(b, k, o.id));
            b in f'.boxes && f'.boxes[b] == IdShelf(C.Insert(m, k, o)) && f'.boxes.Keys == f.boxes.Keys
  {
    assert Entries(k, [o] + C.At(m, k)) == [Entry(k, o.id)] + Entries(k, C.At(m, k));
    assert M.At(IdShelf(m), k) == Entries(k, C.At(m, k));
  }

  lemma {:induction false} FileThingsShelf<U>(signed: bool, b: Box, n: nat, os: seq<Thing<U>>)
    ensures var f := DoAll(Alone(signed, b, n), FileThings(b, os));
            b in f.boxes && f.boxes[b] == IdShelf(C.AddAll(os)) && f.boxes.Keys == {b}
  {
    if os == [] {
      assert IdShelf(C.AddAll(os)) == map[];
    } else {
      var front, o := os[..|os| - 1], os[|os| - 1];
      FileThingsShelf(signed, b, n, front);
      DoJoin(Alone(signed, b, n), FileThings(b, front), FileActs(b, o.id, Obj(o.name, o.aliases, 0)));
      FileThingShelf(DoAll(Alone(signed, b, n), FileThings(b, front)), b, C.AddAll(front), o);
    }
  }

  lemma FileThingShelf<U>(f: Store, b: Box, m: C.Shelf<U>, o: Thing<U>)
    requires b in f.boxes && f.boxes[b] == IdShelf(m)
    ensures var f' := DoAll(f, FileActs(b, o.id, Obj(o.name, o.aliases, 0)));
            b in f'.boxes && f'.boxes[b] == IdShelf(C.AddUnder(m, C.Keys(o), o)) && f'.boxes.Keys == f.boxes.Keys
  {
    assert FileActs(b, o.id, Obj(o.name, o.aliases, 0)) == PutAll(b, o.id, C.Keys(o));
    PutUnder(f, b, m, C.Keys(o), o);
  }

  lemma {:induction false} OnlyPuts<U>(b: Box, os: seq<Thing<U>>)
    ensures forall i :: 0 <= i < |FileThings(b, os)| ==> FileThings(b, os)[i].Put?
  {
    if os != [] { OnlyPuts(b, os[..|os| - 1]); }
  }

  function IndexOf(signed: bool, b: Box, n: nat, acts: seq<Act>): Index {
    var f := DoAll(Alone(signed, b, n), acts);
    if b in f.tables then f.tables[b] else Fresh(LoadSize(b, n))
  }

  /** Loading a container fails no assertion and leaves a table that fits it, with exact counters. */
  lemma LoadedIndex<U>(signed: bool, b: Box, n: nat, os: seq<Thing<U>>)
    ensures DoAll(Alone(signed, b, n), FileThings(b, os)).sane
    ensures Indexed(signed, IndexOf(signed, b, n, FileThings(b, os)), IdShelf(C.AddAll(os)))
    ensures IndexOf(signed, b, n, FileThings(b, os)).drift.nodes == 0
  {
    AloneTabled(signed, b, n);
    OnlyPuts(b, os);
    FileThingsShelf(signed, b, n, os);
    assert Alone(signed, b, n).signed == signed;
    FiledIndex(Alone(signed, b, n), FileThings(b, os), b);
  }

  lemma FiledIndex(f: Store, acts: seq<Act>, b: Box)
    requires Tabled(f) && Exact(f) && f.sane && (forall i :: 0 <= i < |acts| ==> acts[i].Put?) && b in DoAll(f, acts).boxes
    ensures var g := DoAll(f, acts);
            g.sane && b in g.tables && Indexed(f.signed, g.tables[b], g.boxes[b]) && g.tables[b].drift.nodes == 0
  {
    NoCutNoTrip(f, acts);
    DoAllTabled(f, acts);
  }

  // what a save and a load make of the lists and tables

  ghost function ReadBack(f: Store, objs: map<ObjId, Obj>, b: Box): seq<ObjId>
    requires b in f.boxes && b in f.tables
  {
    SavedIds(objs, f.boxes[b], TableOrder(f.tables[b]))
  }

  ghost function Reread(f: Store, objs: map<ObjId, Obj>): Store {
    Store(f.signed, RereadBoxes(f, objs), RereadTables(f, objs), true)
  }

  ghost function RereadBoxes(f: Store, objs: map<ObjId, Obj>): map<Box, Shelf> {
    map b | b in f.boxes && b in f.tables :: ShelfOf(f, objs, b)
  }

  ghost function RereadTables(f: Store, objs: map<ObjId, Obj>): Indices {
    map b | b in f.boxes && b in f.tables :: RereadIndex(f, objs, b)
  }

  lemma RereadKeys(f: Store, objs: map<ObjId, Obj>)
    requires Tabled(f)
    ensures RereadBoxes(f, objs).Keys == f.boxes.Keys == RereadTables(f, objs).Keys
  {
    assert RereadBoxes(f, objs).Keys == f.boxes.Keys;
    assert RereadTables(f, objs).Keys == f.boxes.Keys;
  }

  lemma RereadFor(f: Store, objs: map<ObjId, Obj>, b: Box)
    requires b in f.boxes && b in f.tables
    ensures b in RereadBoxes(f, objs) && RereadBoxes(f, objs)[b] == ShelfOf(f, objs, b)
    ensures b in RereadTables(f, objs) && RereadTables(f, objs)[b] == RereadIndex(f, objs, b)
  {
  }

  lemma SameAt<T>(a: map<Box, T>, b: map<Box, T>)
    requires a.Keys == b.Keys && forall k :: k in a ==> a[k] == b[k]
    ensures a == b
  {
  }

  lemma RereadIs(f: Store, objs: map<ObjId, Obj>, g: Store)
    requires Tabled(f) && g.signed == f.signed && g.sane
    requires g.boxes.Keys == f.boxes.Keys == g.tables.Keys
    requires forall b :: b in f.boxes ==> g.boxes[b] == ShelfOf(f, objs, b) && g.tables[b] == RereadIndex(f, objs, b)
    ensures g == Reread(f, objs)
  {
    RereadKeys(f, objs);
    forall b | b in f.boxes ensures g.boxes[b] == RereadBoxes(f, objs)[b] && g.tables[b] == RereadTables(f, objs)[b] {
      RereadFor(f, objs, b);
    }
    SameAt(g.boxes, RereadBoxes(f, objs));
    SameAt(g.tables, RereadTables(f, objs));
  }

  ghost function RereadIndex(f: Store, objs: map<ObjId, Obj>, b: Box): Index
    requires b in f.boxes && b in f.tables
  {
    IndexOf(f.signed, b, |ReadBack(f, objs, b)|, FileIds(b, objs, ReadBack(f, objs, b)))
  }

  ghost function ShelfOf(f: Store, objs: map<ObjId, Obj>, b: Box): Shelf
    requires b in f.boxes && b in f.tables
  {
    var ids := ReadBack(f, objs, b);
    var g := DoAll(Alone(f.signed, b, |ids|), FileIds(b, objs, ids));
    if b in g.boxes then g.boxes[b] else map[]
  }

  /** A container as the writers find it, in the order of its table. */
  ghost function Shown<U>(f: Store, objs: map<ObjId, Obj>, look: ObjId -> Look<U>, b: Box): seq<C.Bin<U>> {
    if b in f.boxes && b in f.tables then BinsIn(objs, f.boxes[b], TableOrder(f.tables[b]), look) else []
  }

  lemma ShownViews<U(!new)>(f: Store, objs: map<ObjId, Obj>, look: ObjId -> Look<U>, b: Box)
    requires Tabled(f) && b in f.boxes
    ensures Views(objs, f.boxes[b], look, Shown(f, objs, look, b))
  {
    assert Indexed(f.signed, f.tables[b], f.boxes[b]);
    TableOrderIs(f.signed, f.tables[b], f.boxes[b]);
    BinsView(objs, f.boxes[b], TableOrder(f.tables[b]), look);
  }

  /** Any order of the keys will do. */
  lemma BinsView<U(!new)>(objs: map<ObjId, Obj>, shelf: Shelf, order: seq<string>, look: ObjId -> Look<U>)
    requires forall k :: k in order <==> k in shelf
    requires forall i, j :: 0 <= i < j < |order| ==> order[i] != order[j]
    ensures Views(objs, shelf, look, BinsIn(objs, shelf, order, look))
  {
    var bins := BinsIn(objs, shelf, order, look);
    forall i | 0 <= i < |bins| ensures bins[i].key in shelf { assert order[i] in order; }
    forall k | k in shelf ensures exists i :: 0 <= i < |bins| && bins[i].key == k {
      var i :| 0 <= i < |order| && order[i] == k;
      assert bins[i].key == k;
    }
  }

  /** One container of it, in terms of the objects as they were read. */
  lemma RereadAt<U>(f: Store, objs: map<ObjId, Obj>, look: ObjId -> Look<U>, b: Box, os: seq<Thing<U>>)
    requires b in f.boxes && b in f.tables
    requires os == C.Primaries(Shown(f, objs, look, b))
    ensures ShelfOf(f, objs, b) == IdShelf(C.AddAll(os))
    ensures RereadIndex(f, objs, b) == IndexOf(f.signed, b, |os|, FileThings(b, os))
  {
    PrimariesIn(objs, f.boxes[b], TableOrder(f.tables[b]), look);
    SameFiles(b, objs, ReadBack(f, objs, b), look);
    FileThingsShelf(f.signed, b, |os|, os);
  }
}
