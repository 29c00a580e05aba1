/** The master's objects and containers as the writers of the save files see them, and the state
    the readers' containers amount to. */
module Pictures {
  import opened Guard
  import opened HashSpec
  import opened Ownership
  import opened World
  import opened Stores
  import B = Bytes
  import R = Records
  import C = Containers
  import WC = WorldCodec
  import UF = UserFile
  import Restart

  type Thing<U> = R.Thing<U>

  /** What an object has beside its name, its aliases and its count. */
  datatype Look<U> = Look(cls: string, hidden: bool, article: bool, user: U)

  function ThingOf<U>(id: ObjId, o: Obj, l: Look<U>): Thing<U> {
    R.Thing(l.cls, id, o.name, l.hidden, l.article, o.aliases, l.user)
  }

  function Things<U>(objs: map<ObjId, Obj>, ids: seq<ObjId>, look: ObjId -> Look<U>): (r: seq<Thing<U>>)
    ensures |r| == |ids| && forall i :: 0 <= i < |ids| ==> r[i] == ThingOf(ids[i], Rec(objs, ids[i]), look(ids[i]))
  {
    seq(|ids|, i requires 0 <= i < |ids| => ThingOf(ids[i], Rec(objs, ids[i]), look(ids[i])))
  }

  /** The lists of a container, in some order of the keys. */
  ghost predicate Views<U(!new)>(objs: map<ObjId, Obj>, shelf: Shelf, look: ObjId -> Look<U>, bins: seq<C.Bin<U>>) {
    forall n: nat {:trigger Sealed(n)} :: Sealed(n) ==>
      && C.KeysApart(bins)
      && (forall i :: 0 <= i < |bins| ==> bins[i].key in shelf && bins[i].things == Things(objs, Listed(shelf, bins[i].key), look))
      && (forall k :: k in shelf ==> exists i :: 0 <= i < |bins| && bins[i].key == k)
  }

  lemma KeysAre<U>(o: Thing<U>, rec: Obj, k: string)
    requires o.name == rec.name && o.aliases == rec.aliases
    ensures k in C.Keys(o) <==> k in KeysOf(rec)
    ensures WellNamed(rec) ==> C.Distinct(C.Keys(o))
  {
    var ks := C.Keys(o);
    assert forall i :: 0 < i < |ks| ==> ks[i] == rec.aliases[i - 1];
    if k in KeysOf(rec) {
      if k == rec.name { assert ks[0] == k; } else { assert k in rec.aliases; }
    }
  }

  /** An object on a list of the picture. */
  lemma ViewedThing<U(!new)>(s: Snapshot, boxes: map<Box, Shelf>, look: ObjId -> Look<U>, b: Box, bins: seq<C.Bin<U>>, i: nat, o: Thing<U>)
    requires Filed(boxes, s.places) && Consistent(s) && b in boxes && Views(s.objs, boxes[b], look, bins)
    requires i < |bins| && o in bins[i].things
    ensures o.id in s.objs && o == ThingOf(o.id, s.objs[o.id], look(o.id))
    ensures Place(o.id, b, bins[i].key) in s.places && bins[i].key in KeysOf(s.objs[o.id])
  {
    assert Sealed(0);
    var k := bins[i].key;
    var ids := Listed(boxes[b], k);
    var j :| 0 <= j < |ids| && bins[i].things[j] == o;
    EntryIs(boxes, s.places, Place(ids[j], b, k));
    EntryLive(s.objs, s.places, s.extra, Place(ids[j], b, k));
  }

  /** An entry in the picture. */
  lemma PlacedThing<U(!new)>(s: Snapshot, boxes: map<Box, Shelf>, look: ObjId -> Look<U>, b: Box, bins: seq<C.Bin<U>>, id: ObjId, k: string)
    requires Filed(boxes, s.places) && Consistent(s) && b in boxes && Views(s.objs, boxes[b], look, bins)
    requires Place(id, b, k) in s.places
    ensures id in s.objs && C.Lists(bins, ThingOf(id, s.objs[id], look(id)), k)
  {
    assert Sealed(0);
    EntryIs(boxes, s.places, Place(id, b, k));
    EntryLive(s.objs, s.places, s.extra, Place(id, b, k));
    var ids := Listed(boxes[b], k);
    EntryShelf(boxes, s.places, b, k);
    var i :| 0 <= i < |bins| && bins[i].key == k;
    var j :| 0 <= j < |ids| && ids[j] == id;
    assert bins[i].things[j] == ThingOf(id, s.objs[id], look(id));
  }

  /** A picture of a container of a consistent state is one that the save files can carry. */
  lemma ViewClosed<U(!new)>(s: Snapshot, boxes: map<Box, Shelf>, look: ObjId -> Look<U>, b: Box, bins: seq<C.Bin<U>>)
    requires Filed(boxes, s.places) && Consistent(s) && b in boxes && Views(s.objs, boxes[b], look, bins)
    ensures C.ClosedBins(bins)
  {
    forall i: nat | i < |bins| ensures bins[i].things != [] && C.Distinct(bins[i].things) {
      ViewDistinct(s, boxes, look, b, bins, i);
    }
    forall i: nat, o | i < |bins| && o in bins[i].things ensures bins[i].key in C.Keys(o) && C.Distinct(C.Keys(o)) {
      ViewedThing(s, boxes, look, b, bins, i, o);
      RefsAre(s.objs, s.places, s.extra, o.id);
      KeysAre(o, s.objs[o.id], bins[i].key);
    }
    forall i: nat, o, k | i < |bins| && o in bins[i].things && k in C.Keys(o) ensures C.Lists(bins, o, k) {
      ViewedThing(s, boxes, look, b, bins, i, o);
      KeysAre(o, s.objs[o.id], k);
      LocatedIn(s.objs, s.places, s.extra, Place(o.id, b, bins[i].key));
      assert Place(o.id, b, k) in Of(s.places, o.id);
      PlacedThing(s, boxes, look, b, bins, o.id, k);
    }
    assert C.KeysApart(bins) by { assert Sealed(0); }
  }

  lemma ViewDistinct<U(!new)>(s: Snapshot, boxes: map<Box, Shelf>, look: ObjId -> Look<U>, b: Box, bins: seq<C.Bin<U>>, i: nat)
    requires Filed(boxes, s.places) && b in boxes && Views(s.objs, boxes[b], look, bins) && i < |bins|
    ensures bins[i].things != [] && C.Distinct(bins[i].things)
  {
    assert Sealed(0);
    var k, ts := bins[i].key, bins[i].things;
    EntryIs(boxes, s.places, Place(0, b, k));
    EntryShelf(boxes, s.places, b, k);
    forall x, y | 0 <= x < y < |ts| ensures ts[x] != ts[y] {
      assert ts[x].id == Listed(boxes[b], k)[x] && ts[y].id == Listed(boxes[b], k)[y];
    }
  }

  // all containers

  function UserOf<U, D>(u: UF.User<U, D>): string { UF.UserName(u.fields) }

  function RoomSet(n: nat): set<Box> { set i | 0 <= i < n :: Room(i) }

  ghost function BoxSet<U, D>(n: nat, us: seq<UF.User<U, D>>): set<Box> {
    RoomSet(n) + set j | 0 <= j < |us| :: Inventory(UserOf(us[j]))
  }

  ghost predicate UsersApart<U, D>(us: seq<UF.User<U, D>>) {
    forall i, j :: 0 <= i < j < |us| ==> UserOf(us[i]) != UserOf(us[j])
  }

  /** The rooms and the users that the files are written from show the state. */
  ghost predicate Pictured<U(!new), W, D>(s: Snapshot, boxes: map<Box, Shelf>, look: ObjId -> Look<U>,
                                         w: WC.World<U, W>, us: seq<UF.User<U, D>>) {
    && w.counter == s.counter && UsersApart(us) && boxes.Keys == s.boxes == BoxSet(|w.rooms|, us)
    && (forall i :: 0 <= i < |w.rooms| ==> Room(i) in boxes && Views(s.objs, boxes[Room(i)], look, w.rooms[i].bins))
    && (forall j :: 0 <= j < |us| ==>
          Inventory(UserOf(us[j])) in boxes && Views(s.objs, boxes[Inventory(UserOf(us[j]))], look, us[j].bins))
  }

  ghost predicate Stands(places: set<Place>, at: Restart.Where, id: ObjId, k: string) {
    match at
    case InRoom(i) => i >= 0 && Place(id, Room(i), k) in places
    case WithUser(n) => Place(id, Inventory(n), k) in places
  }

  /** Whatever is saved is an object of the state, in its place. */
  lemma SavedStands<U(!new), W(!new), D(!new)>(s: Snapshot, boxes: map<Box, Shelf>, look: ObjId -> Look<U>, w: WC.World<U, W>,
                                               us: seq<UF.User<U, D>>, at: Restart.Where, o: Thing<U>)
    requires Filed(boxes, s.places) && Consistent(s) && Pictured(s, boxes, look, w, us) && Restart.Saved(w, us, at, o)
    ensures o.id in s.objs && o == ThingOf(o.id, s.objs[o.id], look(o.id)) && Stands(s.places, at, o.id, o.name)
  {
    match at
    case InRoom(i) =>
      ViewClosed(s, boxes, look, Room(i), w.rooms[i].bins);
      ObjectPlaced(s, boxes, look, Room(i), w.rooms[i].bins, o);
    case WithUser(n) =>
      var j :| 0 <= j < |us| && UserOf(us[j]) == n && o in C.Objects(us[j].bins);
      ObjectPlaced(s, boxes, look, Inventory(n), us[j].bins, o);
  }

  lemma ObjectPlaced<U(!new)>(s: Snapshot, boxes: map<Box, Shelf>, look: ObjId -> Look<U>, b: Box, bins: seq<C.Bin<U>>, o: Thing<U>)
    requires Filed(boxes, s.places) && Consistent(s) && b in boxes && Views(s.objs, boxes[b], look, bins)
    requires o in C.Objects(bins)
    ensures o.id in s.objs && o == ThingOf(o.id, s.objs[o.id], look(o.id)) && Place(o.id, b, o.name) in s.places
    ensures Of(s.places, o.id) == Spread(o.id, s.objs[o.id], b)
  {
    var i: nat :| i < |bins| && o in bins[i].things;
    ViewedThing(s, boxes, look, b, bins, i, o);
    LocatedIn(s.objs, s.places, s.extra, Place(o.id, b, bins[i].key));
    assert Place(o.id, b, o.name) in Of(s.places, o.id);
  }

  /** So what is saved is numbered as Restart asks: the invariant of every run sees to it. */
  lemma PictureNumbered<U(!new), W(!new), D(!new)>(s: Snapshot, boxes: map<Box, Shelf>, look: ObjId -> Look<U>, w: WC.World<U, W>,
                                                   us: seq<UF.User<U, D>>)
    requires Filed(boxes, s.places) && Consistent(s) && Pictured(s, boxes, look, w, us)
    requires forall o :: o in s.objs ==> o < s.counter
    ensures Restart.Numbered((at, o) => Restart.Saved(w, us, at, o), w.counter)
  {
    var holds := (at, o) => Restart.Saved(w, us, at, o);
    forall at, o | holds(at, o) ensures o.id < w.counter {
      SavedStands(s, boxes, look, w, us, at, o);
    }
    forall a, b, x, y | holds(a, x) && holds(b, y) && x.id == y.id ensures a == b && x == y {
      SavedStands(s, boxes, look, w, us, a, x);
      SavedStands(s, boxes, look, w, us, b, y);
      OnePlace(s, a, b, x.id, x.name);
    }
  }

  lemma OnePlace(s: Snapshot, a: Restart.Where, b: Restart.Where, id: ObjId, k: string)
    requires Consistent(s) && Stands(s.places, a, id, k) && Stands(s.places, b, id, k)
    ensures a == b
  {
    assert Closed(s.objs, s.places);
    assert Opened(0);
  }

  // what the files can hold

  /** The objects in containers are of known classes, and their texts, aliases and ids can be written. */
  ghost predicate AllStorable<U>(s: Snapshot, look: ObjId -> Look<U>, classes: set<string>) {
    && |s.objs| < B.UINT32_LIMIT
    && forall o :: o in s.objs && Of(s.places, o) != {} ==> WC.GoodThing(classes, ThingOf(o, s.objs[o], look(o)))
  }

  ghost function Ids<U>(os: seq<Thing<U>>): (r: seq<ObjId>)
    ensures |r| == |os| && forall i :: 0 <= i < |r| ==> r[i] == os[i].id
  {
    seq(|os|, i requires 0 <= i < |os| => os[i].id)
  }

  ghost predicate HasEntry(places: set<Place>, id: ObjId, b: Box) {
    exists k :: Place(id, b, k) in places
  }

  /** The objects that a picture shows under their own names. */
  lemma PrimariesShown<U(!new)>(s: Snapshot, boxes: map<Box, Shelf>, look: ObjId -> Look<U>, b: Box, bins: seq<C.Bin<U>>)
    requires Filed(boxes, s.places) && Consistent(s) && b in boxes && Views(s.objs, boxes[b], look, bins)
    ensures var os := C.Primaries(bins);
            && C.IdsApart(os)
            && (forall id :: id in Ids(os) <==> HasEntry(s.places, id, b))
            && (forall i :: 0 <= i < |os| ==> os[i].id in s.objs && os[i] == ThingOf(os[i].id, s.objs[os[i].id], look(os[i].id))
                                              && Of(s.places, os[i].id) == Spread(os[i].id, s.objs[os[i].id], b))
  {
    var os := C.Primaries(bins);
    ViewClosed(s, boxes, look, b, bins);
    C.CountIsDistinct(bins);
    forall i | 0 <= i < |os|
      ensures os[i].id in s.objs && os[i] == ThingOf(os[i].id, s.objs[os[i].id], look(os[i].id)) && Place(os[i].id, b, os[i].name) in s.places
      ensures Of(s.places, os[i].id) == Spread(os[i].id, s.objs[os[i].id], b)
    {
      assert os[i] in os;
      ObjectPlaced(s, boxes, look, b, bins, os[i]);
    }
    forall id ensures id in Ids(os) <==> HasEntry(s.places, id, b) {
      if id in Ids(os) {
        var i :| 0 <= i < |os| && Ids(os)[i] == id;
        assert Place(id, b, os[i].name) in s.places;
      }
      if k :| Place(id, b, k) in s.places {
        PlacedThing(s, boxes, look, b, bins, id, k);
        var o := ThingOf(id, s.objs[id], look(id));
        var i :| 0 <= i < |bins| && bins[i].key == k && o in bins[i].things;
        assert o in C.Objects(bins);
        assert o in os;
        var j :| 0 <= j < |os| && os[j] == o;
        assert Ids(os)[j] == id;
      }
    }
  }

  lemma IdsFew<U>(os: seq<Thing<U>>, among: set<ObjId>)
    requires C.IdsApart(os) && forall i :: 0 <= i < |os| ==> os[i].id in among
    ensures |os| <= |among| && |set id | id in Ids(os)| == |os|
  {
    var ids := set id | id in Ids(os);
    C.DistinctCard(Ids(os));
    assert ids <= among;
    Subset(ids, among);
  }

  lemma Subset(a: set<ObjId>, b: set<ObjId>)
    requires a <= b
    ensures |a| <= |b|
  {
    assert b == a + (b - a);
  }

  /** What is shown can be written. */
  lemma ShownStorable<U(!new)>(s: Snapshot, boxes: map<Box, Shelf>, look: ObjId -> Look<U>, classes: set<string>, b: Box, bins: seq<C.Bin<U>>)
    requires Filed(boxes, s.places) && Consistent(s) && b in boxes && Views(s.objs, boxes[b], look, bins)
    requires AllStorable(s, look, classes)
    ensures WC.GoodThings(classes, C.Primaries(bins)) && C.ClosedBins(bins)
  {
    var os := C.Primaries(bins);
    ViewClosed(s, boxes, look, b, bins);
    PrimariesShown(s, boxes, look, b, bins);
    IdsFew(os, s.objs.Keys);
    forall i | 0 <= i < |os| ensures WC.GoodThing(classes, os[i]) {
      assert Place(os[i].id, b, s.objs[os[i].id].name) in Of(s.places, os[i].id);
    }
  }

  // the state that has been read back

  ghost function Carried(s: Snapshot): set<ObjId> {
    set p | p in s.places && p.box.Inventory? :: p.obj
  }

  /** After a restart: the objects that were in containers, in their places, with a reference per
      entry and none besides; loading the inventories has used up as many ids as it read objects. */
  ghost function Restarted(s: Snapshot): Snapshot {
    var objs := map o | o in s.objs && Of(s.places, o) != {} :: s.objs[o].(refs := |Of(s.places, o)|);
    Snapshot(objs, s.places, map o | o in objs :: 0, s.boxes, s.counter + |Carried(s)|)
  }

  lemma RestartedConsistent(s: Snapshot)
    requires Consistent(s)
    ensures Consistent(Restarted(s))
  {
    var t := Restarted(s);
    RestartedCounted(s);
    RestartedClosed(s.objs, t.objs, s.places);
    assert Paid(t.extra);
  }

  lemma RestartedCounted(s: Snapshot)
    requires Counted(s.objs, s.places, s.extra)
    ensures Counted(Restarted(s).objs, s.places, Restarted(s).extra)
  {
    var t := Restarted(s);
    forall o | o in t.objs ensures 0 < t.objs[o].refs == |Of(s.places, o)| + t.extra[o] && WellNamed(t.objs[o]) {
      RefsAre(s.objs, s.places, s.extra, o);
    }
    forall p | p in s.places ensures p.obj in t.objs && p.key in KeysOf(t.objs[p.obj]) {
      EntryLive(s.objs, s.places, s.extra, p);
      assert p in Of(s.places, p.obj);
    }
  }

  lemma RestartedClosed(objs: map<ObjId, Obj>, objs': map<ObjId, Obj>, places: set<Place>)
    requires Closed(objs, places)
    requires forall o :: o in objs' ==> o in objs && KeysOf(objs'[o]) == KeysOf(objs[o])
    ensures Closed(objs', places)
  {
    assert Opened(0);
    forall p | p in places && p.obj in objs' ensures Spread(p.obj, objs'[p.obj], p.box) <= places {
      assert Spread(p.obj, objs[p.obj], p.box) <= places;
    }
  }

  /** Two containers with the same lists, each in some order. */
  ghost predicate SameLists(was: Shelf, now: Shelf) {
    forall n: nat {:trigger Sealed(n)} :: Sealed(n) ==>
      was.Keys == now.Keys && forall k :: multiset(Listed(now, k)) == multiset(Listed(was, k))
  }

  function Entries<U>(k: string, os: seq<Thing<U>>): (r: Chain<string, ObjId>)
    ensures |r| == |os| && forall i :: 0 <= i < |r| ==> r[i] == Entry(k, os[i].id)
  {
    seq(|os|, i requires 0 <= i < |os| => Entry(k, os[i].id))
  }

  function IdShelf<U>(m: C.Shelf<U>): Shelf {
    map k | k in m :: Entries(k, m[k])
  }

  lemma CutOut<T>(s: seq<T>, i: nat)
    requires i < |s|
    ensures multiset(s) == multiset{s[i]} + multiset(s[..i] + s[i + 1..])
  {
    assert s == s[..i] + [s[i]] + s[i + 1..];
  }

  lemma IdsCut<U>(os: seq<Thing<U>>, i: nat)
    requires i < |os|
    ensures multiset(os) == multiset{os[i]} + multiset(os[..i] + os[i + 1..])
    ensures multiset(Ids(os)) == multiset{os[i].id} + multiset(Ids(os[..i] + os[i + 1..]))
  {
    CutOut(os, i);
    CutOut(Ids(os), i);
    assert Ids(os)[..i] + Ids(os)[i + 1..] == Ids(os[..i] + os[i + 1..]);
  }

  lemma LessOne<T>(a: multiset<T>, b: multiset<T>, x: T)
    requires multiset{x} + a == multiset{x} + b
    ensures a == b
  {
    assert a == (multiset{x} + a) - multiset{x} && b == (multiset{x} + b) - multiset{x};
  }

  lemma {:induction false} IdsPermuted<U>(a: seq<Thing<U>>, b: seq<Thing<U>>)
    requires multiset(a) == multiset(b)
    ensures multiset(Ids(a)) == multiset(Ids(b))
    decreases |a|
  {
    if a == [] {
      assert |b| == |multiset(b)| == 0;
    } else {
      assert a[0] in multiset(b);
      var i :| 0 <= i < |b| && b[i] == a[0];
      IdsCut(a, 0);
      IdsCut(b, i);
      LessOne(multiset(a[..0] + a[1..]), multiset(b[..i] + b[i + 1..]), a[0]);
      IdsPermuted(a[..0] + a[1..], b[..i] + b[i + 1..]);
    }
  }

  /** A container that has been rebuilt from a picture has the lists of the one pictured. */
  lemma StockLists<U(!new)>(objs: map<ObjId, Obj>, shelf: Shelf, look: ObjId -> Look<U>, bins: seq<C.Bin<U>>, m: C.Shelf<U>)
    requires Views(objs, shelf, look, bins) && C.SameContents(bins, m)
    ensures SameLists(shelf, IdShelf(m))
  {
    forall k ensures (k in shelf <==> k in IdShelf(m)) && multiset(Listed(IdShelf(m), k)) == multiset(Listed(shelf, k)) {
      StockList(objs, shelf, look, bins, m, k);
    }
  }

  lemma StockList<U(!new)>(objs: map<ObjId, Obj>, shelf: Shelf, look: ObjId -> Look<U>, bins: seq<C.Bin<U>>, m: C.Shelf<U>, k: string)
    requires Views(objs, shelf, look, bins) && C.SameContents(bins, m)
    ensures (k in shelf <==> k in m) && multiset(Listed(IdShelf(m), k)) == multiset(Listed(shelf, k))
  {
    if k in shelf || k in m {
      var i := ViewedKey(objs, shelf, look, bins, m, k);
      IdsPermuted(m[k], bins[i].things);
      ListedIds(m, k);
    }
  }

  lemma ViewedKey<U(!new)>(objs: map<ObjId, Obj>, shelf: Shelf, look: ObjId -> Look<U>, bins: seq<C.Bin<U>>, m: C.Shelf<U>, k: string)
    returns (i: nat)
    requires Views(objs, shelf, look, bins) && C.SameContents(bins, m) && (k in shelf || k in m)
    ensures k in shelf && k in m && i < |bins| && bins[i].key == k
    ensures multiset(m[k]) == multiset(bins[i].things) && Ids(bins[i].things) == Listed(shelf, k)
  {
    assert Sealed(0);
    i :| 0 <= i < |bins| && bins[i].key == k;
  }

  lemma ListedIds<U>(m: C.Shelf<U>, k: string)
    requires k in m
    ensures Listed(IdShelf(m), k) == Ids(m[k])
  {
  }

  lemma PermutedNoRepeats(a: seq<ObjId>, b: seq<ObjId>)
    requires multiset(a) == multiset(b) && NoRepeats(a)
    ensures NoRepeats(b) && forall x :: x in a <==> x in b
  {
    forall x ensures x in a <==> x in b { assert x in multiset(a) <==> x in multiset(b); }
    forall i, j | 0 <= i < j < |b| ensures b[i] != b[j] {
      if b[i] == b[j] {
        assert b == b[..j] + b[j..];
        assert b[i] in b[..j] && b[j] in b[j..];
        assert multiset(b)[b[i]] >= 2;
        C.Multiplicity(a, b[i]);
      }
    }
  }

  lemma FiledSame(boxes: map<Box, Shelf>, boxes': map<Box, Shelf>, places: set<Place>)
    requires Filed(boxes, places) && boxes'.Keys == boxes.Keys
    requires forall b :: b in boxes ==> SameLists(boxes[b], boxes'[b])
    ensures Filed(boxes', places)
  {
    forall b, k | b in boxes
      ensures NoRepeats(Listed(boxes'[b], k)) && (forall x :: x in Listed(boxes'[b], k) <==> x in Listed(boxes[b], k))
      ensures k in boxes'[b] ==> Listed(boxes'[b], k) != []
    {
      EntryIs(boxes, places, Place(0, b, k));
      EntryShelf(boxes, places, b, k);
      assert SameLists(boxes[b], boxes'[b]);
      assert Sealed(0);
      PermutedNoRepeats(Listed(boxes[b], k), Listed(boxes'[b], k));
    }
    FiledFrom(boxes, boxes', places);
  }

  lemma FiledFrom(boxes: map<Box, Shelf>, boxes': map<Box, Shelf>, places: set<Place>)
    requires Filed(boxes, places) && boxes'.Keys == boxes.Keys
    requires forall b, k :: b in boxes ==>
               && NoRepeats(Listed(boxes'[b], k)) && (forall x :: x in Listed(boxes'[b], k) <==> x in Listed(boxes[b], k))
               && (k in boxes'[b] ==> Listed(boxes'[b], k) != [])
    ensures Filed(boxes', places)
  {
    assert Opened(0);
    forall p ensures p in places <==> At(boxes', p) {
      assert p in places <==> At(boxes, p);
    }
    forall b | b in boxes' ensures M.NoEmptyList(boxes'[b]) {
      forall k | k in boxes'[b] ensures boxes'[b][k] != [] { assert Listed(boxes'[b], k) != []; }
    }
  }
}
