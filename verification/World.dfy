/** The master's objects and containers as one mutable state, with the operations of
    src/obj.c, src/room.c and src/userdb.c that move objects between them. */
module World {
  import opened Guard
  import opened HashSpec
  import opened Wrappers
  import opened Ownership
  import opened Stores

  /** The entries an object has when it is filed in `b` under all its keys. */
  ghost function Spread(id: ObjId, o: Obj, b: Box): set<Place> {
    set k | k in KeysOf(o) :: Place(id, b, k)
  }

  /** Same object up to its count. */
  ghost predicate SameBut(objs: map<ObjId, Obj>, objs': map<ObjId, Obj>, o: ObjId) {
    && (forall x :: x != o ==> (x in objs' <==> x in objs) && (x in objs ==> objs'[x] == objs[x]))
    && (o in objs' ==> o in objs && objs'[o] == objs[o].(refs := objs'[o].refs))
  }

  lemma {:induction false} SpreadCard(id: ObjId, ks: set<string>, b: Box)
    ensures |set k | k in ks :: Place(id, b, k)| == |ks|
    decreases ks
  {
    var s := set k | k in ks :: Place(id, b, k);
    if ks != {} {
      var k :| k in ks;
      SpreadCard(id, ks - {k}, b);
      var rest := set j | j in ks - {k} :: Place(id, b, j);
      assert s == rest + {Place(id, b, k)};
    } else {
      assert s == {};
    }
  }

  /** The objects that still have a reference, counted afresh. */
  ghost function Live(objs: map<ObjId, Obj>, places: set<Place>, extra: map<ObjId, int>): map<ObjId, Obj> {
    map o | o in objs && o in extra && |Of(places, o)| + extra[o] > 0 :: objs[o].(refs := |Of(places, o)| + extra[o])
  }

  /** The objects left are exactly those that still have an entry or an outstanding reference,
      with the right counts; the outstanding references have not moved. */
  ghost predicate Released(objs: map<ObjId, Obj>, extra: map<ObjId, int>, objs': map<ObjId, Obj>, places': set<Place>,
                           extra': map<ObjId, int>) {
    forall n: nat {:trigger Sealed(n)} :: Sealed(n) ==>
      && objs' == Live(objs, places', extra)
      && extra' == map o | o in objs' && o in extra :: extra[o]
  }

  /** Unfiling one object, seen as a release. */
  lemma ReleasedOne(objs: map<ObjId, Obj>, places: set<Place>, extra: map<ObjId, int>,
                    objs': map<ObjId, Obj>, places': set<Place>, extra': map<ObjId, int>, o: ObjId)
    requires Counted(objs, places, extra) && Counted(objs', places', extra')
    requires SameBut(objs, objs', o) && o in objs && places' == places - Of(places, o)
    requires extra' == if o in objs' then extra else extra - {o}
    requires o in objs' <==> (o in extra && extra[o] > 0) || Of(places', o) != {}
    ensures Released(objs, extra, objs', places', extra')
  {
    forall x ensures (x in objs' <==> x in Live(objs, places', extra)) && (x in objs' ==> objs'[x] == Live(objs, places', extra)[x]) {
      ReleasedAt(objs, places, extra, objs', places', extra', o, x);
    }
    Agree(objs', Live(objs, places', extra));
    BoundedInv(objs', places', extra');
    ExtraKept(objs', extra, extra', o);
  }

  lemma ExtraKept(objs': map<ObjId, Obj>, extra: map<ObjId, int>, extra': map<ObjId, int>, o: ObjId)
    requires extra' == (if o in objs' then extra else extra - {o}) && objs'.Keys == extra'.Keys
    ensures extra' == map x | x in objs' && x in extra :: extra[x]
  {
  }

  lemma Agree(a: map<ObjId, Obj>, b: map<ObjId, Obj>)
    requires forall id :: (id in a <==> id in b) && (id in a ==> a[id] == b[id])
    ensures a == b
  {
    forall id ensures id in a.Keys <==> id in b.Keys { assert id in a <==> id in b; }
    forall id | id in b ensures a[id] == b[id] { assert id in a; }
    assert a == b;
  }

  /** The release as one object sees it. */
  lemma ReleasedAt(objs: map<ObjId, Obj>, places: set<Place>, extra: map<ObjId, int>,
                   objs': map<ObjId, Obj>, places': set<Place>, extra': map<ObjId, int>, o: ObjId, x: ObjId)
    requires Counted(objs, places, extra) && Counted(objs', places', extra')
    requires SameBut(objs, objs', o) && o in objs && places' == places - Of(places, o)
    requires extra' == if o in objs' then extra else extra - {o}
    requires o in objs' <==> (o in extra && extra[o] > 0) || Of(places', o) != {}
    ensures x in objs' <==> x in Live(objs, places', extra)
    ensures x in objs' ==> objs'[x] == Live(objs, places', extra)[x]
  {
    assert Of(places', x) == if x == o then {} else Of(places, x);
    if x in objs { RefsAre(objs, places, extra, x); }
    if x in objs' { RefsAre(objs', places', extra', x); }
    if x != o {
      assert x in objs' <==> x in objs;
      assert x in objs ==> objs'[x] == objs[x];
    }
  }

  /** An object that is left has its names. */
  lemma ReleasedRec(objs: map<ObjId, Obj>, extra: map<ObjId, int>, objs': map<ObjId, Obj>, places': set<Place>,
                    extra': map<ObjId, int>, o: ObjId, b: Box)
    requires Released(objs, extra, objs', places', extra') && o in objs'
    ensures UnfileActs(b, o, Rec(objs', o)) == UnfileActs(b, o, Rec(objs, o))
  {
    assert Sealed(0);
  }

  lemma ReleasedThen(objs: map<ObjId, Obj>, extra: map<ObjId, int>, objs1: map<ObjId, Obj>, places1: set<Place>,
                     extra1: map<ObjId, int>, objs2: map<ObjId, Obj>, places2: set<Place>, extra2: map<ObjId, int>)
    requires Released(objs, extra, objs1, places1, extra1) && Released(objs1, extra1, objs2, places2, extra2)
    requires places2 <= places1
    ensures Released(objs, extra, objs2, places2, extra2)
  {
    assert Sealed(0);
    forall o ensures |Of(places2, o)| <= |Of(places1, o)| {
      assert Of(places1, o) == Of(places2, o) + (Of(places1, o) - Of(places2, o));
    }
    var live := Live(objs, places2, extra);
    forall o ensures o in objs2.Keys <==> o in live.Keys {
      assert o in objs2 <==> o in Live(objs1, places2, extra1);
      assert o in objs1 <==> o in Live(objs, places1, extra);
    }
  }

  /** Alias closure and single location: an object that is filed at all is filed in one
      container, under all its keys. */
  ghost predicate Closed(objs: map<ObjId, Obj>, places: set<Place>) {
    forall n: nat {:trigger Opened(n)} :: Opened(n) ==>
      && (forall p :: p in places && p.obj in objs ==> Spread(p.obj, objs[p.obj], p.box) <= places)
      && (forall p, q :: p in places && q in places && p.obj == q.obj ==> p.box == q.box)
  }

  /** Some reference to `o` is not that of an alias entry in `b`. */
  ghost predicate Outlives(places: set<Place>, extra: map<ObjId, int>, b: Box, o: ObjId, name: string) {
    (o in extra && extra[o] > 0) || exists p :: p in places && p.obj == o && (p.box != b || p.key == name)
  }

  /** The deletion of an alias entry does not change that, and is the object's end only without such
      a reference. */
  lemma OutlivesOne(objs: map<ObjId, Obj>, places: set<Place>, extra: map<ObjId, int>, b: Box, o: ObjId, name: string, k: string)
    requires Counted(objs, places, extra) && Paid(extra) && o in objs && o in extra && k != name
    ensures Outlives(places - {Place(o, b, k)}, extra, b, o, name) <==> Outlives(places, extra, b, o, name)
    ensures Outlives(places, extra, b, o, name) ==> objs[o].refs > if Place(o, b, k) in places then 1 else 0
  {
    var q := Place(o, b, k);
    RefsAre(objs, places, extra, o);
    PaidOne(extra, o);
    if q in places { OfMinus(places, q, o); }
    if p :| p in places && p.obj == o && (p.box != b || p.key == name) {
      assert p in Of(places - {q}, o);
    }
  }

  /** An object that is there without an alias entry in `b` has such a reference. */
  lemma OutlivesAll(objs: map<ObjId, Obj>, places: set<Place>, extra: map<ObjId, int>, b: Box, o: ObjId)
    requires Counted(objs, places, extra) && Paid(extra) && o in objs
    requires forall k :: k in Names(objs[o].aliases) ==> Place(o, b, k) !in places
    ensures Outlives(places, extra, b, o, objs[o].name)
  {
    RefsAre(objs, places, extra, o);
    PaidOne(extra, o);
    if extra[o] <= 0 {
      var p :| p in Of(places, o);
      EntryLive(objs, places, extra, p);
      assert p == Place(o, p.box, p.key);
    }
  }

  /** Whether the object outlives its last entry in a container. */
  lemma LastEntry(objs: map<ObjId, Obj>, places: set<Place>, extra: map<ObjId, int>, b: Box, o: ObjId, k: string)
    requires Counted(objs, places, extra) && Paid(extra) && o in objs && o in extra
    ensures var p := Place(o, b, k);
            (objs[o].refs > if p in places then 1 else 0) <==> (extra[o] > 0 || Of(places - {p}, o) != {})
  {
    var p := Place(o, b, k);
    RefsAre(objs, places, extra, o);
    PaidOne(extra, o);
    if p in places { OfMinus(places, p, o); } else { assert places - {p} == places; }
  }

  /** Whether the aliases are vacant is the same before and after the name is filed. */
  lemma VacantAll(was: map<Box, Shelf>, places: set<Place>, mid: map<Box, Shelf>, places': set<Place>, b: Box, rec: Obj, o: ObjId)
    requires Gains(was, mid, b, {rec.name}, o) && Filed(was, places) && Filed(mid, places')
    requires b in was && b in mid && WellNamed(rec)
    ensures KeysOf(rec) == {rec.name} + Names(rec.aliases)
    ensures (forall k :: k in KeysOf(rec) ==> k !in was[b])
            <==> rec.name !in was[b] && forall a :: a in Names(rec.aliases) ==> a !in mid[b]
  {
    forall a | a in rec.aliases ensures a in mid[b] <==> a in was[b] {
      GainsVacant(was, places, mid, places', b, {rec.name}, a, o);
    }
  }

  /** Where an object of a closed state is. */
  lemma LocatedIn(objs: map<ObjId, Obj>, places: set<Place>, extra: map<ObjId, int>, p: Place)
    requires Closed(objs, places) && Counted(objs, places, extra) && p in places
    ensures p.obj in objs && p.obj in extra && Of(places, p.obj) == Spread(p.obj, objs[p.obj], p.box)
    ensures forall b, k :: b != p.box ==> Place(p.obj, b, k) !in places
    ensures objs[p.obj].refs == |KeysOf(objs[p.obj])| + extra[p.obj]
  {
    assert Opened(0);
    SpreadCard(p.obj, KeysOf(objs[p.obj]), p.box);
    assert Of(places, p.obj) == Spread(p.obj, objs[p.obj], p.box);
  }

  /** What a closed state says of an object met on the list of one key. */
  lemma ListedIs(objs: map<ObjId, Obj>, boxes: map<Box, Shelf>, places: set<Place>, extra: map<ObjId, int>, b: Box, k: string,
                 front: seq<ObjId>, o: ObjId, rest: seq<ObjId>)
    requires Filed(boxes, places) && Counted(objs, places, extra) && Closed(objs, places)
    requires b in boxes && Listed(boxes[b], k) == front + [o] + rest
    ensures o in objs && o in extra && k in KeysOf(objs[o]) && Place(o, b, k) in places
    ensures Of(places, o) == Spread(o, objs[o], b) && Spread(o, objs[o], b) <= places
    ensures o !in front && Minus(front + [o] + rest, o) == front + rest
  {
    var p, os := Place(o, b, k), front + [o] + rest;
    assert os[|front|] == o;
    EntryIs(boxes, places, p);
    EntryLive(objs, places, extra, p);
    LocatedIn(objs, places, extra, p);
    assert Of(places, o) <= places;
    NotInFront(boxes, places, b, k, front, o, rest);
    MinusMiddle(front, o, rest);
  }

  /** Filing an object, known under the same keys as before, in one container only. */
  lemma ClosedRefiled(objs: map<ObjId, Obj>, objs': map<ObjId, Obj>, places: set<Place>, o: ObjId, b: Box)
    requires Closed(objs, places) && SameBut(objs, objs', o) && o in objs'
    ensures Closed(objs', places - Of(places, o) + Spread(o, objs'[o], b))
  {
    assert Opened(0);
    var now := places - Of(places, o) + Spread(o, objs'[o], b);
    forall p | p in now && p.obj in objs' ensures Spread(p.obj, objs'[p.obj], p.box) <= now {
      if p.obj == o {
        assert p.box == b;
      } else {
        assert Spread(p.obj, objs[p.obj], p.box) <= places;
      }
    }
  }

  /** Unfiling an object altogether. */
  lemma ClosedUnfiled(objs: map<ObjId, Obj>, objs': map<ObjId, Obj>, places: set<Place>, o: ObjId)
    requires Closed(objs, places) && SameBut(objs, objs', o)
    ensures Closed(objs', places - Of(places, o))
  {
    assert Opened(0);
    var now := places - Of(places, o);
    forall p | p in now && p.obj in objs' ensures Spread(p.obj, objs'[p.obj], p.box) <= now {
      assert Spread(p.obj, objs[p.obj], p.box) <= places;
    }
  }

  /** What the requests do, apart from the order within a list: the objects, their entries, the
      references held elsewhere, the containers and the id counter. */
  datatype Snapshot =
    Snapshot(objs: map<ObjId, Obj>, places: set<Place>, extra: map<ObjId, int>, boxes: set<Box>, counter: ObjId)

  /** The objects listed under one key. */
  ghost function NamedIn(places: set<Place>, b: Box, k: string): set<ObjId> {
    set p | p in places && p.box == b && p.key == k :: p.obj
  }

  /** An object entering a container has one more reference per alias. */
  function Entered(o: Obj): Obj {
    o.(refs := o.refs + |o.aliases|)
  }

  function Aliased(o: Obj, alias: string): Obj {
    if alias in KeysOf(o) then o else Obj(o.name, [alias] + o.aliases, o.refs + 1)
  }

  ghost function Outstanding(s: Snapshot, o: ObjId): int {
    if o in s.extra then s.extra[o] else 0
  }

  /** room_obj_add. */
  ghost function FiledIn(s: Snapshot, o: ObjId, b: Box): Snapshot
    requires o in s.objs
  {
    s.(objs := s.objs[o := Entered(s.objs[o])], places := s.places + Spread(o, s.objs[o], b),
       extra := s.extra[o := Outstanding(s, o) - 1])
  }

  /** The first part of room_obj_add_alias: file the object unless something of its name is there. */
  ghost function FiledIfMissing(s: Snapshot, o: ObjId, b: Box): (s': Snapshot)
    requires o in s.objs
    ensures o in s'.objs
  {
    if NamedIn(s.places, b, s.objs[o].name) == {} then FiledIn(s, o, b) else s
  }

  /** Its second part: a new alias gets an entry of its own. */
  ghost function AliasedIn(s: Snapshot, o: ObjId, b: Box, alias: string): Snapshot
    requires o in s.objs
  {
    if alias in KeysOf(s.objs[o]) then s
    else s.(objs := s.objs[o := Aliased(s.objs[o], alias)], places := s.places + {Place(o, b, alias)})
  }

  /** What room_obj_add_alias needs of its callers: the object is here; or if it is not, then it is
      in no container when nothing of its name is here, and the alias is not new when something is. */
  ghost predicate AliasFits(s: Snapshot, o: ObjId, b: Box, alias: string) {
    && o in s.objs
    && var rec := s.objs[o];
       || Place(o, b, rec.name) in s.places
       || if NamedIn(s.places, b, rec.name) == {} then Of(s.places, o) == {} else alias in KeysOf(rec)
  }

  class World {
    var objs: map<ObjId, Obj>     // the objects not yet freed
    var boxes: map<Box, Shelf>    // the object multimaps of rooms and users
    var tables: Indices           // the hash tables of the multimaps
    var sane: bool                // whether their assertions have held so far
    const signed: bool            // how the compiler takes a plain char
    var idCounter: ObjId
    ghost var places: set<Place>  // all multimap entries
    ghost var extra: map<ObjId, int>  // references held outside the multimaps

    /** A state that has been set up elsewhere. */
    constructor (objs: map<ObjId, Obj>, store: Store, idCounter: ObjId, ghost places: set<Place>, ghost extra: map<ObjId, int>)
      ensures this.objs == objs && State() == store && this.idCounter == idCounter
      ensures this.places == places && this.extra == extra
    {
      this.objs, this.idCounter, this.places, this.extra := objs, idCounter, places, extra;
      signed, boxes, tables, sane := store.signed, store.boxes, store.tables, store.sane;
    }

    ghost function State(): Store
      reads this
    {
      Store(signed, boxes, tables, sane)
    }

    ghost function Snap(): Snapshot
      reads this
    {
      Snapshot(objs, places, extra, boxes.Keys, idCounter)
    }

    /** Entries and counts agree, although an entry may lack its reference. */
    ghost predicate Kept()
      reads this
    {
      Filed(boxes, places) && Counted(objs, places, extra)
    }

    ghost predicate Sound()
      reads this
    {
      Kept() && Paid(extra)
    }

    /** obj_dup */
    method ObjDup(o: ObjId)
      requires Kept() && o in objs
      modifies `objs, `extra
      ensures Kept() && (Paid(old(extra)) ==> Paid(extra))
      ensures objs == old(objs)[o := old(objs)[o].(refs := old(objs)[o].refs + 1)]
      ensures o in old(extra) && extra == old(extra)[o := old(extra)[o] + 1]
    {
      RefsAre(objs, places, extra, o);
      CountedRef(objs, places, extra, o, 1);
      PaidMore(extra, o);
      objs := objs[o := objs[o].(refs := objs[o].refs + 1)];
      extra := extra[o := extra[o] + 1];
    }

    /** obj_free: the last reference takes the object with it. */
    method ObjFree(o: ObjId)
      requires Sound() && o in objs && o in extra && extra[o] > 0
      modifies `objs, `extra
      ensures Sound() && SameBut(old(objs), objs, o)
      ensures o in objs <==> old(objs)[o].refs > 1
      ensures o in objs ==> objs[o].refs == old(objs)[o].refs - 1
      ensures extra == if o in objs then old(extra)[o := old(extra)[o] - 1] else old(extra) - {o}
    {
      RefsAre(objs, places, extra, o);
      var refs := objs[o].refs - 1;
      if refs == 0 {
        CountedGone(objs, places, extra, o);
        PaidLess(extra, extra - {o});
        objs, extra := objs - {o}, extra - {o};
      } else {
        CountedRef(objs, places, extra, o, -1);
        PaidPlus(extra, o, -1);
        objs, extra := objs[o := objs[o].(refs := refs)], extra[o := extra[o] - 1];
      }
    }

    /** hash_insert of a key that the container does not have. */
    method EnterTable(b: Box, k: string)
      modifies `tables, `sane
      ensures tables == EnterIn(signed, old(tables), b, k)
      ensures sane <==> old(sane) && PassesIn(signed, old(tables), b, k)
    {
      sane := sane && PassesIn(signed, tables, b, k);
      tables := EnterIn(signed, tables, b, k);
    }

    /** multimap_insert, taking over one reference to the object if there is one. */
    method BoxInsert(b: Box, k: string, o: ObjId) returns (isNew: bool)
      requires Kept() && b in boxes && o in objs && o in extra
      requires k in KeysOf(objs[o]) && Place(o, b, k) !in places
      modifies `boxes, `tables, `sane, `places, `extra
      ensures Kept() && places == old(places) + {Place(o, b, k)}
      ensures Gains(old(boxes), boxes, b, {k}, o) && b in boxes
      ensures isNew == (k !in old(boxes)[b])
      ensures extra == old(extra)[o := old(extra)[o] - 1]
      ensures Went(old(State()), [Put(b, k, o)], State())
    {
      ghost var f := State();
      ghost var extra' := EntryPut(objs, boxes, places, extra, Place(o, b, k));
      GainsOne(boxes, b, k, o);
      isNew := k !in boxes[b];
      if isNew { EnterTable(b, k); }
      boxes := boxes[b := M.Insert(boxes[b], k, Entry(k, o))];
      places, extra := places + {Place(o, b, k)}, extra';
      WentOne(f, Put(b, k, o), State());
    }

    /** The unlinking of multimap_delete: the entry's reference is left to be freed. */
    method TakeEntry(b: Box, k: string, o: ObjId) returns (victims: seq<ObjId>)
      requires Sound() && b in boxes
      modifies `boxes, `tables, `places, `extra
      ensures Sound() && places == old(places) - {Place(o, b, k)}
      ensures Loses(old(boxes), boxes, b, {k}, o) && b in boxes
      ensures Place(o, b, k) !in old(places) ==> victims == [] && extra == old(extra)
      ensures Place(o, b, k) in old(places) ==>
                victims == [o] && o in objs && o in old(extra) && extra == old(extra)[o := old(extra)[o] + 1] && extra[o] > 0
      ensures Went(old(State()), [Cut(b, k, o)], State())
    {
      ghost var f := State();
      victims := M.Victims(M.At(boxes[b], k), Is(o));
      LosesOne(boxes, places, b, k, o);
      ghost var extra' := EntryTaken(objs, boxes, places, extra, Place(o, b, k));
      if M.Empties(boxes[b], k, Is(o)) {
        tables := LeaveIn(signed, tables, b, k);
      }
      boxes := boxes[b := M.Delete(boxes[b], k, Is(o))];
      places, extra := places - {Place(o, b, k)}, extra';
      WentOne(f, Cut(b, k, o), State());
    }

    /** multimap_delete of one object under one key, whose free callback is obj_free. */
    method BoxDelete(b: Box, k: string, o: ObjId) returns (deleted: nat)
      requires Sound() && b in boxes && o in objs
      modifies `objs, `boxes, `tables, `places, `extra
      ensures Sound() && places == old(places) - {Place(o, b, k)}
      ensures Loses(old(boxes), boxes, b, {k}, o) && b in boxes
      ensures SameBut(old(objs), objs, o)
      ensures deleted == if Place(o, b, k) in old(places) then 1 else 0
      ensures o in objs <==> old(objs)[o].refs > deleted
      ensures extra == if o in objs then old(extra) else old(extra) - {o}
      ensures Went(old(State()), [Cut(b, k, o)], State())
    {
      RefsAre(objs, places, extra, o);
      var victims := TakeEntry(b, k, o);
      deleted := |victims|;
      FreeAll(victims, o);
    }

    /** The free callback of a deletion, called once per victim. */
    method FreeAll(victims: seq<ObjId>, ghost o: ObjId)
      requires Sound() && o in objs && o in extra && (victims == [] || (victims == [o] && extra[o] > 0))
      modifies `objs, `extra
      ensures Sound() && SameBut(old(objs), objs, o)
      ensures o in objs <==> old(objs)[o].refs > |victims|
      ensures extra == if o in objs then old(extra)[o := old(extra)[o] - |victims|] else old(extra) - {o}
    {
      RefsAre(objs, places, extra, o);
      for i := 0 to |victims|
        invariant i == 0 ==> objs == old(objs) && extra == old(extra)
        invariant i == 1 ==> SameBut(old(objs), objs, o) && (o in objs <==> old(objs)[o].refs > 1)
        invariant i == 1 ==> extra == if o in objs then old(extra)[o := old(extra)[o] - 1] else old(extra) - {o}
        invariant Sound()
      {
        ObjFree(victims[i]);
      }
      assert |victims| == 0 ==> old(extra)[o := old(extra)[o] - 0] == old(extra);
    }

    // filing an object under all its keys

    /** One entry with a reference of its own. */
    method FileAlias(b: Box, o: ObjId, k: string) returns (isNew: bool)
      requires Kept() && b in boxes && o in objs && k in KeysOf(objs[o]) && Place(o, b, k) !in places
      modifies `objs, `boxes, `tables, `sane, `places, `extra
      ensures Kept() && SameBut(old(objs), objs, o) && o in objs
      ensures objs == old(objs)[o := old(objs)[o].(refs := old(objs)[o].refs + 1)]
      ensures isNew == (k !in old(boxes)[b])
      ensures places == old(places) + {Place(o, b, k)} && extra == old(extra)
      ensures Gains(old(boxes), boxes, b, {k}, o) && b in boxes
      ensures Went(old(State()), [Put(b, k, o)], State())
    {
      RefsAre(objs, places, extra, o);
      ObjDup(o);
      SameButRefs(old(objs), o, objs[o].refs);
      UpAndDown(old(extra), o, extra);
      isNew := BoxInsert(b, k, o);
    }

    /** The loop over the alias list: an entry per alias, each with a reference of its own. */
    method FileAliases(b: Box, o: ObjId) returns (status: bool)
      requires Kept() && b in boxes && o in objs
      requires forall a :: a in objs[o].aliases ==> Place(o, b, a) !in places
      modifies `objs, `boxes, `tables, `sane, `places, `extra
      ensures Kept() && SameBut(old(objs), objs, o) && o in objs && b in boxes
      ensures status == forall a :: a in Names(old(objs)[o].aliases) ==> a !in old(boxes)[b]
      ensures places == old(places) + set a | a in Names(old(objs)[o].aliases) :: Place(o, b, a)
      ensures Gains(old(boxes), boxes, b, Names(old(objs)[o].aliases), o)
      ensures extra == old(extra)
      ensures Went(old(State()), PutAll(b, o, old(objs)[o].aliases), State())
    {
      var aliases := objs[o].aliases;
      WentNowhere(State());
      PutEnds(b, o, aliases);
      status := true;
      RefsAre(objs, places, extra, o);
      GainsNothing(boxes, b, o);
      ghost var ks: set<string> := {};
      NamesEnds(aliases);
      for i := 0 to |aliases|
        invariant ks == Names(aliases[..i])
        invariant status == forall a :: a in ks ==> a !in old(boxes)[b]
        invariant Kept() && SameBut(old(objs), objs, o) && o in objs && b in boxes
        invariant places == old(places) + set a | a in ks :: Place(o, b, a)
        invariant Gains(old(boxes), boxes, b, ks, o)
        invariant extra == old(extra)
        invariant Went(old(State()), PutAll(b, o, aliases[..i]), State())
      {
        ghost var mid, f := boxes, State();
        NamesNext(aliases, i);
        PutNext(b, o, aliases, i);
        GainsVacant(old(boxes), old(places), mid, places, b, ks, aliases[i], o);
        var isNew := FileAlias(b, o, aliases[i]);
        WentThen(old(State()), PutAll(b, o, aliases[..i]), f, [Put(b, aliases[i], o)], State());
        status := status && isNew;
        GainsThen(old(boxes), mid, boxes, b, ks, {aliases[i]}, o);
        ks := ks + {aliases[i]};
      }
    }

    /** room_obj_add: takes over one reference and takes one more per alias; true when none of
        the object's keys was in the container's table. */
    method FileWithRef(b: Box, o: ObjId) returns (status: bool)
      requires Kept() && b in boxes && o in objs && o in extra
      requires forall k :: Place(o, b, k) !in places
      modifies `objs, `boxes, `tables, `sane, `places, `extra
      ensures Kept() && SameBut(old(objs), objs, o) && o in objs
      ensures status == forall k :: k in KeysOf(old(objs)[o]) ==> k !in old(boxes)[b]
      ensures places == old(places) + Spread(o, old(objs)[o], b)
      ensures Gains(old(boxes), boxes, b, KeysOf(old(objs)[o]), o) && b in boxes
      ensures extra == old(extra)[o := old(extra)[o] - 1]
      ensures Went(old(State()), FileActs(b, o, old(objs)[o]), State())
    {
      ghost var rec := objs[o];
      RefsAre(objs, places, extra, o);
      status := BoxInsert(b, objs[o].name, o);
      ghost var mid, between, f := boxes, places, State();
      var rest := FileAliases(b, o);
      WentThen(old(State()), [Put(b, rec.name, o)], f, PutAll(b, o, rec.aliases), State());
      status := status && rest;
      GainsThen(old(boxes), mid, boxes, b, {rec.name}, Names(rec.aliases), o);
      VacantAll(old(boxes), old(places), mid, between, b, rec, o);
    }

    /** The deletion of an alias entry; `there` says whether the object is left. */
    method CutAlias(b: Box, o: ObjId, k: string, ghost name: string) returns (there: bool)
      requires Sound() && b in boxes && o in objs && k != name
      modifies `objs, `boxes, `tables, `places, `extra
      ensures there == (o in objs) && (!there ==> !Outlives(old(places), old(extra), b, o, name))
      ensures Sound() && SameBut(old(objs), objs, o) && b in boxes
      ensures places == old(places) - {Place(o, b, k)} && (there ==> extra == old(extra))
      ensures there ==> (Outlives(places, extra, b, o, name) <==> Outlives(old(places), old(extra), b, o, name))
      ensures Loses(old(boxes), boxes, b, {k}, o)
      ensures Went(old(State()), [Cut(b, k, o)], State())
    {
      RefsAre(objs, places, extra, o);
      OutlivesOne(objs, places, extra, b, o, name, k);
      var deleted := BoxDelete(b, k, o);
      there := o in objs;
    }

    /** The first half of room_obj_del_by_ptr and userdb_del_obj_by_ptr, which reads the object
        before and after each deletion: `there` says that it is never read after it has been freed,
        and that is so exactly if some reference is not that of an alias entry here. */
    method UnfileAliases(b: Box, o: ObjId) returns (there: bool)
      requires Sound() && b in boxes && o in objs
      modifies `objs, `boxes, `tables, `places, `extra
      ensures there <==> Outlives(old(places), old(extra), b, o, old(objs)[o].name)
      ensures there ==> Sound() && SameBut(old(objs), objs, o) && o in objs && b in boxes
      ensures there ==> places == old(places) - set k | k in Names(old(objs)[o].aliases) :: Place(o, b, k)
      ensures there ==> Loses(old(boxes), boxes, b, Names(old(objs)[o].aliases), o)
      ensures there ==> extra == old(extra)
      ensures there ==> Went(old(State()), CutAll(b, o, old(objs)[o].aliases), State())
    {
      ghost var rec, had, start := objs[o], places, State();
      WentNowhere(State());
      PutEnds(b, o, rec.aliases);
      RefsAre(objs, places, extra, o);
      GainsNothing(boxes, b, o);
      NamesEnds(rec.aliases);
      var i := 0;
      while i < |objs[o].aliases|
        invariant 0 <= i <= |rec.aliases| && o in objs && Stripping(b, o, rec, i, had, start)
        invariant SameBut(old(objs), objs, o) && extra == old(extra)
        decreases |rec.aliases| - i
      {
        there := CutNext(b, o, i, rec, had, start);
        if !there {
          return;
        }
        i := i + 1;
      }
      OutlivesAll(objs, places, extra, b, o);
      there := true;
    }

    /** The first `i` aliases of the object have gone from the container. */
    ghost predicate Stripping(b: Box, o: ObjId, rec: Obj, i: nat, had: set<Place>, start: Store)
      requires i <= |rec.aliases|
      reads this
    {
      var ks := Names(rec.aliases[..i]);
      && Sound() && o in objs && b in boxes && objs[o].aliases == rec.aliases && WellNamed(rec)
      && (Outlives(places, extra, b, o, rec.name) <==> Outlives(had, extra, b, o, rec.name))
      && places == had - (set k | k in ks :: Place(o, b, k))
      && Loses(start.boxes, boxes, b, ks, o)
      && Went(start, CutAll(b, o, rec.aliases[..i]), State())
    }

    /** One round of the loop. */
    method CutNext(b: Box, o: ObjId, i: nat, ghost rec: Obj, ghost had: set<Place>, ghost start: Store) returns (there: bool)
      requires i < |rec.aliases| && Stripping(b, o, rec, i, had, start)
      modifies `objs, `boxes, `tables, `places, `extra
      ensures there ==> o in objs && Stripping(b, o, rec, i + 1, had, start)
      ensures there ==> SameBut(old(objs), objs, o) && extra == old(extra)
      ensures !there ==> !Outlives(had, old(extra), b, o, rec.name)
    {
      ghost var mid, k, f, ks := boxes, rec.aliases[i], State(), Names(rec.aliases[..i]);
      NamesNext(rec.aliases, i);
      PutNext(b, o, rec.aliases, i);
      there := CutAlias(b, o, objs[o].aliases[i], rec.name);
      WentThen(start, CutAll(b, o, rec.aliases[..i]), f, [Cut(b, k, o)], State());
      LosesThen(start.boxes, mid, boxes, b, ks, k, o);
    }

    /** room_obj_del_by_ptr, userdb_del_obj_by_ptr: the aliases go first and the name last, so the
        object is read after its last reference is gone (`there` is false) only if that is the
        reference of an alias. */
    method Unfile(b: Box, o: ObjId) returns (there: bool, found: bool)
      requires Sound() && b in boxes && o in objs
      modifies `objs, `boxes, `tables, `places, `extra
      ensures there <==> Outlives(old(places), old(extra), b, o, old(objs)[o].name)
      ensures there ==> Sound() && SameBut(old(objs), objs, o)
      ensures there ==> found == (Place(o, b, old(objs)[o].name) in old(places))
      ensures there ==> places == old(places) - Spread(o, old(objs)[o], b)
      ensures there ==> Loses(old(boxes), boxes, b, KeysOf(old(objs)[o]), o) && b in boxes
      ensures there ==> (o in objs <==> (o in old(extra) && old(extra)[o] > 0) || Of(places, o) != {})
      ensures there ==> extra == if o in objs then old(extra) else old(extra) - {o}
      ensures there ==> Went(old(State()), UnfileActs(b, o, old(objs)[o]), State())
    {
      ghost var rec := objs[o];
      RefsAre(objs, places, extra, o);
      there := UnfileAliases(b, o);
      if !there {
        return false, false;
      }
      ghost var mid, f := boxes, State();
      LastEntry(objs, places, extra, b, o, rec.name);
      var deleted := BoxDelete(b, objs[o].name, o);
      WentThen(old(State()), CutAll(b, o, rec.aliases), f, [Cut(b, rec.name, o)], State());
      LosesThen(old(boxes), mid, boxes, b, Names(rec.aliases), rec.name, o);
      assert KeysOf(rec) == Names(rec.aliases) + {rec.name};
      found := deleted > 0;
    }

    /** userdb_add_obj: takes one reference per key, aliases first. */
    method FileCopy(b: Box, o: ObjId) returns (isNew: bool)
      requires Sound() && b in boxes && o in objs && o in extra
      requires forall k :: Place(o, b, k) !in places
      modifies `objs, `boxes, `tables, `sane, `places, `extra
      ensures Sound() && SameBut(old(objs), objs, o) && o in objs
      ensures isNew == (old(objs)[o].name !in old(boxes)[b])
      ensures places == old(places) + Spread(o, old(objs)[o], b)
      ensures Gains(old(boxes), boxes, b, KeysOf(old(objs)[o]), o) && b in boxes
      ensures extra == old(extra)
      ensures Went(old(State()), CopyActs(b, o, old(objs)[o]), State())
    {
      ghost var rec := objs[o];
      RefsAre(objs, places, extra, o);
      var status := FileAliases(b, o);
      ghost var mid, f := boxes, State();
      GainsVacant(old(boxes), old(places), mid, places, b, Names(rec.aliases), rec.name, o);
      isNew := FileAlias(b, o, objs[o].name);
      WentThen(old(State()), PutAll(b, o, rec.aliases), f, [Put(b, rec.name, o)], State());
      GainsThen(old(boxes), mid, boxes, b, Names(rec.aliases), {rec.name}, o);
      assert KeysOf(rec) == Names(rec.aliases) + {rec.name};
    }

    ghost predicate Inv()
      reads this
    {
      Sound() && Closed(objs, places)
    }

    /** The move at the heart of a take: file in the inventory, then unfile from the room. */
    method Move(from: Box, to: Box, o: ObjId)
      requires Inv() && from in boxes && to in boxes && from != to
      requires exists k :: Place(o, from, k) in places
      modifies `objs, `boxes, `tables, `sane, `places, `extra
      ensures Inv() && objs == old(objs) && extra == old(extra) && o in objs
      ensures places == old(places) - Spread(o, objs[o], from) + Spread(o, objs[o], to)
      ensures exists mid :: Gains(old(boxes), mid, to, KeysOf(objs[o]), o) && Loses(mid, boxes, from, KeysOf(objs[o]), o)
      ensures boxes.Keys == old(boxes).Keys
      ensures Went(old(State()), MoveActs(from, to, o, objs[o]), State())
    {
      ghost var k :| Place(o, from, k) in places;
      LocatedIn(objs, places, extra, Place(o, from, k));
      ghost var rec, was := objs[o], places;
      ClosedRefiled(objs, objs, places, o, to);
      var isNew := FileCopy(to, o);
      ghost var mid, f, rec' := boxes, State(), objs[o];
      GainsIs(old(boxes), mid, to, KeysOf(rec), o, from, rec.name);
      var there, found := Unfile(from, o);
      assert UnfileActs(from, o, rec') == UnfileActs(from, o, rec);
      WentThen(old(State()), CopyActs(to, o, rec), f, UnfileActs(from, o, rec), State());
      LosesIs(mid, boxes, from, KeysOf(rec), o, from, rec.name);
      assert Place(o, to, rec.name) in Of(places, o);
      RestoreRefs(old(objs), objs, was, places, extra, o, from, to);
    }

    /** One step of a walk over the list `front + [o] + rest`: if `o` is moved away, the rest of
        the walk is untouched. */
    method MoveListed(from: Box, to: Box, k: string, o: ObjId, ghost front: seq<ObjId>, ghost rest: seq<ObjId>)
      requires Inv() && from in boxes && to in boxes && from != to
      requires Listed(boxes[from], k) == front + [o] + rest
      modifies `objs, `boxes, `tables, `sane, `places, `extra
      ensures Inv() && objs == old(objs) && extra == old(extra) && from in boxes && to in boxes
      ensures Listed(boxes[from], k) == front + rest && Elsewhere(old(boxes), boxes, from, to)
      ensures Listed(boxes[to], k) == [o] + Listed(old(boxes)[to], k)
      ensures places == Resettle(old(places), {o}, to)
      ensures Went(old(State()), MoveActs(from, to, o, Rec(objs, o)), State())
    {
      ListedIs(objs, boxes, places, extra, from, k, front, o, rest);
      Move(from, to, o);
      HandedOver(old(boxes), boxes, from, to, o, objs, k);
      ResettleOne(old(objs), old(places), o, from, to);
    }

    /** One step of a take: an accepted object is moved away. */
    method TakeListed(from: Box, to: Box, k: string, o: ObjId, accepted: bool, ghost front: seq<ObjId>, ghost rest: seq<ObjId>)
      returns (ghost front': seq<ObjId>)
      requires Inv() && from in boxes && to in boxes && from != to
      requires Listed(boxes[from], k) == front + [o] + rest
      modifies `objs, `boxes, `tables, `sane, `places, `extra
      ensures Inv() && objs == old(objs) && extra == old(extra) && from in boxes && to in boxes
      ensures front' == (if accepted then front else front + [o]) && Listed(boxes[from], k) == front' + rest
      ensures Listed(boxes[to], k) == if accepted then [o] + Listed(old(boxes)[to], k) else Listed(old(boxes)[to], k)
      ensures Elsewhere(old(boxes), boxes, from, to)
      ensures places == if accepted then Resettle(old(places), {o}, to) else old(places)
      ensures Went(old(State()), if accepted then MoveActs(from, to, o, Rec(objs, o)) else [], State())
    {
      if accepted {
        MoveListed(from, to, k, o, front, rest);
        front' := front;
      } else {
        ElsewhereSame(boxes, from, to);
        WentNowhere(State());
        front' := front + [o];
      }
    }

    /** req_take: every object listed under `name` is visited once, in order, although accepted
        objects leave the list during the walk; `ok` says whether the assertions of the inventory's
        hash table hold, and the walk gets to its end. */
    method Take(user: string, room: nat, name: string, accept: ObjId -> bool) returns (ok: bool, visited: seq<ObjId>)
      requires Inv() && sane && Room(room) in boxes && Inventory(user) in boxes
      modifies `objs, `boxes, `tables, `sane, `places, `extra
      ensures var acts := TakeActs(old(objs), Listed(old(boxes)[Room(room)], name), accept, Room(room), Inventory(user));
              ok == sane == Through(old(State()), acts) && (ok ==> Went(old(State()), acts, State()))
      ensures ok ==> Inv() && objs == old(objs) && extra == old(extra) && boxes.Keys == old(boxes).Keys
      ensures ok ==> forall c :: c in boxes && c != Room(room) && c != Inventory(user) ==> boxes[c] == old(boxes)[c]
      ensures ok ==> visited == Listed(old(boxes)[Room(room)], name)
      ensures ok ==> places == Resettle(old(places), Accepted(visited, accept), Inventory(user))
      ensures ok ==> Listed(boxes[Room(room)], name) == Chosen(visited, accept, false)
      ensures ok ==>
                Listed(boxes[Inventory(user)], name) == Turned(Chosen(visited, accept, true)) + Listed(old(boxes)[Inventory(user)], name)
    {
      var from, to := Room(room), Inventory(user);
      WentNowhere(State());
      var iter := First(Listed(boxes[from], name));
      visited := [];
      ghost var front, rest: seq<ObjId> := [], Listed(boxes[from], name);
      ResettleNone(places, to);
      ElsewhereSame(boxes, from, to);
      while iter != None && sane
        invariant Inv() && objs == old(objs) && extra == old(extra) && from in boxes && to in boxes
        invariant Went(old(State()), TakeActs(old(objs), visited, accept, from, to), State())
        invariant Elsewhere(old(boxes), boxes, from, to)
        invariant iter == First(rest) && visited + rest == Listed(old(boxes)[from], name)
        invariant Listed(boxes[from], name) == front + rest && front == Chosen(visited, accept, false)
        invariant Listed(boxes[to], name) == Turned(Chosen(visited, accept, true)) + Listed(old(boxes)[to], name)
        invariant places == Resettle(old(places), Accepted(visited, accept), to)
        decreases |rest|
      {
        var o := iter.value;
        ghost var later := rest[1..];
        SplitRest(front, rest);
        SplitRest(visited, rest);
        NotInFront(boxes, places, from, name, front, o, later);
        AfterMiddle(front, o, later);
        var next := NextOf(Listed(boxes[from], name), o);
        ghost var mid, f := boxes, State();
        ChosenNext(visited, o, accept, false);
        TurnedNext(visited, o, accept, true, Listed(old(boxes)[to], name));
        front := TakeListed(from, to, name, o, accept(o), front, later);
        ElsewhereThen(old(boxes), mid, boxes, from, to);
        TakeNext(old(State()), objs, visited, o, accept, from, to, f, State());
        ResettleNext(old(places), visited, o, accept, to);
        visited := visited + [o];
        iter, rest := next, later;
      }
      ElsewhereIs(old(boxes), boxes, from, to);
      ok := sane;
      TakeEnds(old(State()), objs, visited, rest, accept, from, to, State());
    }

    /** room_obj_add of an object that gets a reference of its own for the purpose. */
    method FileDup(b: Box, o: ObjId) returns (status: bool)
      requires Sound() && b in boxes && o in objs && o in extra
      requires forall k :: Place(o, b, k) !in places
      modifies `objs, `boxes, `tables, `sane, `places, `extra
      ensures Sound() && SameBut(old(objs), objs, o) && o in objs
      ensures places == old(places) + Spread(o, old(objs)[o], b)
      ensures Gains(old(boxes), boxes, b, KeysOf(old(objs)[o]), o) && b in boxes
      ensures extra == old(extra)
      ensures Went(old(State()), FileActs(b, o, old(objs)[o]), State())
    {
      RefsAre(objs, places, extra, o);
      ObjDup(o);
      SameButRefs(old(objs), o, objs[o].refs);
      UpAndDown(old(extra), o, extra);
      assert FileActs(b, o, objs[o]) == FileActs(b, o, old(objs)[o]);
      status := FileWithRef(b, o);
    }

    /** The first half of a drop: room_obj_add with a reference of its own, then unfile. */
    method Hand(from: Box, to: Box, o: ObjId)
      requires Inv() && from in boxes && to in boxes && from != to
      requires exists k :: Place(o, from, k) in places
      modifies `objs, `boxes, `tables, `sane, `places, `extra
      ensures Inv() && objs == old(objs) && extra == old(extra) && o in objs
      ensures places == old(places) - Spread(o, objs[o], from) + Spread(o, objs[o], to)
      ensures exists mid :: Gains(old(boxes), mid, to, KeysOf(objs[o]), o) && Loses(mid, boxes, from, KeysOf(objs[o]), o)
      ensures boxes.Keys == old(boxes).Keys
      ensures Went(old(State()), HandActs(from, to, o, objs[o]), State())
    {
      ghost var k :| Place(o, from, k) in places;
      LocatedIn(objs, places, extra, Place(o, from, k));
      ghost var rec, was := objs[o], places;
      ClosedRefiled(objs, objs, places, o, to);
      var status := FileDup(to, o);
      ghost var mid, f, rec' := boxes, State(), objs[o];
      GainsIs(old(boxes), mid, to, KeysOf(rec), o, from, rec.name);
      var there, found := Unfile(from, o);
      assert UnfileActs(from, o, rec') == UnfileActs(from, o, rec);
      WentThen(old(State()), FileActs(to, o, rec), f, UnfileActs(from, o, rec), State());
      LosesIs(mid, boxes, from, KeysOf(rec), o, from, rec.name);
      assert Place(o, to, rec.name) in Of(places, o);
      RestoreRefs(old(objs), objs, was, places, extra, o, from, to);
    }

    /** A refused drop: the object goes back to its owner, with a reference nobody gives back. */
    method HandBack(from: Box, to: Box, o: ObjId)
      requires Inv() && from in boxes && to in boxes && from != to
      requires exists k :: Place(o, from, k) in places
      modifies `objs, `boxes, `tables, `sane, `places, `extra
      ensures Inv() && o in objs
      ensures objs == Held(old(objs), {o}) && extra == Owed(old(extra), {o})
      ensures places == old(places) - Spread(o, objs[o], from) + Spread(o, objs[o], to)
      ensures exists mid :: Gains(old(boxes), mid, to, KeysOf(objs[o]), o) && Loses(mid, boxes, from, KeysOf(objs[o]), o)
      ensures boxes.Keys == old(boxes).Keys
      ensures Went(old(State()), MoveActs(from, to, o, objs[o]), State())
    {
      ghost var k :| Place(o, from, k) in places;
      EntryLive(objs, places, extra, Place(o, from, k));
      ObjDup(o);
      SameButRefs(old(objs), o, objs[o].refs);
      OneMore(old(objs), objs, old(extra), o);
      ClosedSame(old(objs), objs, places, o);
      Move(from, to, o);
    }

    /** The hand-over of a listed object, as the lists of both containers see it. */
    method HandListed(from: Box, to: Box, k: string, o: ObjId, ghost front: seq<ObjId>, ghost rest: seq<ObjId>)
      requires Inv() && from in boxes && to in boxes && from != to
      requires Listed(boxes[from], k) == front + [o] + rest
      modifies `objs, `boxes, `tables, `sane, `places, `extra
      ensures Inv() && Elsewhere(old(boxes), boxes, from, to) && from in boxes && to in boxes
      ensures objs == old(objs) && extra == old(extra) && o in objs
      ensures Listed(boxes[from], k) == front + rest && Place(o, to, k) in places
      ensures Listed(boxes[to], k) == [o] + Listed(old(boxes)[to], k)
      ensures places == old(places) - Spread(o, objs[o], from) + Spread(o, objs[o], to)
      ensures Of(old(places), o) == Spread(o, objs[o], from)
      ensures Went(old(State()), HandActs(from, to, o, objs[o]), State())
    {
      ListedIs(objs, boxes, places, extra, from, k, front, o, rest);
      Hand(from, to, o);
      HandedOver(old(boxes), boxes, from, to, o, objs, k);
    }

    /** The way back of a refused object. */
    method BackListed(from: Box, to: Box, k: string, o: ObjId)
      requires Inv() && from in boxes && to in boxes && from != to && Place(o, from, k) in places && o in objs
      modifies `objs, `boxes, `tables, `sane, `places, `extra
      ensures Inv() && Elsewhere(old(boxes), boxes, from, to) && from in boxes && to in boxes
      ensures objs == Held(old(objs), {o}) && extra == Owed(old(extra), {o})
      ensures Listed(boxes[to], k) == [o] + Listed(old(boxes)[to], k)
      ensures Listed(boxes[from], k) == Minus(Listed(old(boxes)[from], k), o)
      ensures places == old(places) - Spread(o, old(objs)[o], from) + Spread(o, old(objs)[o], to)
      ensures Went(old(State()), MoveActs(from, to, o, old(objs)[o]), State())
    {
      EntryLive(objs, places, extra, Place(o, from, k));
      HandBack(from, to, o);
      assert MoveActs(from, to, o, objs[o]) == MoveActs(from, to, o, old(objs)[o]);
      assert KeysOf(objs[o]) == KeysOf(old(objs)[o]);
      HandedOver(old(boxes), boxes, from, to, o, objs, k);
    }

    /** One step of a drop: an accepted object ends up in the room; a refused one comes back to
        the front of its lists with one reference too many. */
    method DropListed(from: Box, to: Box, k: string, o: ObjId, accepted: bool, ghost front: seq<ObjId>, ghost rest: seq<ObjId>)
      returns (ghost front': seq<ObjId>)
      requires Inv() && from in boxes && to in boxes && from != to
      requires Listed(boxes[from], k) == front + [o] + rest
      modifies `objs, `boxes, `tables, `sane, `places, `extra
      ensures Inv() && Elsewhere(old(boxes), boxes, from, to) && from in boxes && to in boxes
      ensures front' == (if accepted then front else [o] + front) && Listed(boxes[from], k) == front' + rest
      ensures Listed(boxes[to], k) == if accepted then [o] + Listed(old(boxes)[to], k) else Listed(old(boxes)[to], k)
      ensures places == if accepted then Resettle(old(places), {o}, to) else old(places)
      ensures objs == if accepted then old(objs) else Held(old(objs), {o})
      ensures extra == if accepted then old(extra) else Owed(old(extra), {o})
      ensures Went(old(State()), DropOne(from, to, o, Rec(old(objs), o), accepted), State())
    {
      HandListed(from, to, k, o, front, rest);
      ResettleOne(old(objs), old(places), o, from, to);
      ghost var rec, f := objs[o], State();
      if !accepted {
        ghost var mid := boxes;
        ThereAndBack(old(objs), old(places), o, from, to);
        BackListed(to, from, k, o);
        ElsewhereThen(old(boxes), mid, boxes, from, to);
        InFront(o, front, rest, Listed(old(boxes)[to], k));
        WentThen(old(State()), HandActs(from, to, o, rec), f, MoveActs(to, from, o, rec), State());
      } else {
        assert HandActs(from, to, o, rec) + [] == HandActs(from, to, o, rec);
      }
      front' := if accepted then front else [o] + front;
    }

    /** req_drop; `ok` as for a take. */
    method Drop(user: string, room: nat, name: string, accept: ObjId -> bool) returns (ok: bool, visited: seq<ObjId>)
      requires Inv() && sane && Room(room) in boxes
      modifies `objs, `boxes, `tables, `sane, `places, `extra
      ensures var listed := if Inventory(user) in old(boxes) then Listed(old(boxes)[Inventory(user)], name) else [];
              var acts := DropActs(old(objs), listed, accept, Inventory(user), Room(room));
              && ok == sane == Through(old(State()), acts) && (ok ==> Went(old(State()), acts, State()))
              && (ok ==> visited == listed)
      ensures ok ==> Inv() && boxes.Keys == old(boxes).Keys
      ensures ok ==> forall c :: c in boxes && c != Room(room) && c != Inventory(user) ==> boxes[c] == old(boxes)[c]
      ensures ok ==> places == Resettle(old(places), Accepted(visited, accept), Room(room))
      ensures ok ==> objs == Held(old(objs), Refused(visited, accept)) && extra == Owed(old(extra), Refused(visited, accept))
      ensures ok && Inventory(user) in boxes ==> Listed(boxes[Inventory(user)], name) == Turned(Chosen(visited, accept, false))
      ensures ok ==> Listed(boxes[Room(room)], name) == Turned(Chosen(visited, accept, true)) + Listed(old(boxes)[Room(room)], name)
    {
      var from, to := Inventory(user), Room(room);
      if from !in boxes {
        ok, visited := true, [];
        ResettleNone(places, to);
        TurnedNone(accept, true, Listed(boxes[to], name));
        WentNowhere(State());
        ThroughNone(State());
        return;
      }
      ok, visited := DropWalk(from, to, name, accept);
    }

    /** Its walk over the objects of that name. */
    method DropWalk(from: Box, to: Box, name: string, accept: ObjId -> bool) returns (ok: bool, visited: seq<ObjId>)
      requires Inv() && sane && from in boxes && to in boxes && from != to
      modifies `objs, `boxes, `tables, `sane, `places, `extra
      ensures var acts := DropActs(old(objs), Listed(old(boxes)[from], name), accept, from, to);
              ok == sane == Through(old(State()), acts) && (ok ==> Went(old(State()), acts, State()))
      ensures ok ==> visited == Listed(old(boxes)[from], name)
      ensures ok ==> Inv() && boxes.Keys == old(boxes).Keys
      ensures ok ==> forall c :: c in boxes && c != to && c != from ==> boxes[c] == old(boxes)[c]
      ensures ok ==> places == Resettle(old(places), Accepted(visited, accept), to)
      ensures ok ==> objs == Held(old(objs), Refused(visited, accept)) && extra == Owed(old(extra), Refused(visited, accept))
      ensures ok ==> Listed(boxes[from], name) == Turned(Chosen(visited, accept, false))
      ensures ok ==> Listed(boxes[to], name) == Turned(Chosen(visited, accept, true)) + Listed(old(boxes)[to], name)
    {
      visited := [];
      ResettleNone(places, to);
      WentNowhere(State());
      TurnedNone(accept, true, Listed(boxes[to], name));
      TurnedNone(accept, false, []);
      var iter := First(Listed(boxes[from], name));
      ghost var front, rest: seq<ObjId> := [], Listed(boxes[from], name);
      EntryIs(boxes, places, Place(0, from, name));
      ElsewhereSame(boxes, from, to);
      while iter != None && sane
        invariant Inv() && from in boxes && to in boxes && Elsewhere(old(boxes), boxes, from, to)
        invariant Went(old(State()), DropActs(old(objs), visited, accept, from, to), State())
        invariant iter == First(rest) && visited + rest == Listed(old(boxes)[from], name)
        invariant Listed(boxes[from], name) == front + rest && NoRepeats(visited + rest)
        invariant front == Turned(Chosen(visited, accept, false))
        invariant Listed(boxes[to], name) == Turned(Chosen(visited, accept, true)) + Listed(old(boxes)[to], name)
        invariant places == Resettle(old(places), Accepted(visited, accept), to)
        invariant objs == Held(old(objs), Refused(visited, accept)) && extra == Owed(old(extra), Refused(visited, accept))
        decreases |rest|
      {
        var o := iter.value;
        ghost var later := rest[1..];
        SplitRest(front, rest);
        SplitRest(visited, rest);
        NotInFront(boxes, places, from, name, front, o, later);
        AfterMiddle(front, o, later);
        var next := NextOf(Listed(boxes[from], name), o);
        ghost var mid, f := boxes, State();
        RefusedRec(old(objs), visited, o, accept, from, to);
        TurnedNext(visited, o, accept, false, []);
        TurnedNext(visited, o, accept, true, Listed(old(boxes)[to], name));
        front := DropListed(from, to, name, o, accept(o), front, later);
        ElsewhereThen(old(boxes), mid, boxes, from, to);
        DropNext(old(State()), old(objs), visited, o, accept, from, to, f, State());
        ResettleNext(old(places), visited, o, accept, to);
        RefusedNext(old(objs), old(extra), visited, o, accept, later);
        visited := visited + [o];
        iter, rest := next, later;
      }
      ElsewhereIs(old(boxes), boxes, from, to);
      ok := sane;
      DropEnds(old(State()), old(objs), visited, rest, accept, from, to, State());
    }

    /** Unfiling, as the list of one key sees it. */
    method UnfileListed(b: Box, k: string, o: ObjId)
      requires Sound() && b in boxes && o in objs && k in KeysOf(objs[o]) && Spread(o, objs[o], b) <= places
      modifies `objs, `boxes, `tables, `places, `extra
      ensures Sound() && SameBut(old(objs), objs, o) && boxes.Keys == old(boxes).Keys
      ensures places == old(places) - Spread(o, old(objs)[o], b)
      ensures Listed(boxes[b], k) == Minus(Listed(old(boxes)[b], k), o)
      ensures o in objs <==> (o in old(extra) && old(extra)[o] > 0) || Of(places, o) != {}
      ensures extra == if o in objs then old(extra) else old(extra) - {o}
      ensures Went(old(State()), UnfileActs(b, o, old(objs)[o]), State())
    {
      ghost var ks := KeysOf(objs[o]);
      assert Place(o, b, objs[o].name) in places;
      var there, found := Unfile(b, o);
      LosesIs(old(boxes), boxes, b, ks, o, b, k);
    }

    /** One step of a deletion by name. */
    method DeleteListed(b: Box, k: string, o: ObjId, ghost rest: seq<ObjId>)
      requires Inv() && b in boxes && Listed(boxes[b], k) == [o] + rest
      modifies `objs, `boxes, `tables, `places, `extra
      ensures Inv() && boxes.Keys == old(boxes).Keys
      ensures Listed(boxes[b], k) == rest
      ensures places == old(places) - Of(old(places), o)
      ensures Released(old(objs), old(extra), objs, places, extra)
      ensures Went(old(State()), UnfileActs(b, o, Rec(old(objs), o)), State())
    {
      assert [] + [o] + rest == [o] + rest && [] + rest == rest;
      ListedIs(objs, boxes, places, extra, b, k, [], o, rest);
      UnfileListed(b, k, o);
      ClosedUnfiled(old(objs), objs, old(places), o);
      ReleasedOne(old(objs), old(places), old(extra), objs, places, extra, o);
    }

    /** room_obj_del and userdb_del_obj: every object listed under `name` goes, with all its
        entries; it is freed unless someone outside the containers still holds a reference. */
    method DeleteByName(b: Box, name: string) returns (visited: seq<ObjId>)
      requires Inv() && b in boxes
      modifies `objs, `boxes, `tables, `places, `extra
      ensures Inv() && boxes.Keys == old(boxes).Keys
      ensures visited == Listed(old(boxes)[b], name)
      ensures places == Strip(old(places), visited)
      ensures Released(old(objs), old(extra), objs, places, extra)
      ensures Went(old(State()), DeleteActs(old(objs), visited, b), State())
    {
      var iter := First(Listed(boxes[b], name));
      visited := [];
      WentNowhere(State());
      ghost var rest := Listed(boxes[b], name);
      ReleasedNothing(objs, places, extra);
      StripNext(places, [], 0);
      while iter != None
        invariant Inv() && boxes.Keys == old(boxes).Keys
        invariant iter == First(rest) && Listed(boxes[b], name) == rest && visited + rest == Listed(old(boxes)[b], name)
        invariant places == Strip(old(places), visited)
        invariant Released(old(objs), old(extra), objs, places, extra)
        invariant Went(old(State()), DeleteActs(old(objs), visited, b), State())
        decreases |rest|
      {
        var o := iter.value;
        ghost var later := rest[1..];
        ghost var objs1, places1, extra1, f := objs, places, extra, State();
        EntryIs(boxes, places, Place(o, b, name));
        EntryLive(objs, places, extra, Place(o, b, name));
        ReleasedRec(old(objs), old(extra), objs, places, extra, o, b);
        FirstOfRest(rest);
        var next := NextOf(Listed(boxes[b], name), o);
        StripNext(old(places), visited, o);
        SplitRest(visited, rest);
        DeleteListed(b, name, o, later);
        ActsNext(old(objs), visited, o, Never, b, b);
        WentThen(old(State()), DeleteActs(old(objs), visited, b), f, UnfileActs(b, o, Rec(old(objs), o)), State());
        ReleasedThen(old(objs), old(extra), objs1, places1, extra1, objs, places, extra);
        visited := visited + [o];
        iter, rest := next, later;
      }
    }

    /** free_node on the list of one key, after the key has left its table. */
    method DropList(b: Box, k: string)
      requires Sound() && b in boxes
      modifies `objs, `boxes, `places, `extra
      ensures Sound() && boxes == old(boxes)[b := old(boxes)[b] - {k}]
      ensures places == Unkeyed(old(places), b, k)
      ensures Released(old(objs), old(extra), objs, places, extra)
    {
      var victims := Listed(boxes[b], k);
      ghost var objs0, extra0 := objs, extra;
      FiledKeyTaken(boxes, places, b, k);
      CountedKeyTaken(objs, boxes, places, extra, b, k);
      boxes, places, extra := boxes[b := boxes[b] - {k}], Unkeyed(places, b, k), Owed(extra, Elems(victims));
      ReleasedNothing(objs, places, extra);
      FreeList(victims, objs0, extra0);
    }

    /** The free loop of free_node. */
    method FreeList(victims: seq<ObjId>, ghost objs0: map<ObjId, Obj>, ghost extra0: map<ObjId, int>)
      requires Sound() && NoRepeats(victims)
      requires Released(objs0, Owed(extra0, Elems(victims)), objs, places, extra)
      requires forall o :: o in victims ==> o in objs0 && o in extra0 && extra0[o] >= 0
      modifies `objs, `extra
      ensures Sound() && Released(objs0, extra0, objs, places, extra)
    {
      assert victims[0..] == victims;
      for i := 0 to |victims|
        invariant Sound()
        invariant Released(objs0, Owed(extra0, Elems(victims[i..])), objs, places, extra)
      {
        var o := victims[i];
        ghost var later := victims[i + 1..];
        ghost var objs1, extra1 := objs, extra;
        assert victims[i..] == [o] + later;
        ReleasedHolds(objs0, extra0, o, later, objs, places, extra);
        ObjFree(o);
        ReleasedFree(objs0, extra0, o, later, objs1, extra1, objs, places, extra);
      }
      assert Owed(extra0, Elems(victims[|victims|..])) == extra0;
    }

    /** userdb_remove: the user's multimap is freed, key by key in the table's order. */
    method RemoveBox(b: Box, order: seq<string>)
      requires Inv() && b in boxes
      requires forall k :: k in boxes[b] <==> k in order
      modifies `objs, `boxes, `tables, `places, `extra
      ensures Inv() && boxes == old(boxes) - {b}
      ensures places == Outside(old(places), b)
      ensures Released(old(objs), old(extra), objs, places, extra)
      ensures Went(old(State()), [Shut(b)], State())
    {
      ReleasedNothing(objs, places, extra);
      for i := 0 to |order|
        invariant Sound() && b in boxes && boxes - {b} == old(boxes) - {b} && tables == old(tables)
        invariant places == set p | p in old(places) && !(p.box == b && p.key in order[..i])
        invariant Released(old(objs), old(extra), objs, places, extra)
      {
        ghost var objs1, places1, extra1 := objs, places, extra;
        DropList(b, order[i]);
        assert order[..i + 1] == order[..i] + [order[i]];
        ReleasedThen(old(objs), old(extra), objs1, places1, extra1, objs, places, extra);
      }
      assert order[..|order|] == order;
      AllKeysGone(old(boxes), old(places), b, order);
      BoxGone(boxes, places, b);
      ClosedBoxGone(old(objs), old(places), old(extra), objs, extra, b);
      boxes, tables := boxes - {b}, tables - {b};
      WentOne(old(State()), Shut(b), State());
    }

    /** Object ids are below the counter, so the next one is new. */
    ghost predicate Numbered()
      reads this
    {
      forall o :: o in objs ==> o < idCounter
    }

    /** obj_new: the next id, and one reference for the caller. */
    method ObjNew(name: string) returns (o: ObjId)
      requires Inv() && Numbered()
      modifies `objs, `extra, `idCounter
      ensures Inv() && Numbered() && o == old(idCounter) && idCounter == o + 1 && o !in old(objs)
      ensures objs == old(objs)[o := Obj(name, [], 1)] && extra == old(extra)[o := 1]
      ensures forall p :: p in places ==> p.obj != o
    {
      o := idCounter;
      CountedNew(objs, places, extra, o, name);
      ClosedNew(objs, objs[o := Obj(name, [], 1)], places, o);
      objs, extra, idCounter := objs[o := Obj(name, [], 1)], extra[o := 1], idCounter + 1;
    }

    /** obj_new followed by room_obj_add: the creating reference becomes the first entry. */
    method Create(b: Box, name: string) returns (o: ObjId)
      requires Inv() && Numbered() && b in boxes
      modifies `objs, `boxes, `tables, `sane, `places, `extra, `idCounter
      ensures Inv() && Numbered() && o == old(idCounter) && idCounter == o + 1 && o !in old(objs)
      ensures boxes.Keys == old(boxes).Keys
      ensures objs == old(objs)[o := Obj(name, [], 1)] && extra == old(extra)[o := 0]
      ensures places == old(places) + {Place(o, b, name)}
      ensures Went(old(State()), [Put(b, name, o)], State())
    {
      o := ObjNew(name);
      assert Of(places, o) == {};
      var status := FileNew(b, o);
      assert Spread(o, Obj(name, [], 1), b) == {Place(o, b, name)};
      assert FileActs(b, o, Obj(name, [], 1)) == [Put(b, name, o)];
    }

    /** room_obj_add of an object that is in no container: its creating reference goes to the entry
        under its name. */
    method FileNew(b: Box, o: ObjId) returns (status: bool)
      requires Inv() && b in boxes && o in objs && Of(places, o) == {}
      modifies `objs, `boxes, `tables, `sane, `places, `extra
      ensures Inv() && Snap() == FiledIn(old(Snap()), o, b)
      ensures status == forall k :: k in KeysOf(old(objs)[o]) ==> k !in old(boxes)[b]
      ensures Went(old(State()), FileActs(b, o, old(objs)[o]), State())
    {
      ghost var rec := objs[o];
      RefsAre(objs, places, extra, o);
      NotFiled(places, o);
      PaidPlus(extra, o, -1);
      status := FileWithRef(b, o);
      GainsAll(old(boxes), old(places), boxes, places, b, KeysOf(rec), o);
      EnteredRefs(old(objs), objs, old(places), places, old(extra), extra, o, b);
      ClosedEntered(old(objs), objs, old(places), o, b);
    }

    /** The alias list grows at the front; nothing is filed yet. */
    method NameAlias(o: ObjId, alias: string)
      requires Kept() && o in objs && alias !in KeysOf(objs[o])
      modifies `objs
      ensures Kept() && objs == old(objs)[o := old(objs)[o].(aliases := [alias] + old(objs)[o].aliases)]
      ensures KeysOf(objs[o]) == KeysOf(old(objs)[o]) + {alias}
    {
      CountedAlias(objs, places, extra, o, alias);
      objs := objs[o := objs[o].(aliases := [alias] + objs[o].aliases)];
    }

    /** The first branch of room_obj_add_alias: the object is filed if nothing of its name is
        there, wherever else it may be. */
    method FileIfMissing(b: Box, o: ObjId)
      requires Inv() && b in boxes && o in objs
      modifies `objs, `boxes, `tables, `sane, `places, `extra
      ensures Kept() && Snap() == FiledIfMissing(old(Snap()), o, b)
      ensures forall k :: k !in KeysOf(old(objs)[o]) ==> (k in boxes[b] <==> k in old(boxes)[b])
      ensures Went(old(State()), MissingActs(b, o, old(objs)[o], NamedIn(old(places), b, old(objs)[o].name) == {}), State())
    {
      ghost var rec := objs[o];
      WentNowhere(State());
      RefsAre(objs, places, extra, o);
      NamedListed(boxes, places, b, objs[o].name);
      if Listed(boxes[b], objs[o].name) == [] {
        NotHere(objs, boxes, places, extra, b, o);
        var status := FileWithRef(b, o);
        EnteredRefs(old(objs), objs, old(places), places, old(extra), extra, o, b);
        GainsAll(old(boxes), old(places), boxes, places, b, KeysOf(rec), o);
      }
    }

    /** room_obj_add_alias. Entries and counts stay in step, except that an object filed here while
        it is in another container brings no reference for its name; the invariant holds afterwards
        exactly if the call fits. */
    method AddAlias(b: Box, o: ObjId, alias: string) returns (status: bool)
      requires Inv() && b in boxes && o in objs
      modifies `objs, `boxes, `tables, `sane, `places, `extra
      ensures Kept() && Snap() == AliasedIn(FiledIfMissing(old(Snap()), o, b), o, b, alias)
      ensures Inv() <==> AliasFits(old(Snap()), o, b, alias)
      ensures status == (alias !in KeysOf(old(objs)[o]) && alias !in old(boxes)[b])
      ensures Went(old(State()), AliasActs(b, o, old(objs)[o], NamedIn(old(places), b, old(objs)[o].name) == {}, alias), State())
    {
      ghost var before, rec, missing := Snap(), objs[o], NamedIn(places, b, objs[o].name) == {};
      NotHere(objs, boxes, places, extra, b, o);
      FileIfMissing(b, o);
      ghost var f := State();
      status := NewAlias(b, o, alias);
      WentThen(old(State()), MissingActs(b, o, rec, missing), f, NewActs(b, o, rec, alias), State());
      AliasCloses(before, o, b, alias);
    }

    /** Its second part: an alias the object already has is turned down, a new one is filed in its
        own right. */
    method NewAlias(b: Box, o: ObjId, alias: string) returns (status: bool)
      requires Kept() && b in boxes && o in objs
      modifies `objs, `boxes, `tables, `sane, `places, `extra
      ensures Kept() && Snap() == AliasedIn(old(Snap()), o, b, alias)
      ensures status == (alias !in KeysOf(old(objs)[o]) && alias !in old(boxes)[b])
      ensures Went(old(State()), NewActs(b, o, old(objs)[o], alias), State())
    {
      WentNowhere(State());
      if alias == objs[o].name || alias in objs[o].aliases {
        return false;
      }
      NoSuchEntry(objs, places, extra, o, b, alias);
      NameAlias(o, alias);
      status := FileAlias(b, o, alias);
      GainsKeys(old(boxes), boxes, b, {alias}, o);
    }

    /** userdb_add of a user without a record: an empty inventory. */
    method AddUser(user: string)
      requires Inv()
      modifies `boxes, `tables
      ensures Inv()
      ensures boxes == if Inventory(user) in old(boxes) then old(boxes) else old(boxes)[Inventory(user) := map[]]
      ensures Went(old(State()), if Inventory(user) in old(boxes) then [] else [Open(Inventory(user), INVENTORY_SIZE)], State())
    {
      WentNowhere(State());
      if Inventory(user) !in boxes {
        BoxNew(boxes, places, Inventory(user));
        boxes := boxes[Inventory(user) := map[]];
        tables := tables[Inventory(user) := Fresh(INVENTORY_SIZE)];
        WentOne(old(State()), Open(Inventory(user), INVENTORY_SIZE), State());
      }
    }
  }

  lemma {:induction false} NamesCount(names: seq<string>)
    requires forall i, j :: 0 <= i < j < |names| ==> names[i] != names[j]
    ensures |set a | a in names| == |names|
  {
    var ks := set a | a in names;
    if names == [] {
      assert ks == {};
    } else {
      var front, last := names[..|names| - 1], names[|names| - 1];
      NamesCount(front);
      assert names == front + [last];
      assert ks == (set a | a in front) + {last};
    }
  }

  lemma ClosedNew(objs: map<ObjId, Obj>, objs': map<ObjId, Obj>, places: set<Place>, o: ObjId)
    requires Closed(objs, places) && o !in objs && o in objs' && objs' == objs[o := objs'[o]]
    requires forall p :: p in places ==> p.obj in objs
    ensures Closed(objs', places)
  {
    assert Opened(0);
  }

  lemma NotFiled(places: set<Place>, o: ObjId)
    requires Of(places, o) == {}
    ensures forall p :: p in places ==> p.obj != o
    ensures forall b, k :: Place(o, b, k) !in places
  {
    forall p | p in places ensures p.obj != o { assert p !in Of(places, o); }
  }

  lemma SpreadAdds(places: set<Place>, id: ObjId, o: Obj, b: Box)
    requires WellNamed(o) && forall k :: Place(id, b, k) !in places
    ensures |Of(places + Spread(id, o, b), id)| == |Of(places, id)| + 1 + |o.aliases|
  {
    assert Of(places + Spread(id, o, b), id) == Of(places, id) + Spread(id, o, b);
    assert Of(places, id) !! Spread(id, o, b);
    SpreadCard(id, KeysOf(o), b);
    NamesCount(o.aliases);
    assert |KeysOf(o)| == 1 + |Names(o.aliases)|;
  }

  /** Filing an object anywhere adds one entry per key; all but the first bring their reference. */
  lemma EnteredRefs(objs: map<ObjId, Obj>, objs': map<ObjId, Obj>, was: set<Place>, now: set<Place>, extra: map<ObjId, int>,
                    extra': map<ObjId, int>, o: ObjId, b: Box)
    requires SameBut(objs, objs', o) && o in objs && o in objs'
    requires Counted(objs, was, extra) && Counted(objs', now, extra')
    requires o in extra && extra' == extra[o := extra[o] - 1]
    requires now == was + Spread(o, objs[o], b) && forall k :: Place(o, b, k) !in was
    ensures objs' == objs[o := Entered(objs[o])]
  {
    RefsAre(objs, was, extra, o);
    RefsAre(objs', now, extra', o);
    SpreadAdds(was, o, objs[o], b);
    SameButCount(objs, objs', o);
  }

  /** An object of a closed state that is not listed here under its name has no entry here. */
  lemma NotHere(objs: map<ObjId, Obj>, boxes: map<Box, Shelf>, places: set<Place>, extra: map<ObjId, int>, b: Box, o: ObjId)
    requires Filed(boxes, places) && Counted(objs, places, extra) && Closed(objs, places) && o in objs && b in boxes
    ensures Listed(boxes[b], objs[o].name) == [] ==> forall k :: Place(o, b, k) !in places
  {
    EntryIs(boxes, places, Place(o, b, objs[o].name));
    HereOrNot(objs, places, extra, b, o);
  }

  lemma NoSuchEntry(objs: map<ObjId, Obj>, places: set<Place>, extra: map<ObjId, int>, o: ObjId, b: Box, k: string)
    requires Counted(objs, places, extra) && o in objs && k !in KeysOf(objs[o])
    ensures Place(o, b, k) !in places
  {
    if Place(o, b, k) in places { EntryLive(objs, places, extra, Place(o, b, k)); }
  }

  lemma GainsAll(was: map<Box, Shelf>, places: set<Place>, now: map<Box, Shelf>, places': set<Place>, b: Box, ks: set<string>, o: ObjId)
    requires Gains(was, now, b, ks, o) && Filed(was, places) && Filed(now, places') && b in was
    ensures was.Keys == now.Keys && forall k :: k !in ks ==> (k in now[b] <==> k in was[b])
  {
    GainsKeys(was, now, b, ks, o);
    forall k | k !in ks ensures k in now[b] <==> k in was[b] {
      GainsVacant(was, places, now, places', b, ks, k, o);
    }
  }

  lemma NamedListed(boxes: map<Box, Shelf>, places: set<Place>, b: Box, k: string)
    requires Filed(boxes, places) && b in boxes
    ensures NamedIn(places, b, k) == Elems(Listed(boxes[b], k))
    ensures NamedIn(places, b, k) == {} <==> Listed(boxes[b], k) == []
  {
    var os := Listed(boxes[b], k);
    forall o ensures o in NamedIn(places, b, k) <==> o in os {
      EntryIs(boxes, places, Place(o, b, k));
      assert o in NamedIn(places, b, k) <==> Place(o, b, k) in places;
    }
    if os != [] { assert os[0] in Elems(os); }
  }

  /** The invariant as a snapshot shows it. */
  ghost predicate Consistent(s: Snapshot) {
    Counted(s.objs, s.places, s.extra) && Paid(s.extra) && Closed(s.objs, s.places)
  }

  /** The invariant after room_obj_add_alias, exactly. */
  lemma AliasCloses(s: Snapshot, o: ObjId, b: Box, alias: string)
    requires Consistent(s) && o in s.objs
    ensures var s' := AliasedIn(FiledIfMissing(s, o, b), o, b, alias);
            Paid(s'.extra) && Closed(s'.objs, s'.places) <==> AliasFits(s, o, b, alias)
  {
    var name := Place(o, b, s.objs[o].name);
    assert name in s.places ==> o in NamedIn(s.places, b, name.key);
    if name in s.places {
      AliasHere(s, o, b, alias);
    } else if NamedIn(s.places, b, name.key) == {} {
      AliasMissing(s, o, b, alias);
    } else {
      AliasNamesake(s, o, b, alias);
    }
  }

  lemma AliasHere(s: Snapshot, o: ObjId, b: Box, alias: string)
    requires Consistent(s) && o in s.objs && Place(o, b, s.objs[o].name) in s.places
    ensures var s' := AliasedIn(FiledIfMissing(s, o, b), o, b, alias);
            Paid(s'.extra) && Closed(s'.objs, s'.places)
  {
    var s', name := AliasedIn(FiledIfMissing(s, o, b), o, b, alias), Place(o, b, s.objs[o].name);
    AliasKeys(s, o, b, alias);
    assert o in NamedIn(s.places, b, name.key);
    LocatedIn(s.objs, s.places, s.extra, name);
    ClosedAlias(s.objs, s'.objs, s.places, o, b, alias);
    if alias in KeysOf(s.objs[o]) { AliasOld(s.objs, s.places, o, b, alias); }
  }

  lemma AliasMissing(s: Snapshot, o: ObjId, b: Box, alias: string)
    requires Consistent(s) && o in s.objs && NamedIn(s.places, b, s.objs[o].name) == {}
    ensures var s' := AliasedIn(FiledIfMissing(s, o, b), o, b, alias);
            Paid(s'.extra) && Closed(s'.objs, s'.places) <==> Of(s.places, o) == {}
  {
    var s', name := AliasedIn(FiledIfMissing(s, o, b), o, b, alias), Place(o, b, s.objs[o].name);
    AliasKeys(s, o, b, alias);
    RefsAre(s.objs, s.places, s.extra, o);
    PaidPlus(s.extra, o, -1);
    assert name in s.places ==> o in NamedIn(s.places, b, name.key);
    HereOrNot(s.objs, s.places, s.extra, b, o);
    AliasingNew(s.places, o, s.objs[o], s'.objs[o], b, alias);
    if Of(s.places, o) == {} {
      ClosedEntered(s.objs, s'.objs, s.places, o, b);
    } else {
      var p :| p in Of(s.places, o);
      OpenInTwo(s'.objs, s'.places, p, name);
    }
  }

  lemma AliasNamesake(s: Snapshot, o: ObjId, b: Box, alias: string)
    requires Consistent(s) && o in s.objs
    requires NamedIn(s.places, b, s.objs[o].name) != {} && Place(o, b, s.objs[o].name) !in s.places
    ensures var s' := AliasedIn(FiledIfMissing(s, o, b), o, b, alias);
            Paid(s'.extra) && Closed(s'.objs, s'.places) <==> alias in KeysOf(s.objs[o])
  {
    var s', name := AliasedIn(FiledIfMissing(s, o, b), o, b, alias), Place(o, b, s.objs[o].name);
    AliasKeys(s, o, b, alias);
    HereOrNot(s.objs, s.places, s.extra, b, o);
    if alias !in KeysOf(s.objs[o]) {
      OpenKey(s'.objs, s'.places, Place(o, b, alias), name);
    }
  }

  lemma AliasKeys(s: Snapshot, o: ObjId, b: Box, alias: string)
    requires o in s.objs
    ensures var s' := AliasedIn(FiledIfMissing(s, o, b), o, b, alias);
            o in s'.objs && s'.objs == s.objs[o := s'.objs[o]] && KeysOf(s'.objs[o]) == KeysOf(s.objs[o]) + {alias}
            && s'.objs[o].name == s.objs[o].name
  {
    var s' := AliasedIn(FiledIfMissing(s, o, b), o, b, alias);
    assert s'.objs == s.objs[o := s'.objs[o]];
  }

  lemma HereOrNot(objs: map<ObjId, Obj>, places: set<Place>, extra: map<ObjId, int>, b: Box, o: ObjId)
    requires Counted(objs, places, extra) && Closed(objs, places) && o in objs
    ensures Place(o, b, objs[o].name) !in places ==> forall k :: Place(o, b, k) !in places
  {
    if k :| Place(o, b, k) in places {
      LocatedIn(objs, places, extra, Place(o, b, k));
      assert Place(o, b, objs[o].name) in Of(places, o);
    }
  }

  lemma AliasOld(objs: map<ObjId, Obj>, places: set<Place>, o: ObjId, b: Box, alias: string)
    requires o in objs && Of(places, o) == Spread(o, objs[o], b) && alias in KeysOf(objs[o])
    ensures places + {Place(o, b, alias)} == places
  {
    assert Place(o, b, alias) in Of(places, o);
  }

  lemma AliasingNew(places: set<Place>, id: ObjId, o: Obj, o': Obj, b: Box, alias: string)
    requires KeysOf(o') == KeysOf(o) + {alias}
    ensures places + Spread(id, o, b) + (if alias in KeysOf(o) then {} else {Place(id, b, alias)}) == places + Spread(id, o', b)
  {
    assert Spread(id, o', b) == Spread(id, o, b) + {Place(id, b, alias)};
  }

  lemma OpenInTwo(objs: map<ObjId, Obj>, places: set<Place>, p: Place, q: Place)
    requires p in places && q in places && p.obj == q.obj && p.box != q.box
    ensures !Closed(objs, places)
  {
    assert Opened(0);
  }

  lemma OpenKey(objs: map<ObjId, Obj>, places: set<Place>, p: Place, q: Place)
    requires p in places && p.obj in objs && q in Spread(p.obj, objs[p.obj], p.box) && q !in places
    ensures !Closed(objs, places)
  {
    assert Opened(0);
  }

  lemma ClosedEntered(objs: map<ObjId, Obj>, objs': map<ObjId, Obj>, places: set<Place>, o: ObjId, b: Box)
    requires Closed(objs, places) && o in objs && o in objs' && objs' == objs[o := objs'[o]] && Of(places, o) == {}
    ensures Closed(objs', places + Spread(o, objs'[o], b))
  {
    assert Opened(0);
    var now := places + Spread(o, objs'[o], b);
    forall p | p in now && p.obj in objs' ensures (p.obj == o ==> p.box == b) && Spread(p.obj, objs'[p.obj], p.box) <= now {
      if p in places { assert p !in Of(places, o); }
    }
  }

  lemma ClosedAlias(objs: map<ObjId, Obj>, objs': map<ObjId, Obj>, places: set<Place>, o: ObjId, b: Box, alias: string)
    requires Closed(objs, places) && o in objs && o in objs' && Of(places, o) == Spread(o, objs[o], b)
    requires forall x :: x != o ==> (x in objs' <==> x in objs) && (x in objs ==> objs'[x] == objs[x])
    requires KeysOf(objs'[o]) == KeysOf(objs[o]) + {alias}
    ensures Closed(objs', places + {Place(o, b, alias)})
  {
    assert Opened(0);
    var now := places + {Place(o, b, alias)};
    forall p | p in now && p.obj in objs' ensures p.obj == o ==> p.box == b {
      if p in places && p.obj == o { assert p in Of(places, o); }
    }
    forall p | p in now && p.obj in objs' ensures Spread(p.obj, objs'[p.obj], p.box) <= now {
      if p.obj != o {
        assert Spread(p.obj, objs[p.obj], p.box) <= places;
      } else {
        assert Of(places, o) <= places;
      }
    }
  }

  /** The entries in other containers. */
  ghost function Outside(places: set<Place>, b: Box): set<Place> {
    set p | p in places && p.box != b
  }

  lemma AllKeysGone(boxes: map<Box, Shelf>, places: set<Place>, b: Box, order: seq<string>)
    requires Filed(boxes, places) && b in boxes && forall k :: k in boxes[b] <==> k in order
    ensures (set p | p in places && !(p.box == b && p.key in order)) == Outside(places, b)
  {
    forall p | p in places && p.box == b ensures p.key in order {
      EntryIs(boxes, places, p);
    }
  }

  lemma ClosedBoxGone(objs: map<ObjId, Obj>, places: set<Place>, extra: map<ObjId, int>,
                      objs': map<ObjId, Obj>, extra': map<ObjId, int>, b: Box)
    requires Closed(objs, places)
    requires Released(objs, extra, objs', Outside(places, b), extra')
    ensures Closed(objs', Outside(places, b))
  {
    assert Sealed(0);
    assert Opened(0);
    var now := Outside(places, b);
    forall p | p in now && p.obj in objs' ensures Spread(p.obj, objs'[p.obj], p.box) <= now {
      assert p.obj in Live(objs, now, extra);
      assert Spread(p.obj, objs[p.obj], p.box) <= places;
    }
  }

  lemma ReleasedHolds(objs0: map<ObjId, Obj>, extra0: map<ObjId, int>, o: ObjId, later: seq<ObjId>,
                      objs: map<ObjId, Obj>, places: set<Place>, extra: map<ObjId, int>)
    requires Released(objs0, Owed(extra0, Elems([o] + later)), objs, places, extra)
    requires o in objs0 && o in extra0 && extra0[o] >= 0
    ensures o in objs && o in extra && extra[o] > 0
  {
    assert Sealed(0);
    assert o in Elems([o] + later);
  }

  /** One reference fewer is owed for `o`. */
  lemma ReleasedLess(objs0: map<ObjId, Obj>, e: map<ObjId, int>, e': map<ObjId, int>, o: ObjId,
                     objs: map<ObjId, Obj>, extra: map<ObjId, int>, objs': map<ObjId, Obj>, places: set<Place>, extra': map<ObjId, int>)
    requires Released(objs0, e, objs, places, extra) && SameBut(objs, objs', o) && o in objs && o in extra
    requires o in e && e' == e[o := e[o] - 1]
    requires o in objs' <==> objs[o].refs > 1
    requires extra' == if o in objs' then extra[o := extra[o] - 1] else extra - {o}
    requires o in objs' ==> objs'[o].refs == objs[o].refs - 1
    ensures Released(objs0, e', objs', places, extra')
  {
    assert Sealed(0);
    LiveLess(objs0, places, e, e', o);
    SameButIs(objs, objs', o);
    RestLess(objs, objs', e, e', o, extra, extra');
  }

  lemma RestLess(objs: map<ObjId, Obj>, objs': map<ObjId, Obj>, e: map<ObjId, int>, e': map<ObjId, int>, o: ObjId,
                 extra: map<ObjId, int>, extra': map<ObjId, int>)
    requires extra == map x | x in objs && x in e :: e[x]
    requires o in objs && o in e && e' == e[o := e[o] - 1] && objs'.Keys == (if o in objs' then objs.Keys else objs.Keys - {o})
    requires extra' == if o in objs' then extra[o := extra[o] - 1] else extra - {o}
    ensures extra' == map x | x in objs' && x in e' :: e'[x]
  {
  }

  lemma LiveLess(objs0: map<ObjId, Obj>, places: set<Place>, e: map<ObjId, int>, e': map<ObjId, int>, o: ObjId)
    requires o in e && e' == e[o := e[o] - 1] && o in Live(objs0, places, e)
    ensures var was := Live(objs0, places, e);
            Live(objs0, places, e') == if was[o].refs > 1 then was[o := was[o].(refs := was[o].refs - 1)] else was - {o}
  {
  }

  lemma SameButIs(objs: map<ObjId, Obj>, objs': map<ObjId, Obj>, o: ObjId)
    requires SameBut(objs, objs', o) && o in objs
    ensures objs' == if o in objs' then objs[o := objs[o].(refs := objs'[o].refs)] else objs - {o}
  {
    if o in objs' {
      SameButCount(objs, objs', o);
    } else {
      forall x ensures x in objs'.Keys <==> x in (objs - {o}).Keys { assert x != o ==> (x in objs' <==> x in objs); }
      forall x | x in objs' ensures objs'[x] == objs[x] { assert x != o; }
    }
  }

  lemma ReleasedFree(objs0: map<ObjId, Obj>, extra0: map<ObjId, int>, o: ObjId, later: seq<ObjId>,
                     objs: map<ObjId, Obj>, extra: map<ObjId, int>, objs': map<ObjId, Obj>, places: set<Place>, extra': map<ObjId, int>)
    requires Released(objs0, Owed(extra0, Elems([o] + later)), objs, places, extra) && o in extra0
    requires o !in later && o in objs && o in extra && SameBut(objs, objs', o)
    requires o in objs' <==> objs[o].refs > 1
    requires extra' == if o in objs' then extra[o := extra[o] - 1] else extra - {o}
    requires o in objs' ==> objs'[o].refs == objs[o].refs - 1
    ensures Released(objs0, Owed(extra0, Elems(later)), objs', places, extra')
  {
    var e, e' := Owed(extra0, Elems([o] + later)), Owed(extra0, Elems(later));
    assert forall x :: x in Elems([o] + later) <==> x == o || x in Elems(later);
    assert e' == e[o := e[o] - 1];
    ReleasedLess(objs0, e, e', o, objs, extra, objs', places, extra');
  }

  lemma ReleasedNothing(objs: map<ObjId, Obj>, places: set<Place>, extra: map<ObjId, int>)
    requires Counted(objs, places, extra)
    ensures Released(objs, extra, objs, places, extra)
  {
    assert Opened(0);
  }

  lemma RefusedNext(objs: map<ObjId, Obj>, extra: map<ObjId, int>, visited: seq<ObjId>, o: ObjId, accept: ObjId -> bool,
                    later: seq<ObjId>)
    requires NoRepeats(visited + [o] + later)
    ensures var r, r' := Refused(visited, accept), Refused(visited + [o], accept);
            && Held(objs, r') == (if accept(o) then Held(objs, r) else Held(Held(objs, r), {o}))
            && Owed(extra, r') == (if accept(o) then Owed(extra, r) else Owed(Owed(extra, r), {o}))
  {
    var r, r' := Refused(visited, accept), Refused(visited + [o], accept);
    var os := visited + [o] + later;
    forall i | 0 <= i < |visited| ensures visited[i] != o { assert os[i] != os[|visited|]; }
    assert r' == if accept(o) then r else r + {o};
  }

  lemma MovedElsewhere(was: map<Box, Shelf>, mid: map<Box, Shelf>, now: map<Box, Shelf>, from: Box, to: Box, ks: set<string>, o: ObjId)
    requires Gains(was, mid, to, ks, o) && Loses(mid, now, from, ks, o)
    ensures Elsewhere(was, now, from, to) && Elsewhere(was, now, to, from)
  {
    assert Opened(0);
  }

  /** A count does not matter to what is done with an object. */
  lemma RefusedRec(objs: map<ObjId, Obj>, visited: seq<ObjId>, o: ObjId, accept: ObjId -> bool, from: Box, to: Box)
    ensures DropOne(from, to, o, Rec(Held(objs, Refused(visited, accept)), o), accept(o)) == DropOne(from, to, o, Rec(objs, o), accept(o))
  {
    SameActs(from, to, o, Rec(Held(objs, Refused(visited, accept)), o), Rec(objs, o));
  }

  /** A hand-over as seen by a list of the giving and of the receiving container. */
  lemma HandedOver(was: map<Box, Shelf>, now: map<Box, Shelf>, from: Box, to: Box, o: ObjId, objs: map<ObjId, Obj>, k: string)
    requires o in objs && k in KeysOf(objs[o]) && from in was && to in was && from != to
    requires exists mid :: Gains(was, mid, to, KeysOf(objs[o]), o) && Loses(mid, now, from, KeysOf(objs[o]), o)
    ensures was.Keys == now.Keys && Elsewhere(was, now, from, to)
    ensures Listed(now[from], k) == Minus(Listed(was[from], k), o) && Listed(now[to], k) == [o] + Listed(was[to], k)
  {
    var mid :| Gains(was, mid, to, KeysOf(objs[o]), o) && Loses(mid, now, from, KeysOf(objs[o]), o);
    GainsIs(was, mid, to, KeysOf(objs[o]), o, from, k);
    GainsIs(was, mid, to, KeysOf(objs[o]), o, to, k);
    LosesIs(mid, now, from, KeysOf(objs[o]), o, from, k);
    LosesIs(mid, now, from, KeysOf(objs[o]), o, to, k);
    MovedElsewhere(was, mid, now, from, to, KeysOf(objs[o]), o);
  }

  lemma SameButCount(objs: map<ObjId, Obj>, objs': map<ObjId, Obj>, o: ObjId)
    requires SameBut(objs, objs', o) && o in objs && o in objs'
    ensures objs' == objs[o := objs[o].(refs := objs'[o].refs)]
  {
    var want := objs[o := objs[o].(refs := objs'[o].refs)];
    forall x ensures x in objs'.Keys <==> x in want.Keys {
      assert x != o ==> (x in objs' <==> x in objs);
    }
    forall x | x in want ensures objs'[x] == want[x] {
      assert x == o || objs'[x] == objs[x];
    }
  }

  lemma SameButRefs(objs: map<ObjId, Obj>, o: ObjId, n: int)
    requires o in objs
    ensures SameBut(objs, objs[o := objs[o].(refs := n)], o)
  {
  }

  lemma OneMore(objs: map<ObjId, Obj>, objs': map<ObjId, Obj>, extra: map<ObjId, int>, o: ObjId)
    requires SameBut(objs, objs', o) && o in objs && o in objs' && objs'[o].refs == objs[o].refs + 1 && o in extra
    ensures objs' == Held(objs, {o}) && extra[o := extra[o] + 1] == Owed(extra, {o})
  {
    SameButCount(objs, objs', o);
  }

  lemma ThereAndBack(objs: map<ObjId, Obj>, places: set<Place>, o: ObjId, from: Box, to: Box)
    requires o in objs && Of(places, o) == Spread(o, objs[o], from) && from != to
    ensures var there := places - Spread(o, objs[o], from) + Spread(o, objs[o], to);
            there - Spread(o, objs[o], to) + Spread(o, objs[o], from) == places
  {
    forall p | p in places ensures p !in Spread(o, objs[o], to) {
      if p.obj == o { assert p in Of(places, o); }
    }
  }

  lemma ClosedSame(objs: map<ObjId, Obj>, objs': map<ObjId, Obj>, places: set<Place>, o: ObjId)
    requires Closed(objs, places) && SameBut(objs, objs', o)
    ensures Closed(objs', places)
  {
    assert Opened(0);
    forall p | p in places && p.obj in objs' ensures Spread(p.obj, objs'[p.obj], p.box) <= places {
      assert Spread(p.obj, objs[p.obj], p.box) <= places;
    }
  }

  lemma NotInFront(boxes: map<Box, Shelf>, places: set<Place>, b: Box, k: string, front: seq<ObjId>, o: ObjId, rest: seq<ObjId>)
    requires Filed(boxes, places) && b in boxes && Listed(boxes[b], k) == front + [o] + rest
    ensures o !in front
  {
    var os := front + [o] + rest;
    EntryIs(boxes, places, Place(o, b, k));
    assert os[|front|] == o;
    forall i | 0 <= i < |front| ensures front[i] != o { assert os[i] == front[i]; }
  }

  lemma InFront(o: ObjId, front: seq<ObjId>, rest: seq<ObjId>, was: seq<ObjId>)
    ensures [o] + (front + rest) == [o] + front + rest && Minus([o] + was, o) == was
  {
    MinusCons(o, o, was);
  }

  lemma FirstOfRest(rest: seq<ObjId>)
    requires rest != []
    ensures rest == [rest[0]] + rest[1..] && rest[0] in rest && NextOf(rest, rest[0]) == First(rest[1..])
  {
  }

  lemma ResettleNone(places: set<Place>, to: Box)
    ensures Resettle(places, {}, to) == places
  {
  }

  lemma ResettleOne(objs: map<ObjId, Obj>, places: set<Place>, o: ObjId, from: Box, to: Box)
    requires o in objs && Of(places, o) == Spread(o, objs[o], from)
    ensures Resettle(places, {o}, to) == places - Spread(o, objs[o], from) + Spread(o, objs[o], to)
  {
    var now := places - Spread(o, objs[o], from) + Spread(o, objs[o], to);
    forall p ensures p in Resettle(places, {o}, to) <==> p in now {
      if p in Resettle(places, {o}, to) {
        var q :| q in places && p == (if q.obj in {o} then Place(q.obj, to, q.key) else q);
        if q.obj == o { assert q in Of(places, o); } else { assert p !in Of(places, o); }
      }
      if p in Spread(o, objs[o], to) {
        assert Place(o, from, p.key) in Of(places, o);
      } else if p in places && p !in Spread(o, objs[o], from) {
        assert p !in Of(places, o);
      }
    }
  }

  /** The objects moved so far are those visited and accepted. */
  lemma ResettleNext(places: set<Place>, visited: seq<ObjId>, o: ObjId, accept: ObjId -> bool, to: Box)
    ensures var moved := Accepted(visited, accept);
            var moved' := Accepted(visited + [o], accept);
            Resettle(places, moved', to) ==
            if accept(o) then Resettle(Resettle(places, moved, to), {o}, to) else Resettle(places, moved, to)
  {
    var moved := Accepted(visited, accept);
    var moved' := Accepted(visited + [o], accept);
    assert moved' == if accept(o) then moved + {o} else moved;
    ResettleTwice(places, moved, {o}, to);
  }

  lemma ResettleTwice(places: set<Place>, a: set<ObjId>, b: set<ObjId>, to: Box)
    ensures Resettle(Resettle(places, a, to), b, to) == Resettle(places, a + b, to)
  {
    var twice, once := Resettle(Resettle(places, a, to), b, to), Resettle(places, a + b, to);
    forall p | p in places
      ensures (if p.obj in a + b then Place(p.obj, to, p.key) else p) in twice
    {
      var q := if p.obj in a then Place(p.obj, to, p.key) else p;
      assert q in Resettle(places, a, to);
    }
  }

  /** Moving an object from one container to another leaves its count as it was. */
  lemma RestoreRefs(objs: map<ObjId, Obj>, objs': map<ObjId, Obj>, was: set<Place>, now: set<Place>,
                    extra: map<ObjId, int>, o: ObjId, from: Box, to: Box)
    requires Counted(objs, was, extra) && Counted(objs', now, extra)
    requires SameBut(objs, objs', o) && o in objs'
    requires from != to && Of(was, o) == Spread(o, objs[o], from)
    requires now == was - Spread(o, objs[o], from) + Spread(o, objs[o], to)
    ensures objs' == objs
  {
    RefsAre(objs, was, extra, o);
    RefsAre(objs', now, extra, o);
    assert Of(now, o) == Spread(o, objs[o], to);
    SpreadCard(o, KeysOf(objs[o]), from);
    SpreadCard(o, KeysOf(objs[o]), to);
    SameButCount(objs, objs', o);
    assert objs[o := objs[o]] == objs;
  }
}
