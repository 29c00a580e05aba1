/** The multimaps of rooms and users together with the hash tables below them, as a value: what
    each multimap call does to both, and whether the assertion of src/hash.c holds in it. */
module Stores {
  import opened Guard
  import opened HashSpec
  import opened HashLaws
  import opened HashDrift
  import opened Ownership
  import ON = ObjectNames

  /** One hash table, by its keys alone, and how far its counters have strayed. */
  datatype Index = Index(table: Table<string, ()>, drift: Drift)

  /** The tables' hash, and the compare function as it is on names in lower case. */
  function Keys(signed: bool): KeyOps<string, string> {
    KeyOps((s: string) => ON.HashOf(s, signed), (s: string) => s)
  }

  predicate Usable(x: Index) { |x.table.buckets| > 0 }

  /** multimap_insert of a key the table does not have. */
  function Enter(signed: bool, x: Index, k: string): Index
    requires Usable(x)
  {
    Index(Step(Keys(signed), x.table, OpInsert(k, ())), DriftStep(Keys(signed), x.table, OpInsert(k, ()), x.drift))
  }

  /** The outcome of the assertion in that insertion. */
  predicate Passes(signed: bool, x: Index, k: string)
    requires Usable(x)
  {
    InsertNewCheck(Keys(signed), x.table, Entry(k, ()))
  }

  /** multimap_delete of a key's last pair. */
  function Leave(signed: bool, x: Index, k: string): Index
    requires Usable(x)
  {
    Index(Step(Keys(signed), x.table, OpDelNode(k)), DriftStep(Keys(signed), x.table, OpDelNode(k), x.drift))
  }

  function Fresh(size: nat): Index { Index(Init(size), NONE) }

  type Indices = map<Box, Index>

  function EnterIn(signed: bool, tables: Indices, b: Box, k: string): Indices {
    if b in tables && Usable(tables[b]) then tables[b := Enter(signed, tables[b], k)] else tables
  }

  predicate PassesIn(signed: bool, tables: Indices, b: Box, k: string) {
    b in tables && Usable(tables[b]) ==> Passes(signed, tables[b], k)
  }

  function LeaveIn(signed: bool, tables: Indices, b: Box, k: string): Indices {
    if b in tables && Usable(tables[b]) then tables[b := Leave(signed, tables[b], k)] else tables
  }

  /** All containers; `sane` says that no assertion has failed so far, which is what the process
      lives by. */
  datatype Store = Store(signed: bool, boxes: map<Box, Shelf>, tables: Indices, sane: bool)

  datatype Act =
    | Put(box: Box, key: string, obj: ObjId)
    | Cut(box: Box, key: string, obj: ObjId)
    | Open(box: Box, size: nat)
    | Shut(box: Box)

  function Do(f: Store, a: Act): Store {
    match a
    case Put(b, k, o) =>
      if b !in f.boxes then f
      else if k in f.boxes[b] then f.(boxes := f.boxes[b := M.Insert(f.boxes[b], k, Entry(k, o))])
      else Store(f.signed, f.boxes[b := M.Insert(f.boxes[b], k, Entry(k, o))], EnterIn(f.signed, f.tables, b, k),
                 f.sane && PassesIn(f.signed, f.tables, b, k))
    case Cut(b, k, o) =>
      if b !in f.boxes then f
      else f.(boxes := f.boxes[b := M.Delete(f.boxes[b], k, Is(o))],
              tables := if M.Empties(f.boxes[b], k, Is(o)) then LeaveIn(f.signed, f.tables, b, k) else f.tables)
    case Open(b, size) => f.(boxes := f.boxes[b := map[]], tables := f.tables[b := Fresh(size)])
    case Shut(b) => f.(boxes := f.boxes - {b}, tables := f.tables - {b})
  }

  function DoAll(f: Store, acts: seq<Act>): Store {
    if acts == [] then f else Do(DoAll(f, acts[..|acts| - 1]), acts[|acts| - 1])
  }

  lemma {:induction false} DoJoin(f: Store, a: seq<Act>, b: seq<Act>)
    ensures DoAll(f, a + b) == DoAll(DoAll(f, a), b)
    decreases |b|
  {
    if b == [] {
      assert a + b == a;
    } else {
      var front := b[..|b| - 1];
      DoJoin(f, a, front);
      assert (a + b)[..|a + b| - 1] == a + front;
    }
  }

  lemma DoOne(f: Store, a: Act)
    ensures DoAll(f, [a]) == Do(f, a)
  {
    assert [a][..0] == [];
  }

  /** An assertion that has failed stays failed. */
  lemma {:induction false} SaneBefore(f: Store, acts: seq<Act>)
    requires DoAll(f, acts).sane
    ensures f.sane
  {
    if acts != [] { SaneBefore(f, acts[..|acts| - 1]); }
  }

  /** DoAll, for use where its definition need not be seen. */
  ghost predicate Went(f: Store, acts: seq<Act>, f': Store) {
    forall n: nat {:trigger Sealed(n)} :: Sealed(n) ==> f' == DoAll(f, acts)
  }

  lemma WentIs(f: Store, acts: seq<Act>, f': Store)
    requires Went(f, acts, f')
    ensures f' == DoAll(f, acts)
  {
    assert Sealed(0);
  }

  lemma WentNowhere(f: Store)
    ensures Went(f, [], f)
  {
  }

  lemma WentOne(f: Store, a: Act, f': Store)
    requires f' == Do(f, a)
    ensures Went(f, [a], f')
  {
    DoOne(f, a);
  }

  lemma WentThen(f: Store, a: seq<Act>, f1: Store, b: seq<Act>, f2: Store)
    requires Went(f, a, f1) && Went(f1, b, f2)
    ensures Went(f, a + b, f2)
  {
    assert Sealed(0);
    DoJoin(f, a, b);
  }

  /** What comes first has gone well if all has. */
  lemma WentInsane(f: Store, a: seq<Act>, f1: Store, b: seq<Act>)
    requires Went(f, a, f1) && !f1.sane
    ensures !DoAll(f, a + b).sane
  {
    assert Sealed(0);
    DoJoin(f, a, b);
    if DoAll(f1, b).sane { SaneBefore(f1, b); }
  }

  /** Whether a sequence of acts gets through. */
  ghost predicate Through(f: Store, acts: seq<Act>) {
    forall n: nat {:trigger Sealed(n)} :: Sealed(n) ==> DoAll(f, acts).sane
  }

  lemma ThroughIs(f: Store, acts: seq<Act>)
    ensures Through(f, acts) <==> DoAll(f, acts).sane
  {
    assert Sealed(0);
  }

  lemma ThroughNone(f: Store)
    ensures Through(f, []) <==> f.sane
  {
    ThroughIs(f, []);
  }

  lemma ThroughWent(f: Store, acts: seq<Act>, f': Store)
    requires Went(f, acts, f')
    ensures Through(f, acts) <==> f'.sane
  {
    assert Sealed(0);
  }

  /** A walk has got through if it has got to its end without a failure. */
  lemma ThroughAll(f: Store, acts: seq<Act>, f': Store, all: seq<Act>, done: bool)
    requires Went(f, acts, f') && acts <= all && (done ==> acts == all) && (f'.sane ==> done)
    ensures Through(f, all) <==> f'.sane
  {
    ThroughWent(f, acts, f');
    if !f'.sane {
      assert acts + all[|acts|..] == all;
      WentInsane(f, acts, f', all[|acts|..]);
      ThroughIs(f, all);
    }
  }

  // the acts of the operations on containers

  /** The size of the tables of rooms' and of new users' objects. */
  const INVENTORY_SIZE: nat := 8

  function PutAll(b: Box, o: ObjId, ks: seq<string>): (r: seq<Act>)
    ensures |r| == |ks| && forall i :: 0 <= i < |ks| ==> r[i] == Put(b, ks[i], o)
  {
    seq(|ks|, i requires 0 <= i < |ks| => Put(b, ks[i], o))
  }

  function CutAll(b: Box, o: ObjId, ks: seq<string>): (r: seq<Act>)
    ensures |r| == |ks| && forall i :: 0 <= i < |ks| ==> r[i] == Cut(b, ks[i], o)
  {
    seq(|ks|, i requires 0 <= i < |ks| => Cut(b, ks[i], o))
  }

  lemma PutNext(b: Box, o: ObjId, ks: seq<string>, i: nat)
    requires i < |ks|
    ensures PutAll(b, o, ks[..i + 1]) == PutAll(b, o, ks[..i]) + [Put(b, ks[i], o)]
    ensures CutAll(b, o, ks[..i + 1]) == CutAll(b, o, ks[..i]) + [Cut(b, ks[i], o)]
  {
  }

  lemma PutEnds(b: Box, o: ObjId, ks: seq<string>)
    ensures PutAll(b, o, ks[..0]) == [] && PutAll(b, o, ks[..|ks|]) == PutAll(b, o, ks)
    ensures CutAll(b, o, ks[..0]) == [] && CutAll(b, o, ks[..|ks|]) == CutAll(b, o, ks)
  {
    assert ks[..|ks|] == ks;
  }

  /** room_obj_add: the name first. */
  function FileActs(b: Box, o: ObjId, rec: Obj): seq<Act> {
    [Put(b, rec.name, o)] + PutAll(b, o, rec.aliases)
  }

  /** userdb_add_obj: the name last. */
  function CopyActs(b: Box, o: ObjId, rec: Obj): seq<Act> {
    PutAll(b, o, rec.aliases) + [Put(b, rec.name, o)]
  }

  /** room_obj_del_by_ptr, userdb_del_obj_by_ptr. */
  function UnfileActs(b: Box, o: ObjId, rec: Obj): seq<Act> {
    CutAll(b, o, rec.aliases) + [Cut(b, rec.name, o)]
  }

  /** A take of one object, and the way back of a refused drop. */
  function MoveActs(from: Box, to: Box, o: ObjId, rec: Obj): seq<Act> {
    CopyActs(to, o, rec) + UnfileActs(from, o, rec)
  }

  /** The way out of a drop. */
  function HandActs(from: Box, to: Box, o: ObjId, rec: Obj): seq<Act> {
    FileActs(to, o, rec) + UnfileActs(from, o, rec)
  }

  function Rec(objs: map<ObjId, Obj>, o: ObjId): Obj {
    if o in objs then objs[o] else Obj("", [], 0)
  }

  function TakeActs(objs: map<ObjId, Obj>, os: seq<ObjId>, accept: ObjId -> bool, from: Box, to: Box): seq<Act> {
    if os == [] then []
    else
      var o := os[|os| - 1];
      TakeActs(objs, os[..|os| - 1], accept, from, to) + if accept(o) then MoveActs(from, to, o, Rec(objs, o)) else []
  }

  function DropActs(objs: map<ObjId, Obj>, os: seq<ObjId>, accept: ObjId -> bool, from: Box, to: Box): seq<Act> {
    if os == [] then []
    else
      var o := os[|os| - 1];
      DropActs(objs, os[..|os| - 1], accept, from, to) + DropOne(from, to, o, Rec(objs, o), accept(o))
  }

  function DropOne(from: Box, to: Box, o: ObjId, rec: Obj, accepted: bool): seq<Act> {
    HandActs(from, to, o, rec) + if accepted then [] else MoveActs(to, from, o, rec)
  }

  function DeleteActs(objs: map<ObjId, Obj>, os: seq<ObjId>, b: Box): seq<Act> {
    if os == [] then [] else DeleteActs(objs, os[..|os| - 1], b) + UnfileActs(b, os[|os| - 1], Rec(objs, os[|os| - 1]))
  }

  /** The two parts of room_obj_add_alias. */
  function MissingActs(b: Box, o: ObjId, rec: Obj, missing: bool): seq<Act> {
    if missing then FileActs(b, o, rec) else []
  }

  function NewActs(b: Box, o: ObjId, rec: Obj, alias: string): seq<Act> {
    if alias in KeysOf(rec) then [] else [Put(b, alias, o)]
  }

  function AliasActs(b: Box, o: ObjId, rec: Obj, missing: bool, alias: string): seq<Act> {
    MissingActs(b, o, rec, missing) + NewActs(b, o, rec, alias)
  }

  function Never(o: ObjId): bool { false }

  lemma ActsNext(objs: map<ObjId, Obj>, os: seq<ObjId>, o: ObjId, accept: ObjId -> bool, from: Box, to: Box)
    ensures TakeActs(objs, os + [o], accept, from, to)
         == TakeActs(objs, os, accept, from, to) + if accept(o) then MoveActs(from, to, o, Rec(objs, o)) else []
    ensures DropActs(objs, os + [o], accept, from, to)
         == DropActs(objs, os, accept, from, to) + DropOne(from, to, o, Rec(objs, o), accept(o))
    ensures DeleteActs(objs, os + [o], from) == DeleteActs(objs, os, from) + UnfileActs(from, o, Rec(objs, o))
  {
    assert (os + [o])[..|os|] == os;
  }

  /** The acts of a walk begin with those of its beginning. */
  lemma {:induction false} ActsPrefix(objs: map<ObjId, Obj>, os: seq<ObjId>, n: nat, accept: ObjId -> bool, from: Box, to: Box)
    requires n <= |os|
    ensures TakeActs(objs, os[..n], accept, from, to) <= TakeActs(objs, os, accept, from, to)
    ensures DropActs(objs, os[..n], accept, from, to) <= DropActs(objs, os, accept, from, to)
    decreases |os|, 0
  {
    if n == |os| {
      assert os[..n] == os;
    } else {
      var front := os[..|os| - 1];
      ActsPrefix(objs, front, n, accept, from, to);
      assert front[..n] == os[..n];
      ActsStep(objs, os, front, accept, from, to);
      PrefixOf(TakeActs(objs, os[..n], accept, from, to), TakeActs(objs, front, accept, from, to), TakeActs(objs, os, accept, from, to));
      PrefixOf(DropActs(objs, os[..n], accept, from, to), DropActs(objs, front, accept, from, to), DropActs(objs, os, accept, from, to));
    }
  }

  lemma ActsStep(objs: map<ObjId, Obj>, os: seq<ObjId>, front: seq<ObjId>, accept: ObjId -> bool, from: Box, to: Box)
    requires os != [] && front == os[..|os| - 1]
    ensures TakeActs(objs, front, accept, from, to) <= TakeActs(objs, os, accept, from, to)
    ensures DropActs(objs, front, accept, from, to) <= DropActs(objs, os, accept, from, to)
  {
  }

  lemma PrefixOf(a: seq<Act>, b: seq<Act>, c: seq<Act>)
    requires a <= b <= c
    ensures a <= c
  {
  }

  lemma SameActs(from: Box, to: Box, o: ObjId, rec: Obj, rec': Obj)
    requires rec.name == rec'.name && rec.aliases == rec'.aliases
    ensures HandActs(from, to, o, rec) == HandActs(from, to, o, rec') && MoveActs(to, from, o, rec) == MoveActs(to, from, o, rec')
  {
  }

  lemma TakeNext(f: Store, objs: map<ObjId, Obj>, os: seq<ObjId>, o: ObjId, accept: ObjId -> bool, from: Box, to: Box, f1: Store, f2: Store)
    requires Went(f, TakeActs(objs, os, accept, from, to), f1)
    requires Went(f1, if accept(o) then MoveActs(from, to, o, Rec(objs, o)) else [], f2)
    ensures Went(f, TakeActs(objs, os + [o], accept, from, to), f2)
  {
    ActsNext(objs, os, o, accept, from, to);
    WentThen(f, TakeActs(objs, os, accept, from, to), f1, if accept(o) then MoveActs(from, to, o, Rec(objs, o)) else [], f2);
  }

  lemma DropNext(f: Store, objs: map<ObjId, Obj>, os: seq<ObjId>, o: ObjId, accept: ObjId -> bool, from: Box, to: Box, f1: Store, f2: Store)
    requires Went(f, DropActs(objs, os, accept, from, to), f1) && Went(f1, DropOne(from, to, o, Rec(objs, o), accept(o)), f2)
    ensures Went(f, DropActs(objs, os + [o], accept, from, to), f2)
  {
    ActsNext(objs, os, o, accept, from, to);
    WentThen(f, DropActs(objs, os, accept, from, to), f1, DropOne(from, to, o, Rec(objs, o), accept(o)), f2);
  }

  /** The walk has stopped after `os`: at its end, or at a failure. */
  lemma TakeEnds(f: Store, objs: map<ObjId, Obj>, os: seq<ObjId>, rest: seq<ObjId>, accept: ObjId -> bool, from: Box, to: Box, f': Store)
    requires Went(f, TakeActs(objs, os, accept, from, to), f') && (f'.sane ==> rest == [])
    ensures Through(f, TakeActs(objs, os + rest, accept, from, to)) <==> f'.sane
    ensures f'.sane ==> os + rest == os
  {
    ActsPrefix(objs, os + rest, |os|, accept, from, to);
    assert (os + rest)[..|os|] == os;
    assert rest == [] ==> os + rest == os;
    ThroughAll(f, TakeActs(objs, os, accept, from, to), f', TakeActs(objs, os + rest, accept, from, to), rest == []);
  }

  lemma DropEnds(f: Store, objs: map<ObjId, Obj>, os: seq<ObjId>, rest: seq<ObjId>, accept: ObjId -> bool, from: Box, to: Box, f': Store)
    requires Went(f, DropActs(objs, os, accept, from, to), f') && (f'.sane ==> rest == [])
    ensures Through(f, DropActs(objs, os + rest, accept, from, to)) <==> f'.sane
    ensures f'.sane ==> os + rest == os
  {
    ActsPrefix(objs, os + rest, |os|, accept, from, to);
    assert (os + rest)[..|os|] == os;
    assert rest == [] ==> os + rest == os;
    ThroughAll(f, DropActs(objs, os, accept, from, to), f', DropActs(objs, os + rest, accept, from, to), rest == []);
  }

  // tables and containers together

  /** Each table is well formed, has the keys of its container, and its counters are off by its
      drift. */
  ghost predicate Tabled(f: Store) {
    f.tables.Keys == f.boxes.Keys && forall b :: b in f.boxes ==> Indexed(f.signed, f.tables[b], f.boxes[b])
  }

  ghost predicate Indexed(signed: bool, x: Index, s: Shelf) {
    forall n: nat {:trigger Opened(n)} :: Opened(n) ==>
      && Usable(x) && WF(Keys(signed), x.table) && Tracks(x.table, x.drift)
      && Abs(Keys(signed), x.table).Keys == s.Keys
  }

  lemma KeysFit(signed: bool)
    ensures Compatible(Keys(signed))
  {
  }

  lemma IndexedUsable(signed: bool, x: Index, s: Shelf)
    requires Indexed(signed, x, s)
    ensures Usable(x)
  {
    assert Opened(0);
  }

  lemma IndexedEnter(signed: bool, x: Index, s: Shelf, k: string, s': Shelf)
    requires Indexed(signed, x, s) && Usable(x) && s'.Keys == s.Keys + {k}
    ensures Indexed(signed, Enter(signed, x, k), s')
  {
    assert Opened(0);
    KeysFit(signed);
    StepRefines(Keys(signed), x.table, OpInsert(k, ()));
    StepTracks(Keys(signed), x.table, OpInsert(k, ()), x.drift);
  }

  lemma IndexedLeave(signed: bool, x: Index, s: Shelf, k: string, s': Shelf)
    requires Indexed(signed, x, s) && Usable(x) && s'.Keys == s.Keys - {k}
    ensures Indexed(signed, Leave(signed, x, k), s')
  {
    assert Opened(0);
    KeysFit(signed);
    StepRefines(Keys(signed), x.table, OpDelNode(k));
    StepTracks(Keys(signed), x.table, OpDelNode(k), x.drift);
  }

  lemma IndexedSame(signed: bool, x: Index, s: Shelf, s': Shelf)
    requires Indexed(signed, x, s) && s'.Keys == s.Keys
    ensures Indexed(signed, x, s')
  {
    assert Opened(0);
  }

  lemma IndexedFresh(signed: bool, size: nat)
    ensures Indexed(signed, Fresh(size), map[])
  {
    KeysFit(signed);
    InitIsEmpty<string, string, ()>(Keys(signed), size);
    HashCount.InitExact<string, ()>(size);
  }

  /** Every act keeps tables and containers in step. */
  lemma DoTabled(f: Store, a: Act)
    requires Tabled(f)
    ensures Tabled(Do(f, a)) && Do(f, a).signed == f.signed
  {
    match a
    case Put(b, k, o) => if b in f.boxes { PutTabled(f, b, k, o); }
    case Cut(b, k, o) => if b in f.boxes { CutTabled(f, b, k, o); }
    case Open(b, size) => IndexedFresh(f.signed, size);
    case Shut(b) =>
  }

  lemma PutTabled(f: Store, b: Box, k: string, o: ObjId)
    requires Tabled(f) && b in f.boxes
    ensures Tabled(Do(f, Put(b, k, o)))
  {
    var s' := M.Insert(f.boxes[b], k, Entry(k, o));
    IndexedUsable(f.signed, f.tables[b], f.boxes[b]);
    if k in f.boxes[b] {
      assert s'.Keys == f.boxes[b].Keys;
      IndexedSame(f.signed, f.tables[b], f.boxes[b], s');
    } else {
      assert s'.Keys == f.boxes[b].Keys + {k};
      IndexedEnter(f.signed, f.tables[b], f.boxes[b], k, s');
    }
  }

  lemma CutTabled(f: Store, b: Box, k: string, o: ObjId)
    requires Tabled(f) && b in f.boxes
    ensures Tabled(Do(f, Cut(b, k, o)))
  {
    var s, s' := f.boxes[b], M.Delete(f.boxes[b], k, Is(o));
    IndexedUsable(f.signed, f.tables[b], s);
    if M.Empties(s, k, Is(o)) {
      assert s'.Keys == s.Keys - {k};
      IndexedLeave(f.signed, f.tables[b], s, k, s');
    } else {
      assert s'.Keys == s.Keys;
      IndexedSame(f.signed, f.tables[b], s, s');
    }
  }

  lemma {:induction false} DoAllTabled(f: Store, acts: seq<Act>)
    requires Tabled(f)
    ensures Tabled(DoAll(f, acts)) && DoAll(f, acts).signed == f.signed
  {
    if acts != [] {
      DoAllTabled(f, acts[..|acts| - 1]);
      DoTabled(DoAll(f, acts[..|acts| - 1]), acts[|acts| - 1]);
    }
  }

  /** Whether an act makes a table grow while emptied keys have gone uncounted. */
  ghost predicate Trips(f: Store, a: Act) {
    && a.Put? && a.box in f.boxes && a.box in f.tables && Usable(f.tables[a.box])
    && a.key !in f.boxes[a.box]
    && Grows(Keys(f.signed), f.tables[a.box].table, a.key)
    && Size(f.tables[a.box].drift.nodes) != 0
  }

  /** One act fails the assertion exactly if it does. */
  lemma DoSane(f: Store, a: Act)
    requires Tabled(f)
    ensures Do(f, a).sane <==> f.sane && !Trips(f, a)
  {
    if a.Put? && a.box in f.boxes && a.key !in f.boxes[a.box] {
      var x := f.tables[a.box];
      IndexedUsable(f.signed, x, f.boxes[a.box]);
      assert Tracks(x.table, x.drift) by {
        assert Indexed(f.signed, x, f.boxes[a.box]);
        assert Opened(0);
      }
      InsertCheckTracks(Keys(f.signed), x.table, Entry(a.key, ()), x.drift);
    }
  }

  /** A key is in the table exactly if it has a list: what the lookup before an insertion or a
      deletion sees. */
  lemma LookupTabled(f: Store, b: Box, k: string)
    requires Tabled(f) && b in f.boxes
    ensures Usable(f.tables[b]) && (HashSpec.Lookup(Keys(f.signed), f.tables[b].table, k).Some? <==> k in f.boxes[b])
  {
    assert Indexed(f.signed, f.tables[b], f.boxes[b]);
    assert Opened(0);
    KeysFit(f.signed);
    LookupIsGet(Keys(f.signed), f.tables[b].table, k);
  }

  /** A sequence of acts gets through exactly if none of its insertions trips over the assertion. */
  lemma {:induction false} SaneWhen(f: Store, acts: seq<Act>)
    requires Tabled(f)
    ensures DoAll(f, acts).sane <==> f.sane && !TripsAny(f, acts)
  {
    if acts != [] {
      var front, last := acts[..|acts| - 1], acts[|acts| - 1];
      SaneWhen(f, front);
      DoAllTabled(f, front);
      DoSane(DoAll(f, front), last);
      TripsLast(f, acts);
      TripsSplit(f, acts);
    }
  }

  ghost predicate TripsAny(f: Store, acts: seq<Act>) {
    exists i :: 0 <= i < |acts| && TripsAt(f, acts, i)
  }

  lemma TripsSplit(f: Store, acts: seq<Act>)
    requires acts != []
    ensures var front := acts[..|acts| - 1];
            TripsAny(f, acts) <==> TripsAny(f, front) || TripsAt(f, acts, |front|)
  {
    var front := acts[..|acts| - 1];
    if i :| 0 <= i < |acts| && TripsAt(f, acts, i) {
      if i < |front| { TripsBefore(f, acts, i); }
    }
    if i :| 0 <= i < |front| && TripsAt(f, front, i) { TripsBefore(f, acts, i); }
  }

  lemma TripsBefore(f: Store, acts: seq<Act>, i: nat)
    requires i < |acts| - 1
    ensures TripsAt(f, acts, i) <==> TripsAt(f, acts[..|acts| - 1], i)
  {
    assert Sealed(0);
    assert acts[..i] == acts[..|acts| - 1][..i];
  }

  lemma TripsLast(f: Store, acts: seq<Act>)
    requires acts != []
    ensures TripsAt(f, acts, |acts| - 1) <==> Trips(DoAll(f, acts[..|acts| - 1]), acts[|acts| - 1])
  {
    assert Sealed(0);
  }

  /** The act with number `i` does so in the state that those before it have led to. */
  ghost predicate TripsAt(f: Store, acts: seq<Act>, i: nat)
    requires i < |acts|
  {
    forall n: nat {:trigger Sealed(n)} :: Sealed(n) ==> Trips(DoAll(f, acts[..i]), acts[i])
  }

  // without deletions no assertion fails

  ghost predicate Exact(f: Store) {
    forall b :: b in f.tables ==> f.tables[b].drift.nodes == 0
  }

  /** From tables without uncounted keys, and as long as no key is emptied. */
  lemma {:induction false} NoCutNoTrip(f: Store, acts: seq<Act>)
    requires Tabled(f) && Exact(f) && f.sane
    requires forall i :: 0 <= i < |acts| ==> !acts[i].Cut?
    ensures DoAll(f, acts).sane && Exact(DoAll(f, acts))
  {
    if acts != [] {
      var front, last := acts[..|acts| - 1], acts[|acts| - 1];
      NoCutNoTrip(f, front);
      DoAllTabled(f, front);
      DoSane(DoAll(f, front), last);
    }
  }

  // a refused drop

  /** A key that comes and goes leaves the table's entry counter one higher. */
  lemma InAndOut(signed: bool, x: Index, s: Shelf, k: string)
    requires Indexed(signed, x, s) && Usable(x) && k !in s && !Grows(Keys(signed), x.table, k)
    ensures var y := Enter(signed, x, k); Usable(y) && Leave(signed, y, k).drift.nodes == x.drift.nodes + 1
  {
    var y, s' := Enter(signed, x, k), s[k := []];
    IndexedEnter(signed, x, s, k, s');
    IndexedUsable(signed, y, s');
    IndexedHas(signed, x, s, k);
    IndexedHas(signed, y, s', k);
  }

  lemma IndexedHas(signed: bool, x: Index, s: Shelf, k: string)
    requires Indexed(signed, x, s) && Usable(x)
    ensures HashSpec.Lookup(Keys(signed), x.table, k).Some? <==> k in s
  {
    assert Opened(0);
    KeysFit(signed);
    LookupIsGet(Keys(signed), x.table, k);
  }

  /** An object that is refused is filed in the room all the same, and taken out again: where nothing
      else of its name is, the room's table has one more deletion uncounted. */
  lemma RefusedDrifts(f: Store, from: Box, to: Box, o: ObjId, rec: Obj)
    requires Tabled(f) && from in f.boxes && to in f.boxes && from != to && rec.aliases == []
    requires rec.name !in f.boxes[to] && Usable(f.tables[to]) && !Grows(Keys(f.signed), f.tables[to].table, rec.name)
    ensures var g := DoAll(f, DropOne(from, to, o, rec, false));
            && to in g.boxes && to in g.tables && Listed(g.boxes[to], rec.name) == []
            && g.tables[to].drift.nodes == f.tables[to].drift.nodes + 1
  {
    var k := rec.name;
    var a, b, c, d := Put(to, k, o), Cut(from, k, o), Put(from, k, o), Cut(to, k, o);
    assert DropOne(from, to, o, rec, false) == [a] + [b] + [c] + [d];
    DoFour(f, a, b, c, d);
    IndexedUsable(f.signed, f.tables[to], f.boxes[to]);
    InAndOut(f.signed, f.tables[to], f.boxes[to], k);
    PutAlone(f, to, k, o);
    DoElsewhere(Do(f, a), b, to);
    DoElsewhere(Do(Do(f, a), b), c, to);
    CutAlone(Do(Do(Do(f, a), b), c), to, k, o);
  }

  lemma DoFour(f: Store, a: Act, b: Act, c: Act, d: Act)
    ensures DoAll(f, [a] + [b] + [c] + [d]) == Do(Do(Do(Do(f, a), b), c), d)
  {
    DoJoin(f, [a] + [b] + [c], [d]);
    DoJoin(f, [a] + [b], [c]);
    DoJoin(f, [a], [b]);
    DoOne(f, a);
    DoOne(Do(f, a), b);
    DoOne(Do(Do(f, a), b), c);
    DoOne(Do(Do(Do(f, a), b), c), d);
  }

  lemma PutAlone(f: Store, b: Box, k: string, o: ObjId)
    requires b in f.boxes && b in f.tables && k !in f.boxes[b] && Usable(f.tables[b])
    ensures var g := Do(f, Put(b, k, o));
            && g.signed == f.signed && b in g.boxes && b in g.tables && k in g.boxes[b] && g.boxes[b][k] == [Entry(k, o)]
            && g.tables[b] == Enter(f.signed, f.tables[b], k)
  {
    assert [Entry(k, o)] + [] == [Entry(k, o)];
  }

  lemma CutAlone(f: Store, b: Box, k: string, o: ObjId)
    requires b in f.boxes && b in f.tables && k in f.boxes[b] && f.boxes[b][k] == [Entry(k, o)] && Usable(f.tables[b])
    ensures var g := Do(f, Cut(b, k, o));
            b in g.boxes && b in g.tables && k !in g.boxes[b] && g.tables[b] == Leave(f.signed, f.tables[b], k)
  {
    assert M.Survivors([Entry(k, o)], Is(o)) == M.Survivors([Entry(k, o)][1..], Is(o));
  }

  /** What is done to one container leaves the others alone. */
  lemma DoElsewhere(f: Store, a: Act, b: Box)
    requires a.box != b && b in f.boxes && b in f.tables
    ensures var g := Do(f, a);
            g.signed == f.signed && b in g.boxes && b in g.tables && g.boxes[b] == f.boxes[b] && g.tables[b] == f.tables[b]
  {
  }
}
