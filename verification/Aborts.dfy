/** Runs that end in the assertion of src/hash.c, with the tables' own hash and actual names. */
module Aborts {
  import opened HashSpec
  import opened HashDrift
  import opened Ownership
  import opened World
  import opened Stores
  import opened Requests
  import MM = Multimap

  const SIZE := INVENTORY_SIZE

  // hash_djb of one letter, modulo eight

  function Bit(r: int, s: int): int { if r == s then 0 else 1 }

  predicate IsBit(r: int) { 0 <= r < 2 }

  lemma XorTwo(n: int, p: int, r: int, m: int, q: int, s: int, k: nat)
    requires 0 <= p && 0 <= q && IsBit(r) && IsBit(s) && k > 0 && n == 2 * p + r && m == 2 * q + s
    ensures ON.Xor(n, m, k) == Bit(r, s) + 2 * ON.Xor(p, q, k - 1)
  {
    assert n % 2 == r && n / 2 == p && m % 2 == s && m / 2 == q;
  }

  /** The three low bits of an exclusive or. */
  lemma XorLow(n: int, p: int, r2: int, r1: int, r0: int, m: int, q: int, s2: int, s1: int, s0: int, k: nat)
    requires 0 <= p && 0 <= q && k >= 3 && n == 8 * p + 4 * r2 + 2 * r1 + r0 && m == 8 * q + 4 * s2 + 2 * s1 + s0
    requires IsBit(r2) && IsBit(r1) && IsBit(r0) && IsBit(s2) && IsBit(s1) && IsBit(s0)
    ensures ON.Xor(n, m, k) % 8 == 4 * Bit(r2, s2) + 2 * Bit(r1, s1) + Bit(r0, s0)
  {
    XorThree(n, 4 * p + 2 * r2 + r1, 2 * p + r2, p, r2, r1, r0, m, 4 * q + 2 * s2 + s1, 2 * q + s2, q, s2, s1, s0, k);
  }

  lemma XorThree(n: int, n1: int, n2: int, p: int, r2: int, r1: int, r0: int,
                 m: int, m1: int, m2: int, q: int, s2: int, s1: int, s0: int, k: nat)
    requires 0 <= p && 0 <= q && k >= 3 && n2 == 2 * p + r2 && m2 == 2 * q + s2
    requires n1 == 2 * n2 + r1 && m1 == 2 * m2 + s1 && n == 2 * n1 + r0 && m == 2 * m1 + s0
    requires IsBit(r2) && IsBit(r1) && IsBit(r0) && IsBit(s2) && IsBit(s1) && IsBit(s0)
    ensures ON.Xor(n, m, k) % 8 == 4 * Bit(r2, s2) + 2 * Bit(r1, s1) + Bit(r0, s0)
  {
    XorTwo(n2, p, r2, m2, q, s2, k - 2);
    XorTwo(n1, n2, r1, m1, m2, s1, k - 1);
    XorTwo(n, n1, r0, m, m1, s0, k);
    LowOfEight(ON.Xor(n, m, k), ON.Xor(n1, m1, k - 1), ON.Xor(n2, m2, k - 2), ON.Xor(p, q, k - 3), Bit(r2, s2), Bit(r1, s1), Bit(r0, s0));
  }

  lemma LowOfEight(v: int, v1: int, v2: int, x: int, b2: int, b1: int, b0: int)
    requires v == b0 + 2 * v1 && v1 == b1 + 2 * v2 && v2 == b2 + 2 * x && IsBit(b2) && IsBit(b1) && IsBit(b0)
    ensures v % 8 == 4 * b2 + 2 * b1 + b0
  {
    assert v == 8 * x + (4 * b2 + 2 * b1 + b0);
  }

  /** The hash of a name of one letter, whose code is 96 and three bits. */
  lemma LetterHash(c: char, s2: int, s1: int, s0: int, signed: bool)
    requires IsBit(s2) && IsBit(s1) && IsBit(s0) && c as int == 96 + 4 * s2 + 2 * s1 + s0
    ensures ON.HashOf([c], signed) % 8 == 4 * Bit(1, s2) + 2 * Bit(0, s1) + Bit(1, s0)
  {
    OneRound(5381, c, signed);
    MixLow(5381, 22196, c, s2, s1, s0, signed);
  }

  lemma OneRound(h: int, c: char, signed: bool)
    requires 0 <= h && ON.Byte(c)
    ensures ON.Djb(h, [c], signed) == ON.Mix(h, c, signed)
  {
    assert [c][1..] == "";
  }

  lemma MixLow(h: int, p: int, c: char, s2: int, s1: int, s0: int, signed: bool)
    requires 0 <= h && 0 <= p && h * 33 == 8 * p + 5 < ON.UINT_MOD
    requires IsBit(s2) && IsBit(s1) && IsBit(s0) && c as int == 96 + 4 * s2 + 2 * s1 + s0
    ensures ON.Mix(h, c, signed) % 8 == 4 * Bit(1, s2) + 2 * Bit(0, s1) + Bit(1, s0)
  {
    var n, m, k: nat := h * 33 % ON.UINT_MOD, ON.Extend(c, signed), 32;
    XorLow(n, p, 1, 0, 1, m, 12, s2, s1, s0, k);
  }

  const FIRST: string := "a"
  const SIX: seq<string> := ["b", "c", "d", "e", "f", "g"]

  const BUCKETS: seq<nat> := [7, 6, 1, 0, 3, 2]

  lemma SixHash(i: nat, signed: bool)
    requires i < 6
    ensures |SIX| == 6 && |SIX[i]| == 1 && ON.HashOf(SIX[i], signed) % 8 == BUCKETS[i]
  {
    if i < 3 { FirstThree(i, signed); } else { LastThree(i, signed); }
  }

  lemma FirstThree(i: nat, signed: bool)
    requires i < 3
    ensures ON.HashOf(SIX[i], signed) % 8 == BUCKETS[i]
  {
    if i == 0 {
      LetterHash('b', 0, 1, 0, signed);
    } else if i == 1 {
      LetterHash('c', 0, 1, 1, signed);
    } else {
      LetterHash('d', 1, 0, 0, signed);
    }
  }

  lemma LastThree(i: nat, signed: bool)
    requires 3 <= i < 6
    ensures ON.HashOf(SIX[i], signed) % 8 == BUCKETS[i]
  {
    if i == 3 {
      LetterHash('e', 1, 0, 1, signed);
    } else if i == 4 {
      LetterHash('f', 1, 1, 0, signed);
    } else {
      LetterHash('g', 1, 1, 1, signed);
    }
  }

  lemma SixHashes(signed: bool)
    ensures |SIX| == |BUCKETS| == 6
    ensures forall i :: 0 <= i < 6 ==> ON.HashOf(SIX[i], signed) % 8 == BUCKETS[i]
  {
    forall i | 0 <= i < 6 ensures ON.HashOf(SIX[i], signed) % 8 == BUCKETS[i] {
      SixHash(i, signed);
    }
  }

  lemma SixSpaced(signed: bool)
    ensures |SIX| == 6 && Spaced(Keys(signed), SIX, SIZE)
  {
    SixHashes(signed);
    SpacedBy(Keys(signed), SIX, BUCKETS, SIZE);
  }

  lemma SpacedBy<K(!new), C>(ops: KeyOps<K, C>, ks: seq<K>, buckets: seq<nat>, size: nat)
    requires size > 0 && |ks| == |buckets| && forall i :: 0 <= i < |ks| ==> ops.hash(ks[i]) % size == buckets[i]
    requires forall i, j :: 0 <= i < j < |buckets| ==> buckets[i] != buckets[j]
    ensures Spaced(ops, ks, size)
  {
  }

  // on the heap

  /** A name in lower case, and the functions an object table is made with: hash_djb, and strcasecmp
      as the kernel of folding to lower case. */
  type Name = s: string | ON.LowerAll(s) == s witness ""

  function NameKeys(signed: bool): KeyOps<Name, string> {
    KeyOps((n: Name) => ON.HashOf(n, signed), (n: Name) => ON.LowerAll(n))
  }

  lemma NameKeysFit(signed: bool)
    ensures Compatible(NameKeys(signed))
  {
  }

  lemma Lowers()
    ensures ON.LowerAll(FIRST) == FIRST && forall i :: 0 <= i < |SIX| ==> ON.LowerAll(SIX[i]) == SIX[i]
  {
    forall i | 0 <= i < |SIX| ensures ON.LowerAll(SIX[i]) == SIX[i] {
      assert |SIX[i]| == 1 && 'a' <= SIX[i][0] <= 'g';
    }
  }

  /** The object table of a room: "a" filed and unfiled, then "b" to "g" filed; the last one fails the
      assertion. */
  method ObjectTable(signed: bool, obj: ObjId) returns (before: bool, last: bool)
    ensures before && !last
  {
    Lowers();
    NameKeysFit(signed);
    var ks: seq<Name> := SIX;
    NamesSpaced(signed, ks);
    before, last := MM.EmptiedKeyAborts(NameKeys(signed), (x: ObjId, y: ObjId) => x == y, FIRST, ks, obj);
  }

  lemma NamesSpaced(signed: bool, ks: seq<Name>)
    requires ks == SIX
    ensures |ks| == 6 && Spaced(NameKeys(signed), ks, MM.OBJMAP_SIZE)
  {
    SixHashes(signed);
    forall i | 0 <= i < |ks| ensures NameKeys(signed).hash(ks[i]) % MM.OBJMAP_SIZE == BUCKETS[i] {
      assert ks[i] == SIX[i];
    }
    SpacedBy(NameKeys(signed), ks, BUCKETS, MM.OBJMAP_SIZE);
  }

  // a run of requests

  ghost function BareStore(signed: bool, room: nat): Store {
    Store(signed, map[Room(room) := map[]], map[Room(room) := Fresh(SIZE)], true)
  }

  ghost function Begin(signed: bool, room: nat): Whole { Whole(Bare(room), BareStore(signed, room)) }

  lemma BeginTabled(signed: bool, room: nat)
    ensures Tabled(BareStore(signed, room))
  {
    IndexedFresh(signed, SIZE);
  }

  /** One key has come and gone, and `n` others have been filed, each in a bucket of its own. */
  ghost predicate Stage(w: Whole, room: nat, ks: seq<string>, n: nat) {
    && n <= |ks| && Tabled(w.store) && w.store.sane
    && Room(room) in w.snap.boxes && Room(room) in w.store.boxes && Room(room) in w.store.tables
    && (forall k :: k in w.store.boxes[Room(room)] ==> k in ks[..n])
    && var x := w.store.tables[Room(room)];
       x.drift == Drift(0, 1) && Filling(Keys(w.store.signed), x.table, ks[..n], SIZE)
  }

  lemma NotYet(signed: bool, ks: seq<string>, n: nat)
    requires n < |ks| && Spaced(Keys(signed), ks, SIZE)
    ensures ks[n] !in ks[..n]
  {
  }

  lemma CreateIs(w: Whole, room: nat, k: string)
    requires Room(room) in w.snap.boxes
    ensures Next(w, Create(room, k)).store == Do(w.store, Put(Room(room), k, w.snap.counter))
    ensures Next(w, Create(room, k)).snap.boxes == w.snap.boxes
  {
    DoOne(w.store, Put(Room(room), k, w.snap.counter));
  }

  /** The room's table when one more of the keys comes. */
  lemma EnterNext(signed: bool, x: Index, ks: seq<string>, n: nat)
    requires n < |ks| && n < 6 && Spaced(Keys(signed), ks, SIZE) && Filling(Keys(signed), x.table, ks[..n], SIZE)
    ensures Usable(x) && (Grows(Keys(signed), x.table, ks[n]) <==> n == 5)
    ensures n < 5 ==> Filling(Keys(signed), Enter(signed, x, ks[n]).table, ks[..n + 1], SIZE) && Enter(signed, x, ks[n]).drift == x.drift
  {
    MM.LoadOfEight(n + 1);
    FillNext(Keys(signed), x.table, ks, SIZE, n);
    EmptyHome(Keys(signed), x.table, ks[n]);
    if n < 5 { FillMore(Keys(signed), x.table, ks, SIZE, n, ()); }
  }

  lemma EmptyHome(ops: KeyOps<string, string>, t: Table<string, ()>, k: string)
    requires |t.buckets| > 0 && t.buckets[Home(ops, t, k)] == []
    ensures HashSpec.Lookup(ops, t, k).None?
  {
  }

  lemma StageNext(w: Whole, room: nat, ks: seq<string>, n: nat)
    requires Stage(w, room, ks, n) && n < |ks| && n < 5 && Spaced(Keys(w.store.signed), ks, SIZE)
    ensures var w' := Next(w, Create(room, ks[n])); w'.store.signed == w.store.signed && Stage(w', room, ks, n + 1)
  {
    CreateIs(w, room, ks[n]);
    NotYet(w.store.signed, ks, n);
    EnterNext(w.store.signed, w.store.tables[Room(room)], ks, n);
    StagePut(w.store, Room(room), ks[n], w.snap.counter);
    assert ks[..n + 1] == ks[..n] + [ks[n]];
  }

  lemma StageLast(w: Whole, room: nat, ks: seq<string>)
    requires Stage(w, room, ks, 5) && 5 < |ks| && Spaced(Keys(w.store.signed), ks, SIZE)
    ensures !Next(w, Create(room, ks[5])).store.sane
  {
    CreateIs(w, room, ks[5]);
    NotYet(w.store.signed, ks, 5);
    EnterNext(w.store.signed, w.store.tables[Room(room)], ks, 5);
    StagePut(w.store, Room(room), ks[5], w.snap.counter);
  }

  /** Filing one new key while the entry counter is off. */
  lemma StagePut(f: Store, b: Box, k: string, o: ObjId)
    requires Tabled(f) && f.sane && b in f.boxes && b in f.tables && k !in f.boxes[b]
    requires Usable(f.tables[b]) && f.tables[b].drift == Drift(0, 1)
    ensures var g := Do(f, Put(b, k, o));
            && Tabled(g) && g.signed == f.signed && (g.sane <==> !Grows(Keys(f.signed), f.tables[b].table, k))
            && b in g.boxes && b in g.tables && g.tables[b] == Enter(f.signed, f.tables[b], k)
            && g.boxes[b].Keys == f.boxes[b].Keys + {k}
  {
    DoSane(f, Put(b, k, o));
    DoTabled(f, Put(b, k, o));
  }

  /** The acts of the one take. */
  lemma OneTakenActs(user: string, room: nat, name: string, w: Whole)
    requires Room(room) in w.snap.boxes && Inventory(user) in w.snap.boxes && Room(room) in w.store.boxes
    requires Listed(w.store.boxes[Room(room)], name) == [1] && w.snap.objs == map[1 := Obj(name, [], 1)]
    ensures Next(w, Take(user, room, name, Everybody())).store
         == Do(Do(w.store, Put(Inventory(user), name, 1)), Cut(Room(room), name, 1))
  {
    var from, to, objs, none := Room(room), Inventory(user), w.snap.objs, (var n: seq<ObjId> := []; n);
    var a, b := Put(to, name, 1), Cut(from, name, 1);
    assert none + [1] == [1];
    ActsNext(objs, none, 1, Everybody(), from, to);
    assert MoveActs(from, to, 1, Obj(name, [], 1)) == [a, b];
    assert TakeActs(objs, [1], Everybody(), from, to) == [a, b];
    assert [a, b][..1] == [a];
    DoOne(w.store, a);
  }

  /** The tables after the first key has come and gone: the room's is as good as new, but its entry
      counter is one too high. */
  lemma ComeAndGone(signed: bool, x: Index, k: string)
    requires x == Fresh(SIZE)
    ensures Usable(x) && Usable(Enter(signed, x, k)) && Passes(signed, x, k)
    ensures var y := Leave(signed, Enter(signed, x, k), k);
            y.drift == Drift(0, 1) && Filling(Keys(signed), y.table, [], SIZE)
  {
    MM.LoadOfEight(1);
    FillEmpty(Keys(signed), k, (), SIZE);
    EmptyHome(Keys(signed), x.table, k);
    FirstHome(Keys(signed), k);
  }

  lemma FirstHome(ops: KeyOps<string, string>, k: string)
    requires !Grows(ops, Init<string, ()>(SIZE), k)
    ensures HashSpec.Lookup(ops, InsertNew(ops, Init(SIZE), Entry(k, ())), k).Some?
  {
    var t := InsertNew(ops, Init(SIZE), Entry(k, ()));
    assert t.buckets[Home(ops, t, k)] == [Entry(k, ())];
    assert Pos(ops, [Entry(k, ())], k) == 0;
  }

  ghost function Two(signed: bool, room: nat, user: string, roomShelf: Shelf, x: Index, userShelf: Shelf, y: Index): Store {
    Store(signed, map[Room(room) := roomShelf, Inventory(user) := userShelf], map[Room(room) := x, Inventory(user) := y], true)
  }

  /** The state after each of the three opening requests. */
  ghost function UserThere(signed: bool, room: nat, user: string): Whole {
    Whole(Snapshot(map[], {}, map[], {Room(room), Inventory(user)}, 1), Two(signed, room, user, map[], Fresh(SIZE), map[], Fresh(SIZE)))
  }

  ghost function ObjectThere(signed: bool, room: nat, user: string, k: string): Whole {
    Whole(Snapshot(map[1 := Obj(k, [], 1)], {Place(1, Room(room), k)}, map[1 := 0], {Room(room), Inventory(user)}, 2),
          Two(signed, room, user, map[k := [Entry(k, 1)]], FirstIn(signed, k), map[], Fresh(SIZE)))
  }

  ghost function ObjectGone(signed: bool, room: nat, user: string, k: string): Whole {
    Whole(ObjectThere(signed, room, user, k).snap.(places := {Place(1, Inventory(user), k)}),
          Two(signed, room, user, map[], FirstOut(signed, k), map[k := [Entry(k, 1)]], FirstIn(signed, k)))
  }

  ghost function FirstIn(signed: bool, k: string): Index {
    if Usable(Fresh(SIZE)) then Enter(signed, Fresh(SIZE), k) else Fresh(SIZE)
  }

  ghost function FirstOut(signed: bool, k: string): Index {
    if Usable(FirstIn(signed, k)) then Leave(signed, FirstIn(signed, k), k) else FirstIn(signed, k)
  }

  lemma FirstUser(signed: bool, room: nat, user: string)
    ensures Next(Begin(signed, room), AddUser(user)) == UserThere(signed, room, user)
  {
    DoOne(BareStore(signed, room), Open(Inventory(user), SIZE));
  }

  lemma FirstObject(signed: bool, room: nat, user: string, k: string)
    ensures Next(UserThere(signed, room, user), Create(room, k)) == ObjectThere(signed, room, user, k)
  {
    var w, none: Shelf := UserThere(signed, room, user), map[];
    CreateIs(w, room, k);
    ComeAndGone(signed, Fresh(SIZE), k);
    DoPutNew(w.store, Room(room), k, 1, FirstIn(signed, k));
    InsertFirst(k, Entry(k, 1));
    SetFirst(Room(room), Inventory(user), none, none, map[k := [Entry(k, 1)]]);
    SetFirst(Room(room), Inventory(user), Fresh(SIZE), Fresh(SIZE), FirstIn(signed, k));
    assert After(w.snap, Create(room, k)).objs == map[1 := Obj(k, [], 1)];
  }

  lemma InsertFirst(k: string, e: Entry<string, ObjId>)
    ensures var none: Shelf := map[]; M.Insert(none, k, e) == map[k := [e]]
  {
    assert [e] + [] == [e];
  }

  lemma DoPutNew(f: Store, b: Box, k: string, o: ObjId, x: Index)
    requires b in f.boxes && k !in f.boxes[b] && b in f.tables && Usable(f.tables[b])
    requires Passes(f.signed, f.tables[b], k) && x == Enter(f.signed, f.tables[b], k)
    ensures Do(f, Put(b, k, o)) == f.(boxes := f.boxes[b := M.Insert(f.boxes[b], k, Entry(k, o))], tables := f.tables[b := x])
  {
  }

  lemma DoCutLast(f: Store, b: Box, k: string, o: ObjId, x: Index)
    requires b in f.boxes && M.Empties(f.boxes[b], k, Is(o)) && b in f.tables && Usable(f.tables[b])
    requires x == Leave(f.signed, f.tables[b], k)
    ensures Do(f, Cut(b, k, o)) == f.(boxes := f.boxes[b := M.Delete(f.boxes[b], k, Is(o))], tables := f.tables[b := x])
  {
  }

  lemma SetFirst<T>(a: Box, b: Box, x: T, y: T, z: T)
    requires a != b
    ensures map[a := x, b := y][a := z] == map[a := z, b := y]
    ensures map[a := x, b := y][b := z] == map[a := x, b := z]
  {
  }

  lemma FirstTaken(signed: bool, room: nat, user: string, k: string)
    ensures Next(ObjectThere(signed, room, user, k), Take(user, room, k, Everybody())) == ObjectGone(signed, room, user, k)
  {
    var w := ObjectThere(signed, room, user, k);
    assert Listed(w.store.boxes[Room(room)], k) == [1];
    OneTakenActs(user, room, k, w);
    OneTaken(user, room, k, w.snap);
    PutCut(signed, room, user, k, w.store);
  }

  lemma PutCut(signed: bool, room: nat, user: string, k: string, f: Store)
    requires f == ObjectThere(signed, room, user, k).store
    ensures Do(Do(f, Put(Inventory(user), k, 1)), Cut(Room(room), k, 1)) == ObjectGone(signed, room, user, k).store
  {
    var none: Shelf, one: Shelf := map[], map[k := [Entry(k, 1)]];
    var a, b := Room(room), Inventory(user);
    ComeAndGone(signed, Fresh(SIZE), k);
    DoPutNew(f, b, k, 1, FirstIn(signed, k));
    InsertFirst(k, Entry(k, 1));
    SetFirst(a, b, one, none, one);
    SetFirst(a, b, FirstIn(signed, k), Fresh(SIZE), FirstIn(signed, k));
    var g := Two(signed, room, user, one, FirstIn(signed, k), one, FirstIn(signed, k));
    M.OnlyPairDeleted(k, Entry(k, 1), Is(1));
    DoCutLast(g, a, k, 1, FirstOut(signed, k));
    SetFirst(a, b, one, one, none);
    SetFirst(a, b, FirstIn(signed, k), FirstIn(signed, k), FirstOut(signed, k));
  }

  /** The requests that leave the room with an emptied key. */
  function Opening(room: nat, user: string, first: string): seq<Req> {
    [AddUser(user), Create(room, first), Take(user, room, first, Everybody())]
  }

  lemma OpeningStage(signed: bool, room: nat, user: string, first: string, ks: seq<string>)
    ensures Stage(NextAll(Begin(signed, room), Opening(room, user, first)), room, ks, 0)
    ensures NextAll(Begin(signed, room), Opening(room, user, first)).store.signed == signed
  {
    OpeningIs(signed, room, user, first);
    BeginTabled(signed, room);
    NextAllTabled(Begin(signed, room), Opening(room, user, first));
    ComeAndGone(signed, Fresh(SIZE), first);
    assert ks[..0] == [];
  }

  lemma OpeningIs(signed: bool, room: nat, user: string, first: string)
    ensures NextAll(Begin(signed, room), Opening(room, user, first)) == ObjectGone(signed, room, user, first)
  {
    var w0, none := Begin(signed, room), (var n: seq<Req> := []; n);
    var r1, r2, r3 := AddUser(user), Create(room, first), Take(user, room, first, Everybody());
    NextOne(w0, none, r1);
    NextOne(w0, none + [r1], r2);
    NextOne(w0, none + [r1] + [r2], r3);
    assert none + [r1] + [r2] + [r3] == Opening(room, user, first);
    FirstUser(signed, room, user);
    FirstObject(signed, room, user, first);
    FirstTaken(signed, room, user, first);
  }

  lemma NextOne(w: Whole, reqs: seq<Req>, r: Req)
    ensures NextAll(w, reqs + [r]) == Next(NextAll(w, reqs), r)
  {
    assert (reqs + [r])[..|reqs|] == reqs;
  }

  function Creates(room: nat, ks: seq<string>): seq<Req> {
    seq(|ks|, i requires 0 <= i < |ks| => Create(room, ks[i]))
  }

  lemma CreatesNext(room: nat, ks: seq<string>, n: nat)
    requires n < |ks|
    ensures Creates(room, ks[..n + 1]) == Creates(room, ks[..n]) + [Create(room, ks[n])]
  {
  }

  /** All requests up to the one that makes the object with number `n` of the names. */
  function Making(room: nat, user: string, first: string, ks: seq<string>, n: nat): seq<Req>
    requires n <= |ks|
  {
    Opening(room, user, first) + Creates(room, ks[..n])
  }

  lemma MakingNext(room: nat, user: string, first: string, ks: seq<string>, n: nat)
    requires n < |ks|
    ensures Making(room, user, first, ks, n + 1) == Making(room, user, first, ks, n) + [Create(room, ks[n])]
  {
    CreatesNext(room, ks, n);
  }

  ghost function RoomAfter(signed: bool, room: nat, user: string, first: string, ks: seq<string>, n: nat): Whole
    requires n <= |ks|
  {
    NextAll(Begin(signed, room), Making(room, user, first, ks, n))
  }

  lemma RoomNext(signed: bool, room: nat, user: string, first: string, ks: seq<string>, n: nat)
    requires n < |ks|
    ensures RoomAfter(signed, room, user, first, ks, n + 1) == Next(RoomAfter(signed, room, user, first, ks, n), Create(room, ks[n]))
  {
    MakingNext(room, user, first, ks, n);
    NextOne(Begin(signed, room), Making(room, user, first, ks, n), Create(room, ks[n]));
  }

  lemma {:induction false} StageAfter(signed: bool, room: nat, user: string, first: string, ks: seq<string>, n: nat)
    requires n <= |ks| && n < 6 && Spaced(Keys(signed), ks, SIZE)
    ensures var w := RoomAfter(signed, room, user, first, ks, n); Stage(w, room, ks, n) && w.store.signed == signed
    decreases n, 0
  {
    if n == 0 {
      assert Opening(room, user, first) + Creates(room, ks[..0]) == Opening(room, user, first);
      OpeningStage(signed, room, user, first, ks);
    } else {
      StageAfter(signed, room, user, first, ks, n - 1);
      RoomNext(signed, room, user, first, ks, n - 1);
      StageNext(RoomAfter(signed, room, user, first, ks, n - 1), room, ks, n - 1);
    }
  }

  /** In a fresh room: an object is made and taken, and six are made whose names hash to different
      buckets.  The process gets through all but the last request. */
  lemma EmptiedRoom(signed: bool, room: nat, user: string, first: string, ks: seq<string>)
    requires |ks| == 6 && Spaced(Keys(signed), ks, SIZE)
    ensures var w, before := Begin(signed, room), Making(room, user, first, ks, 5);
            NextAll(w, before).store.sane && !NextAll(w, before + [Create(room, ks[5])]).store.sane
  {
    StageAfter(signed, room, user, first, ks, 5);
    var before := Making(room, user, first, ks, 5);
    NextOne(Begin(signed, room), before, Create(room, ks[5]));
    StageLast(NextAll(Begin(signed, room), before), room, ks);
  }

  /** With the names "a" to "g": the seventh object that the world makes in the room, six of them
      there at the time, ends the server. */
  lemma SeventhObject(signed: bool, room: nat, user: string)
    ensures var w, before := Begin(signed, room), Opening(room, user, "a") + Creates(room, ["b", "c", "d", "e", "f"]);
            NextAll(w, before).store.sane && !NextAll(w, before + [Create(room, "g")]).store.sane
  {
    SixSpaced(signed);
    assert SIX[..5] == ["b", "c", "d", "e", "f"];
    EmptiedRoom(signed, room, user, FIRST, SIX);
  }
}
