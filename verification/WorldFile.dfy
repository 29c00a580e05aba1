/** world_save and world_load of src/world.c: the loops, against the file format of WorldCodec. */
module WorldFile {
  import opened Bytes
  import opened Records
  import opened Containers
  import opened WorldCodec
  import opened Files
  import opened Guard

  /** A room as world_load leaves it. */
  datatype LoadedRoom<U, R> =
    LoadedRoom(id: int, name: string, desc: string, adjacent: seq<int>, objects: Stock<U>, verbs: map<string, Verb>, data: R)

  datatype LoadedWorld<U, R> =
    LoadedWorld(name: string, verbs: map<string, Verb>, rooms: seq<LoadedRoom<U, R>>, counter: int, names: map<string, int>)

  function VerbTable(vs: seq<Verb>): (t: map<string, Verb>)
    ensures forall n :: n in t <==> exists i :: 0 <= i < |vs| && vs[i].name == n
  {
    if vs == [] then map[]
    else
      var front, last := vs[..|vs| - 1], vs[|vs| - 1];
      assert vs == front + [last];
      VerbTable(front)[last.name := last]
  }

  /** Of verbs with different names it has each one under its name. */
  lemma {:induction false} VerbTableHolds(vs: seq<Verb>)
    requires forall i, j :: 0 <= i < j < |vs| ==> vs[i].name != vs[j].name
    ensures forall i :: 0 <= i < |vs| ==> vs[i].name in VerbTable(vs) && VerbTable(vs)[vs[i].name] == vs[i]
  {
    if vs != [] { VerbTableHolds(vs[..|vs| - 1]); }
  }

  /** hash_insert does not replace an entry that is there. */
  function NameTable(names: seq<(string, int)>): map<string, int> {
    if names == [] then map[]
    else
      var t, last := NameTable(names[..|names| - 1]), names[|names| - 1];
      if last.0 in t then t else t[last.0 := last.1]
  }

  function BuildRoom<U, R>(r: RoomRecord<U, R>): LoadedRoom<U, R> {
    LoadedRoom(r.id, r.name, r.desc, r.adjacent, StockOf(r.things), VerbTable(r.verbs), r.data)
  }

  function BuildRooms<U, R>(rs: seq<RoomRecord<U, R>>): (r: seq<LoadedRoom<U, R>>)
    ensures |r| == |rs| && forall i :: 0 <= i < |rs| ==> r[i] == BuildRoom(rs[i])
  {
    seq(|rs|, i requires 0 <= i < |rs| => BuildRoom(rs[i]))
  }

  function Build<U, R>(w: WorldRecord<U, R>): LoadedWorld<U, R> {
    LoadedWorld(w.name, VerbTable(w.verbs), BuildRooms(w.rooms), w.counter, NameTable(w.names))
  }

  function Load<U, R>(m: Module<U, R>, size: int, name: string, s: string): Outcome<LoadedWorld<U, R>> {
    match ReadWorld(m, size, name, s)
    case Corrupt => Corrupt
    case Incompatible => Incompatible
    case Loaded(w) => Loaded(Build(w))
  }

  // saving

  lemma ConcatStep<T>(done: string, i: int, xs: seq<T>, write: (int, T) -> string)
    requires xs != []
    ensures done + WriteMany(i, xs, write) == done + write(i, xs[0]) + WriteMany(i + 1, xs[1..], write)
  {
    Assoc(done, write(i, xs[0]), WriteMany(i + 1, xs[1..], write));
  }

  method SaveVerbs(f: Output, vs: seq<Verb>, ghost done: string)
    requires f.Holds(done)
    modifies f
    ensures f.Holds(done + WriteVerbs(vs))
  {
    f.Write(SizeT(|vs|), done);
    ghost var so, i := done + SizeT(|vs|), 0;
    Assoc(done, SizeT(|vs|), WriteMany(0, vs, VerbWriter()));
    var iter := vs;
    while iter != []
      invariant f.Holds(so) && so + WriteMany(i, iter, VerbWriter()) == done + WriteVerbs(vs)
    {
      ConcatStep(so, i, iter, VerbWriter());
      f.Write(WriteVerb(iter[0]), so);
      so, i := so + WriteVerb(iter[0]), i + 1;
      iter := iter[1..];
    }
    assert so + "" == so;
  }

  /** One list of the room's multimap: only the entries under the object's own name are saved. */
  method SaveBin<U>(f: Output, h: Hooks<string, U>, bin: Bin<U>, ghost done: string, ghost at: int)
    requires f.Holds(done)
    modifies f
    ensures f.Holds(done + WriteMany(at, Named(bin.key, bin.things), ThingWriter(h)))
  {
    var iter := bin.things;
    ghost var so, i, goal := done, at, done + WriteMany(at, Named(bin.key, bin.things), ThingWriter(h));
    while iter != []
      invariant f.Holds(so) && so + WriteMany(i, Named(bin.key, iter), ThingWriter(h)) == goal
    {
      var obj := iter[0];
      if bin.key == obj.name {
        ConcatStep(so, i, Named(bin.key, iter), ThingWriter(h));
        assert Named(bin.key, iter)[1..] == Named(bin.key, iter[1..]);
        f.Write(WriteObj(h, obj), so);
        so, i := so + WriteObj(h, obj), i + 1;
      }
      iter := iter[1..];
    }
    assert so + "" == so;
  }

  lemma {:induction false} ConcatJoin<T>(i: int, xs: seq<T>, ys: seq<T>, write: (int, T) -> string)
    ensures WriteMany(i, xs + ys, write) == WriteMany(i, xs, write) + WriteMany(i + |xs|, ys, write)
    decreases |xs|
  {
    if xs == [] {
      assert xs + ys == ys;
    } else {
      ConcatJoin(i + 1, xs[1..], ys, write);
      assert (xs + ys)[1..] == xs[1..] + ys;
      Assoc(write(i, xs[0]), WriteMany(i + 1, xs[1..], write), WriteMany(i + |xs|, ys, write));
    }
  }

  /** What is still to be saved of a container leads from `so` to `goal`. */
  ghost predicate Remains<U>(so: string, i: int, bins: seq<Bin<U>>, h: Hooks<string, U>, goal: string) {
    forall k: nat {:trigger Opened(k)} :: Opened(k) ==> so + WriteMany(i, Primaries(bins), ThingWriter(h)) == goal
  }

  lemma RemainsStep<U>(so: string, i: int, bins: seq<Bin<U>>, h: Hooks<string, U>, goal: string)
    requires Remains(so, i, bins, h, goal) && bins != []
    ensures var named := Named(bins[0].key, bins[0].things);
            Remains(so + WriteMany(i, named, ThingWriter(h)), i + |named|, bins[1..], h, goal)
  {
    assert Opened(0);
    var named, rest := Named(bins[0].key, bins[0].things), Primaries(bins[1..]);
    ConcatJoin(i, named, rest, ThingWriter(h));
    Assoc(so, WriteMany(i, named, ThingWriter(h)), WriteMany(i + |named|, rest, ThingWriter(h)));
  }

  lemma RemainsStart<U>(done: string, bins: seq<Bin<U>>, h: Hooks<string, U>)
    ensures Remains(done + SizeT(|Primaries(bins)|), 0, bins, h, done + WriteThings(h, Primaries(bins)))
  {
    Assoc(done, SizeT(|Primaries(bins)|), WriteMany(0, Primaries(bins), ThingWriter(h)));
  }

  lemma RemainsEnd<U>(so: string, i: int, h: Hooks<string, U>, goal: string)
    requires Remains(so, i, [], h, goal)
    ensures so == goal
  {
    assert Opened(0);
    assert so + "" == so;
  }

  /** The count that obj_count_noalias gives is the number of records that follow it. */
  method SaveThings<U>(f: Output, h: Hooks<string, U>, bins: seq<Bin<U>>, ghost done: string)
    requires f.Holds(done)
    modifies f
    ensures f.Holds(done + WriteThings(h, Primaries(bins)))
  {
    var n := CountNoAlias(bins);
    f.Write(SizeT(n), done);
    ghost var so, i, goal := done + SizeT(n), 0, done + WriteThings(h, Primaries(bins));
    RemainsStart(done, bins, h);
    var iter := bins;
    while iter != []
      invariant f.Holds(so) && Remains(so, i, iter, h, goal)
    {
      so, i := SaveNext(f, h, iter, so, i, goal);
      iter := iter[1..];
    }
    RemainsEnd(so, i, h, goal);
  }

  /** The next list of the container. */
  method SaveNext<U>(f: Output, h: Hooks<string, U>, bins: seq<Bin<U>>, ghost so: string, ghost i: int, ghost goal: string)
    returns (ghost so': string, ghost i': int)
    requires bins != [] && f.Holds(so) && Remains(so, i, bins, h, goal)
    modifies f
    ensures f.Holds(so') && Remains(so', i', bins[1..], h, goal)
  {
    RemainsStep(so, i, bins, h, goal);
    SaveBin(f, h, bins[0], so, i);
    ghost var named := Named(bins[0].key, bins[0].things);
    so', i' := so + WriteMany(i, named, ThingWriter(h)), i + |named|;
  }

  method SaveRoom<U, R>(f: Output, m: Module<U, R>, i: int, r: Room<U, R>, ghost done: string)
    requires f.Holds(done)
    modifies f
    ensures f.Holds(done + WriteRoom(m, i, RecordOf(r)))
  {
    ghost var head := WriteHeader(RecordOf(r));
    SaveHeader(f, r, done);
    SaveThings(f, m.objHooks, r.bins, done + head);
    SaveVerbs(f, r.verbs, done + head + WriteThings(m.objHooks, Primaries(r.bins)));
    f.Write(m.roomHooks.write(i, r.data), done + head + WriteThings(m.objHooks, Primaries(r.bins)) + WriteVerbs(r.verbs));
    RegroupLeft(done, head, WriteThings(m.objHooks, Primaries(r.bins)), WriteVerbs(r.verbs), m.roomHooks.write(i, r.data));
  }

  method SaveHeader<U, R>(f: Output, r: Room<U, R>, ghost done: string)
    requires f.Holds(done)
    modifies f
    ensures f.Holds(done + WriteHeader(RecordOf(r)))
  {
    f.Write(RoomId(r.id), done);
    f.Write(Str(r.name), done + RoomId(r.id));
    f.Write(Str(r.desc), done + RoomId(r.id) + Str(r.name));
    f.Write(Exits(r.adjacent), done + RoomId(r.id) + Str(r.name) + Str(r.desc));
    RegroupLeft(done, RoomId(r.id), Str(r.name), Str(r.desc), Exits(r.adjacent));
  }

  lemma RegroupLeft(z: string, a: string, b: string, c: string, d: string)
    ensures z + a + b + c + d == z + (a + (b + (c + d)))
  {
    assert z + a + b + c + d == z + a + b + (c + d);
    assert z + a + b + (c + d) == z + a + (b + (c + d));
  }

  method SaveRooms<U, R>(f: Output, m: Module<U, R>, rooms: seq<Room<U, R>>, ghost done: string)
    requires f.Holds(done)
    modifies f
    ensures f.Holds(done + WriteRooms(m, RoomRecords(rooms)))
  {
    ghost var so, goal := done, done + WriteRooms(m, RoomRecords(rooms));
    assert RoomRecords(rooms)[0..] == RoomRecords(rooms);
    for i := 0 to |rooms|
      invariant f.Holds(so) && so + WriteMany(i, RoomRecords(rooms)[i..], RoomWriter(m)) == goal
    {
      RoomsLeft(rooms, i);
      ConcatStep(so, i, RoomRecords(rooms)[i..], RoomWriter(m));
      SaveRoom(f, m, i, rooms[i], so);
      so := so + WriteRoom(m, i, RecordOf(rooms[i]));
    }
    assert so + "" == so;
  }

  lemma RoomsLeft<U, R>(rooms: seq<Room<U, R>>, i: nat)
    requires i < |rooms|
    ensures RoomRecords(rooms)[i..][0] == RecordOf(rooms[i])
    ensures RoomRecords(rooms)[i..][1..] == RoomRecords(rooms)[i + 1..]
  {
  }

  method SaveNames(f: Output, names: seq<(string, int)>, ghost done: string)
    requires f.Holds(done)
    modifies f
    ensures f.Holds(done + WriteMany(0, names, NameWriter()))
  {
    ghost var so, i, goal := done, 0, done + WriteMany(0, names, NameWriter());
    var iter := names;
    while iter != []
      invariant f.Holds(so) && so + WriteMany(i, iter, NameWriter()) == goal
    {
      ConcatStep(so, i, iter, NameWriter());
      f.Write(Str(iter[0].0), so);
      f.Write(RoomId(iter[0].1), so + Str(iter[0].0));
      Assoc(so, Str(iter[0].0), RoomId(iter[0].1));
      so, i := so + WriteName(iter[0]), i + 1;
      iter := iter[1..];
    }
    assert so + "" == so;
  }

  /** world_save: the file is not truncated, so a longer old file shows behind the new contents. */
  method Save<U, R>(f: Output, m: Module<U, R>, w: World<U, R>)
    requires f.Holds("")
    modifies f
    ensures f.bytes == WriteWorld(m, Recorded(w)) + Beyond(f.was, |WriteWorld(m, Recorded(w))|)
  {
    ghost var magic, size, name := Uint32(WORLD_MAGIC), SizeT(|w.rooms|), Str(w.name);
    f.Write(Uint32(WORLD_MAGIC), "");
    f.Write(SizeT(|w.rooms|), "" + magic);
    f.Write(Str(w.name), "" + magic + size);
    SaveVerbs(f, w.verbs, "" + magic + size + name);
    ghost var front := "" + magic + size + name + WriteVerbs(w.verbs);
    SaveRooms(f, m, w.rooms, front);
    ghost var rooms := WriteRooms(m, RoomRecords(w.rooms));
    f.Write(SizeT(w.counter), front + rooms);
    SaveNames(f, w.names, front + rooms + SizeT(w.counter));
    assert f.Holds(WriteWorld(m, Recorded(w))) by {
      Assoc(front + rooms, SizeT(w.counter), WriteMany(0, w.names, NameWriter()));
      RegroupAll(magic, size, name, WriteVerbs(w.verbs), rooms, WriteEnd(w.counter, w.names));
    }
  }

  lemma RegroupAll(a: string, b: string, c: string, d: string, e: string, f: string)
    ensures "" + a + b + c + d + e + f == a + (b + (c + (d + (e + f))))
  {
    RegroupLeft("" + a, b, c, d, e + f);
    Assoc("" + a + b + c + d, e, f);
    assert "" + a == a;
  }

  // loading

  /** room_obj_add of an object just read, whose count is one; userdb_init does the same. */
  method FileThing<U>(objects: Stock<U>, o: Thing<U>) returns (filed: Stock<U>)
    ensures filed == Stock(AddUnder(objects.shelf, Keys(o), o), objects.refs[o.id := |Keys(o)|], objects.read + [o])
  {
    var r, refs := Insert(objects.shelf, o.name, o), 1;
    var i := 0;
    assert Keys(o)[..1] == [o.name] && Keys(o)[..1][..0] == [];
    while i < |o.aliases|
      invariant 0 <= i <= |o.aliases| && refs == i + 1 && r == AddUnder(objects.shelf, Keys(o)[..i + 1], o)
    {
      assert Keys(o)[..i + 2][..i + 1] == Keys(o)[..i + 1];
      r, refs := Insert(r, o.aliases[i], o), refs + 1;
      i := i + 1;
    }
    assert Keys(o)[..i + 1] == Keys(o);
    filed := Stock(r, objects.refs[o.id := refs], objects.read + [o]);
  }

  lemma AddNext<U>(done: seq<Thing<U>>, o: Thing<U>)
    ensures StockOf(done + [o]) == Stock(AddUnder(AddAll(done), Keys(o), o), Refs(done)[o.id := |Keys(o)|], done + [o])
  {
    assert (done + [o])[..|done|] == done;
  }

  /** The records of one container, each filed under all its keys as it is read. */
  method LoadThings<U>(f: Input, h: Hooks<string, U>, classes: set<string>) returns (r: Parse<Stock<U>>)
    modifies f
    ensures match ReadThings(h, classes, old(f.rest))
            case Fail => r == Fail
            case Ok(os, s) => r == Ok(StockOf(os), s) && f.rest == s && Advanced(old(f.counter), |os|, f.counter)
  {
    var size := f.GetSize();
    if size.Fail? { return Fail; }
    ghost var read := ThingReader(h, classes);
    ReadsStart(size.val, 0, read, f.rest);
    r := LoadThingList(f, h, classes, size.val, read, ReadMany(0, size.val, 0, read, f.rest));
  }

  method LoadThingList<U>(f: Input, h: Hooks<string, U>, classes: set<string>, n: nat, ghost read: (int, string) -> Parse<Thing<U>>,
                          ghost goal: Parse<seq<Thing<U>>>)
    returns (r: Parse<Stock<U>>)
    requires Reads(goal, [], 0, n, 0, read, f.rest) && Same(read, ThingReader(h, classes))
    modifies f
    ensures match goal
            case Fail => r == Fail
            case Ok(os, s) => r == Ok(StockOf(os), s) && f.rest == s && Advanced(old(f.counter), |os|, f.counter)
  {
    var i := 0;
    var objects: Stock<U> := Stock(map[], map[], []);
    ghost var done: seq<Thing<U>>, left := [], n;
    while i < n
      invariant 0 <= i <= n && left == n - i && |done| == i && objects == StockOf(done)
      invariant Reads(goal, done, i, left, 0, read, f.rest)
      invariant Advanced(old(f.counter), i, f.counter)
    {
      ghost var counter := f.counter;
      var filed;
      filed, done := LoadThing(f, h, classes, objects, read, goal, done, i, left);
      if filed.Fail? { return Fail; }
      AdvancedThen(old(f.counter), i, counter, 1, f.counter);
      objects, i, left := filed.val, i + 1, left - 1;
    }
    ReadsEnd(goal, done, i, left, 0, read, f.rest);
    r := Ok(objects, f.rest);
  }

  /** One round: read an object and file it. */
  method LoadThing<U>(f: Input, h: Hooks<string, U>, classes: set<string>, objects: Stock<U>, ghost read: (int, string) -> Parse<Thing<U>>,
                      ghost goal: Parse<seq<Thing<U>>>, ghost done: seq<Thing<U>>, ghost i: int, ghost left: nat)
    returns (r: Parse<Stock<U>>, ghost done': seq<Thing<U>>)
    requires left > 0 && objects == StockOf(done)
    requires Reads(goal, done, i, left, 0, read, f.rest) && Same(read, ThingReader(h, classes))
    modifies f
    ensures r.Fail? ==> goal == Fail
    ensures r.Ok? ==> r.val == StockOf(done') && |done'| == |done| + 1
    ensures r.Ok? ==> Reads(goal, done', i + 1, left - 1, 0, read, f.rest)
    ensures r.Ok? ==> Advanced(old(f.counter), 1, f.counter)
  {
    ReadsNext(goal, done, i, left, 0, read, f.rest);
    SameReads(read, ThingReader(h, classes), i, f.rest);
    var obj := f.GetObj(h, classes);
    done' := done;
    if obj.Fail? { return Fail, done; }
    AddNext(done, obj.val);
    var filed := FileThing(objects, obj.val);
    done' := done + [obj.val];
    r := Ok(filed, f.rest);
  }

  lemma Twice(done: seq<Verb>, v: Verb, all: seq<Verb>)
    requires v.name in VerbTable(done) && done + [v] <= all
    ensures !NamesApart(all)
  {
    var i :| 0 <= i < |done| && done[i].name == v.name;
    assert all[i] == (done + [v])[i] == done[i];
    assert all[|done|] == (done + [v])[|done|] == v;
  }

  lemma TableNext(done: seq<Verb>, v: Verb)
    ensures VerbTable(done + [v]) == VerbTable(done)[v.name := v]
    ensures NamesApart(done) && v.name !in VerbTable(done) ==> NamesApart(done + [v])
  {
    assert (done + [v])[..|done|] == done;
  }

  /** A table of verbs; a name read twice aborts the load. */
  method LoadVerbs(f: Input, classes: set<string>) returns (r: Parse<map<string, Verb>>)
    modifies f
    ensures match ReadVerbs(classes, old(f.rest))
            case Fail => r == Fail
            case Ok(vs, s) => r == Ok(VerbTable(vs), s) && f.rest == s
    ensures f.counter == old(f.counter)
    ensures forall vs: seq<Verb>, s: string :: Writable(classes, vs) && old(f.rest) == WriteVerbs(vs) + s ==>
              && (r.Ok? <==> forall i, j :: 0 <= i < j < |vs| ==> vs[i].name != vs[j].name)
              && (r.Ok? ==> r.val == VerbTable(vs) && f.rest == s)
  {
    VerbCases(classes, f.rest);
    var size := f.GetSize();
    if size.Fail? { return Fail; }
    ghost var read := VerbReader(classes);
    ReadsStart(size.val, 0, read, f.rest);
    r := LoadVerbList(f, classes, size.val, read, ReadMany(0, size.val, 0, read, f.rest));
  }

  lemma VerbCases(classes: set<string>, t: string)
    ensures forall vs: seq<Verb>, s: string :: Writable(classes, vs) && t == WriteVerbs(vs) + s ==>
              ReadVerbs(classes, t) == if NamesApart(vs) then Ok(vs, s) else Fail
  {
    forall vs: seq<Verb>, s: string | Writable(classes, vs) && t == WriteVerbs(vs) + s
      ensures ReadVerbs(classes, t) == if NamesApart(vs) then Ok(vs, s) else Fail
    {
      VerbsListed(classes, vs, s);
    }
  }

  method LoadVerbList(f: Input, classes: set<string>, n: nat, ghost read: (int, string) -> Parse<Verb>, ghost goal: Parse<seq<Verb>>)
    returns (r: Parse<map<string, Verb>>)
    requires Reads(goal, [], 0, n, 0, read, f.rest) && Same(read, VerbReader(classes))
    modifies f`rest
    ensures match goal
            case Fail => r == Fail
            case Ok(vs, s) => if NamesApart(vs) then r == Ok(VerbTable(vs), s) && f.rest == s else r == Fail
  {
    var i := 0;
    var table: map<string, Verb> := map[];
    ghost var done: seq<Verb>, left := [], n;
    TableStart();
    while i < n
      invariant 0 <= i <= n && left == n - i && Tabled(table, done)
      invariant Reads(goal, done, i, left, 0, read, f.rest)
    {
      var entered;
      entered, done := LoadVerb(f, classes, table, read, goal, done, i, left);
      if entered.Fail? { return Fail; }
      table, i, left := entered.val, i + 1, left - 1;
    }
    ReadsEnd(goal, done, i, left, 0, read, f.rest);
    TableIs(table, done);
    r := Ok(table, f.rest);
  }

  ghost predicate Tabled(table: map<string, Verb>, done: seq<Verb>) {
    forall k: nat {:trigger Sealed(k)} :: Sealed(k) ==> table == VerbTable(done) && NamesApart(done)
  }

  lemma TableStart()
    ensures Tabled(map[], [])
  {
  }

  lemma TableIs(table: map<string, Verb>, done: seq<Verb>)
    requires Tabled(table, done)
    ensures table == VerbTable(done) && NamesApart(done)
  {
    assert Sealed(0);
  }

  lemma TableMore(table: map<string, Verb>, done: seq<Verb>, v: Verb)
    requires Tabled(table, done) && v.name !in table
    ensures Tabled(table[v.name := v], done + [v])
  {
    assert Sealed(0);
    TableNext(done, v);
  }

  lemma TableTwice(table: map<string, Verb>, done: seq<Verb>, v: Verb, all: seq<Verb>)
    requires Tabled(table, done) && v.name in table && done + [v] <= all
    ensures !NamesApart(all)
  {
    assert Sealed(0);
    Twice(done, v, all);
  }

  /** One round: read a verb and enter it, unless there is one of its name. */
  method LoadVerb(f: Input, classes: set<string>, table: map<string, Verb>, ghost read: (int, string) -> Parse<Verb>,
                  ghost goal: Parse<seq<Verb>>, ghost done: seq<Verb>, ghost i: int, ghost left: nat)
    returns (r: Parse<map<string, Verb>>, ghost done': seq<Verb>)
    requires left > 0 && Tabled(table, done)
    requires Reads(goal, done, i, left, 0, read, f.rest) && Same(read, VerbReader(classes))
    modifies f`rest
    ensures r.Fail? ==> goal == Fail || !NamesApart(goal.val)
    ensures r.Ok? ==> Tabled(r.val, done') && Reads(goal, done', i + 1, left - 1, 0, read, f.rest)
  {
    ReadsNext(goal, done, i, left, 0, read, f.rest);
    SameReads(read, VerbReader(classes), i, f.rest);
    var verb := GetVerb(f, classes);
    done' := done;
    if verb.Fail? { return Fail, done; }
    if verb.val.name in table {
      if goal.Ok? {
        ReadsPrefix(goal, done + [verb.val], i + 1, left - 1, 0, read, f.rest);
        TableTwice(table, done, verb.val, goal.val);
      }
      return Fail, done;
    }
    TableMore(table, done, verb.val);
    done' := done + [verb.val];
    r := Ok(table[verb.val.name := verb.val], f.rest);
  }

  /** verb_read */
  method GetVerb(f: Input, classes: set<string>) returns (r: Parse<Verb>)
    modifies f`rest
    ensures r == ReadVerb(classes, old(f.rest)) && (r.Ok? ==> f.rest == r.rest)
  {
    var cls := f.GetStr();
    if cls.Fail? || cls.val !in classes { return Fail; }
    var name := f.GetStr();
    if name.Fail? { return Fail; }
    r := Ok(Verb(cls.val, name.val), f.rest);
  }

  method GetHeader(f: Input) returns (r: Parse<Header>)
    modifies f`rest
    ensures r == ReadHeader(old(f.rest)) && (r.Ok? ==> f.rest == r.rest)
  {
    var id := f.GetRoomId();
    if id.Fail? { return Fail; }
    var name := f.GetStr();
    if name.Fail? { return Fail; }
    var desc := f.GetStr();
    if desc.Fail? { return Fail; }
    var adjacent := ReadExits(NUM_DIRECTIONS, f.rest);
    if adjacent.Fail? { return Fail; }
    f.rest := adjacent.rest;
    r := Ok(Header(id.val, name.val, desc.val, adjacent.val), f.rest);
  }

  method LoadRoom<U, R>(f: Input, m: Module<U, R>, i: int) returns (r: Parse<LoadedRoom<U, R>>)
    modifies f
    ensures match ReadRoom(m, i, old(f.rest))
            case Fail => r == Fail
            case Ok(rec, s) => r == Ok(BuildRoom(rec), s) && f.rest == s
  {
    var h := GetHeader(f);
    if h.Fail? { return Fail; }
    var objects := LoadThings(f, m.objHooks, m.objClasses);
    if objects.Fail? { return Fail; }
    var verbs := LoadVerbs(f, m.verbClasses);
    if verbs.Fail? { return Fail; }
    var data := m.roomHooks.read(i, f.rest);
    if data.Fail? { return Fail; }
    f.rest := data.rest;
    r := Ok(LoadedRoom(h.val.id, h.val.name, h.val.desc, h.val.adjacent, objects.val, verbs.val, data.val), f.rest);
  }

  lemma BuildNext<U, R>(done: seq<RoomRecord<U, R>>, rec: RoomRecord<U, R>)
    ensures BuildRooms(done + [rec]) == BuildRooms(done) + [BuildRoom(rec)]
  {
  }

  method LoadRooms<U, R>(f: Input, m: Module<U, R>, n: nat, ghost read: (int, string) -> Parse<RoomRecord<U, R>>,
                         ghost goal: Parse<seq<RoomRecord<U, R>>>)
    returns (r: Parse<seq<LoadedRoom<U, R>>>)
    requires Reads(goal, [], 0, n, 0, read, f.rest) && Same(read, RoomReader(m))
    modifies f
    ensures match goal
            case Fail => r == Fail
            case Ok(rs, s) => r == Ok(BuildRooms(rs), s) && f.rest == s
  {
    var rooms: seq<LoadedRoom<U, R>> := [];
    ghost var done: seq<RoomRecord<U, R>>, left := [], n;
    for i := 0 to n
      invariant left == n - i && Built(rooms, done)
      invariant Reads(goal, done, i, left, 0, read, f.rest)
    {
      var more;
      more, done := LoadNext(f, m, i, rooms, read, goal, done, left);
      if more.Fail? { return Fail; }
      rooms, left := more.val, left - 1;
    }
    ReadsEnd(goal, done, n, left, 0, read, f.rest);
    assert Sealed(0);
    r := Ok(rooms, f.rest);
  }

  ghost predicate Built<U, R>(rooms: seq<LoadedRoom<U, R>>, done: seq<RoomRecord<U, R>>) {
    forall k: nat {:trigger Sealed(k)} :: Sealed(k) ==> rooms == BuildRooms(done)
  }

  /** One round: the next room of the world. */
  method LoadNext<U, R>(f: Input, m: Module<U, R>, i: int, rooms: seq<LoadedRoom<U, R>>, ghost read: (int, string) -> Parse<RoomRecord<U, R>>,
                        ghost goal: Parse<seq<RoomRecord<U, R>>>, ghost done: seq<RoomRecord<U, R>>, ghost left: nat)
    returns (r: Parse<seq<LoadedRoom<U, R>>>, ghost done': seq<RoomRecord<U, R>>)
    requires left > 0 && Built(rooms, done)
    requires Reads(goal, done, i, left, 0, read, f.rest) && Same(read, RoomReader(m))
    modifies f
    ensures r.Fail? ==> goal == Fail
    ensures r.Ok? ==> Built(r.val, done') && Reads(goal, done', i + 1, left - 1, 0, read, f.rest)
  {
    ReadsNext(goal, done, i, left, 0, read, f.rest);
    SameReads(read, RoomReader(m), i, f.rest);
    ghost var rec := ReadRoom(m, i, f.rest);
    var room := LoadRoom(f, m, i);
    done' := done;
    if room.Fail? { return Fail, done; }
    BuildMore(rooms, done, rec.val);
    done' := done + [rec.val];
    r := Ok(rooms + [room.val], f.rest);
  }

  lemma BuildMore<U, R>(rooms: seq<LoadedRoom<U, R>>, done: seq<RoomRecord<U, R>>, rec: RoomRecord<U, R>)
    requires Built(rooms, done)
    ensures Built(rooms + [BuildRoom(rec)], done + [rec])
  {
    assert Sealed(0);
    BuildNext(done, rec);
  }

  lemma NamesNext(done: seq<(string, int)>, n: (string, int))
    ensures NameTable(done + [n]) == if n.0 in NameTable(done) then NameTable(done) else NameTable(done)[n.0 := n.1]
  {
    assert (done + [n])[..|done|] == done;
  }

  /** As many room names as the world has rooms. */
  method LoadNames(f: Input, n: nat, ghost read: (int, string) -> Parse<(string, int)>, ghost goal: Parse<seq<(string, int)>>)
    returns (r: Parse<map<string, int>>)
    requires Reads(goal, [], 0, n, 0, read, f.rest) && Same(read, NameReader())
    modifies f`rest
    ensures match goal
            case Fail => r == Fail
            case Ok(names, s) => r == Ok(NameTable(names), s) && f.rest == s
  {
    var table: map<string, int> := map[];
    ghost var done: seq<(string, int)>, left := [], n;
    for i := 0 to n
      invariant table == NameTable(done) && left == n - i
      invariant Reads(goal, done, i, left, 0, read, f.rest)
    {
      ReadsNext(goal, done, i, left, 0, read, f.rest);
      SameReads(read, NameReader(), i, f.rest);
      var name := GetName(f);
      if name.Fail? { return Fail; }
      NamesNext(done, name.val);
      if name.val.0 !in table {
        table := table[name.val.0 := name.val.1];
      }
      done, left := done + [name.val], left - 1;
    }
    ReadsEnd(goal, done, n, left, 0, read, f.rest);
    r := Ok(table, f.rest);
  }

  method GetName(f: Input) returns (r: Parse<(string, int)>)
    modifies f`rest
    ensures r == ReadName(old(f.rest)) && (r.Ok? ==> f.rest == r.rest)
  {
    var key := f.GetStr();
    if key.Fail? { return Fail; }
    var id := f.GetRoomId();
    if id.Fail? { return Fail; }
    r := Ok((key.val, id.val), f.rest);
  }

  /** What world_save wrote is loaded if and only if it has as many rooms as the world module and the
      module's name, and is declined otherwise. */
  lemma LoadedWhen<U(!new), R(!new)>(m: Module<U, R>, size: int, name: string, w: World<U, R>, junk: string)
    requires Faithful(m) && GoodWorld(m, w)
    ensures var r := Load(m, size, name, WriteWorld(m, Recorded(w)) + junk);
            if size == |w.rooms| && name == w.name then r.Loaded? && SameWorld(w, r.world) else r == Incompatible
  {
    if size == |w.rooms| && name == w.name {
      Reload(m, w, junk);
    } else {
      var rest := WriteVerbs(w.verbs) + (WriteRooms(m, Recorded(w).rooms) + (WriteEnd(w.counter, w.names) + junk));
      WorldSplit(m, Recorded(w), junk);
      OtherWorld(m, size, name, |w.rooms|, w.name, rest);
      OtherWorld(m, size, name, |w.rooms|, w.name, Str(w.name) + rest);
    }
  }

  /** world_load, for every file: one without the magic number is not read, one of a world of another
      size or another name is declined, and one that world_save wrote for this world is loaded.  When
      it succeeds the id counter is the saved one, whatever reading did to it. */
  method LoadWorld<U(!new), R(!new)>(f: Input, m: Module<U, R>, size: nat, name: string) returns (r: Outcome<LoadedWorld<U, R>>)
    modifies f
    ensures r == Load(m, size, name, old(f.rest))
    ensures r.Loaded? ==> f.counter == r.world.counter
    ensures |old(f.rest)| < 4 ==> r == Corrupt
    ensures var s := old(f.rest);
            |s| >= 4 && s[0] as int + 0x100 * s[1] as int + 0x1_0000 * s[2] as int + 0x100_0000 * s[3] as int != 0x3141_5926 ==> r == Corrupt
    ensures forall n, s: string :: 0 <= n < SIZE_LIMIT && old(f.rest) == Uint32(WORLD_MAGIC) + (SizeT(n) + s) && n != size ==> r == Incompatible
    ensures forall saved, s: string :: size < SIZE_LIMIT && Text(saved) && old(f.rest) == Uint32(WORLD_MAGIC) + (SizeT(size) + (Str(saved) + s)) && saved != name ==>
              r == Incompatible
    ensures forall w: World<U, R>, junk: string :: Faithful(m) && GoodWorld(m, w) && old(f.rest) == WriteWorld(m, Recorded(w)) + junk ==>
              if size == |w.rooms| && name == w.name then r.Loaded? && SameWorld(w, r.world) else r == Incompatible
  {
    LoadCases(m, size, name, f.rest);
    var magic := f.GetUint32();
    if magic.Fail? || magic.val != WORLD_MAGIC { return Corrupt; }
    var n := f.GetSize();
    if n.Fail? { return Corrupt; }
    if n.val != size { return Incompatible; }
    var saved := f.GetStr();
    if saved.Fail? { return Corrupt; }
    if saved.val != name { return Incompatible; }
    r := LoadBody(f, m, size, name);
  }

  lemma LoadCases<U(!new), R(!new)>(m: Module<U, R>, size: nat, name: string, s: string)
    ensures var r := Load(m, size, name, s);
            && (|s| < 4 ==> r == Corrupt)
            && (|s| >= 4 && s[0] as int + 0x100 * s[1] as int + 0x1_0000 * s[2] as int + 0x100_0000 * s[3] as int != 0x3141_5926 ==> r == Corrupt)
            && (forall n, t: string :: 0 <= n < SIZE_LIMIT && s == Uint32(WORLD_MAGIC) + (SizeT(n) + t) && n != size ==> r == Incompatible)
            && (forall saved, t: string :: size < SIZE_LIMIT && Text(saved) && s == Uint32(WORLD_MAGIC) + (SizeT(size) + (Str(saved) + t)) && saved != name ==>
                  r == Incompatible)
            && (forall w: World<U, R>, junk: string :: Faithful(m) && GoodWorld(m, w) && s == WriteWorld(m, Recorded(w)) + junk ==>
                  if size == |w.rooms| && name == w.name then r.Loaded? && SameWorld(w, r.world) else r == Incompatible)
  {
    var r := Load(m, size, name, s);
    if |s| < 4 || s[0] as int + 0x100 * s[1] as int + 0x1_0000 * s[2] as int + 0x100_0000 * s[3] as int != 0x3141_5926 {
      NoWorld(m, size, name, s);
    }
    forall n, t: string | 0 <= n < SIZE_LIMIT && s == Uint32(WORLD_MAGIC) + (SizeT(n) + t) && n != size ensures r == Incompatible {
      OtherWorld(m, size, name, n, "", t);
    }
    forall saved, t: string | size < SIZE_LIMIT && Text(saved) && s == Uint32(WORLD_MAGIC) + (SizeT(size) + (Str(saved) + t)) && saved != name
      ensures r == Incompatible
    {
      OtherWorld(m, size, name, size, saved, t);
    }
    forall w: World<U, R>, junk: string | Faithful(m) && GoodWorld(m, w) && s == WriteWorld(m, Recorded(w)) + junk
      ensures if size == |w.rooms| && name == w.name then r.Loaded? && SameWorld(w, r.world) else r == Incompatible
    {
      LoadedWhen(m, size, name, w, junk);
    }
  }

  method LoadBody<U, R>(f: Input, m: Module<U, R>, size: nat, name: string) returns (r: Outcome<LoadedWorld<U, R>>)
    modifies f
    ensures match ReadBody(m, name, size, old(f.rest))
            case Loaded(w) => r == Loaded(Build(w)) && f.counter == w.counter
            case _ => r == Corrupt
  {
    f.counter := 1;
    var verbs := LoadVerbs(f, m.verbClasses);
    if verbs.Fail? { return Corrupt; }
    ghost var rooms' := ReadRooms(m, size, f.rest);
    ReadsStart(size, 0, RoomReader(m), f.rest);
    var rooms := LoadRooms(f, m, size, RoomReader(m), rooms');
    if rooms.Fail? { return Corrupt; }
    var counter := f.GetSize();
    if counter.Fail? { return Corrupt; }
    f.counter := counter.val;
    ReadsStart(size, 0, NameReader(), f.rest);
    var names := LoadNames(f, size, NameReader(), ReadMany(0, size, 0, NameReader(), f.rest));
    if names.Fail? { return Corrupt; }
    r := Loaded(LoadedWorld(name, verbs.val, rooms.val, counter.val, names.val));
  }

  // the round trip

  ghost predicate GoodWorld<U, R>(m: Module<U, R>, w: World<U, R>) {
    GoodRecord(m, Recorded(w)) && forall i :: 0 <= i < |w.rooms| ==> ClosedBins(w.rooms[i].bins)
  }

  /** The loaded room is the saved one, with each list of objects in some order. */
  ghost predicate SameRoom<U, R>(r: Room<U, R>, l: LoadedRoom<U, R>) {
    && l.id == r.id && l.name == r.name && l.desc == r.desc && l.adjacent == r.adjacent && l.data == r.data
    && l.verbs == VerbTable(r.verbs)
    && SameStock(r.bins, l.objects)
  }

  /** The rebuilt container, in which each object has the references its keys need. */
  ghost predicate SameStock<U>(bins: seq<Bin<U>>, l: Stock<U>) {
    SameContents(bins, l.shelf) && l == StockOf(Primaries(bins))
  }

  ghost predicate SameWorld<U, R>(w: World<U, R>, l: LoadedWorld<U, R>) {
    && l.name == w.name && l.counter == w.counter && l.verbs == VerbTable(w.verbs)
    && (forall i :: 0 <= i < |w.names| ==> w.names[i].0 in l.names && l.names[w.names[i].0] == w.names[i].1)
    && (forall k :: k in l.names ==> exists i :: 0 <= i < |w.names| && w.names[i].0 == k)
    && |l.rooms| == |w.rooms| && forall i :: 0 <= i < |w.rooms| ==> SameRoom(w.rooms[i], l.rooms[i])
  }

  lemma {:induction false} NameTableHolds(names: seq<(string, int)>)
    requires forall i, j :: 0 <= i < j < |names| ==> names[i].0 != names[j].0
    ensures forall i :: 0 <= i < |names| ==> names[i].0 in NameTable(names) && NameTable(names)[names[i].0] == names[i].1
    ensures forall k :: k in NameTable(names) ==> exists i :: 0 <= i < |names| && names[i].0 == k
  {
    if names != [] {
      var front, last := names[..|names| - 1], names[|names| - 1];
      NameTableHolds(front);
      forall k | k in NameTable(front) ensures exists i :: 0 <= i < |names| && names[i].0 == k {
        var i :| 0 <= i < |front| && front[i].0 == k;
        assert names[i].0 == k;
      }
    }
  }

  /** Loading what world_save wrote over any old file rebuilds the world. */
  lemma Reload<U(!new), R(!new)>(m: Module<U, R>, w: World<U, R>, junk: string)
    requires Faithful(m) && GoodWorld(m, w)
    ensures var r := Load(m, |w.rooms|, w.name, WriteWorld(m, Recorded(w)) + junk);
            r.Loaded? && SameWorld(w, r.world)
  {
    var rec := Recorded(w);
    WorldBack(m, rec, junk);
    NameTableHolds(w.names);
    forall i | 0 <= i < |w.rooms| ensures SameRoom(w.rooms[i], Build(rec).rooms[i]) {
      Rebuilt(w.rooms[i].bins);
    }
  }
}
