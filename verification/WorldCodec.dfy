/** The world file of src/world.c: what world_save writes and what world_load makes of it. */
module WorldCodec {
  import opened Bytes
  import opened Records
  import opened Containers
  import opened Guard

  const WORLD_MAGIC: int := 0x31415926
  const NUM_DIRECTIONS: nat := 12

  /** A room as world_save finds it: its tables in iteration order, and what its hook saves. */
  datatype Room<U, R> = Room(id: int, name: string, desc: string, adjacent: seq<int>, bins: seq<Bin<U>>, verbs: seq<Verb>, data: R)

  datatype World<U, R> =
    World(name: string, verbs: seq<Verb>, rooms: seq<Room<U, R>>, counter: int, names: seq<(string, int)>)

  /** A room as its record in the file describes it. */
  datatype RoomRecord<U, R> =
    RoomRecord(id: int, name: string, desc: string, adjacent: seq<int>, things: seq<Thing<U>>, verbs: seq<Verb>, data: R)

  /** The world module: the classes it defines and its hooks. */
  datatype Module<!U, !R> =
    Module(objClasses: set<string>, verbClasses: set<string>, objHooks: Hooks<string, U>, roomHooks: Hooks<int, R>)

  ghost predicate Faithful<U(!new), R(!new)>(m: Module<U, R>) {
    Inverse(m.objHooks) && Inverse(m.roomHooks)
  }

  function RecordOf<U, R>(r: Room<U, R>): RoomRecord<U, R> {
    RoomRecord(r.id, r.name, r.desc, r.adjacent, Primaries(r.bins), r.verbs, r.data)
  }

  // writing

  function ExitWriter(): (int, int) -> string { (_, id) => RoomId(id) }

  function Exits(adjacent: seq<int>): string {
    WriteMany(0, adjacent, ExitWriter())
  }

  function ThingWriter<U>(h: Hooks<string, U>): (int, Thing<U>) -> string {
    (_, o) => WriteObj(h, o)
  }

  function WriteThings<U>(h: Hooks<string, U>, os: seq<Thing<U>>): string {
    SizeT(|os|) + WriteMany(0, os, ThingWriter(h))
  }

  function VerbWriter(): (int, Verb) -> string { (_, v) => WriteVerb(v) }

  function WriteVerbs(vs: seq<Verb>): string {
    SizeT(|vs|) + WriteMany(0, vs, VerbWriter())
  }

  function WriteHeader<U, R>(r: RoomRecord<U, R>): string {
    RoomId(r.id) + (Str(r.name) + (Str(r.desc) + Exits(r.adjacent)))
  }

  function WriteRoom<U, R>(m: Module<U, R>, i: int, r: RoomRecord<U, R>): string {
    WriteHeader(r) + (WriteThings(m.objHooks, r.things) + (WriteVerbs(r.verbs) + m.roomHooks.write(i, r.data)))
  }

  function RoomWriter<U, R>(m: Module<U, R>): (int, RoomRecord<U, R>) -> string {
    (i, r) => WriteRoom(m, i, r)
  }

  function WriteRooms<U, R>(m: Module<U, R>, rs: seq<RoomRecord<U, R>>): string {
    WriteMany(0, rs, RoomWriter(m))
  }

  function WriteName(n: (string, int)): string {
    Str(n.0) + RoomId(n.1)
  }

  function NameWriter(): (int, (string, int)) -> string { (_, n) => WriteName(n) }

  // reading

  function ExitReader(): (int, string) -> Parse<int> { (_, s) => ReadRoomId(s) }

  function ReadExits(n: nat, s: string): Parse<seq<int>> {
    ReadMany(0, n, 0, ExitReader(), s)
  }

  function ThingReader<U>(h: Hooks<string, U>, classes: set<string>): (int, string) -> Parse<Thing<U>> {
    (_, s) => ReadObj(h, classes, s)
  }

  function ReadThings<U>(h: Hooks<string, U>, classes: set<string>, s: string): Parse<seq<Thing<U>>> {
    match ReadSize(s)
    case Fail => Fail
    case Ok(n, s1) => ReadMany(0, n, 0, ThingReader(h, classes), s1)
  }

  /** A table refuses a second verb of the same name, which aborts the load. */
  predicate NamesApart(vs: seq<Verb>) {
    forall i, j :: 0 <= i < j < |vs| ==> vs[i].name != vs[j].name
  }

  function VerbReader(classes: set<string>): (int, string) -> Parse<Verb> {
    (_, s) => ReadVerb(classes, s)
  }

  function ReadVerbs(classes: set<string>, s: string): Parse<seq<Verb>> {
    match ReadSize(s)
    case Fail => Fail
    case Ok(n, s1) =>
      match ReadMany(0, n, 0, VerbReader(classes), s1)
      case Fail => Fail
      case Ok(vs, s2) => if NamesApart(vs) then Ok(vs, s2) else Fail
  }

  datatype Header = Header(id: int, name: string, desc: string, adjacent: seq<int>)

  function ReadHeader(s: string): Parse<Header> {
    match ReadRoomId(s)
    case Fail => Fail
    case Ok(id, s1) =>
      match ReadStr(s1)
      case Fail => Fail
      case Ok(name, s2) =>
        match ReadStr(s2)
        case Fail => Fail
        case Ok(desc, s3) =>
          match ReadExits(NUM_DIRECTIONS, s3)
          case Fail => Fail
          case Ok(adjacent, s4) => Ok(Header(id, name, desc, adjacent), s4)
  }

  function ReadRoom<U, R>(m: Module<U, R>, i: int, s: string): Parse<RoomRecord<U, R>> {
    match ReadHeader(s)
    case Fail => Fail
    case Ok(h, s1) =>
      match ReadThings(m.objHooks, m.objClasses, s1)
      case Fail => Fail
      case Ok(things, s2) =>
        match ReadVerbs(m.verbClasses, s2)
        case Fail => Fail
        case Ok(verbs, s3) =>
          match m.roomHooks.read(i, s3)
          case Fail => Fail
          case Ok(data, s4) => Ok(RoomRecord(h.id, h.name, h.desc, h.adjacent, things, verbs, data), s4)
  }

  function RoomReader<U, R>(m: Module<U, R>): (int, string) -> Parse<RoomRecord<U, R>> {
    (i, s) => ReadRoom(m, i, s)
  }

  function ReadRooms<U, R>(m: Module<U, R>, n: nat, s: string): Parse<seq<RoomRecord<U, R>>> {
    ReadMany(0, n, 0, RoomReader(m), s)
  }

  function ReadName(s: string): Parse<(string, int)> {
    match ReadStr(s)
    case Fail => Fail
    case Ok(key, s1) =>
      match ReadRoomId(s1)
      case Fail => Fail
      case Ok(id, s2) => Ok((key, id), s2)
  }

  function NameReader(): (int, string) -> Parse<(string, int)> { (_, s) => ReadName(s) }

  // one record

  ghost predicate GoodVerbs(classes: set<string>, vs: seq<Verb>) {
    Writable(classes, vs) && NamesApart(vs)
  }

  ghost predicate Writable(classes: set<string>, vs: seq<Verb>) {
    |vs| < UINT32_LIMIT && forall i :: 0 <= i < |vs| ==> Text(vs[i].cls) && Text(vs[i].name) && vs[i].cls in classes
  }

  ghost predicate GoodThing<U>(classes: set<string>, o: Thing<U>) {
    Storable(classes, o) && "" !in o.aliases
  }

  ghost predicate GoodThings<U>(classes: set<string>, os: seq<Thing<U>>) {
    |os| < UINT32_LIMIT && forall i :: 0 <= i < |os| ==> GoodThing(classes, os[i])
  }

  ghost predicate GoodHeader<U, R>(r: RoomRecord<U, R>) {
    && IsInt32(r.id) && Text(r.name) && Text(r.desc)
    && |r.adjacent| == NUM_DIRECTIONS && forall d :: 0 <= d < NUM_DIRECTIONS ==> IsInt32(r.adjacent[d])
  }

  ghost predicate GoodRoom<U, R>(m: Module<U, R>, r: RoomRecord<U, R>) {
    GoodHeader(r) && GoodThings(m.objClasses, r.things) && GoodVerbs(m.verbClasses, r.verbs)
  }

  lemma ExitsBack(adjacent: seq<int>, rest: string)
    requires forall d :: 0 <= d < |adjacent| ==> IsInt32(adjacent[d])
    ensures ReadExits(|adjacent|, Exits(adjacent) + rest) == Ok(adjacent, rest)
  {
    forall d | 0 <= d < |adjacent| ensures Undoes(ExitWriter(), ExitReader(), 0, 0 + d, adjacent[d], adjacent[d]) {
      forall r ensures ReadRoomId(RoomId(adjacent[d]) + r) == Ok(adjacent[d], r) {
        RoomIdBack(adjacent[d], r);
      }
    }
    ManyBack(0, adjacent, adjacent, ExitWriter(), ExitReader(), 0, rest);
  }

  lemma HeaderBack<U, R>(r: RoomRecord<U, R>, rest: string)
    requires GoodHeader(r)
    ensures ReadHeader(WriteHeader(r) + rest) == Ok(Header(r.id, r.name, r.desc, r.adjacent), rest)
  {
    var s3 := Exits(r.adjacent) + rest;
    var s2 := Str(r.desc) + s3;
    var s1 := Str(r.name) + s2;
    RegroupFour(RoomId(r.id), Str(r.name), Str(r.desc), Exits(r.adjacent), rest);
    RoomIdBack(r.id, s1);
    StrBack(r.name, s2);
    StrBack(r.desc, s3);
    ExitsBack(r.adjacent, rest);
  }

  lemma ThingsBack<U(!new)>(h: Hooks<string, U>, classes: set<string>, os: seq<Thing<U>>, rest: string)
    requires Inverse(h) && GoodThings(classes, os)
    ensures ReadThings(h, classes, WriteThings(h, os) + rest) == Ok(os, rest)
  {
    var body := WriteMany(0, os, ThingWriter(h));
    Assoc(SizeT(|os|), body, rest);
    SizeBack(|os|, body + rest);
    forall i | 0 <= i < |os| ensures Undoes(ThingWriter(h), ThingReader(h, classes), 0, 0 + i, os[i], os[i]) {
      assert GoodThing(classes, os[i]);
      forall r ensures ReadObj(h, classes, WriteObj(h, os[i]) + r) == Ok(os[i], r) {
        ObjBack(h, classes, os[i], r);
      }
    }
    ManyBack(0, os, os, ThingWriter(h), ThingReader(h, classes), 0, rest);
  }

  lemma VerbsBack(classes: set<string>, vs: seq<Verb>, rest: string)
    requires GoodVerbs(classes, vs)
    ensures ReadVerbs(classes, WriteVerbs(vs) + rest) == Ok(vs, rest)
  {
    VerbsListed(classes, vs, rest);
  }

  lemma VerbsListed(classes: set<string>, vs: seq<Verb>, rest: string)
    requires Writable(classes, vs)
    ensures ReadVerbs(classes, WriteVerbs(vs) + rest) == if NamesApart(vs) then Ok(vs, rest) else Fail
  {
    var body := WriteMany(0, vs, VerbWriter());
    Assoc(SizeT(|vs|), body, rest);
    SizeBack(|vs|, body + rest);
    forall i | 0 <= i < |vs| ensures Undoes(VerbWriter(), VerbReader(classes), 0, 0 + i, vs[i], vs[i]) {
      forall r ensures ReadVerb(classes, WriteVerb(vs[i]) + r) == Ok(vs[i], r) {
        VerbBack(classes, vs[i], r);
      }
    }
    ManyBack(0, vs, vs, VerbWriter(), VerbReader(classes), 0, rest);
  }

  lemma RoomBack<U(!new), R(!new)>(m: Module<U, R>, i: int, r: RoomRecord<U, R>, rest: string)
    requires Faithful(m) && GoodRoom(m, r)
    ensures ReadRoom(m, i, WriteRoom(m, i, r) + rest) == Ok(r, rest)
  {
    var s3 := m.roomHooks.write(i, r.data) + rest;
    var s2 := WriteVerbs(r.verbs) + s3;
    var s1 := WriteThings(m.objHooks, r.things) + s2;
    RegroupFour(WriteHeader(r), WriteThings(m.objHooks, r.things), WriteVerbs(r.verbs), m.roomHooks.write(i, r.data), rest);
    HeaderBack(r, s1);
    ThingsBack(m.objHooks, m.objClasses, r.things, s2);
    VerbsBack(m.verbClasses, r.verbs, s3);
  }

  lemma RoomUndone<U(!new), R(!new)>(m: Module<U, R>, i: int, r: RoomRecord<U, R>)
    requires Faithful(m) && GoodRoom(m, r)
    ensures Undoes(RoomWriter(m), RoomReader(m), 0, i, r, r)
  {
    forall rest ensures ReadRoom(m, i, WriteRoom(m, i, r) + rest) == Ok(r, rest) {
      RoomBack(m, i, r, rest);
    }
  }

  ghost predicate GoodRooms<U, R>(m: Module<U, R>, rs: seq<RoomRecord<U, R>>) {
    forall k: nat {:trigger Opened(k)} :: Opened(k) ==> forall i :: 0 <= i < |rs| ==> GoodRoom(m, rs[i])
  }

  lemma GoodRoomAt<U, R>(m: Module<U, R>, rs: seq<RoomRecord<U, R>>, i: nat)
    requires GoodRooms(m, rs) && i < |rs|
    ensures GoodRoom(m, rs[i])
  {
    assert Opened(0);
  }

  lemma RoomsUndone<U(!new), R(!new)>(m: Module<U, R>, rs: seq<RoomRecord<U, R>>)
    requires Faithful(m) && GoodRooms(m, rs)
    ensures UndoesAll(RoomWriter(m), RoomReader(m), 0, 0, rs, rs)
  {
    forall i | 0 <= i < |rs| ensures Undoes(RoomWriter(m), RoomReader(m), 0, 0 + i, rs[i], rs[i]) {
      GoodRoomAt(m, rs, i);
      RoomUndone(m, i, rs[i]);
    }
  }

  lemma RoomsBack<U(!new), R(!new)>(m: Module<U, R>, rs: seq<RoomRecord<U, R>>, rest: string)
    requires Faithful(m) && GoodRooms(m, rs)
    ensures ReadRooms(m, |rs|, WriteRooms(m, rs) + rest) == Ok(rs, rest)
  {
    RoomsUndone(m, rs);
    ManyBack(0, rs, rs, RoomWriter(m), RoomReader(m), 0, rest);
  }

  lemma NameBack(n: (string, int), rest: string)
    requires Text(n.0) && IsInt32(n.1)
    ensures ReadName(WriteName(n) + rest) == Ok(n, rest)
  {
    Assoc(Str(n.0), RoomId(n.1), rest);
    StrBack(n.0, RoomId(n.1) + rest);
    RoomIdBack(n.1, rest);
  }

  lemma NamesBack(names: seq<(string, int)>, rest: string)
    requires forall i :: 0 <= i < |names| ==> Text(names[i].0) && IsInt32(names[i].1)
    ensures ReadMany(0, |names|, 0, NameReader(), WriteMany(0, names, NameWriter()) + rest) == Ok(names, rest)
  {
    forall i | 0 <= i < |names| ensures Undoes(NameWriter(), NameReader(), 0, 0 + i, names[i], names[i]) {
      forall r ensures ReadName(WriteName(names[i]) + r) == Ok(names[i], r) {
        NameBack(names[i], r);
      }
    }
    ManyBack(0, names, names, NameWriter(), NameReader(), 0, rest);
  }

  // the whole file

  /** The world as its file describes it. */
  datatype WorldRecord<U, R> =
    WorldRecord(name: string, verbs: seq<Verb>, rooms: seq<RoomRecord<U, R>>, counter: int, names: seq<(string, int)>)

  function RoomRecords<U, R>(rooms: seq<Room<U, R>>): (rs: seq<RoomRecord<U, R>>)
    ensures |rs| == |rooms| && forall i :: 0 <= i < |rs| ==> rs[i] == RecordOf(rooms[i])
  {
    seq(|rooms|, i requires 0 <= i < |rooms| => RecordOf(rooms[i]))
  }

  function Recorded<U, R>(w: World<U, R>): WorldRecord<U, R> {
    WorldRecord(w.name, w.verbs, RoomRecords(w.rooms), w.counter, w.names)
  }

  function WriteEnd(counter: int, names: seq<(string, int)>): string {
    SizeT(counter) + WriteMany(0, names, NameWriter())
  }

  function WriteWorld<U, R>(m: Module<U, R>, w: WorldRecord<U, R>): string {
    Uint32(WORLD_MAGIC) + (SizeT(|w.rooms|) + (Str(w.name) + (WriteVerbs(w.verbs) + (WriteRooms(m, w.rooms)
      + WriteEnd(w.counter, w.names)))))
  }

  /** world_load aborts on a file it cannot read and declines a file of another world. */
  datatype Outcome<+T> = Corrupt | Incompatible | Loaded(world: T)

  function ReadEnd(n: nat, s: string): Parse<(int, seq<(string, int)>)> {
    match ReadSize(s)
    case Fail => Fail
    case Ok(counter, s1) =>
      match ReadMany(0, n, 0, NameReader(), s1)
      case Fail => Fail
      case Ok(names, s2) => Ok((counter, names), s2)
  }

  function ReadBody<U, R>(m: Module<U, R>, name: string, n: nat, s: string): Outcome<WorldRecord<U, R>> {
    match ReadVerbs(m.verbClasses, s)
    case Fail => Corrupt
    case Ok(verbs, s1) =>
      match ReadRooms(m, n, s1)
      case Fail => Corrupt
      case Ok(rooms, s2) =>
        match ReadEnd(n, s2)
        case Fail => Corrupt
        case Ok(end, _) => Loaded(WorldRecord(name, verbs, rooms, end.0, end.1))
  }

  function ReadWorld<U, R>(m: Module<U, R>, size: int, name: string, s: string): Outcome<WorldRecord<U, R>> {
    match ReadUint32(s)
    case Fail => Corrupt
    case Ok(magic, s1) =>
      if magic != WORLD_MAGIC then Corrupt
      else match ReadSize(s1)
        case Fail => Corrupt
        case Ok(n, s2) =>
          if n != size then Incompatible
          else match ReadStr(s2)
            case Fail => Corrupt
            case Ok(saved, s3) => if saved != name then Incompatible else ReadBody(m, name, n, s3)
  }

  ghost predicate GoodNames(names: seq<(string, int)>) {
    && (forall i :: 0 <= i < |names| ==> Text(names[i].0) && IsInt32(names[i].1))
    && (forall i, j :: 0 <= i < j < |names| ==> names[i].0 != names[j].0)
  }

  ghost predicate GoodRecord<U, R>(m: Module<U, R>, w: WorldRecord<U, R>) {
    && Text(w.name) && 0 <= w.counter < SIZE_LIMIT && |w.rooms| < UINT32_LIMIT
    && GoodVerbs(m.verbClasses, w.verbs)
    && GoodRooms(m, w.rooms)
    && |w.names| == |w.rooms| && GoodNames(w.names)
  }

  lemma EndBack(counter: int, names: seq<(string, int)>, junk: string)
    requires 0 <= counter < SIZE_LIMIT && GoodNames(names)
    ensures ReadEnd(|names|, WriteEnd(counter, names) + junk) == Ok((counter, names), junk)
  {
    var body := WriteMany(0, names, NameWriter());
    Assoc(SizeT(counter), body, junk);
    SizeBack(counter, body + junk);
    NamesBack(names, junk);
  }

  lemma BodyBack<U(!new), R(!new)>(m: Module<U, R>, w: WorldRecord<U, R>, junk: string)
    requires Faithful(m) && GoodRecord(m, w)
    ensures ReadBody(m, w.name, |w.rooms|, WriteVerbs(w.verbs) + (WriteRooms(m, w.rooms) + (WriteEnd(w.counter, w.names) + junk))) == Loaded(w)
  {
    var s2 := WriteEnd(w.counter, w.names) + junk;
    VerbsBack(m.verbClasses, w.verbs, WriteRooms(m, w.rooms) + s2);
    RoomsBack(m, w.rooms, s2);
    EndBack(w.counter, w.names, junk);
  }

  lemma WorldSplit<U, R>(m: Module<U, R>, w: WorldRecord<U, R>, junk: string)
    ensures WriteWorld(m, w) + junk == Uint32(WORLD_MAGIC) + (SizeT(|w.rooms|) + (Str(w.name)
              + (WriteVerbs(w.verbs) + (WriteRooms(m, w.rooms) + (WriteEnd(w.counter, w.names) + junk)))))
  {
    RegroupSix(Uint32(WORLD_MAGIC), SizeT(|w.rooms|), Str(w.name), WriteVerbs(w.verbs), WriteRooms(m, w.rooms),
               WriteEnd(w.counter, w.names), junk);
  }

  /** What was written is read back, whatever an earlier, longer file has left behind it. */
  lemma WorldBack<U(!new), R(!new)>(m: Module<U, R>, w: WorldRecord<U, R>, junk: string)
    requires Faithful(m) && GoodRecord(m, w)
    ensures ReadWorld(m, |w.rooms|, w.name, WriteWorld(m, w) + junk) == Loaded(w)
  {
    var s4 := WriteEnd(w.counter, w.names) + junk;
    var s3 := WriteVerbs(w.verbs) + (WriteRooms(m, w.rooms) + s4);
    WorldSplit(m, w, junk);
    Uint32Back(WORLD_MAGIC, SizeT(|w.rooms|) + (Str(w.name) + s3));
    SizeBack(|w.rooms|, Str(w.name) + s3);
    StrBack(w.name, s3);
    BodyBack(m, w, junk);
  }
  /** A file of another number of rooms, or of another name, is declined, whatever follows. */
  lemma OtherWorld<U, R>(m: Module<U, R>, size: int, name: string, n: int, saved: string, rest: string)
    requires 0 <= n < SIZE_LIMIT && Text(saved)
    ensures n != size ==> ReadWorld(m, size, name, Uint32(WORLD_MAGIC) + (SizeT(n) + rest)) == Incompatible
    ensures n == size && saved != name ==>
              ReadWorld(m, size, name, Uint32(WORLD_MAGIC) + (SizeT(n) + (Str(saved) + rest))) == Incompatible
  {
    Uint32Back(WORLD_MAGIC, SizeT(n) + rest);
    SizeBack(n, rest);
    Uint32Back(WORLD_MAGIC, SizeT(n) + (Str(saved) + rest));
    SizeBack(n, Str(saved) + rest);
    StrBack(saved, rest);
  }

  /** A file without the magic number is not read. */
  lemma NoWorld<U, R>(m: Module<U, R>, size: int, name: string, s: string)
    requires |s| < 4 || s[0] as int + 0x100 * s[1] as int + 0x1_0000 * s[2] as int + 0x100_0000 * s[3] as int != 0x3141_5926
    ensures ReadWorld(m, size, name, s) == Corrupt
  {
    if |s| >= 4 { FourBytes(s[..4]); }
  }
}
