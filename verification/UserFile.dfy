/** The user file of src/userdb.c: userdb_write and userdb_init. */
module UserFile {
  import opened Bytes
  import opened Records
  import opened Containers
  import opened Files
  import WC = WorldCodec
  import WF = WorldFile

  const USERDB_MAGIC: int := 0x27182818

  /** struct userdata_t: the user name's 33 bytes come first, the two pointers last. */
  const FIELDS: nat := 192
  const ADDRESSES: nat := 16

  /** A user as userdb_write finds it; `addresses` are its two pointers, which mean nothing later. */
  datatype User<U, D> = User(fields: string, addresses: string, bins: seq<Bin<U>>, data: D)

  datatype UserRecord<U, D> = UserRecord(fields: string, things: seq<Thing<U>>, data: D)

  datatype LoadedUser<U, D> = LoadedUser(fields: string, objects: Stock<U>, data: D)

  datatype Module<!U, !D> = Module(classes: set<string>, objHooks: Hooks<string, U>, userHooks: Hooks<(), D>)

  function UserName(fields: string): (r: string)
    ensures r <= fields && |r| <= 33 && NUL !in r && (|r| == 33 || |r| == |fields| || fields[|r|] == NUL)
  {
    CStringIs(if |fields| < 33 then fields else fields[..33]);
    CString(if |fields| < 33 then fields else fields[..33])
  }

  function WriteUser<U, D>(m: Module<U, D>, u: User<U, D>): string {
    u.fields + (u.addresses + (WC.WriteThings(m.objHooks, Primaries(u.bins)) + m.userHooks.write((), u.data)))
  }

  function UserWriter<U, D>(m: Module<U, D>): (int, User<U, D>) -> string {
    (_, u) => WriteUser(m, u)
  }

  function WriteUsers<U, D>(m: Module<U, D>, us: seq<User<U, D>>): string {
    Uint32(USERDB_MAGIC) + (SizeT(|us|) + WriteMany(0, us, UserWriter(m)))
  }

  function ReadUser<U, D>(m: Module<U, D>, s: string): Parse<UserRecord<U, D>> {
    if |s| < FIELDS + ADDRESSES then Fail
    else match WC.ReadThings(m.objHooks, m.classes, s[FIELDS + ADDRESSES..])
      case Fail => Fail
      case Ok(things, s1) =>
        match m.userHooks.read((), s1)
        case Fail => Fail
        case Ok(data, s2) => Ok(UserRecord(s[..FIELDS], things, data), s2)
  }

  function UserReader<U, D>(m: Module<U, D>): (int, string) -> Parse<UserRecord<U, D>> {
    (_, s) => ReadUser(m, s)
  }

  /** A file that ends inside a user's fixed part just ends the loop. */
  function ReadUsers<U, D>(m: Module<U, D>, n: nat, s: string): Parse<seq<UserRecord<U, D>>> {
    ReadMany(0, n, FIELDS + ADDRESSES, UserReader(m), s)
  }

  function ReadFile<U, D>(m: Module<U, D>, s: string): Parse<seq<UserRecord<U, D>>> {
    match ReadUint32(s)
    case Fail => Fail
    case Ok(magic, s1) =>
      if magic != USERDB_MAGIC then Fail
      else match ReadSize(s1)
        case Fail => Fail
        case Ok(n, s2) => ReadUsers(m, n, s2)
  }

  function Loaded<U, D>(u: UserRecord<U, D>): LoadedUser<U, D> {
    LoadedUser(u.fields, StockOf(u.things), u.data)
  }

  function Enter<U, D>(t: map<string, LoadedUser<U, D>>, u: LoadedUser<U, D>): map<string, LoadedUser<U, D>> {
    if UserName(u.fields) in t then t else t[UserName(u.fields) := u]
  }

  function Table<U, D>(us: seq<UserRecord<U, D>>): map<string, LoadedUser<U, D>> {
    if us == [] then map[] else Enter(Table(us[..|us| - 1]), Loaded(us[|us| - 1]))
  }

  /** How many objects reading the file creates. */
  function Created<U, D>(us: seq<UserRecord<U, D>>): nat {
    if us == [] then 0 else Created(us[..|us| - 1]) + |us[|us| - 1].things|
  }

  // writing

  method SaveUser<U, D>(f: Output, m: Module<U, D>, u: User<U, D>, ghost done: string)
    requires f.Holds(done)
    modifies f
    ensures f.Holds(done + WriteUser(m, u))
  {
    f.Write(u.fields, done);
    f.Write(u.addresses, done + u.fields);
    WF.SaveThings(f, m.objHooks, u.bins, done + u.fields + u.addresses);
    f.Write(m.userHooks.write((), u.data), done + u.fields + u.addresses + WC.WriteThings(m.objHooks, Primaries(u.bins)));
    WF.RegroupLeft(done, u.fields, u.addresses, WC.WriteThings(m.objHooks, Primaries(u.bins)), m.userHooks.write((), u.data));
  }

  /** userdb_write: this file is truncated when it is opened. */
  method Save<U, D>(f: Output, m: Module<U, D>, us: seq<User<U, D>>)
    requires f.Holds("") && f.was == ""
    modifies f
    ensures f.bytes == WriteUsers(m, us)
  {
    ghost var magic := Uint32(USERDB_MAGIC);
    f.Write(Uint32(USERDB_MAGIC), "");
    f.Write(SizeT(|us|), "" + magic);
    ghost var so, i := "" + magic + SizeT(|us|), 0;
    var iter := us;
    ghost var goal := so + WriteMany(0, us, UserWriter(m));
    while iter != []
      invariant f.Holds(so) && so + WriteMany(i, iter, UserWriter(m)) == goal
    {
      WF.ConcatStep(so, i, iter, UserWriter(m));
      SaveUser(f, m, iter[0], so);
      so, i := so + WriteUser(m, iter[0]), i + 1;
      iter := iter[1..];
    }
    assert so + "" == so;
    assert "" + magic == magic;
    Assoc(magic, SizeT(|us|), WriteMany(0, us, UserWriter(m)));
  }

  // reading

  method LoadUser<U, D>(f: Input, m: Module<U, D>) returns (r: Parse<LoadedUser<U, D>>)
    requires |f.rest| >= FIELDS + ADDRESSES
    modifies f
    ensures match ReadUser(m, old(f.rest))
            case Fail => r == Fail
            case Ok(u, s) => r == Ok(Loaded(u), s) && f.rest == s && Advanced(old(f.counter), |u.things|, f.counter)
  {
    var fields := f.rest[..FIELDS];
    f.rest := f.rest[FIELDS + ADDRESSES..];
    var objects := WF.LoadThings(f, m.objHooks, m.classes);
    if objects.Fail? { return Fail; }
    var data := m.userHooks.read((), f.rest);
    if data.Fail? { return Fail; }
    f.rest := data.rest;
    r := Ok(LoadedUser(fields, objects.val, data.val), f.rest);
  }

  lemma TableNext<U, D>(done: seq<UserRecord<U, D>>, u: UserRecord<U, D>)
    ensures Table(done + [u]) == Enter(Table(done), Loaded(u))
    ensures Created(done + [u]) == Created(done) + |u.things|
  {
    assert (done + [u])[..|done|] == done;
  }

  /** A file that announces `n` users and holds `us`: all of them, or as many as it has in full. */
  ghost predicate CutOff<U, D>(m: Module<U, D>, us: seq<User<U, D>>, n: int, rest: string) {
    && |us| <= n < SIZE_LIMIT && (|us| == n || |rest| < FIELDS + ADDRESSES)
    && forall i :: 0 <= i < |us| ==> GoodUser(m, us[i])
  }

  ghost function UsersBefore<U, D>(m: Module<U, D>, us: seq<User<U, D>>, n: int, rest: string): string {
    Uint32(USERDB_MAGIC) + (SizeT(n) + (WriteMany(0, us, UserWriter(m)) + rest))
  }

  /** Of the records of one name the first is in the table, and nothing else. */
  ghost predicate KeepsFirst<U, D>(us: seq<User<U, D>>, t: map<string, LoadedUser<U, D>>) {
    && (forall i :: 0 <= i < |us| && (forall j :: 0 <= j < i ==> UserName(us[j].fields) != UserName(us[i].fields)) ==>
          UserName(us[i].fields) in t && SameUser(us[i], t[UserName(us[i].fields)]))
    && (forall k :: k in t ==> exists i :: 0 <= i < |us| && UserName(us[i].fields) == k)
  }

  lemma CutOffBack<U(!new), D(!new)>(m: Module<U, D>, us: seq<User<U, D>>, n: int, rest: string)
    requires Faithful(m) && CutOff(m, us, n, rest)
    ensures ReadFile(m, UsersBefore(m, us, n, rest)) == Ok(UserRecords(us), rest)
    ensures KeepsFirst(us, Table(UserRecords(us)))
  {
    var body := WriteMany(0, us, UserWriter(m)) + rest;
    Uint32Back(USERDB_MAGIC, SizeT(n) + body);
    SizeBack(n, body);
    UsersUndone(m, us);
    ManyEnd(0, n, us, UserRecords(us), UserWriter(m), UserReader(m), FIELDS + ADDRESSES, rest);
    forall i | 0 <= i < |us| && (forall j :: 0 <= j < i ==> UserName(us[j].fields) != UserName(us[i].fields))
      ensures var t, k := Table(UserRecords(us)), UserName(us[i].fields); k in t && SameUser(us[i], t[k])
    {
      UserReloaded(m, us, i);
    }
    TableNames(us);
  }

  lemma TableNames<U, D>(us: seq<User<U, D>>)
    ensures forall k :: k in Table(UserRecords(us)) ==> exists i :: 0 <= i < |us| && UserName(us[i].fields) == k
  {
    forall k | k in Table(UserRecords(us)) ensures exists i :: 0 <= i < |us| && UserName(us[i].fields) == k {
      TableOnly(UserRecords(us), k);
      var i :| 0 <= i < |us| && UserName(UserRecords(us)[i].fields) == k;
    }
  }

  lemma UserCases<U(!new), D(!new)>(m: Module<U, D>, s: string)
    ensures |s| < 4 ==> ReadFile(m, s) == Fail
    ensures |s| >= 4 && s[0] as int + 0x100 * s[1] as int + 0x1_0000 * s[2] as int + 0x100_0000 * s[3] as int != 0x2718_2818 ==>
              ReadFile(m, s) == Fail
    ensures forall us: seq<User<U, D>>, n: int, rest: string :: Faithful(m) && CutOff(m, us, n, rest) && s == UsersBefore(m, us, n, rest) ==>
              ReadFile(m, s) == Ok(UserRecords(us), rest) && KeepsFirst(us, Table(UserRecords(us)))
  {
    if |s| >= 4 { FourBytes(s[..4]); }
    forall us: seq<User<U, D>>, n: int, rest: string | Faithful(m) && CutOff(m, us, n, rest) && s == UsersBefore(m, us, n, rest)
      ensures ReadFile(m, s) == Ok(UserRecords(us), rest) && KeepsFirst(us, Table(UserRecords(us)))
    {
      CutOffBack(m, us, n, rest);
    }
  }

  /** userdb_init; every object read takes an id from the counter before it gets its saved one. */
  method Init<U(!new), D(!new)>(f: Input, m: Module<U, D>) returns (r: Parse<map<string, LoadedUser<U, D>>>)
    modifies f
    ensures match ReadFile(m, old(f.rest))
            case Fail => r == Fail
            case Ok(us, s) => r == Ok(Table(us), s) && Advanced(old(f.counter), Created(us), f.counter)
    ensures |old(f.rest)| < 4 ==> r == Fail
    ensures var s := old(f.rest);
            |s| >= 4 && s[0] as int + 0x100 * s[1] as int + 0x1_0000 * s[2] as int + 0x100_0000 * s[3] as int != 0x2718_2818 ==> r == Fail
    ensures forall us: seq<User<U, D>>, n: int, rest: string ::
              Faithful(m) && CutOff(m, us, n, rest) && old(f.rest) == UsersBefore(m, us, n, rest) ==>
                && r.Ok? && r.rest == rest && Advanced(old(f.counter), Created(UserRecords(us)), f.counter)
                && (forall i :: 0 <= i < |us| && (forall j :: 0 <= j < i ==> UserName(us[j].fields) != UserName(us[i].fields)) ==>
                      UserName(us[i].fields) in r.val && SameUser(us[i], r.val[UserName(us[i].fields)]))
                && (forall k :: k in r.val ==> exists i :: 0 <= i < |us| && UserName(us[i].fields) == k)
  {
    UserCases(m, f.rest);
    var magic := f.GetUint32();
    if magic.Fail? || magic.val != USERDB_MAGIC { return Fail; }
    var size := f.GetSize();
    if size.Fail? { return Fail; }
    ReadsStart(size.val, FIELDS + ADDRESSES, UserReader(m), f.rest);
    r := InitUsers(f, m, size.val, UserReader(m), ReadUsers(m, size.val, f.rest));
  }

  method InitUsers<U, D>(f: Input, m: Module<U, D>, n: nat, ghost read: (int, string) -> Parse<UserRecord<U, D>>,
                         ghost goal: Parse<seq<UserRecord<U, D>>>)
    returns (r: Parse<map<string, LoadedUser<U, D>>>)
    requires Reads(goal, [], 0, n, FIELDS + ADDRESSES, read, f.rest) && Same(read, UserReader(m))
    modifies f
    ensures match goal
            case Fail => r == Fail
            case Ok(us, s) => r == Ok(Table(us), s) && Advanced(old(f.counter), Created(us), f.counter)
  {
    var i := 0;
    var table: map<string, LoadedUser<U, D>> := map[];
    ghost var done: seq<UserRecord<U, D>>, left := [], n;
    while i < n && |f.rest| >= FIELDS + ADDRESSES
      invariant 0 <= i <= n && left == n - i && table == Table(done)
      invariant Reads(goal, done, i, left, FIELDS + ADDRESSES, read, f.rest)
      invariant Advanced(old(f.counter), Created(done), f.counter)
      decreases n - i
    {
      ghost var before, counter := Created(done), f.counter;
      var entered;
      entered, done := InitUser(f, m, table, read, goal, done, i, left);
      if entered.Fail? { return Fail; }
      AdvancedThen(old(f.counter), before, counter, Created(done) - before, f.counter);
      table, i, left := entered.val, i + 1, left - 1;
    }
    ReadsEnd(goal, done, i, left, FIELDS + ADDRESSES, read, f.rest);
    r := Ok(table, f.rest);
  }

  /** One round of the loop over the users. */
  method InitUser<U, D>(f: Input, m: Module<U, D>, table: map<string, LoadedUser<U, D>>, ghost read: (int, string) -> Parse<UserRecord<U, D>>,
                        ghost goal: Parse<seq<UserRecord<U, D>>>, ghost done: seq<UserRecord<U, D>>, ghost i: int, ghost left: nat)
    returns (r: Parse<map<string, LoadedUser<U, D>>>, ghost done': seq<UserRecord<U, D>>)
    requires left > 0 && |f.rest| >= FIELDS + ADDRESSES && table == Table(done)
    requires Reads(goal, done, i, left, FIELDS + ADDRESSES, read, f.rest) && Same(read, UserReader(m))
    modifies f
    ensures r.Fail? ==> goal == Fail
    ensures r.Ok? ==> r.val == Table(done') && Created(done') >= Created(done)
    ensures r.Ok? ==> Advanced(old(f.counter), Created(done') - Created(done), f.counter)
    ensures r.Ok? ==> Reads(goal, done', i + 1, left - 1, FIELDS + ADDRESSES, read, f.rest)
  {
    ReadsNext(goal, done, i, left, FIELDS + ADDRESSES, read, f.rest);
    SameReads(read, UserReader(m), i, f.rest);
    ghost var rec := ReadUser(m, f.rest);
    var user := LoadUser(f, m);
    if user.Fail? { return Fail, done; }
    TableNext(done, rec.val);
    r, done' := Ok(Enter(table, user.val), f.rest), done + [rec.val];
  }

  // the round trip

  ghost predicate GoodUser<U, D>(m: Module<U, D>, u: User<U, D>) {
    && |u.fields| == FIELDS && |u.addresses| == ADDRESSES
    && WC.GoodThings(m.classes, Primaries(u.bins)) && ClosedBins(u.bins)
  }

  ghost predicate GoodUsers<U, D>(m: Module<U, D>, us: seq<User<U, D>>) {
    && |us| < SIZE_LIMIT && (forall i :: 0 <= i < |us| ==> GoodUser(m, us[i]))
    && (forall i, j :: 0 <= i < j < |us| ==> UserName(us[i].fields) != UserName(us[j].fields))
  }

  ghost predicate Faithful<U(!new), D(!new)>(m: Module<U, D>) {
    Inverse(m.objHooks) && Inverse(m.userHooks)
  }

  function RecordOf<U, D>(u: User<U, D>): UserRecord<U, D> {
    UserRecord(u.fields, Primaries(u.bins), u.data)
  }

  function UserRecords<U, D>(us: seq<User<U, D>>): (rs: seq<UserRecord<U, D>>)
    ensures |rs| == |us| && forall i :: 0 <= i < |rs| ==> rs[i] == RecordOf(us[i])
  {
    seq(|us|, i requires 0 <= i < |us| => RecordOf(us[i]))
  }

  lemma UserBack<U(!new), D(!new)>(m: Module<U, D>, u: User<U, D>, rest: string)
    requires Faithful(m) && GoodUser(m, u)
    ensures |WriteUser(m, u)| >= FIELDS + ADDRESSES
    ensures ReadUser(m, WriteUser(m, u) + rest) == Ok(RecordOf(u), rest)
  {
    var things, data := WC.WriteThings(m.objHooks, Primaries(u.bins)), m.userHooks.write((), u.data);
    RegroupFour(u.fields, u.addresses, things, data, rest);
    var s, tail := WriteUser(m, u) + rest, things + (data + rest);
    Assoc(u.fields, u.addresses, tail);
    assert s == (u.fields + u.addresses) + tail && s[..FIELDS] == u.fields && s[FIELDS + ADDRESSES..] == tail;
    WC.ThingsBack(m.objHooks, m.classes, Primaries(u.bins), data + rest);
  }

  lemma UserUndone<U(!new), D(!new)>(m: Module<U, D>, i: int, u: User<U, D>)
    requires Faithful(m) && GoodUser(m, u)
    ensures Undoes(UserWriter(m), UserReader(m), FIELDS + ADDRESSES, i, u, RecordOf(u))
  {
    UserBack(m, u, "");
    forall rest ensures ReadUser(m, WriteUser(m, u) + rest) == Ok(RecordOf(u), rest) {
      UserBack(m, u, rest);
    }
  }

  lemma UsersUndone<U(!new), D(!new)>(m: Module<U, D>, us: seq<User<U, D>>)
    requires Faithful(m) && forall i :: 0 <= i < |us| ==> GoodUser(m, us[i])
    ensures UndoesAll(UserWriter(m), UserReader(m), FIELDS + ADDRESSES, 0, us, UserRecords(us))
  {
    forall i | 0 <= i < |us| ensures Undoes(UserWriter(m), UserReader(m), FIELDS + ADDRESSES, 0 + i, us[i], UserRecords(us)[i]) {
      UserUndone(m, i, us[i]);
    }
  }

  lemma UsersBack<U(!new), D(!new)>(m: Module<U, D>, us: seq<User<U, D>>, rest: string)
    requires Faithful(m) && GoodUsers(m, us)
    ensures ReadUsers(m, |us|, WriteMany(0, us, UserWriter(m)) + rest) == Ok(UserRecords(us), rest)
  {
    UsersUndone(m, us);
    ManyBack(0, us, UserRecords(us), UserWriter(m), UserReader(m), FIELDS + ADDRESSES, rest);
  }

  lemma FileBack<U(!new), D(!new)>(m: Module<U, D>, us: seq<User<U, D>>)
    requires Faithful(m) && GoodUsers(m, us)
    ensures ReadFile(m, WriteUsers(m, us)) == Ok(UserRecords(us), "")
  {
    var body := WriteMany(0, us, UserWriter(m));
    Uint32Back(USERDB_MAGIC, SizeT(|us|) + body);
    SizeBack(|us|, body);
    UsersBack(m, us, "");
    assert body + "" == body;
  }

  ghost predicate SameUser<U, D>(u: User<U, D>, l: LoadedUser<U, D>) {
    l.fields == u.fields && l.data == u.data && WF.SameStock(u.bins, l.objects)
  }

  ghost predicate SameUsers<U, D>(us: seq<User<U, D>>, t: map<string, LoadedUser<U, D>>) {
    && (forall i :: 0 <= i < |us| ==> UserName(us[i].fields) in t && SameUser(us[i], t[UserName(us[i].fields)]))
    && (forall n :: n in t ==> exists i :: 0 <= i < |us| && UserName(us[i].fields) == n)
  }

  ghost predicate NamesApart<U, D>(us: seq<UserRecord<U, D>>) {
    forall i, j :: 0 <= i < j < |us| ==> UserName(us[i].fields) != UserName(us[j].fields)
  }

  ghost predicate Names<U, D>(us: seq<UserRecord<U, D>>, n: string) {
    exists i :: 0 <= i < |us| && UserName(us[i].fields) == n
  }

  lemma {:induction false} TableOnly<U, D>(us: seq<UserRecord<U, D>>, n: string)
    ensures n in Table(us) <==> Names(us, n)
  {
    if us != [] {
      var front, last := us[..|us| - 1], us[|us| - 1];
      TableOnly(front, n);
      if Names(front, n) {
        var i :| 0 <= i < |front| && UserName(front[i].fields) == n;
        assert us[i] == front[i];
      }
      if i :| 0 <= i < |us| && UserName(us[i].fields) == n {
        assert i < |front| ==> front[i] == us[i];
      }
    }
  }

  /** Of two records of one name the first is kept. */
  lemma {:induction false} TableHas<U, D>(us: seq<UserRecord<U, D>>, i: nat)
    requires i < |us| && forall j :: 0 <= j < i ==> UserName(us[j].fields) != UserName(us[i].fields)
    ensures UserName(us[i].fields) in Table(us) && Table(us)[UserName(us[i].fields)] == Loaded(us[i])
  {
    var front, last := us[..|us| - 1], us[|us| - 1];
    if i < |front| {
      TableHas(front, i);
    } else {
      TableOnly(front, UserName(last.fields));
    }
  }

  lemma UserReloaded<U(!new), D(!new)>(m: Module<U, D>, us: seq<User<U, D>>, i: nat)
    requires i < |us| && GoodUser(m, us[i]) && forall j :: 0 <= j < i ==> UserName(us[j].fields) != UserName(us[i].fields)
    ensures var t, n := Table(UserRecords(us)), UserName(us[i].fields); n in t && SameUser(us[i], t[n])
  {
    assert UserRecords(us)[i] == RecordOf(us[i]);
    TableHas(UserRecords(us), i);
    Rebuilt(us[i].bins);
  }

  /** Every user comes back with all but the pointers, and with the same inventory up to the order
      of its lists. */
  lemma Reload<U(!new), D(!new)>(m: Module<U, D>, us: seq<User<U, D>>)
    requires Faithful(m) && GoodUsers(m, us)
    ensures ReadFile(m, WriteUsers(m, us)) == Ok(UserRecords(us), "") && SameUsers(us, Table(UserRecords(us)))
  {
    FileBack(m, us);
    forall i | 0 <= i < |us|
      ensures var t, n := Table(UserRecords(us)), UserName(us[i].fields); n in t && SameUser(us[i], t[n])
    {
      UserReloaded(m, us, i);
    }
    TableNames(us);
  }
}
