/** A server restart: the world and the users are saved together (server_save_state in
    src/server.c) and loaded one after the other, the world first. */
module Restart {
  import opened Bytes
  import opened Records
  import opened Containers
  import opened Files
  import WC = WorldCodec
  import WF = WorldFile
  import UF = UserFile

  datatype Where = InRoom(i: int) | WithUser(name: string)

  ghost predicate Saved<U(!new), R, D>(w: WC.World<U, R>, us: seq<UF.User<U, D>>, at: Where, o: Thing<U>) {
    match at
    case InRoom(i) => 0 <= i < |w.rooms| && o in Objects(w.rooms[i].bins)
    case WithUser(n) => exists j :: 0 <= j < |us| && UF.UserName(us[j].fields) == n && o in Objects(us[j].bins)
  }

  ghost predicate OnShelf<U>(m: Shelf<U>, o: Thing<U>) {
    exists k :: o in At(m, k)
  }

  ghost predicate Loaded<U(!new), R, D>(l: WF.LoadedWorld<U, R>, t: map<string, UF.LoadedUser<U, D>>, at: Where, o: Thing<U>) {
    match at
    case InRoom(i) => 0 <= i < |l.rooms| && OnShelf(l.rooms[i].objects.shelf, o)
    case WithUser(n) => n in t && OnShelf(t[n].objects.shelf, o)
  }

  /** Ids are below the counter, and no two objects, wherever they are, share one. */
  ghost predicate Numbered<U(!new)>(holds: (Where, Thing<U>) -> bool, counter: int) {
    && (forall at, o :: holds(at, o) ==> o.id < counter)
    && (forall a, b, x, y :: holds(a, x) && holds(b, y) && x.id == y.id ==> a == b && x == y)
  }

  lemma FiledWas<U(!new)>(bins: seq<Bin<U>>, m: Shelf<U>, o: Thing<U>)
    requires SameContents(bins, m) && OnShelf(m, o)
    ensures o in Objects(bins)
  {
    var k :| o in At(m, k);
    var i :| 0 <= i < |bins| && bins[i].key == k;
    assert o in multiset(m[k]);
    assert o in multiset(bins[i].things);
    assert o in bins[i].things;
  }

  lemma WasFiled<U(!new)>(bins: seq<Bin<U>>, m: Shelf<U>, o: Thing<U>)
    requires SameContents(bins, m) && o in Objects(bins)
    ensures OnShelf(m, o)
  {
    var i :| 0 <= i < |bins| && o in bins[i].things;
    assert o in multiset(bins[i].things);
    assert o in multiset(m[bins[i].key]);
    assert o in At(m, bins[i].key);
  }

  lemma FiledIs<U(!new)>(bins: seq<Bin<U>>, m: Shelf<U>, o: Thing<U>)
    requires SameContents(bins, m)
    ensures OnShelf(m, o) <==> o in Objects(bins)
  {
    if OnShelf(m, o) { FiledWas(bins, m, o); }
    if o in Objects(bins) { WasFiled(bins, m, o); }
  }

  lemma LoadedIsSaved<U(!new), R(!new), D(!new)>(m: WC.Module<U, R>, mu: UF.Module<U, D>, w: WC.World<U, R>, us: seq<UF.User<U, D>>,
                                                 l: WF.LoadedWorld<U, R>, t: map<string, UF.LoadedUser<U, D>>, at: Where, o: Thing<U>)
    requires WF.GoodWorld(m, w) && UF.GoodUsers(mu, us) && WF.SameWorld(w, l) && UF.SameUsers(us, t)
    ensures Loaded(l, t, at, o) <==> Saved(w, us, at, o)
  {
    match at
    case InRoom(i) =>
      if 0 <= i < |w.rooms| {
        assert WF.SameRoom(w.rooms[i], l.rooms[i]);
        FiledIs(w.rooms[i].bins, l.rooms[i].objects.shelf, o);
      }
    case WithUser(n) =>
      if n in t {
        var j :| 0 <= j < |us| && UF.UserName(us[j].fields) == n;
        assert UF.SameUser(us[j], t[n]) && UF.GoodUser(mu, us[j]);
        FiledIs(us[j].bins, t[n].objects.shelf, o);
      }
  }

  method RestoreWorld<U(!new), R(!new)>(f: Input, m: WC.Module<U, R>, ghost w: WC.World<U, R>, ghost junk: string,
                                        size: nat, name: string) returns (l: WF.LoadedWorld<U, R>)
    requires WC.Faithful(m) && WF.GoodWorld(m, w) && f.rest == WC.WriteWorld(m, WC.Recorded(w)) + junk
    requires size == |w.rooms| && name == w.name
    modifies f
    ensures WF.SameWorld(w, l) && f.counter == w.counter
  {
    WF.Reload(m, w, junk);
    var world := WF.LoadWorld(f, m, size, name);
    l := world.world;
  }

  method RestoreUsers<U(!new), D(!new)>(f: Input, mu: UF.Module<U, D>, ghost us: seq<UF.User<U, D>>)
    returns (t: map<string, UF.LoadedUser<U, D>>)
    requires UF.Faithful(mu) && UF.GoodUsers(mu, us) && f.rest == UF.WriteUsers(mu, us)
    modifies f
    ensures UF.SameUsers(us, t) && Advanced(old(f.counter), UF.Created(UF.UserRecords(us)), f.counter)
  {
    UF.Reload(mu, us);
    var table := UF.Init(f, mu);
    t := table.val;
  }

  /** Both loads, on one id counter.  Everything is where it was, and the next new object gets an
      id that no loaded object has. */
  method Restore<U(!new), R(!new), D(!new)>(f: Input, m: WC.Module<U, R>, mu: UF.Module<U, D>, users: string,
                                            ghost w: WC.World<U, R>, ghost us: seq<UF.User<U, D>>, ghost junk: string,
                                            size: nat, name: string)
    returns (l: WF.LoadedWorld<U, R>, t: map<string, UF.LoadedUser<U, D>>)
    requires WC.Faithful(m) && UF.Faithful(mu) && WF.GoodWorld(m, w) && UF.GoodUsers(mu, us)
    requires f.rest == WC.WriteWorld(m, WC.Recorded(w)) + junk && users == UF.WriteUsers(mu, us)
    requires size == |w.rooms| && name == w.name
    requires 0 <= w.counter && w.counter + UF.Created(UF.UserRecords(us)) < SIZE_LIMIT
    requires Numbered((at, o) => Saved(w, us, at, o), w.counter)
    modifies f
    ensures WF.SameWorld(w, l) && UF.SameUsers(us, t)
    ensures f.counter == w.counter + UF.Created(UF.UserRecords(us))
    ensures Numbered((at, o) => Loaded(l, t, at, o), f.counter)
  {
    l := RestoreWorld(f, m, w, junk, size, name);
    f.rest := users;
    t := RestoreUsers(f, mu, us);
    Renumbered(m, mu, w, us, l, t, f.counter);
  }

  lemma Renumbered<U(!new), R(!new), D(!new)>(m: WC.Module<U, R>, mu: UF.Module<U, D>, w: WC.World<U, R>, us: seq<UF.User<U, D>>,
                                              l: WF.LoadedWorld<U, R>, t: map<string, UF.LoadedUser<U, D>>, counter: int)
    requires WF.GoodWorld(m, w) && UF.GoodUsers(mu, us) && WF.SameWorld(w, l) && UF.SameUsers(us, t)
    requires Numbered((at, o) => Saved(w, us, at, o), w.counter) && w.counter <= counter
    ensures Numbered((at, o) => Loaded(l, t, at, o), counter)
  {
    var saved := (at, o) => Saved(w, us, at, o);
    var loaded := (at, o) => Loaded(l, t, at, o);
    forall at, o ensures loaded(at, o) <==> saved(at, o) {
      LoadedIsSaved(m, mu, w, us, l, t, at, o);
    }
  }
}
