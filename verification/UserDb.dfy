/** The user database of src/userdb.c and the reference counts of the inventories its records
    point to (src/multimap.c).  What an inventory holds is of no concern here: a type C. */
module UserDb {
  import opened Guard

  type Handle = int

  /** One user record; `fields` is all of it but the inventory pointer. */
  datatype Record = Record(fields: string, objects: Handle)

  datatype Inventory<C> = Inventory(refs: int, contents: C)

  ghost function Owners(users: map<string, Record>, h: Handle): set<string> {
    set n | n in users && users[n].objects == h
  }

  /** Every inventory's count is the number of records that point to it plus the pointers held by
      the code at work; no record points to an inventory that is gone. */
  ghost predicate Owned<C>(users: map<string, Record>, maps: map<Handle, Inventory<C>>, held: multiset<Handle>) {
    forall k: nat {:trigger Opened(k)} :: Opened(k) ==>
      && (forall h :: h in maps ==> 0 < maps[h].refs == |Owners(users, h)| + held[h])
      && (forall n :: n in users ==> users[n].objects in maps)
      && (forall h :: h in held ==> h in maps)
  }

  lemma OwnersPlus(users: map<string, Record>, n: string, r: Record, h: Handle)
    requires n !in users
    ensures |Owners(users[n := r], h)| == |Owners(users, h)| + if h == r.objects then 1 else 0
  {
    if h == r.objects {
      assert Owners(users[n := r], h) == Owners(users, h) + {n};
    } else {
      assert Owners(users[n := r], h) == Owners(users, h);
    }
  }

  /** A held pointer goes into a new record. */
  lemma OwnedPlus<C>(users: map<string, Record>, maps: map<Handle, Inventory<C>>, held: multiset<Handle>, n: string, r: Record)
    requires Owned(users, maps, held) && n !in users && r.objects in held
    ensures Owned(users[n := r], maps, held - multiset{r.objects})
  {
    assert Opened(0);
    forall h | h in maps ensures |Owners(users[n := r], h)| == |Owners(users, h)| + if h == r.objects then 1 else 0 {
      OwnersPlus(users, n, r, h);
    }
  }

  /** A record is taken out of the table; its pointer is still to be given up. */
  lemma OwnedMinus<C>(users: map<string, Record>, maps: map<Handle, Inventory<C>>, held: multiset<Handle>, n: string)
    requires Owned(users, maps, held) && n in users
    ensures Owned(users - {n}, maps, held + multiset{users[n].objects})
  {
    assert Opened(0);
    var rest := users - {n};
    assert rest[n := users[n]] == users;
    forall h | h in maps ensures |Owners(users, h)| == |Owners(rest, h)| + if h == users[n].objects then 1 else 0 {
      OwnersPlus(rest, n, users[n], h);
    }
  }

  lemma OwnedRef<C>(users: map<string, Record>, maps: map<Handle, Inventory<C>>, held: multiset<Handle>, h: Handle)
    requires Owned(users, maps, held) && h in maps
    ensures Owned(users, maps[h := maps[h].(refs := maps[h].refs + 1)], held + multiset{h})
  {
    assert Opened(0);
  }

  lemma OwnedUnref<C>(users: map<string, Record>, maps: map<Handle, Inventory<C>>, held: multiset<Handle>, h: Handle)
    requires Owned(users, maps, held) && h in held
    ensures h in maps
    ensures maps[h].refs > 1 ==> Owned(users, maps[h := maps[h].(refs := maps[h].refs - 1)], held - multiset{h})
    ensures maps[h].refs == 1 ==> Owned(users, maps - {h}, held - multiset{h}) && Owners(users, h) == {}
  {
    assert Opened(0);
    if maps[h].refs == 1 {
      assert Owners(users, h) == {};
      forall n | n in users ensures users[n].objects != h { assert n !in Owners(users, h); }
    }
  }

  lemma OwnedNew<C>(users: map<string, Record>, maps: map<Handle, Inventory<C>>, held: multiset<Handle>, h: Handle, c: C)
    requires Owned(users, maps, held) && h !in maps
    ensures Owned(users, maps[h := Inventory(1, c)], held + multiset{h})
  {
    assert Opened(0);
    assert Owners(users, h) == {};
  }

  lemma OnlyOwner<C>(users: map<string, Record>, maps: map<Handle, Inventory<C>>, n: string)
    requires Owned(users, maps, multiset{}) && n in users && users[n].objects in maps && maps[users[n].objects].refs == 1
    ensures Owners(users, users[n].objects) == {n}
  {
    assert Opened(0);
    var owners := Owners(users, users[n].objects);
    assert n in owners && |owners - {n}| == 0;
  }

  class UserDb<C> {
    var users: map<string, Record>
    var maps: map<Handle, Inventory<C>>  // the inventories not yet freed
    var next: Handle
    ghost var held: multiset<Handle>
    ghost var freed: seq<Handle>         // in the order they were freed

    ghost predicate Sound()
      reads this
    {
      && Owned(users, maps, held)
      && (forall h :: h in maps ==> h < next) && (forall h :: h in freed ==> h < next && h !in maps)
      && forall i, j :: 0 <= i < j < |freed| ==> freed[i] != freed[j]
    }

    /** Between calls: every record has an inventory of its own, and no inventory is without one. */
    ghost predicate Inv()
      reads this
    {
      && Sound() && held == multiset{}
      && forall n :: n in users ==> users[n].objects in maps && maps[users[n].objects].refs == 1
    }

    constructor ()
      ensures Inv() && users == map[] && maps == map[] && freed == []
    {
      users, maps, next, held, freed := map[], map[], 0, multiset{}, [];
    }

    method MultimapInit(c: C) returns (h: Handle)
      requires Sound()
      modifies `maps, `next, `held
      ensures Sound() && h == old(next) && maps == old(maps)[h := Inventory(1, c)] && held == old(held) + multiset{h}
      ensures next == old(next) + 1
    {
      h := next;
      OwnedNew(users, maps, held, h, c);
      maps, next, held := maps[h := Inventory(1, c)], next + 1, held + multiset{h};
    }

    method MultimapDup(h: Handle)
      requires Sound() && h in maps
      modifies `maps, `held
      ensures Sound() && maps == old(maps)[h := old(maps)[h].(refs := old(maps)[h].refs + 1)] && held == old(held) + multiset{h}
    {
      OwnedRef(users, maps, held, h);
      maps, held := maps[h := maps[h].(refs := maps[h].refs + 1)], held + multiset{h};
    }

    /** multimap_free: the last pointer takes the inventory with it. */
    method MultimapFree(h: Handle, ghost others: map<string, Record>)
      requires Owned(others, maps, held) && h in held
      requires forall x :: x in freed ==> x !in maps
      modifies `maps, `held, `freed
      ensures Owned(others, maps, held) && held == old(held) - multiset{h} && h in old(maps)
      ensures if old(maps)[h].refs > 1 then maps == old(maps)[h := old(maps)[h].(refs := old(maps)[h].refs - 1)] && freed == old(freed)
              else maps == old(maps) - {h} && freed == old(freed) + [h]
    {
      OwnedUnref(others, maps, held, h);
      assert maps[h].refs > 0 by { assert Opened(0); }
      var refs := maps[h].refs - 1;
      held := held - multiset{h};
      if refs == 0 {
        maps, freed := maps - {h}, freed + [h];
      } else {
        maps := maps[h := maps[h].(refs := refs)];
      }
    }

    /** The record a name had, out of the table `others`, is freed. */
    method FreeOld(name: string, ghost others: map<string, Record>)
      requires Sound() && others == users - {name}
      modifies `maps, `held, `freed
      ensures Owned(others, maps, held) && held == old(held)
      ensures name !in users ==> maps == old(maps) && freed == old(freed)
      ensures name in users ==>
                var h := users[name].objects;
                && h in old(maps)
                && if old(maps)[h].refs > 1 then maps == old(maps)[h := old(maps)[h].(refs := old(maps)[h].refs - 1)] && freed == old(freed)
                   else maps == old(maps) - {h} && freed == old(freed) + [h]
    {
      if name in users {
        OwnedMinus(users, maps, held, name);
        held := held + multiset{users[name].objects};
        MultimapFree(users[name].objects, others);
      } else {
        assert others == users;
      }
    }

    /** hash_overwrite on the table of users: the old record is freed before the new one is put in
        its place. */
    method Overwrite(name: string, rec: Record)
      requires Sound() && rec.objects in held
      modifies `users, `maps, `held, `freed
      ensures Sound() && users == old(users)[name := rec] && held == old(held) - multiset{rec.objects}
      ensures name !in old(users) ==> maps == old(maps) && freed == old(freed)
      ensures name in old(users) ==>
                var h := old(users)[name].objects;
                && h in old(maps)
                && if old(maps)[h].refs > 1 then maps == old(maps)[h := old(maps)[h].(refs := old(maps)[h].refs - 1)] && freed == old(freed)
                   else maps == old(maps) - {h} && freed == old(freed) + [h]
    {
      ghost var others := users - {name};
      FreeOld(name, others);
      OwnedPlus(others, maps, held, name, rec);
      assert others[name := rec] == users[name := rec];
      users, held := users[name := rec], held - multiset{rec.objects};
    }

    /** userdb_add: a user who is there keeps the inventory. */
    method Add(name: string, fields: string, empty: C)
      requires Inv()
      modifies this
      ensures Inv() && freed == old(freed)
      ensures name in old(users) ==>
                users == old(users)[name := Record(fields, old(users)[name].objects)] && maps == old(maps)
      ensures name !in old(users) ==>
                users == old(users)[name := Record(fields, old(next))] && maps == old(maps)[old(next) := Inventory(1, empty)]
      ensures next == old(next) + if name in old(users) then 0 else 1
    {
      var objects;
      if name in users {
        objects := users[name].objects;
        MultimapDup(objects);
      } else {
        objects := MultimapInit(empty);
      }
      Overwrite(name, Record(fields, objects));
    }

    /** userdb_remove: the inventory goes with the record, once and for all. */
    method Remove(name: string) returns (found: bool)
      requires Inv()
      modifies `users, `maps, `held, `freed
      ensures Inv() && found == (name in old(users)) && users == old(users) - {name}
      ensures !found ==> maps == old(maps) && freed == old(freed)
      ensures found ==>
                var h := old(users)[name].objects;
                maps == old(maps) - {h} && freed == old(freed) + [h] && h !in old(freed)
    {
      found := name in users;
      if found {
        var rec := users[name];
        OnlyOwner(users, maps, name);
        OwnedMinus(users, maps, held, name);
        users := users - {name};
        held := held + multiset{rec.objects};
        MultimapFree(rec.objects, users);
        assert multiset{} + multiset{rec.objects} - multiset{rec.objects} == multiset{};
        assert forall n :: n in users && users[n].objects == rec.objects ==> n in Owners(old(users), rec.objects);
      } else {
        assert users - {name} == users;
      }
    }

    /** Any sequence of userdb_add calls: every user there was keeps the inventory, untouched, and
        nothing is freed. */
    method AddMany(adds: seq<(string, string)>, empty: C)
      requires Inv()
      modifies this
      ensures Inv() && freed == old(freed)
      ensures forall n :: n in old(users) ==>
                && n in users && users[n].objects == old(users)[n].objects
                && users[n].objects in old(maps) && maps[users[n].objects] == old(maps)[users[n].objects]
      ensures forall n :: n in users <==> n in old(users) || exists i :: 0 <= i < |adds| && adds[i].0 == n
    {
      for i := 0 to |adds|
        invariant Inv() && freed == old(freed) && next >= old(next)
        invariant forall n :: n in old(users) ==> n in users && users[n].objects == old(users)[n].objects
        invariant forall h :: h in old(maps) ==> h in maps && maps[h] == old(maps)[h]
        invariant forall n :: n in users <==> n in old(users) || exists j :: 0 <= j < i && adds[j].0 == n
      {
        Add(adds[i].0, adds[i].1, empty);
      }
    }
  }

  /** At rest an inventory's count is the number of the records that point to it, which is one. */
  lemma RefsAreOwners<C>(users: map<string, Record>, maps: map<Handle, Inventory<C>>, h: Handle)
    requires Owned(users, maps, multiset{}) && h in maps
    ensures maps[h].refs == |Owners(users, h)| && Owners(users, h) != {}
  {
    assert Opened(0);
  }
}
