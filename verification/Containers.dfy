/** What a saved container holds: obj_count_noalias (src/obj.c), the order in which the writers of
    src/world.c and src/userdb.c visit a multimap, and the container their readers rebuild. */
module Containers {
  import opened Records

  /** One list of a multimap, as iteration yields it. */
  datatype Bin<U> = Bin(key: string, things: seq<Thing<U>>)

  type Shelf<U> = map<string, seq<Thing<U>>>

  function Keys<U>(o: Thing<U>): seq<string> { [o.name] + o.aliases }

  ghost predicate Distinct<T>(s: seq<T>) {
    forall i, j :: 0 <= i < j < |s| ==> s[i] != s[j]
  }

  function At<U>(m: Shelf<U>, k: string): seq<Thing<U>> {
    if k in m then m[k] else []
  }

  /** The multimap's lists, with distinct keys and no empty list; every object is filed once under
      its name and each alias and under nothing else. */
  ghost predicate ClosedBins<U>(bins: seq<Bin<U>>) {
    && KeysApart(bins)
    && (forall i :: 0 <= i < |bins| ==> bins[i].things != [] && Distinct(bins[i].things))
    && (forall i, o :: 0 <= i < |bins| && o in bins[i].things ==> bins[i].key in Keys(o) && Distinct(Keys(o)))
    && (forall i, o, k :: 0 <= i < |bins| && o in bins[i].things && k in Keys(o) ==> Lists(bins, o, k))
  }

  ghost predicate Lists<U>(bins: seq<Bin<U>>, o: Thing<U>, k: string) {
    exists i :: 0 <= i < |bins| && bins[i].key == k && o in bins[i].things
  }

  ghost function Objects<U(!new)>(bins: seq<Bin<U>>): set<Thing<U>> {
    set i, o | 0 <= i < |bins| && o in bins[i].things :: o
  }

  // the objects under their own name, in iteration order

  function Named<U>(k: string, os: seq<Thing<U>>): seq<Thing<U>> {
    if os == [] then []
    else if os[0].name == k then [os[0]] + Named(k, os[1..])
    else Named(k, os[1..])
  }

  function Primaries<U>(bins: seq<Bin<U>>): seq<Thing<U>> {
    if bins == [] then [] else Named(bins[0].key, bins[0].things) + Primaries(bins[1..])
  }

  lemma {:induction false} NamedAre<U>(k: string, os: seq<Thing<U>>)
    ensures forall o :: o in Named(k, os) <==> o in os && o.name == k
    ensures Distinct(os) ==> Distinct(Named(k, os))
  {
    if os != [] {
      NamedAre(k, os[1..]);
      assert os == [os[0]] + os[1..];
      if Distinct(os) {
        assert Distinct(os[1..]) by {
          forall i, j | 0 <= i < j < |os[1..]| ensures os[1..][i] != os[1..][j] { assert os[i + 1] != os[j + 1]; }
        }
        assert os[0] !in os[1..] by {
          forall i | 0 <= i < |os[1..]| ensures os[1..][i] != os[0] { assert os[0] != os[i + 1]; }
        }
      }
    }
  }

  lemma DistinctJoin<T>(a: seq<T>, b: seq<T>)
    requires Distinct(a) && Distinct(b) && forall x :: x in a ==> x !in b
    ensures Distinct(a + b)
  {
    forall i, j | 0 <= i < j < |a + b| ensures (a + b)[i] != (a + b)[j] {
      if i < |a| <= j {
        assert a[i] !in b && b[j - |a|] in b;
      }
    }
  }

  lemma ListsStep<U>(bins: seq<Bin<U>>, o: Thing<U>, k: string)
    requires bins != []
    ensures Lists(bins, o, k) <==> (bins[0].key == k && o in bins[0].things) || Lists(bins[1..], o, k)
  {
    var rest := bins[1..];
    if Lists(rest, o, k) {
      var i :| 0 <= i < |rest| && rest[i].key == k && o in rest[i].things;
      assert bins[i + 1] == rest[i];
    }
    if i :| 0 <= i < |bins| && bins[i].key == k && o in bins[i].things {
      assert i > 0 ==> rest[i - 1] == bins[i];
    }
  }

  lemma {:induction false} PrimariesAre<U>(bins: seq<Bin<U>>, o: Thing<U>)
    ensures o in Primaries(bins) <==> Lists(bins, o, o.name)
  {
    if bins != [] {
      PrimariesAre(bins[1..], o);
      NamedAre(bins[0].key, bins[0].things);
      ListsStep(bins, o, o.name);
    }
  }

  ghost predicate KeysApart<U>(bins: seq<Bin<U>>) {
    forall i, j :: 0 <= i < j < |bins| ==> bins[i].key != bins[j].key
  }

  lemma {:induction false} PrimariesDistinct<U>(bins: seq<Bin<U>>)
    requires KeysApart(bins) && forall i :: 0 <= i < |bins| ==> Distinct(bins[i].things)
    ensures Distinct(Primaries(bins))
  {
    if bins != [] {
      var rest := bins[1..];
      assert forall i :: 0 <= i < |rest| ==> rest[i] == bins[i + 1];
      PrimariesDistinct(rest);
      NamedAre(bins[0].key, bins[0].things);
      forall o | o in Named(bins[0].key, bins[0].things) ensures o !in Primaries(rest) {
        PrimariesAre(rest, o);
      }
      DistinctJoin(Named(bins[0].key, bins[0].things), Primaries(rest));
    }
  }

  lemma {:induction false} DistinctCard<T>(s: seq<T>)
    requires Distinct(s)
    ensures |set x | x in s| == |s|
  {
    var xs := set x | x in s;
    if s == [] {
      assert xs == {};
    } else {
      var last, front := s[|s| - 1], s[..|s| - 1];
      DistinctCard(front);
      assert s == front + [last];
      assert xs == (set x | x in front) + {last};
    }
  }

  /** In a closed container the objects under their own name are all its objects, each once. */
  lemma CountIsDistinct<U(!new)>(bins: seq<Bin<U>>)
    requires ClosedBins(bins)
    ensures Distinct(Primaries(bins)) && forall o :: o in Primaries(bins) <==> o in Objects(bins)
    ensures |Primaries(bins)| == |Objects(bins)|
  {
    PrimariesDistinct(bins);
    forall o ensures o in Primaries(bins) <==> o in Objects(bins) {
      PrimariesAre(bins, o);
      if o in Objects(bins) {
        var i :| 0 <= i < |bins| && o in bins[i].things;
        assert o.name in Keys(o) by { assert Keys(o)[0] == o.name; }
        assert Lists(bins, o, o.name);
      }
      if i :| 0 <= i < |bins| && bins[i].key == o.name && o in bins[i].things {
        assert o in Objects(bins);
      }
    }
    DistinctCard(Primaries(bins));
    assert Objects(bins) == set o | o in Primaries(bins);
  }

  // obj_count_noalias

  method CountNoAlias<U>(bins: seq<Bin<U>>) returns (n: nat)
    ensures n == |Primaries(bins)|
  {
    n := 0;
    var i := 0;
    assert bins[0..] == bins;
    while i < |bins|
      invariant 0 <= i <= |bins| && n + |Primaries(bins[i..])| == |Primaries(bins)|
    {
      var iter := bins[i].things;
      assert bins[i..][0] == bins[i] && bins[i..][1..] == bins[i + 1..];
      while iter != []
        invariant n + |Named(bins[i].key, iter)| + |Primaries(bins[i + 1..])| == |Primaries(bins)|
      {
        if bins[i].key == iter[0].name {
          n := n + 1;
        }
        iter := iter[1..];
      }
      i := i + 1;
    }
  }

  // rebuilding a container: the name first, then the aliases, each at the front of its list

  function Insert<U>(m: Shelf<U>, k: string, o: Thing<U>): Shelf<U> {
    m[k := [o] + At(m, k)]
  }

  function AddUnder<U>(m: Shelf<U>, ks: seq<string>, o: Thing<U>): Shelf<U> {
    if ks == [] then m else Insert(AddUnder(m, ks[..|ks| - 1], o), ks[|ks| - 1], o)
  }

  function AddAll<U>(os: seq<Thing<U>>): Shelf<U> {
    if os == [] then map[] else AddUnder(AddAll(os[..|os| - 1]), Keys(os[|os| - 1]), os[|os| - 1])
  }

  /** A rebuilt container, the reference counts of its objects by their ids, and the objects in the
      order they were read. */
  datatype Stock<U> = Stock(shelf: Shelf<U>, refs: map<int, int>, read: seq<Thing<U>>)

  /** The counts after filing: one reference from reading the object, which goes to its name, and one
      more per alias. */
  function Refs<U>(os: seq<Thing<U>>): map<int, int> {
    if os == [] then map[] else Refs(os[..|os| - 1])[os[|os| - 1].id := |Keys(os[|os| - 1])|]
  }

  function StockOf<U>(os: seq<Thing<U>>): Stock<U> {
    Stock(AddAll(os), Refs(os), os)
  }

  ghost predicate IdsApart<U>(os: seq<Thing<U>>) {
    forall i, j :: 0 <= i < j < |os| ==> os[i].id != os[j].id
  }

  /** Each object has a reference per key. */
  lemma {:induction false} RefsAt<U>(os: seq<Thing<U>>, i: nat)
    requires IdsApart(os) && i < |os|
    ensures os[i].id in Refs(os) && Refs(os)[os[i].id] == 1 + |os[i].aliases|
  {
    var front, last := os[..|os| - 1], os[|os| - 1];
    if i < |front| { RefsAt(front, i); }
  }

  lemma {:induction false} AddedAt<U>(m: Shelf<U>, ks: seq<string>, o: Thing<U>, k: string)
    requires Distinct(ks)
    ensures At(AddUnder(m, ks, o), k) == if k in ks then [o] + At(m, k) else At(m, k)
    ensures k in AddUnder(m, ks, o) <==> k in m || k in ks
  {
    if ks != [] {
      var front, last := ks[..|ks| - 1], ks[|ks| - 1];
      AddedAt(m, front, o, k);
      assert ks == front + [last] && last !in front;
    }
  }

  /** The list under `k` holds each object that goes by `k` exactly once. */
  lemma {:induction false} AddAllAt<U>(os: seq<Thing<U>>, k: string)
    requires Distinct(os) && forall o :: o in os ==> Distinct(Keys(o))
    ensures forall o :: o in At(AddAll(os), k) <==> o in os && k in Keys(o)
    ensures Distinct(At(AddAll(os), k))
    ensures k in AddAll(os) <==> At(AddAll(os), k) != []
  {
    if os != [] {
      var front, last := os[..|os| - 1], os[|os| - 1];
      assert os == front + [last] && last !in front;
      AddAllAt(front, k);
      AddedAt(AddAll(front), Keys(last), last, k);
    }
  }

  lemma SameElements<T>(a: seq<T>, b: seq<T>)
    requires Distinct(a) && Distinct(b) && forall x :: x in a <==> x in b
    ensures multiset(a) == multiset(b)
  {
    forall x ensures multiset(a)[x] == multiset(b)[x] {
      Multiplicity(a, x);
      Multiplicity(b, x);
    }
  }

  lemma {:induction false} Multiplicity<T>(s: seq<T>, x: T)
    requires Distinct(s)
    ensures multiset(s)[x] == if x in s then 1 else 0
  {
    if s != [] {
      var last, front := s[|s| - 1], s[..|s| - 1];
      Multiplicity(front, x);
      assert s == front + [last] && last !in front;
    }
  }

  /** The rebuilt container has the old one's keys, and under each the same objects. */
  ghost predicate SameContents<U>(bins: seq<Bin<U>>, m: Shelf<U>) {
    && (forall i :: 0 <= i < |bins| ==> bins[i].key in m && multiset(m[bins[i].key]) == multiset(bins[i].things))
    && (forall k :: k in m ==> exists i :: 0 <= i < |bins| && bins[i].key == k)
  }

  lemma ListedAre<U(!new)>(bins: seq<Bin<U>>, o: Thing<U>, k: string)
    requires ClosedBins(bins)
    ensures Lists(bins, o, k) <==> o in Primaries(bins) && k in Keys(o)
    ensures o in Primaries(bins) ==> Distinct(Keys(o))
  {
    PrimariesAre(bins, o);
    if Lists(bins, o, k) {
      assert Keys(o)[0] == o.name;
      assert Lists(bins, o, o.name);
    }
  }

  lemma PrimariesWellNamed<U(!new)>(bins: seq<Bin<U>>)
    requires ClosedBins(bins)
    ensures Distinct(Primaries(bins)) && forall o :: o in Primaries(bins) ==> Distinct(Keys(o))
  {
    CountIsDistinct(bins);
    forall o | o in Primaries(bins) ensures Distinct(Keys(o)) {
      ListedAre(bins, o, o.name);
    }
  }

  lemma RebuiltAt<U(!new)>(bins: seq<Bin<U>>, k: string, o: Thing<U>)
    requires ClosedBins(bins)
    ensures o in At(AddAll(Primaries(bins)), k) <==> Lists(bins, o, k)
  {
    PrimariesWellNamed(bins);
    AddAllAt(Primaries(bins), k);
    ListedAre(bins, o, k);
  }

  /** Adding the objects a closed container lists under their own names, in any order, to an empty
      one restores it up to the order of its lists. */
  lemma Rebuilt<U(!new)>(bins: seq<Bin<U>>)
    requires ClosedBins(bins)
    ensures SameContents(bins, AddAll(Primaries(bins)))
  {
    var m := AddAll(Primaries(bins));
    PrimariesWellNamed(bins);
    forall i | 0 <= i < |bins| ensures bins[i].key in m && multiset(m[bins[i].key]) == multiset(bins[i].things) {
      var k := bins[i].key;
      AddAllAt(Primaries(bins), k);
      forall o ensures o in At(m, k) <==> o in bins[i].things {
        RebuiltAt(bins, k, o);
      }
      assert bins[i].things[0] in At(m, k);
      SameElements(At(m, k), bins[i].things);
    }
    forall k | k in m ensures exists i :: 0 <= i < |bins| && bins[i].key == k {
      AddAllAt(Primaries(bins), k);
      RebuiltAt(bins, k, At(m, k)[0]);
    }
  }
}
