/** Reference-counted objects filed under a name and aliases in rooms and inventories:
    src/obj.c, src/room.c, src/userdb.c and the take and drop requests of src/server_reqs.c.
    Object names are taken from the fragment (say, lower case) on which the tables' hash and
    their case-insensitive compare agree, so that keys are compared by plain equality. */
module Ownership {
  import opened Guard
  import opened HashSpec
  import opened Wrappers
  import M = MultimapSpec

  type ObjId = int

  datatype Obj = Obj(name: string, aliases: seq<string>, refs: int)

  /** Whatever holds objects: a room, or a user's inventory. */
  datatype Box = Room(id: nat) | Inventory(user: string)

  type Shelf = M.Lists<string, string, ObjId>

  /** One entry of one multimap: the object, the container and the key it is filed under. */
  datatype Place = Place(obj: ObjId, box: Box, key: string)

  function Names(aliases: seq<string>): set<string> {
    set a | a in aliases
  }

  function KeysOf(o: Obj): set<string> {
    {o.name} + Names(o.aliases)
  }

  predicate WellNamed(o: Obj) {
    o.name !in o.aliases && forall i, j :: 0 <= i < j < |o.aliases| ==> o.aliases[i] != o.aliases[j]
  }

  lemma NamesEnds(aliases: seq<string>)
    ensures Names(aliases[..0]) == {} && Names(aliases[..|aliases|]) == Names(aliases)
  {
    assert aliases[..|aliases|] == aliases;
  }

  lemma NamesNext(aliases: seq<string>, i: nat)
    requires i < |aliases| && forall j, k :: 0 <= j < k < |aliases| ==> aliases[j] != aliases[k]
    ensures aliases[i] !in Names(aliases[..i])
    ensures Names(aliases[..i + 1]) == Names(aliases[..i]) + {aliases[i]}
  {
    assert aliases[..i + 1] == aliases[..i] + [aliases[i]];
  }

  // lists of objects under one key

  function Data(es: Chain<string, ObjId>): (r: seq<ObjId>)
    ensures |r| == |es| && forall i :: 0 <= i < |r| ==> r[i] == es[i].data
  {
    seq(|es|, i requires 0 <= i < |es| => es[i].data)
  }

  function Listed(s: Shelf, k: string): seq<ObjId> {
    Data(M.At(s, k))
  }

  ghost predicate NoRepeats(os: seq<ObjId>) {
    forall i, j :: 0 <= i < j < |os| ==> os[i] != os[j]
  }

  function Is(o: ObjId): ObjId -> bool { v => v == o }

  /** The list without the first `o`. */
  function Minus(os: seq<ObjId>, o: ObjId): seq<ObjId> {
    if os == [] then [] else if os[0] == o then os[1..] else [os[0]] + Minus(os[1..], o)
  }

  lemma {:induction false} MinusMiddle(front: seq<ObjId>, o: ObjId, rest: seq<ObjId>)
    requires o !in front
    ensures Minus(front + [o] + rest, o) == front + rest
  {
    var os := front + [o] + rest;
    if front == [] {
      assert os[1..] == rest && front + rest == rest;
    } else {
      MinusMiddle(front[1..], o, rest);
      assert os[1..] == front[1..] + [o] + rest && front + rest == [front[0]] + (front[1..] + rest);
    }
  }

  lemma DataCons(e: Entry<string, ObjId>, es: Chain<string, ObjId>)
    ensures Data([e] + es) == [e.data] + Data(es)
  {
  }

  lemma NoRepeatsCons(o: ObjId, os: seq<ObjId>)
    ensures NoRepeats([o] + os) <==> o !in os && NoRepeats(os)
  {
    var all := [o] + os;
    if NoRepeats(all) {
      forall i | 0 <= i < |os| ensures os[i] != o { assert all[0] != all[i + 1]; }
      forall i, j | 0 <= i < j < |os| ensures os[i] != os[j] { assert all[i + 1] != all[j + 1]; }
    }
  }

  /** Deleting an object that occurs once takes out that occurrence and nothing else. */
  lemma {:induction false} DeleteOne(es: Chain<string, ObjId>, o: ObjId)
    requires NoRepeats(Data(es))
    ensures o !in Data(es) ==> M.Survivors(es, Is(o)) == es && M.Victims(es, Is(o)) == []
    ensures o in Data(es) ==> M.Victims(es, Is(o)) == [o]
    ensures forall x :: x in Data(M.Survivors(es, Is(o))) <==> x in Data(es) && x != o
    ensures NoRepeats(Data(M.Survivors(es, Is(o))))
    ensures Data(M.Survivors(es, Is(o))) == Minus(Data(es), o)
  {
    if es != [] {
      var rest := es[1..];
      assert es == [es[0]] + rest;
      DataCons(es[0], rest);
      NoRepeatsCons(es[0].data, Data(rest));
      DeleteOne(rest, o);
      DeleteCons(es[0], rest, o);
      MinusCons(o, es[0].data, Data(rest));
      DataCons(es[0], M.Survivors(rest, Is(o)));
      NoRepeatsCons(es[0].data, Data(M.Survivors(rest, Is(o))));
    }
  }

  lemma DeleteCons(e: Entry<string, ObjId>, rest: Chain<string, ObjId>, o: ObjId)
    ensures M.Survivors([e] + rest, Is(o)) == (if e.data == o then [] else [e]) + M.Survivors(rest, Is(o))
    ensures M.Victims([e] + rest, Is(o)) == (if e.data == o then [o] else []) + M.Victims(rest, Is(o))
  {
    assert ([e] + rest)[1..] == rest;
  }

  lemma MinusCons(o: ObjId, x: ObjId, os: seq<ObjId>)
    ensures Minus([x] + os, o) == if x == o then os else [x] + Minus(os, o)
  {
    assert ([x] + os)[1..] == os;
  }

  // the counting invariant

  ghost predicate At(boxes: map<Box, Shelf>, p: Place) {
    p.box in boxes && p.obj in Listed(boxes[p.box], p.key)
  }

  ghost function Of(places: set<Place>, o: ObjId): set<Place> {
    set p | p in places && p.obj == o
  }

  /** `places` lists the entries of all multimaps, each object at most once per list. */
  ghost predicate Filed(boxes: map<Box, Shelf>, places: set<Place>) {
    forall n: nat {:trigger Opened(n)} :: Opened(n) ==>
      && (forall p :: p in places <==> At(boxes, p))
      && (forall b, k :: b in boxes ==> NoRepeats(Listed(boxes[b], k)))
      && (forall b :: b in boxes ==> M.NoEmptyList(boxes[b]))
  }

  /** Every live object's count is its entries plus the references held elsewhere, and every
      entry is of a live object, under one of its keys.  What is held elsewhere may be negative:
      then there is an entry without a reference of its own. */
  ghost predicate Counted(objs: map<ObjId, Obj>, places: set<Place>, extra: map<ObjId, int>) {
    forall n: nat {:trigger Opened(n)} :: Opened(n) ==>
      && objs.Keys == extra.Keys
      && (forall o :: o in objs ==> 0 < objs[o].refs == |Of(places, o)| + extra[o] && WellNamed(objs[o]))
      && (forall p :: p in places ==> p.obj in objs && p.key in KeysOf(objs[p.obj]))
  }

  /** No entry lacks its reference. */
  ghost predicate Paid(extra: map<ObjId, int>) {
    forall n: nat {:trigger Opened(n)} :: Opened(n) ==> forall o :: o in extra ==> extra[o] >= 0
  }

  lemma PaidOne(extra: map<ObjId, int>, o: ObjId)
    requires Paid(extra) && o in extra
    ensures extra[o] >= 0
  {
    assert Opened(0);
  }

  lemma PaidPlus(extra: map<ObjId, int>, o: ObjId, n: int)
    requires Paid(extra) && o in extra
    ensures Paid(extra[o := extra[o] + n]) <==> extra[o] + n >= 0
  {
    assert Opened(0);
    assert extra[o] + n < 0 ==> extra[o := extra[o] + n][o] < 0;
  }

  lemma PaidMore(extra: map<ObjId, int>, o: ObjId)
    requires o in extra
    ensures Paid(extra) ==> Paid(extra[o := extra[o] + 1])
  {
    assert Opened(0);
  }

  lemma PaidLess(extra: map<ObjId, int>, extra': map<ObjId, int>)
    requires Paid(extra) && forall o :: o in extra' ==> o in extra && extra'[o] >= extra[o]
    ensures Paid(extra')
  {
    assert Opened(0);
  }

  // what the invariant says of one entry or one object

  lemma EntryIs(boxes: map<Box, Shelf>, places: set<Place>, p: Place)
    requires Filed(boxes, places)
    ensures p in places <==> p.box in boxes && p.obj in Listed(boxes[p.box], p.key)
    ensures p.box in boxes ==> NoRepeats(Listed(boxes[p.box], p.key))
  {
    assert Opened(0);
    assert p in places <==> At(boxes, p);
  }

  lemma EntryLive(objs: map<ObjId, Obj>, places: set<Place>, extra: map<ObjId, int>, p: Place)
    requires Counted(objs, places, extra) && p in places
    ensures p.obj in objs && p.key in KeysOf(objs[p.obj])
  {
    assert Opened(0);
  }

  lemma RefsAre(objs: map<ObjId, Obj>, places: set<Place>, extra: map<ObjId, int>, o: ObjId)
    requires Counted(objs, places, extra) && o in objs
    ensures o in extra && 0 < objs[o].refs == |Of(places, o)| + extra[o] && WellNamed(objs[o])
  {
    assert Opened(0);
  }

  lemma BoundedInv(objs: map<ObjId, Obj>, places: set<Place>, extra: map<ObjId, int>)
    requires Counted(objs, places, extra)
    ensures objs.Keys == extra.Keys && forall p :: p in places ==> p.obj in objs
  {
    assert Opened(0);
  }

  // what each primitive does to it

  lemma OfPlus(places: set<Place>, p: Place, o: ObjId)
    requires p !in places
    ensures |Of(places + {p}, o)| == |Of(places, o)| + if o == p.obj then 1 else 0
  {
    if o == p.obj {
      assert Of(places + {p}, o) == Of(places, o) + {p};
    } else {
      assert Of(places + {p}, o) == Of(places, o);
    }
  }

  lemma OfMinus(places: set<Place>, p: Place, o: ObjId)
    requires p in places
    ensures |Of(places - {p}, o)| == |Of(places, o)| - if o == p.obj then 1 else 0
  {
    OfPlus(places - {p}, p, o);
    assert places - {p} + {p} == places;
  }

  /** A reference is taken (n = 1) or given back (n = -1). */
  lemma CountedRef(objs: map<ObjId, Obj>, places: set<Place>, extra: map<ObjId, int>, o: ObjId, n: int)
    requires Counted(objs, places, extra) && o in objs && o in extra && 0 < objs[o].refs + n
    ensures Counted(objs[o := objs[o].(refs := objs[o].refs + n)], places, extra[o := extra[o] + n])
  {
    assert Opened(0);
  }

  /** The last reference is given back. */
  lemma CountedGone(objs: map<ObjId, Obj>, places: set<Place>, extra: map<ObjId, int>, o: ObjId)
    requires Counted(objs, places, extra) && o in objs && o in extra && extra[o] > 0 && objs[o].refs == 1
    ensures Counted(objs - {o}, places, extra - {o})
    ensures Of(places, o) == {}
  {
    assert Opened(0);
    assert Of(places, o) == {};
    forall p | p in places ensures p.obj != o { assert p !in Of(places, o); }
  }

  /** A reference held elsewhere, if there is one, becomes an entry. */
  lemma CountedPlus(objs: map<ObjId, Obj>, places: set<Place>, extra: map<ObjId, int>, p: Place)
    requires Counted(objs, places, extra) && p !in places
    requires p.obj in objs && p.obj in extra && p.key in KeysOf(objs[p.obj])
    ensures Counted(objs, places + {p}, extra[p.obj := extra[p.obj] - 1])
  {
    assert Opened(0);
    forall o | o in objs ensures |Of(places + {p}, o)| == |Of(places, o)| + if o == p.obj then 1 else 0 {
      OfPlus(places, p, o);
    }
  }

  /** An entry becomes a held reference. */
  lemma CountedMinus(objs: map<ObjId, Obj>, places: set<Place>, extra: map<ObjId, int>, p: Place)
    requires Counted(objs, places, extra) && p in places
    ensures p.obj in objs && p.obj in extra
    ensures Counted(objs, places - {p}, extra[p.obj := extra[p.obj] + 1])
  {
    assert Opened(0);
    forall o | o in objs ensures |Of(places - {p}, o)| == |Of(places, o)| - if o == p.obj then 1 else 0 {
      OfMinus(places, p, o);
    }
  }

  lemma FiledPlus(boxes: map<Box, Shelf>, places: set<Place>, p: Place)
    requires Filed(boxes, places) && p.box in boxes && p !in places
    ensures Filed(boxes[p.box := M.Insert(boxes[p.box], p.key, Entry(p.key, p.obj))], places + {p})
    ensures Listed(M.Insert(boxes[p.box], p.key, Entry(p.key, p.obj)), p.key) == [p.obj] + Listed(boxes[p.box], p.key)
  {
    assert Opened(0);
    var s := M.Insert(boxes[p.box], p.key, Entry(p.key, p.obj));
    var boxes' := boxes[p.box := s];
    assert Listed(s, p.key) == [p.obj] + Listed(boxes[p.box], p.key);
    assert forall k :: k != p.key ==> Listed(s, k) == Listed(boxes[p.box], k);
    assert !At(boxes, p);
    forall q ensures q in places + {p} <==> At(boxes', q) {
      assert q in places <==> At(boxes, q);
    }
  }

  lemma FiledMinus(boxes: map<Box, Shelf>, places: set<Place>, p: Place)
    requires Filed(boxes, places) && p in places
    ensures p.box in boxes
    ensures Filed(boxes[p.box := M.Delete(boxes[p.box], p.key, Is(p.obj))], places - {p})
    ensures M.Victims(M.At(boxes[p.box], p.key), Is(p.obj)) == [p.obj]
  {
    assert Opened(0);
    assert At(boxes, p);
    var old_, s := boxes[p.box], M.Delete(boxes[p.box], p.key, Is(p.obj));
    var boxes' := boxes[p.box := s];
    DeleteOne(M.At(old_, p.key), p.obj);
    assert Listed(s, p.key) == Data(M.Survivors(old_[p.key], Is(p.obj)));
    assert forall k :: k != p.key ==> Listed(s, k) == Listed(old_, k);
    forall q ensures q in places - {p} <==> At(boxes', q) {
      assert q in places <==> At(boxes, q);
    }
  }

  /** Deleting what is not there changes nothing and frees nothing. */
  lemma DeleteAbsent(boxes: map<Box, Shelf>, places: set<Place>, p: Place)
    requires Filed(boxes, places) && p !in places && p.box in boxes
    ensures M.Delete(boxes[p.box], p.key, Is(p.obj)) == boxes[p.box]
    ensures M.Victims(M.At(boxes[p.box], p.key), Is(p.obj)) == []
  {
    assert Opened(0);
    assert !At(boxes, p);
    DeleteOne(M.At(boxes[p.box], p.key), p.obj);
    if p.key in boxes[p.box] {
      assert boxes[p.box][p.key] != [];
    }
  }

  lemma UpAndDown(extra: map<ObjId, int>, o: ObjId, up: map<ObjId, int>)
    requires o in extra && up == extra[o := extra[o] + 1]
    ensures up[o := up[o] - 1] == extra
  {
  }

  /** A new entry takes a reference over. */
  lemma EntryPut(objs: map<ObjId, Obj>, boxes: map<Box, Shelf>, places: set<Place>, extra: map<ObjId, int>, p: Place)
    returns (extra': map<ObjId, int>)
    requires Filed(boxes, places) && Counted(objs, places, extra) && p.box in boxes && p !in places
    requires p.obj in objs && p.obj in extra && p.key in KeysOf(objs[p.obj])
    ensures Filed(boxes[p.box := M.Insert(boxes[p.box], p.key, Entry(p.key, p.obj))], places + {p})
    ensures Counted(objs, places + {p}, extra')
    ensures extra' == extra[p.obj := extra[p.obj] - 1]
  {
    FiledPlus(boxes, places, p);
    CountedPlus(objs, places, extra, p);
    extra' := extra[p.obj := extra[p.obj] - 1];
  }

  /** The reference an unlinked entry held is outstanding until it is freed. */
  lemma EntryTaken(objs: map<ObjId, Obj>, boxes: map<Box, Shelf>, places: set<Place>, extra: map<ObjId, int>, p: Place)
    returns (extra': map<ObjId, int>)
    requires Filed(boxes, places) && Counted(objs, places, extra) && Paid(extra) && p.box in boxes
    ensures Paid(extra') && Filed(boxes[p.box := M.Delete(boxes[p.box], p.key, Is(p.obj))], places - {p})
    ensures Counted(objs, places - {p}, extra')
    ensures var victims := M.Victims(M.At(boxes[p.box], p.key), Is(p.obj));
            if p in places then
              victims == [p.obj] && p.obj in objs && p.obj in extra && extra' == extra[p.obj := extra[p.obj] + 1] && extra'[p.obj] > 0
            else victims == [] && extra' == extra
  {
    if p in places {
      FiledMinus(boxes, places, p);
      CountedMinus(objs, places, extra, p);
      extra' := extra[p.obj := extra[p.obj] + 1];
      PaidOne(extra, p.obj);
      PaidPlus(extra, p.obj, 1);
    } else {
      DeleteAbsent(boxes, places, p);
      extra' := extra;
      assert boxes[p.box := boxes[p.box]] == boxes && places - {p} == places;
    }
  }

  // what filing and unfiling one object does to the lists of a container

  /** `o` has been put in front of the lists of `b` under the keys `ks`, and nothing else moved. */
  ghost predicate Gains(was: map<Box, Shelf>, now: map<Box, Shelf>, b: Box, ks: set<string>, o: ObjId) {
    forall n: nat {:trigger Opened(n)} :: Opened(n) ==>
      && was.Keys == now.Keys
      && (forall c :: c in was && c != b ==> now[c] == was[c])
      && (b in was ==> forall k :: Listed(now[b], k) == if k in ks then [o] + Listed(was[b], k) else Listed(was[b], k))
  }

  /** `o` has been taken out of the lists of `b` under the keys `ks`, and nothing else moved. */
  ghost predicate Loses(was: map<Box, Shelf>, now: map<Box, Shelf>, b: Box, ks: set<string>, o: ObjId) {
    forall n: nat {:trigger Opened(n)} :: Opened(n) ==>
      && was.Keys == now.Keys
      && (forall c :: c in was && c != b ==> now[c] == was[c])
      && (b in was ==> forall k :: Listed(now[b], k) == if k in ks then Minus(Listed(was[b], k), o) else Listed(was[b], k))
  }

  lemma GainsIs(was: map<Box, Shelf>, now: map<Box, Shelf>, b: Box, ks: set<string>, o: ObjId, c: Box, k: string)
    requires Gains(was, now, b, ks, o) && c in was
    ensures was.Keys == now.Keys
    ensures Listed(now[c], k) == if c == b && k in ks then [o] + Listed(was[c], k) else Listed(was[c], k)
  {
    assert Opened(0);
  }

  lemma GainsVacant(was: map<Box, Shelf>, places: set<Place>, now: map<Box, Shelf>, places': set<Place>,
                    b: Box, ks: set<string>, k: string, o: ObjId)
    requires Gains(was, now, b, ks, o) && Filed(was, places) && Filed(now, places') && b in was && k !in ks
    ensures b in now && (k in now[b] <==> k in was[b])
  {
    GainsIs(was, now, b, ks, o, b, k);
    EntryShelf(was, places, b, k);
    EntryShelf(now, places', b, k);
  }

  lemma GainsKeys(was: map<Box, Shelf>, now: map<Box, Shelf>, b: Box, ks: set<string>, o: ObjId)
    requires Gains(was, now, b, ks, o)
    ensures was.Keys == now.Keys
  {
    assert Opened(0);
  }

  lemma LosesIs(was: map<Box, Shelf>, now: map<Box, Shelf>, b: Box, ks: set<string>, o: ObjId, c: Box, k: string)
    requires Loses(was, now, b, ks, o) && c in was
    ensures was.Keys == now.Keys
    ensures Listed(now[c], k) == if c == b && k in ks then Minus(Listed(was[c], k), o) else Listed(was[c], k)
  {
    assert Opened(0);
  }

  lemma GainsNothing(was: map<Box, Shelf>, b: Box, o: ObjId)
    ensures Gains(was, was, b, {}, o) && Loses(was, was, b, {}, o)
  {
  }

  lemma GainsOne(was: map<Box, Shelf>, b: Box, k: string, o: ObjId)
    requires b in was
    ensures Gains(was, was[b := M.Insert(was[b], k, Entry(k, o))], b, {k}, o)
  {
    var s := M.Insert(was[b], k, Entry(k, o));
    assert Listed(s, k) == [o] + Listed(was[b], k);
    assert forall j :: j != k ==> Listed(s, j) == Listed(was[b], j);
  }

  lemma LosesOne(was: map<Box, Shelf>, places: set<Place>, b: Box, k: string, o: ObjId)
    requires Filed(was, places) && b in was
    ensures Loses(was, was[b := M.Delete(was[b], k, Is(o))], b, {k}, o)
  {
    var s := M.Delete(was[b], k, Is(o));
    EntryIs(was, places, Place(o, b, k));
    DeleteOne(M.At(was[b], k), o);
    assert Listed(s, k) == Minus(Listed(was[b], k), o);
    assert forall j :: j != k ==> Listed(s, j) == Listed(was[b], j);
  }

  lemma GainsThen(was: map<Box, Shelf>, mid: map<Box, Shelf>, now: map<Box, Shelf>, b: Box, ks: set<string>, js: set<string>, o: ObjId)
    requires Gains(was, mid, b, ks, o) && Gains(mid, now, b, js, o) && ks !! js
    ensures Gains(was, now, b, ks + js, o)
  {
    assert Opened(0);
  }

  /** The containers other than `a` and `b` are untouched. */
  ghost predicate Elsewhere(was: map<Box, Shelf>, now: map<Box, Shelf>, a: Box, b: Box) {
    forall n: nat {:trigger Opened(n)} :: Opened(n) ==>
      was.Keys == now.Keys && forall c :: c in was && c != a && c != b ==> now[c] == was[c]
  }

  lemma ElsewhereIs(was: map<Box, Shelf>, now: map<Box, Shelf>, a: Box, b: Box)
    requires Elsewhere(was, now, a, b)
    ensures was.Keys == now.Keys && forall c :: c in was && c != a && c != b ==> now[c] == was[c]
  {
    assert Opened(0);
  }

  lemma ElsewhereSame(was: map<Box, Shelf>, a: Box, b: Box)
    ensures Elsewhere(was, was, a, b)
  {
  }

  lemma ElsewhereThen(was: map<Box, Shelf>, mid: map<Box, Shelf>, now: map<Box, Shelf>, a: Box, b: Box)
    requires Elsewhere(was, mid, a, b) && (Elsewhere(mid, now, a, b) || Elsewhere(mid, now, b, a))
    ensures Elsewhere(was, now, a, b)
  {
    assert Opened(0);
  }

  lemma LosesThen(was: map<Box, Shelf>, mid: map<Box, Shelf>, now: map<Box, Shelf>, b: Box, ks: set<string>, k: string, o: ObjId)
    requires Loses(was, mid, b, ks, o) && Loses(mid, now, b, {k}, o) && k !in ks
    ensures Loses(was, now, b, ks + {k}, o)
  {
    assert Opened(0);
  }

  // walking a list that is being edited

  /** The `next` pointer of the cell that holds `o`. */
  function NextOf(os: seq<ObjId>, o: ObjId): (r: Option<ObjId>)
    requires o in os
  {
    if os[0] == o then First(os[1..]) else NextOf(os[1..], o)
  }

  function First(os: seq<ObjId>): (r: Option<ObjId>) {
    if os == [] then None else Some(os[0])
  }

  lemma {:induction false} AfterMiddle(front: seq<ObjId>, o: ObjId, rest: seq<ObjId>)
    requires o !in front
    ensures o in front + [o] + rest
    ensures NextOf(front + [o] + rest, o) == First(rest)
  {
    var os := front + [o] + rest;
    assert os[|front|] == o;
    if front == [] {
      assert os[1..] == rest;
    } else {
      AfterMiddle(front[1..], o, rest);
      assert os[1..] == front[1..] + [o] + rest;
    }
  }

  /** All entries of the objects `moved` become entries of the container `to`. */
  ghost function Resettle(places: set<Place>, moved: set<ObjId>, to: Box): set<Place> {
    set p | p in places :: if p.obj in moved then Place(p.obj, to, p.key) else p
  }

  /** Those of a list that the hook lets go, or those that it does not, in their order, ... */
  ghost function Chosen(os: seq<ObjId>, accept: ObjId -> bool, accepted: bool): seq<ObjId> {
    if os == [] then []
    else Chosen(os[..|os| - 1], accept, accepted) + if accept(os[|os| - 1]) == accepted then [os[|os| - 1]] else []
  }

  /** ... and last first. */
  ghost function Turned(os: seq<ObjId>): (r: seq<ObjId>)
    ensures |r| == |os| && forall i :: 0 <= i < |r| ==> r[i] == os[|os| - 1 - i]
  {
    seq(|os|, i requires 0 <= i < |os| => os[|os| - 1 - i])
  }

  lemma ChosenNext(os: seq<ObjId>, o: ObjId, accept: ObjId -> bool, accepted: bool)
    ensures Chosen([], accept, accepted) == []
    ensures Chosen(os + [o], accept, accepted) == Chosen(os, accept, accepted) + if accept(o) == accepted then [o] else []
  {
    assert (os + [o])[..|os|] == os;
  }

  /** One more object at the front of the list it goes to. */
  lemma TurnedNext(os: seq<ObjId>, o: ObjId, accept: ObjId -> bool, accepted: bool, was: seq<ObjId>)
    ensures var r := Turned(Chosen(os, accept, accepted));
            && Turned(Chosen(os + [o], accept, accepted)) == (if accept(o) == accepted then [o] + r else r)
            && Turned(Chosen(os + [o], accept, accepted)) + was == (if accept(o) == accepted then [o] + (r + was) else r + was)
  {
    ChosenNext(os, o, accept, accepted);
    var c := Chosen(os, accept, accepted);
    assert Turned(c + [o]) == [o] + Turned(c);
  }

  lemma TurnedNone(accept: ObjId -> bool, accepted: bool, was: seq<ObjId>)
    ensures Turned(Chosen([], accept, accepted)) == [] && Turned(Chosen([], accept, accepted)) + was == was
  {
  }

  ghost function Accepted(os: seq<ObjId>, accept: ObjId -> bool): set<ObjId> {
    set o | o in os && accept(o)
  }

  ghost function Refused(os: seq<ObjId>, accept: ObjId -> bool): set<ObjId> {
    set o | o in os && !accept(o)
  }

  /** One more outstanding reference for each of `who`. */
  ghost function Owed(extra: map<ObjId, int>, who: set<ObjId>): map<ObjId, int> {
    map o | o in extra :: if o in who then extra[o] + 1 else extra[o]
  }

  ghost function Held(objs: map<ObjId, Obj>, who: set<ObjId>): map<ObjId, Obj> {
    map o | o in objs :: if o in who then objs[o].(refs := objs[o].refs + 1) else objs[o]
  }

  lemma SplitRest(front: seq<ObjId>, rest: seq<ObjId>)
    requires rest != []
    ensures front + rest == front + [rest[0]] + rest[1..]
  {
  }

  /** The entries of all objects but `gone`. */
  ghost function Strip(places: set<Place>, gone: seq<ObjId>): set<Place> {
    set p | p in places && p.obj !in gone
  }

  lemma StripNext(places: set<Place>, gone: seq<ObjId>, o: ObjId)
    ensures Strip(places, []) == places
    ensures Strip(places, gone + [o]) == Strip(places, gone) - Of(Strip(places, gone), o)
    ensures Strip(places, gone + [o]) <= Strip(places, gone)
  {
  }

  // freeing a whole list, a whole container

  ghost function Elems(os: seq<ObjId>): set<ObjId> { set o | o in os }

  /** The entries left when `b` loses the key `k`. */
  ghost function Unkeyed(places: set<Place>, b: Box, k: string): set<Place> {
    set p | p in places && !(p.box == b && p.key == k)
  }

  lemma FiledKeyTaken(boxes: map<Box, Shelf>, places: set<Place>, b: Box, k: string)
    requires Filed(boxes, places) && b in boxes
    ensures Filed(boxes[b := boxes[b] - {k}], Unkeyed(places, b, k))
  {
    assert Opened(0);
    var s := boxes[b] - {k};
    assert forall j :: j != k ==> Listed(s, j) == Listed(boxes[b], j);
    forall q ensures q in Unkeyed(places, b, k) <==> At(boxes[b := s], q) {
      assert q in places <==> At(boxes, q);
    }
  }

  /** Taking a key out of a container: each object of its list holds one reference to give back. */
  lemma CountedKeyTaken(objs: map<ObjId, Obj>, boxes: map<Box, Shelf>, places: set<Place>, extra: map<ObjId, int>, b: Box, k: string)
    requires Filed(boxes, places) && Counted(objs, places, extra) && Paid(extra) && b in boxes
    ensures Paid(Owed(extra, Elems(Listed(boxes[b], k))))
    ensures Counted(objs, Unkeyed(places, b, k), Owed(extra, Elems(Listed(boxes[b], k))))
    ensures NoRepeats(Listed(boxes[b], k))
    ensures forall o :: o in Listed(boxes[b], k) ==> o in objs && o in extra && extra[o] >= 0
  {
    var os := Listed(boxes[b], k);
    EntryIs(boxes, places, Place(0, b, k));
    forall o ensures |Of(Unkeyed(places, b, k), o)| == |Of(places, o)| - if o in os then 1 else 0 {
      var p := Place(o, b, k);
      EntryIs(boxes, places, p);
      if o in os {
        assert Of(Unkeyed(places, b, k), o) == Of(places, o) - {p};
      } else {
        assert Of(Unkeyed(places, b, k), o) == Of(places, o);
      }
    }
    forall o | o in os ensures o in objs && o in extra && extra[o] >= 0 {
      EntryIs(boxes, places, Place(o, b, k));
      EntryLive(objs, places, extra, Place(o, b, k));
      RefsAre(objs, places, extra, o);
      PaidOne(extra, o);
    }
    PaidLess(extra, Owed(extra, Elems(os)));
    assert Opened(0);
  }

  lemma BoxGone(boxes: map<Box, Shelf>, places: set<Place>, b: Box)
    requires Filed(boxes, places) && forall p :: p in places ==> p.box != b
    ensures Filed(boxes - {b}, places)
  {
    assert Opened(0);
    forall q ensures q in places <==> At(boxes - {b}, q) {
      assert q in places <==> At(boxes, q);
    }
  }

  /** A new alias, not yet filed. */
  lemma CountedAlias(objs: map<ObjId, Obj>, places: set<Place>, extra: map<ObjId, int>, o: ObjId, alias: string)
    requires Counted(objs, places, extra) && o in objs && alias !in KeysOf(objs[o])
    ensures Counted(objs[o := objs[o].(aliases := [alias] + objs[o].aliases)], places, extra)
  {
    assert Opened(0);
  }

  lemma CountedNew(objs: map<ObjId, Obj>, places: set<Place>, extra: map<ObjId, int>, o: ObjId, name: string)
    requires Counted(objs, places, extra) && o !in objs
    ensures Counted(objs[o := Obj(name, [], 1)], places, extra[o := 1])
    ensures Of(places, o) == {} && forall p :: p in places ==> p.obj in objs
  {
    assert Opened(0);
    assert Of(places, o) == {};
  }

  lemma BoxNew(boxes: map<Box, Shelf>, places: set<Place>, b: Box)
    requires Filed(boxes, places) && b !in boxes
    ensures Filed(boxes[b := map[]], places)
  {
    assert Opened(0);
    forall q ensures q in places <==> At(boxes[b := map[]], q) {
      assert q in places <==> At(boxes, q);
    }
  }

  /** A key is present exactly when its list is not empty. */
  lemma EntryShelf(boxes: map<Box, Shelf>, places: set<Place>, b: Box, k: string)
    requires Filed(boxes, places) && b in boxes
    ensures k in boxes[b] <==> Listed(boxes[b], k) != []
  {
    assert Opened(0);
    assert M.NoEmptyList(boxes[b]);
  }
}
