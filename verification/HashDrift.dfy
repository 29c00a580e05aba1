/** How far the two counters of src/hash.c stray from what they count, over every run. */
module HashDrift {
  import opened HashSpec
  import opened Wrappers
  import opened HashLaws
  import opened HashCount

  /** Since the last recount: removals of a head that left its chain non-empty, and
      deletions of an internal node. */
  datatype Drift = Drift(heads: nat, nodes: nat)

  const NONE: Drift := Drift(0, 0)

  /** Removing `k` takes the head of a chain of two or more. */
  predicate Beheads<K, C(==), V>(ops: KeyOps<K, C>, t: Table<K, V>, k: K)
    requires |t.buckets| > 0
  {
    var chain := t.buckets[Home(ops, t, k)];
    |chain| > 1 && Pos(ops, chain, k) == 0
  }

  function DriftStep<K, C(==), V>(ops: KeyOps<K, C>, t: Table<K, V>, op: Op<K, V>, d: Drift): Drift
    requires |t.buckets| > 0
  {
    match op
    case OpInsert(k, v) => if Lookup(ops, t, k) == None && Grows(ops, t, k) then NONE else d
    case OpOverwrite(k, v) => if Lookup(ops, t, k) == None && Grows(ops, t, k) then NONE else d
    case OpRemove(k) => if Beheads(ops, t, k) then d.(heads := d.heads + 1) else d
    case OpDelNode(k) =>
      Drift(if Beheads(ops, t, k) then d.heads + 1 else d.heads,
            if Lookup(ops, t, k).Some? then d.nodes + 1 else d.nodes)
    case OpResize(n) => if n == |t.buckets| then d else NONE
  }

  function DriftRun<K, C(==), V>(ops: KeyOps<K, C>, t: Table<K, V>, trace: seq<Op<K, V>>, d: Drift): Drift
    requires |t.buckets| > 0
    decreases |trace|
  {
    if trace == [] then d
    else
      var t' := Step(ops, t, trace[0]);
      var d' := DriftStep(ops, t, trace[0], d);
      if |t'.buckets| == 0 then d' else DriftRun(ops, t', trace[1..], d')
  }

  ghost predicate Tracks<K, V>(t: Table<K, V>, d: Drift) {
    && t.usedBuckets == NonEmpty(t.buckets) - d.heads
    && t.nEntries == Total(t.buckets) + d.nodes
  }

  lemma InsertNewTracks<K, C, V>(ops: KeyOps<K, C>, t: Table<K, V>, e: Entry<K, V>, d: Drift)
    requires |t.buckets| > 0 && Tracks(t, d)
    ensures Tracks(InsertNew(ops, t, e), if Grows(ops, t, e.key) then NONE else d)
  {
    var i := Home(ops, t, e.key);
    TotalUpdate(t.buckets, i, t.buckets[i] + [e]);
    NonEmptyUpdate(t.buckets, i, t.buckets[i] + [e]);
    ResizeRecounts(ops, Linked(ops, t, e), |t.buckets| * 2);
  }

  lemma UnlinkTracks<K, C, V>(ops: KeyOps<K, C>, t: Table<K, V>, k: K, d: Drift)
    requires |t.buckets| > 0 && Tracks(t, d) && Lookup(ops, t, k).Some?
    ensures Tracks(Unlink(ops, t, k), Drift(if Beheads(ops, t, k) then d.heads + 1 else d.heads, d.nodes + 1))
  {
    var i := Home(ops, t, k);
    var rest := Without(t.buckets[i], Pos(ops, t.buckets[i], k));
    TotalUpdate(t.buckets, i, rest);
    NonEmptyUpdate(t.buckets, i, rest);
  }

  lemma StepTracks<K, C, V>(ops: KeyOps<K, C>, t: Table<K, V>, op: Op<K, V>, d: Drift)
    requires |t.buckets| > 0 && Tracks(t, d)
    ensures |Step(ops, t, op).buckets| > 0
    ensures Tracks(Step(ops, t, op), DriftStep(ops, t, op, d))
  {
    match op
    case OpInsert(k, v) => InsertNewTracks(ops, t, Entry(k, v), d);
    case OpOverwrite(k, v) =>
      var i := Home(ops, t, k);
      var p := Pos(ops, t.buckets[i], k);
      if p < |t.buckets[i]| {
        TotalUpdate(t.buckets, i, t.buckets[i][p := Entry(k, v)]);
        NonEmptyUpdate(t.buckets, i, t.buckets[i][p := Entry(k, v)]);
      } else {
        InsertNewTracks(ops, t, Entry(k, v), d);
      }
    case OpRemove(k) => if Lookup(ops, t, k).Some? { UnlinkTracks(ops, t, k, d); }
    case OpDelNode(k) => if Lookup(ops, t, k).Some? { UnlinkTracks(ops, t, k, d); }
    case OpResize(n) => if n != |t.buckets| { ResizeRecounts(ops, t, n); }
  }

  /** The drift is exact over every run from a fresh table; a resize then passes its own
      assertion exactly when the internal-node deletions since the last recount are 0 modulo
      2^64, and either way leaves both counters exact. */
  lemma {:induction false} DriftIsExact<K, C, V>(ops: KeyOps<K, C>, t: Table<K, V>, trace: seq<Op<K, V>>, d: Drift, n: positive)
    requires |t.buckets| > 0 && Tracks(t, d)
    ensures |Run(ops, t, trace).buckets| > 0
    ensures Tracks(Run(ops, t, trace), DriftRun(ops, t, trace, d))
    ensures n != |Run(ops, t, trace).buckets| ==>
              && (ResizeCheck(ops, Run(ops, t, trace), n) <==> Size(DriftRun(ops, t, trace, d).nodes) == 0)
              && Exact(Resize(ops, Run(ops, t, trace), n))
    decreases |trace|
  {
    if trace == [] {
      if n != |t.buckets| {
        ResizeRecounts(ops, t, n);
        SizeSum(Total(t.buckets), d.nodes);
      }
    } else {
      StepTracks(ops, t, trace[0], d);
      DriftIsExact(ops, Step(ops, t, trace[0]), trace[1..], DriftStep(ops, t, trace[0], d), n);
    }
  }

  /** With no internal-node deletion outstanding, no insertion can fail the resize check. */
  lemma InsertCheckTracks<K, C, V>(ops: KeyOps<K, C>, t: Table<K, V>, e: Entry<K, V>, d: Drift)
    requires |t.buckets| > 0 && Tracks(t, d)
    ensures InsertNewCheck(ops, t, e) <==> !Grows(ops, t, e.key) || Size(d.nodes) == 0
  {
    var i, t' := Home(ops, t, e.key), Linked(ops, t, e);
    TotalUpdate(t.buckets, i, t.buckets[i] + [e]);
    ResizeRecounts(ops, t', |t.buckets| * 2);
    SizeSum(Total(t'.buckets), d.nodes);
  }

  lemma SizeSum(a: nat, b: nat)
    ensures Size(a + b) == Size(a) <==> Size(b) == 0
  {
    var q, r := a / SIZE_MOD, a % SIZE_MOD;
    var q', r' := b / SIZE_MOD, b % SIZE_MOD;
    assert a + b == (q + q') * SIZE_MOD + (r + r');
    if r + r' < SIZE_MOD {
      ModIs(a + b, q + q', r + r');
    } else {
      ModIs(a + b, q + q' + 1, r + r' - SIZE_MOD);
    }
  }

  lemma ModIs(n: int, q: int, r: nat)
    requires r < SIZE_MOD && n == q * SIZE_MOD + r
    ensures n % SIZE_MOD == r
  {
  }

  lemma {:induction false} InsertAllRefines<K(!new), C, V>(ops: KeyOps<K, C>, sz: nat, es: Chain<K, V>)
    requires Compatible(ops) && NormDistinct(ops, es)
    ensures WF(ops, InsertAll(ops, Init(sz), es))
    ensures Abs(ops, InsertAll(ops, Init(sz), es)) == MapOf(ops, es)
  {
    InitIsEmpty<K, C, V>(ops, sz);
    if es != [] {
      var front, e := es[..|es| - 1], es[|es| - 1];
      InsertAllRefines(ops, sz, front);
      var t := InsertAll(ops, Init(sz), front);
      LookupIsGet(ops, t, e.key);
      MapLast(ops, es);
      InsertNewRefines(ops, t, e.key, e.data);
    }
  }

  lemma MapLast<K(!new), C, V>(ops: KeyOps<K, C>, es: Chain<K, V>)
    requires NormDistinct(ops, es) && es != []
    ensures var front, e := es[..|es| - 1], es[|es| - 1];
            && NormDistinct(ops, front) && ops.norm(e.key) !in MapOf(ops, front)
            && MapOf(ops, es) == MapOf(ops, front)[ops.norm(e.key) := e.data]
  {
    var front, e := es[..|es| - 1], es[|es| - 1];
    assert es == front + [e];
    MapPut(ops, front, es, e);
  }

  lemma {:induction false} MapCard<K(!new), C, V>(ops: KeyOps<K, C>, es: Chain<K, V>)
    requires NormDistinct(ops, es)
    ensures |MapOf(ops, es)| == |es|
  {
    if es == [] {
      assert MapOf(ops, es) == map[];
    } else {
      MapLast(ops, es);
      MapCard(ops, es[..|es| - 1]);
    }
  }

  lemma {:induction false} NoNodes<K, C, V>(ops: KeyOps<K, C>, t: Table<K, V>, trace: seq<Op<K, V>>, d: Drift)
    requires |t.buckets| > 0 && d.nodes == 0 && forall i :: 0 <= i < |trace| ==> !trace[i].OpDelNode?
    ensures DriftRun(ops, t, trace, d).nodes == 0
    decreases |trace|
  {
    if trace != [] {
      var t', d' := Step(ops, t, trace[0]), DriftStep(ops, t, trace[0], d);
      if |t'.buckets| > 0 { NoNodes(ops, t', trace[1..], d'); }
    }
  }

  /** hash_size is the number of keys exactly as long as no internal-node deletion is outstanding, and
      so always in a table that is never deleted from in that way. */
  lemma SizeIsCount<K(!new), C, V>(ops: KeyOps<K, C>, sz: nat, trace: seq<Op<K, V>>)
    requires Compatible(ops)
    ensures var t, d := Run(ops, Init(sz), trace), DriftRun(ops, Init(sz), trace, NONE);
            && WF(ops, t)
            && (Size(t.nEntries) == Size(|Abs(ops, t)|) <==> Size(d.nodes) == 0)
            && ((forall i :: 0 <= i < |trace| ==> !trace[i].OpDelNode?) ==> t.nEntries == |Abs(ops, t)|)
  {
    var start := Init<K, V>(sz);
    var t, d := Run(ops, start, trace), DriftRun(ops, start, trace, NONE);
    InitIsEmpty<K, C, V>(ops, sz);
    InitExact<K, V>(sz);
    RunWF(ops, start, trace);
    DriftIsExact(ops, start, trace, NONE, 1);
    SizeTracks(ops, t, d);
    if forall i :: 0 <= i < |trace| ==> !trace[i].OpDelNode? { NoNodes(ops, start, trace, NONE); }
  }

  lemma SizeTracks<K(!new), C, V>(ops: KeyOps<K, C>, t: Table<K, V>, d: Drift)
    requires Compatible(ops) && WF(ops, t) && Tracks(t, d)
    ensures Size(t.nEntries) == Size(|Abs(ops, t)|) <==> Size(d.nodes) == 0
    ensures d.nodes == 0 ==> t.nEntries == |Abs(ops, t)|
  {
    EntriesDistinct(ops, t.buckets);
    MapCard(ops, Flat(t.buckets));
    FlatLength(t.buckets);
    SizeSum(Total(t.buckets), d.nodes);
  }

  lemma {:induction false} RunWF<K(!new), C, V>(ops: KeyOps<K, C>, t: Table<K, V>, trace: seq<Op<K, V>>)
    requires Compatible(ops) && WF(ops, t)
    ensures WF(ops, Run(ops, t, trace))
    decreases |trace|
  {
    if trace != [] {
      StepRefines(ops, t, trace[0]);
      RunWF(ops, Step(ops, t, trace[0]), trace[1..]);
    }
  }

  /** Duplicating a table copies the data of every key and gives exact counters, however far the
      original's counters had drifted. */
  lemma DupRefines<K(!new), C, V>(ops: KeyOps<K, C>, t: Table<K, V>, dup: V -> V)
    requires Compatible(ops) && WF(ops, t)
    ensures var copy := InsertAll(ops, Init(|t.buckets|), Copies(Flat(t.buckets), dup));
            && WF(ops, copy) && Exact(copy)
            && Abs(ops, copy) == map c | c in Abs(ops, t) :: dup(Abs(ops, t)[c])
  {
    EntriesDistinct(ops, t.buckets);
    DupList(ops, |t.buckets|, Flat(t.buckets), dup);
  }

  lemma DupList<K(!new), C, V>(ops: KeyOps<K, C>, sz: nat, es: Chain<K, V>, dup: V -> V)
    requires Compatible(ops) && NormDistinct(ops, es)
    ensures var copy := InsertAll(ops, Init(sz), Copies(es, dup));
            && WF(ops, copy) && Exact(copy)
            && Abs(ops, copy) == map c | c in MapOf(ops, es) :: dup(MapOf(ops, es)[c])
  {
    CopiesMap(ops, es, dup);
    InsertAllRefines(ops, sz, Copies(es, dup));
    InsertAllExact(ops, sz, Copies(es, dup));
  }

  lemma CopiesMap<K, C, V>(ops: KeyOps<K, C>, es: Chain<K, V>, dup: V -> V)
    requires NormDistinct(ops, es)
    ensures NormDistinct(ops, Copies(es, dup))
    ensures MapOf(ops, Copies(es, dup)) == map c | c in MapOf(ops, es) :: dup(MapOf(ops, es)[c])
  {
    CopiesDistinct(ops, es, dup);
    var m, m' := MapOf(ops, es), MapOf(ops, Copies(es, dup));
    forall c ensures (c in m' <==> c in m) && (c in m ==> m'[c] == dup(m[c])) {
      CopiesGet(ops, es, dup, c);
    }
    Pointwise(m, m', dup);
  }

  lemma Pointwise<C, V>(m: map<C, V>, m': map<C, V>, dup: V -> V)
    requires forall c :: (c in m' <==> c in m) && (c in m ==> m'[c] == dup(m[c]))
    ensures m' == map c | c in m :: dup(m[c])
  {
  }

  lemma CopiesDistinct<K, C, V>(ops: KeyOps<K, C>, es: Chain<K, V>, dup: V -> V)
    requires NormDistinct(ops, es)
    ensures NormDistinct(ops, Copies(es, dup))
  {
    forall i: nat | i < |es| ensures Copies(es, dup)[i].key == es[i].key { CopiesAt(es, dup, i); }
  }

  lemma CopiesGet<K, C, V>(ops: KeyOps<K, C>, es: Chain<K, V>, dup: V -> V, c: C)
    requires NormDistinct(ops, es) && NormDistinct(ops, Copies(es, dup))
    ensures var m, m' := MapOf(ops, es), MapOf(ops, Copies(es, dup));
            (c in m' <==> c in m) && (c in m ==> m'[c] == dup(m[c]))
  {
    if c in MapOf(ops, es) {
      var i := MapIndex(ops, es, c);
      CopiesAt(es, dup, i);
      MapAt(ops, Copies(es, dup), i);
    } else if c in MapOf(ops, Copies(es, dup)) {
      var i := MapIndex(ops, Copies(es, dup), c);
      CopiesAt(es, dup, i);
      MapAt(ops, es, i);
    }
  }

  lemma MapIndex<K, C, V>(ops: KeyOps<K, C>, es: Chain<K, V>, c: C) returns (i: nat)
    requires NormDistinct(ops, es) && c in MapOf(ops, es)
    ensures i < |es| && ops.norm(es[i].key) == c && MapOf(ops, es)[c] == es[i].data
  {
    var e :| e in es && ops.norm(e.key) == c && MapOf(ops, es)[c] == e.data;
    i :| i < |es| && es[i] == e;
  }

  lemma MapAt<K, C, V>(ops: KeyOps<K, C>, es: Chain<K, V>, i: nat)
    requires NormDistinct(ops, es) && i < |es|
    ensures ops.norm(es[i].key) in MapOf(ops, es) && MapOf(ops, es)[ops.norm(es[i].key)] == es[i].data
  {
    assert es[i] in es;
  }

  // filling a table bucket by bucket

  /** The keys `ks`, one to a bucket, are all the table holds. */
  ghost predicate Filling<K, C, V>(ops: KeyOps<K, C>, t: Table<K, V>, ks: seq<K>, sz: nat) {
    && sz > 0 && |t.buckets| == sz && t.usedBuckets == |ks|
    && forall i :: 0 <= i < sz ==> (t.buckets[i] == [] <==> forall k :: k in ks ==> ops.hash(k) % sz != i)
  }

  ghost predicate Spaced<K, C>(ops: KeyOps<K, C>, ks: seq<K>, sz: nat)
    requires sz > 0
  {
    forall i, j :: 0 <= i < j < |ks| ==> ops.hash(ks[i]) % sz != ops.hash(ks[j]) % sz
  }

  /** The next key goes into a fresh bucket, which is when the load is looked at. */
  lemma FillNext<K, C, V>(ops: KeyOps<K, C>, t: Table<K, V>, ks: seq<K>, sz: nat, n: nat)
    requires n < |ks| && sz > 0 && Filling(ops, t, ks[..n], sz) && Spaced(ops, ks, sz)
    ensures t.buckets[Home(ops, t, ks[n])] == [] && (Grows(ops, t, ks[n]) <==> OverLoaded(n + 1, sz))
  {
  }

  lemma FillMore<K, C, V>(ops: KeyOps<K, C>, t: Table<K, V>, ks: seq<K>, sz: nat, n: nat, v: V)
    requires n < |ks| && sz > 0 && Filling(ops, t, ks[..n], sz) && Spaced(ops, ks, sz) && !OverLoaded(n + 1, sz)
    ensures Filling(ops, InsertNew(ops, t, Entry(ks[n], v)), ks[..n + 1], sz)
  {
    FillNext(ops, t, ks, sz, n);
    var h, t' := Home(ops, t, ks[n]), Linked(ops, t, Entry(ks[n], v));
    assert forall k :: k in ks[..n + 1] <==> k in ks[..n] || k == ks[n];
    forall i | 0 <= i < sz ensures t'.buckets[i] == [] <==> forall k :: k in ks[..n + 1] ==> ops.hash(k) % sz != i {
      if i == h {
        assert ks[n] in ks[..n + 1];
      } else {
        assert t'.buckets[i] == t.buckets[i];
      }
    }
  }

  /** A first key inserted and taken out again leaves a table as good as empty. */
  lemma FillEmpty<K, C, V>(ops: KeyOps<K, C>, k: K, v: V, sz: nat)
    requires sz > 0 && !OverLoaded(1, sz)
    ensures var t := Init<K, V>(sz);
            && !Grows(ops, t, k) && Filling(ops, InsertNew(ops, t, Entry(k, v)), [k], sz)
            && !Beheads(ops, InsertNew(ops, t, Entry(k, v)), k)
            && Filling(ops, Unlink(ops, InsertNew(ops, t, Entry(k, v)), k), [], sz)
  {
    var t := Init<K, V>(sz);
    var h, t' := Home(ops, t, k), InsertNew(ops, t, Entry(k, v));
    assert t'.buckets[h] == [Entry(k, v)] && k in [k];
    assert [Entry(k, v)][1..] == [];
    assert Pos(ops, t'.buckets[h], k) == 0;
    assert Without(t'.buckets[h], 0) == [];
    assert forall i :: 0 <= i < sz && i != h ==> t'.buckets[i] == [];
  }
}
