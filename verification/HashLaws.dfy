/** Over every run of insert, overwrite, remove, internal-node deletion and resize the table
    of src/hash.c refines a finite map. */
module HashLaws {
  import opened HashSpec
  import opened Wrappers

  // entries as a set

  lemma {:induction false} InFlat<K, V>(b: seq<Chain<K, V>>, e: Entry<K, V>)
    ensures e in Flat(b) <==> exists i :: 0 <= i < |b| && e in b[i]
  {
    if b != [] {
      InFlat(b[1..], e);
      if e in Flat(b[1..]) {
        var i :| 0 <= i < |b[1..]| && e in b[1..][i];
        assert e in b[i + 1];
      }
      if i :| 0 <= i < |b| && e in b[i] {
        assert i > 0 ==> e in b[1..][i - 1];
      }
    }
  }

  ghost predicate Apart<K, C, V>(ops: KeyOps<K, C>, x: Chain<K, V>, y: Chain<K, V>) {
    forall i, j :: 0 <= i < |x| && 0 <= j < |y| ==> ops.norm(x[i].key) != ops.norm(y[j].key)
  }

  ghost predicate NormDistinct<K, C, V>(ops: KeyOps<K, C>, es: Chain<K, V>) {
    forall i, j :: 0 <= i < j < |es| ==> ops.norm(es[i].key) != ops.norm(es[j].key)
  }

  lemma {:induction false} FlatDistinct<K, C, V>(ops: KeyOps<K, C>, b: seq<Chain<K, V>>)
    requires forall i :: 0 <= i < |b| ==> NormDistinct(ops, b[i])
    requires forall i, j :: 0 <= i < j < |b| ==> Apart(ops, b[i], b[j])
    ensures NormDistinct(ops, Flat(b))
  {
    if b != [] {
      var rest := b[1..];
      assert forall i, j :: 0 <= i < j < |rest| ==> Apart(ops, rest[i], rest[j]) by {
        assert forall i :: 0 <= i < |rest| ==> rest[i] == b[i + 1];
      }
      FlatDistinct(ops, rest);
      forall i, j | 0 <= i < |b[0]| && 0 <= j < |Flat(rest)|
        ensures ops.norm(b[0][i].key) != ops.norm(Flat(rest)[j].key)
      {
        InFlat(rest, Flat(rest)[j]);
        var l :| 0 <= l < |rest| && Flat(rest)[j] in rest[l];
        assert Apart(ops, b[0], b[l + 1]);
      }
    }
  }

  lemma EntriesDistinct<K(!new), C, V>(ops: KeyOps<K, C>, b: seq<Chain<K, V>>)
    requires Compatible(ops) && BucketsWF(ops, b)
    ensures NormDistinct(ops, Flat(b))
  {
    forall i, j | 0 <= i < j < |b| ensures Apart(ops, b[i], b[j]) {
      assert ChainWF(ops, b[i], i, |b|) && ChainWF(ops, b[j], j, |b|);
    }
    forall i | 0 <= i < |b| ensures NormDistinct(ops, b[i]) {
      assert ChainWF(ops, b[i], i, |b|);
    }
    FlatDistinct(ops, b);
  }

  // the abstract map

  /** The finite map a list of entries denotes. */
  ghost function MapOf<K, C, V>(ops: KeyOps<K, C>, es: Chain<K, V>): map<C, V>
    requires NormDistinct(ops, es)
  {
    map e | e in es :: ops.norm(e.key) := e.data
  }

  ghost function Abs<K(!new), C, V>(ops: KeyOps<K, C>, t: Table<K, V>): map<C, V>
    requires Compatible(ops) && WF(ops, t)
  {
    EntriesDistinct(ops, t.buckets);
    MapOf(ops, Flat(t.buckets))
  }

  ghost function Get<C, V>(m: map<C, V>, c: C): Option<V> {
    if c in m then Some(m[c]) else None
  }

  /** Every entry whose key compares equal to `k` lies in the chain `k` hashes to. */
  lemma InHome<K(!new), C, V>(ops: KeyOps<K, C>, t: Table<K, V>, k: K, e: Entry<K, V>)
    requires Compatible(ops) && WF(ops, t)
    requires ops.norm(e.key) == ops.norm(k)
    ensures e in Flat(t.buckets) <==> e in t.buckets[Home(ops, t, k)]
  {
    InFlat(t.buckets, e);
    if e in Flat(t.buckets) {
      var l :| 0 <= l < |t.buckets| && e in t.buckets[l];
      assert ChainWF(ops, t.buckets[l], l, |t.buckets|);
    }
  }

  /** Lookup answers exactly what the abstract map holds. */
  lemma LookupIsGet<K(!new), C, V>(ops: KeyOps<K, C>, t: Table<K, V>, k: K)
    requires Compatible(ops) && WF(ops, t)
    ensures Lookup(ops, t, k) == Get(Abs(ops, t), ops.norm(k))
  {
    EntriesDistinct(ops, t.buckets);
    var chain := t.buckets[Home(ops, t, k)];
    forall e: Entry<K, V> | ops.norm(e.key) == ops.norm(k) ensures e in Flat(t.buckets) <==> e in chain {
      InHome(ops, t, k, e);
    }
    var p, m := Pos(ops, chain, k), MapOf(ops, Flat(t.buckets));
    if p < |chain| {
      assert chain[p] in Flat(t.buckets);
    } else {
      assert ops.norm(k) !in m;
    }
  }

  /** Two lists with the same entries denote the same map. */
  lemma SameMap<K, C, V>(ops: KeyOps<K, C>, x: Chain<K, V>, y: Chain<K, V>)
    requires NormDistinct(ops, x) && NormDistinct(ops, y)
    requires forall e :: e in x <==> e in y
    ensures MapOf(ops, x) == MapOf(ops, y)
  {
  }

  /** Dropping the entries with one key removes that key from the map. */
  lemma MapDrop<K, C, V>(ops: KeyOps<K, C>, x: Chain<K, V>, y: Chain<K, V>, c: C)
    requires NormDistinct(ops, x) && NormDistinct(ops, y)
    requires forall e :: e in y <==> e in x && ops.norm(e.key) != c
    ensures MapOf(ops, y) == MapOf(ops, x) - {c}
  {
  }

  /** Replacing the entries with one key by `e` updates the map at that key. */
  lemma MapPut<K, C, V>(ops: KeyOps<K, C>, x: Chain<K, V>, y: Chain<K, V>, e: Entry<K, V>)
    requires NormDistinct(ops, x) && NormDistinct(ops, y)
    requires forall z :: z in y <==> z == e || (z in x && ops.norm(z.key) != ops.norm(e.key))
    ensures MapOf(ops, y) == MapOf(ops, x)[ops.norm(e.key) := e.data]
  {
    assert e in y;
  }

  /** One chain replaced: which entries the table then has. */
  lemma ReplacedEntries<K, V>(b: seq<Chain<K, V>>, i: nat, chain: Chain<K, V>, e: Entry<K, V>)
    requires i < |b|
    ensures e in Flat(b[i := chain]) <==> e in chain || exists j :: 0 <= j < |b| && j != i && e in b[j]
  {
    var b' := b[i := chain];
    InFlat(b', e);
    if e in Flat(b') {
      var j :| 0 <= j < |b'| && e in b'[j];
      assert j != i ==> e in b[j];
    }
    if e in chain { assert e in b'[i]; }
    if j :| 0 <= j < |b| && j != i && e in b[j] { assert e in b'[j]; }
  }

  // each operation keeps the table well formed and acts on the map

  lemma LinkedWF<K(!new), C, V>(ops: KeyOps<K, C>, t: Table<K, V>, k: K, v: V)
    requires Compatible(ops) && WF(ops, t) && Lookup(ops, t, k) == None
    ensures WF(ops, Linked(ops, t, Entry(k, v)))
  {
    var i := Home(ops, t, k);
    assert ChainWF(ops, t.buckets[i], i, |t.buckets|);
    assert ChainWF(ops, Linked(ops, t, Entry(k, v)).buckets[i], i, |t.buckets|);
  }

  lemma LinkedRefines<K(!new), C, V>(ops: KeyOps<K, C>, t: Table<K, V>, k: K, v: V)
    requires Compatible(ops) && WF(ops, t) && Lookup(ops, t, k) == None
    ensures WF(ops, Linked(ops, t, Entry(k, v)))
    ensures Abs(ops, Linked(ops, t, Entry(k, v))) == Abs(ops, t)[ops.norm(k) := v]
  {
    var e, i := Entry(k, v), Home(ops, t, k);
    var t' := Linked(ops, t, e);
    LinkedWF(ops, t, k, v);
    forall x ensures x in Flat(t'.buckets) <==> x == e || x in Flat(t.buckets) {
      ReplacedEntries(t.buckets, i, t'.buckets[i], x);
      InFlat(t.buckets, x);
    }
    EntriesDistinct(ops, t.buckets);
    EntriesDistinct(ops, t'.buckets);
    forall x | x in Flat(t.buckets) ensures ops.norm(x.key) != ops.norm(k) {
      if ops.norm(x.key) == ops.norm(k) { InHome(ops, t, k, x); }
    }
    MapPut(ops, Flat(t.buckets), Flat(t'.buckets), e);
  }

  lemma UnlinkRefines<K(!new), C, V>(ops: KeyOps<K, C>, t: Table<K, V>, k: K)
    requires Compatible(ops) && WF(ops, t)
    ensures WF(ops, Unlink(ops, t, k))
    ensures Abs(ops, Unlink(ops, t, k)) == Abs(ops, t) - {ops.norm(k)}
  {
    var i := Home(ops, t, k);
    var chain, t' := t.buckets[i], Unlink(ops, t, k);
    var p := Pos(ops, chain, k);
    LookupIsGet(ops, t, k);
    if p < |chain| {
      assert ChainWF(ops, chain, i, |t.buckets|);
      assert ChainWF(ops, t'.buckets[i], i, |t.buckets|);
      forall x ensures x in Flat(t'.buckets) <==> x in Flat(t.buckets) && ops.norm(x.key) != ops.norm(k) {
        UnlinkedEntries(ops, t, k, x);
      }
      EntriesDistinct(ops, t.buckets);
      EntriesDistinct(ops, t'.buckets);
      MapDrop(ops, Flat(t.buckets), Flat(t'.buckets), ops.norm(k));
    }
  }

  lemma UnlinkedEntries<K(!new), C, V>(ops: KeyOps<K, C>, t: Table<K, V>, k: K, x: Entry<K, V>)
    requires Compatible(ops) && WF(ops, t) && Lookup(ops, t, k).Some?
    ensures x in Flat(Unlink(ops, t, k).buckets) <==> x in Flat(t.buckets) && ops.norm(x.key) != ops.norm(k)
  {
    var i := Home(ops, t, k);
    var chain := t.buckets[i];
    var p := Pos(ops, chain, k);
    assert ChainWF(ops, chain, i, |t.buckets|);
    ReplacedEntries(t.buckets, i, Without(chain, p), x);
    InFlat(t.buckets, x);
    if ops.norm(x.key) == ops.norm(k) {
      InHome(ops, t, k, x);
      forall j | 0 <= j < |t.buckets| && j != i ensures x !in t.buckets[j] {
        assert ChainWF(ops, t.buckets[j], j, |t.buckets|);
      }
    } else if x in chain {
      var j :| 0 <= j < |chain| && chain[j] == x;
      assert x == Without(chain, p)[if j < p then j else j - 1];
    }
  }

  lemma OverwrittenRefines<K(!new), C, V>(ops: KeyOps<K, C>, t: Table<K, V>, k: K, v: V)
    requires Compatible(ops) && WF(ops, t) && Lookup(ops, t, k).Some?
    ensures WF(ops, Overwrite(ops, t, k, v))
    ensures Abs(ops, Overwrite(ops, t, k, v)) == Abs(ops, t)[ops.norm(k) := v]
  {
    var e, i := Entry(k, v), Home(ops, t, k);
    var chain, t' := t.buckets[i], Overwrite(ops, t, k, v);
    var p := Pos(ops, chain, k);
    assert ChainWF(ops, chain, i, |t.buckets|);
    assert ChainWF(ops, t'.buckets[i], i, |t.buckets|);
    forall x ensures x in Flat(t'.buckets) <==> x == e || (x in Flat(t.buckets) && ops.norm(x.key) != ops.norm(k)) {
      UnlinkedEntries(ops, t, k, x);
      ReplacedEntries(t.buckets, i, Without(chain, p), x);
      ReplacedEntries(t.buckets, i, chain[p := e], x);
      ReplacedInChain(chain, p, e, x);
    }
    EntriesDistinct(ops, t.buckets);
    EntriesDistinct(ops, t'.buckets);
    MapPut(ops, Flat(t.buckets), Flat(t'.buckets), e);
  }

  lemma ReplacedInChain<T>(s: seq<T>, p: nat, e: T, x: T)
    requires p < |s|
    ensures x in s[p := e] <==> x == e || x in Without(s, p)
  {
    if x in s[p := e] && x != e {
      var j :| 0 <= j < |s| && s[j] == x && j != p;
      assert x == Without(s, p)[if j < p then j else j - 1];
    }
    if x in Without(s, p) {
      var j :| 0 <= j < |s| - 1 && Without(s, p)[j] == x;
      assert x == s[p := e][if j < p then j else j + 1];
    }
    assert s[p := e][p] == e;
  }

  lemma {:induction false} RehashWF<K(!new), C, V>(ops: KeyOps<K, C>, es: Chain<K, V>, n: nat)
    requires Compatible(ops) && n > 0 && NormDistinct(ops, es)
    ensures BucketsWF(ops, Rehash(ops, es, n))
    ensures forall e :: e in Flat(Rehash(ops, es, n)) <==> e in es
  {
    if es == [] {
      forall e: Entry<K, V> ensures e !in Flat(EmptyBuckets(n)) { InFlat(EmptyBuckets(n), e); }
    } else {
      var front, e := es[..|es| - 1], es[|es| - 1];
      RehashWF(ops, front, n);
      var b, b' := Rehash(ops, front, n), Rehash(ops, es, n);
      var i := ops.hash(e.key) % n;
      assert ChainWF(ops, b[i], i, n);
      forall j | 0 <= j < |b[i]| ensures ops.norm(b[i][j].key) != ops.norm(e.key) {
        InFlat(b, b[i][j]);
        assert b[i][j] in b[i];
      }
      assert ChainWF(ops, b'[i], i, n);
      forall x ensures x in Flat(b') <==> x in es {
        ReplacedEntries(b, i, b'[i], x);
        InFlat(b, x);
        assert es == front + [e];
      }
    }
  }

  lemma ResizeRefines<K(!new), C, V>(ops: KeyOps<K, C>, t: Table<K, V>, n: nat)
    requires Compatible(ops) && WF(ops, t) && n > 0
    ensures WF(ops, Resize(ops, t, n))
    ensures Abs(ops, Resize(ops, t, n)) == Abs(ops, t)
  {
    EntriesDistinct(ops, t.buckets);
    RehashWF(ops, Flat(t.buckets), n);
    EntriesDistinct(ops, Resize(ops, t, n).buckets);
    SameMap(ops, Flat(t.buckets), Flat(Resize(ops, t, n).buckets));
  }

  // runs

  type positive = n: nat | n > 0 witness 1

  datatype Op<K, V> =
    | OpInsert(k: K, v: V)
    | OpOverwrite(k: K, v: V)
    | OpRemove(k: K)
    | OpDelNode(k: K)
    | OpResize(n: positive)

  function Step<K, C(==), V>(ops: KeyOps<K, C>, t: Table<K, V>, op: Op<K, V>): Table<K, V>
    requires |t.buckets| > 0
  {
    match op
    case OpInsert(k, v) => Insert(ops, t, k, v)
    case OpOverwrite(k, v) => Overwrite(ops, t, k, v)
    case OpRemove(k) => Remove(ops, t, k)
    case OpDelNode(k) => Unlink(ops, t, k)
    case OpResize(n) => Resize(ops, t, n)
  }

  /** What each operation means on a finite map. */
  ghost function MapStep<K, C, V>(ops: KeyOps<K, C>, m: map<C, V>, op: Op<K, V>): map<C, V> {
    match op
    case OpInsert(k, v) => if ops.norm(k) in m then m else m[ops.norm(k) := v]
    case OpOverwrite(k, v) => m[ops.norm(k) := v]
    case OpRemove(k) => m - {ops.norm(k)}
    case OpDelNode(k) => m - {ops.norm(k)}
    case OpResize(_) => m
  }

  lemma InsertNewRefines<K(!new), C, V>(ops: KeyOps<K, C>, t: Table<K, V>, k: K, v: V)
    requires Compatible(ops) && WF(ops, t) && Lookup(ops, t, k) == None
    ensures WF(ops, InsertNew(ops, t, Entry(k, v)))
    ensures Abs(ops, InsertNew(ops, t, Entry(k, v))) == Abs(ops, t)[ops.norm(k) := v]
  {
    LinkedRefines(ops, t, k, v);
    if Grows(ops, t, k) {
      ResizeRefines(ops, Linked(ops, t, Entry(k, v)), |t.buckets| * 2);
    }
  }

  lemma StepRefines<K(!new), C, V>(ops: KeyOps<K, C>, t: Table<K, V>, op: Op<K, V>)
    requires Compatible(ops) && WF(ops, t)
    ensures WF(ops, Step(ops, t, op))
    ensures Abs(ops, Step(ops, t, op)) == MapStep(ops, Abs(ops, t), op)
  {
    match op
    case OpInsert(k, v) =>
      LookupIsGet(ops, t, k);
      if Lookup(ops, t, k) == None { InsertNewRefines(ops, t, k, v); }
    case OpOverwrite(k, v) =>
      if Lookup(ops, t, k) == None { InsertNewRefines(ops, t, k, v); } else { OverwrittenRefines(ops, t, k, v); }
    case OpRemove(k) =>
      UnlinkRefines(ops, t, k);
      LookupIsGet(ops, t, k);
      if Lookup(ops, t, k).Some? {
        assert Remove(ops, t, k).buckets == Unlink(ops, t, k).buckets;
      }
    case OpDelNode(k) => UnlinkRefines(ops, t, k);
    case OpResize(n) => ResizeRefines(ops, t, n);
  }

  function Run<K, C(==), V>(ops: KeyOps<K, C>, t: Table<K, V>, trace: seq<Op<K, V>>): (r: Table<K, V>)
    requires |t.buckets| > 0
    decreases |trace|
  {
    if trace == [] then t
    else
      var t' := Step(ops, t, trace[0]);
      if |t'.buckets| == 0 then t' else Run(ops, t', trace[1..])
  }

  ghost function MapRun<K, C, V>(ops: KeyOps<K, C>, m: map<C, V>, trace: seq<Op<K, V>>): map<C, V>
    decreases |trace|
  {
    if trace == [] then m else MapRun(ops, MapStep(ops, m, trace[0]), trace[1..])
  }

  /** The refinement theorem: after any run from any well-formed table the table is well formed
      and every lookup answers as the finite map does after the same run. */
  lemma {:induction false} RunRefines<K(!new), C, V>(
    ops: KeyOps<K, C>, t: Table<K, V>, trace: seq<Op<K, V>>, k: K)
    requires Compatible(ops) && WF(ops, t)
    ensures WF(ops, Run(ops, t, trace))
    ensures Abs(ops, Run(ops, t, trace)) == MapRun(ops, Abs(ops, t), trace)
    ensures Lookup(ops, Run(ops, t, trace), k) == Get(MapRun(ops, Abs(ops, t), trace), ops.norm(k))
    decreases |trace|
  {
    if trace == [] {
      LookupIsGet(ops, t, k);
    } else {
      StepRefines(ops, t, trace[0]);
      RunRefines(ops, Step(ops, t, trace[0]), trace[1..], k);
    }
  }

  /** A fresh table denotes the empty map. */
  lemma InitIsEmpty<K(!new), C, V>(ops: KeyOps<K, C>, sz: nat)
    requires Compatible(ops)
    ensures WF(ops, Init<K, V>(sz))
    ensures Abs(ops, Init<K, V>(sz)) == map[]
  {
    var t := Init<K, V>(sz);
    EntriesDistinct(ops, t.buckets);
    forall e ensures e !in Flat(t.buckets) { InFlat(t.buckets, e); }
    SameMap(ops, Flat(t.buckets), []);
    assert MapOf<K, C, V>(ops, []) == map[];
  }
}
