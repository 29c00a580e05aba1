/** The two counters of src/hash.c against what they are meant to count. */
module HashCount {
  import opened HashSpec
  import opened Wrappers

  lemma {:induction false} TotalUpdate<K, V>(b: seq<Chain<K, V>>, i: nat, c: Chain<K, V>)
    requires i < |b|
    ensures Total(b[i := c]) == Total(b) - |b[i]| + |c|
  {
    if i == 0 {
      assert b[i := c][1..] == b[1..];
    } else {
      TotalUpdate(b[1..], i - 1, c);
      assert b[i := c][1..] == b[1..][i - 1 := c];
    }
  }

  function Tick<K, V>(c: Chain<K, V>): nat { if c == [] then 0 else 1 }

  lemma {:induction false} NonEmptyUpdate<K, V>(b: seq<Chain<K, V>>, i: nat, c: Chain<K, V>)
    requires i < |b|
    ensures NonEmpty(b[i := c]) == NonEmpty(b) - Tick(b[i]) + Tick(c)
  {
    if i == 0 {
      assert b[i := c][1..] == b[1..];
    } else {
      NonEmptyUpdate(b[1..], i - 1, c);
      assert b[i := c][1..] == b[1..][i - 1 := c];
    }
  }

  lemma {:induction false} FlatLength<K, V>(b: seq<Chain<K, V>>)
    ensures |Flat(b)| == Total(b)
  {
    if b != [] { FlatLength(b[1..]); }
  }

  lemma {:induction false} FlatSnoc<K, V>(b: seq<Chain<K, V>>, i: nat)
    requires i < |b|
    ensures Flat(b[..i + 1]) == Flat(b[..i]) + b[i]
  {
    if i == 0 {
      assert b[..1] == [b[0]] && b[..0] == [];
      assert Flat([b[0]]) == b[0] + Flat([]);
    } else {
      FlatSnoc(b[1..], i - 1);
      assert b[..i + 1][1..] == b[1..][..i] && b[..i][1..] == b[1..][..i - 1];
    }
  }

  lemma {:induction false} EmptyCounts<K, V>(n: nat)
    ensures Total(EmptyBuckets<K, V>(n)) == 0 && NonEmpty(EmptyBuckets<K, V>(n)) == 0
  {
    if n > 0 {
      EmptyCounts<K, V>(n - 1);
      assert EmptyBuckets<K, V>(n)[1..] == EmptyBuckets<K, V>(n - 1);
    }
  }

  lemma PushCounts<K, C, V>(ops: KeyOps<K, C>, b: seq<Chain<K, V>>, e: Entry<K, V>)
    requires |b| > 0
    ensures Total(Push(ops, b, e)) == Total(b) + 1
    ensures NonEmpty(Push(ops, b, e)) == NonEmpty(b) + 1 - Tick(b[ops.hash(e.key) % |b|])
  {
    var i := ops.hash(e.key) % |b|;
    TotalUpdate(b, i, [e] + b[i]);
    NonEmptyUpdate(b, i, [e] + b[i]);
  }

  lemma RehashNext<K, C, V>(ops: KeyOps<K, C>, done: Chain<K, V>, es: Chain<K, V>, j: nat, n: nat)
    requires n > 0 && j < |es|
    ensures Rehash(ops, done + es[..j + 1], n) == Push(ops, Rehash(ops, done + es[..j], n), es[j])
  {
    var xs := done + es[..j + 1];
    assert xs[..|xs| - 1] == done + es[..j];
  }

  /** Re-filing keeps every entry, so the recount is the number of entries. */
  lemma {:induction false} RehashTotal<K, C, V>(ops: KeyOps<K, C>, es: Chain<K, V>, n: nat)
    requires n > 0
    ensures Total(Rehash(ops, es, n)) == |es|
  {
    if es == [] {
      EmptyCounts<K, V>(n);
    } else {
      var front, e := es[..|es| - 1], es[|es| - 1];
      RehashTotal(ops, front, n);
      PushCounts(ops, Rehash(ops, front, n), e);
    }
  }

  lemma {:induction false} FlatAt<K, V>(b: seq<Chain<K, V>>, i: nat, j: nat)
    requires i < |b| && j < |b[i]|
    ensures |Flat(b[..i])| + j < |Flat(b)|
    ensures Flat(b)[|Flat(b[..i])| + j] == b[i][j]
  {
    if i > 0 {
      FlatAt(b[1..], i - 1, j);
      assert b[..i][1..] == b[1..][..i - 1];
    }
  }

  /** Both counters say what they count. */
  ghost predicate Exact<K, V>(t: Table<K, V>) {
    t.nEntries == Total(t.buckets) && t.usedBuckets == NonEmpty(t.buckets)
  }

  lemma InitExact<K, V>(sz: nat)
    ensures Exact(Init<K, V>(sz))
  {
    EmptyCounts<K, V>(if sz == 0 then 1 else sz);
  }

  /** Linking a new entry counts it, and counts its bucket when that was empty. */
  lemma LinkedExact<K, C, V>(ops: KeyOps<K, C>, t: Table<K, V>, e: Entry<K, V>)
    requires |t.buckets| > 0 && Exact(t)
    ensures Exact(Linked(ops, t, e))
  {
    var i := Home(ops, t, e.key);
    TotalUpdate(t.buckets, i, t.buckets[i] + [e]);
    NonEmptyUpdate(t.buckets, i, t.buckets[i] + [e]);
  }

  /** A resize recounts, so it passes its own check exactly when the entry counter was right. */
  lemma ResizeRecounts<K, C, V>(ops: KeyOps<K, C>, t: Table<K, V>, n: nat)
    requires n > 0 && n != |t.buckets|
    ensures Exact(Resize(ops, t, n))
    ensures Total(Resize(ops, t, n).buckets) == Total(t.buckets)
    ensures ResizeCheck(ops, t, n) <==> Size(t.nEntries) == Size(Total(t.buckets))
  {
    RehashTotal(ops, Flat(t.buckets), n);
    FlatLength(t.buckets);
  }

  lemma InsertNewExact<K, C, V>(ops: KeyOps<K, C>, t: Table<K, V>, e: Entry<K, V>)
    requires |t.buckets| > 0 && Exact(t)
    ensures InsertNewCheck(ops, t, e) && Exact(InsertNew(ops, t, e))
  {
    LinkedExact(ops, t, e);
    ResizeRecounts(ops, Linked(ops, t, e), |t.buckets| * 2);
  }

  lemma InsertExact<K, C, V>(ops: KeyOps<K, C>, t: Table<K, V>, k: K, v: V)
    requires |t.buckets| > 0 && Exact(t)
    ensures Lookup(ops, t, k) == None ==> InsertNewCheck(ops, t, Entry(k, v))
    ensures Exact(Insert(ops, t, k, v))
  {
    InsertNewExact(ops, t, Entry(k, v));
  }

  /** Insert a list of entries one after the other. */
  function InsertAll<K, C(==), V>(ops: KeyOps<K, C>, t: Table<K, V>, es: Chain<K, V>): (r: Table<K, V>)
    requires |t.buckets| > 0
    ensures |r.buckets| > 0
  {
    if es == [] then t
    else
      var r := InsertAll(ops, t, es[..|es| - 1]);
      Insert(ops, r, es[|es| - 1].key, es[|es| - 1].data)
  }

  /** What hash_dup files: each entry with the callback's copy of its data. */
  function Copies<K, V>(es: Chain<K, V>, dup: V -> V): (r: Chain<K, V>)
    ensures |r| == |es|
  {
    if es == [] then [] else [Entry(es[0].key, dup(es[0].data))] + Copies(es[1..], dup)
  }

  lemma {:induction false} CopiesAt<K, V>(es: Chain<K, V>, dup: V -> V, i: nat)
    requires i < |es|
    ensures Copies(es, dup)[i] == Entry(es[i].key, dup(es[i].data))
  {
    if i > 0 { CopiesAt(es[1..], dup, i - 1); }
  }

  lemma {:induction false} InsertAllExact<K, C, V>(ops: KeyOps<K, C>, sz: nat, es: Chain<K, V>)
    ensures Exact(InsertAll(ops, Init(sz), es))
  {
    if es == [] {
      InitExact<K, V>(sz);
    } else {
      InsertAllExact(ops, sz, es[..|es| - 1]);
      InsertExact(ops, InsertAll(ops, Init(sz), es[..|es| - 1]), es[|es| - 1].key, es[|es| - 1].data);
    }
  }

  lemma InsertAllNext<K, C, V>(ops: KeyOps<K, C>, sz: nat, es: Chain<K, V>, n: nat)
    requires n < |es|
    ensures var r := InsertAll(ops, Init(sz), es[..n]);
            && InsertAll(ops, Init(sz), es[..n + 1]) == Insert(ops, r, es[n].key, es[n].data)
            && (Lookup(ops, r, es[n].key) == None ==> InsertNewCheck(ops, r, es[n]))
  {
    assert es[..n + 1][..n] == es[..n];
    InsertAllExact(ops, sz, es[..n]);
    InsertExact(ops, InsertAll(ops, Init(sz), es[..n]), es[n].key, es[n].data);
  }
}
