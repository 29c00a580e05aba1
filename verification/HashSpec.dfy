/** The chained hash table of src/hash.c as a value: the chains in bucket order, each
    chain in link order, and the two 64-bit counters kept beside them.

    The table's compare function is given as the kernel of `norm`: compare(a, b) == 0
    exactly when norm(a) == norm(b).  Any equivalence has this form; strcmp has the
    identity and strcasecmp has case folding. */
module HashSpec {
  import opened Wrappers

  datatype Entry<+K, +V> = Entry(key: K, data: V)

  datatype KeyOps<!K, !C> = KeyOps(hash: K -> nat, norm: K -> C)

  /** Keys that compare equal hash equally: what the source demands of its callers. */
  ghost predicate Compatible<K(!new), C>(ops: KeyOps<K, C>) {
    forall a: K, b: K :: ops.norm(a) == ops.norm(b) ==> ops.hash(a) == ops.hash(b)
  }

  type Chain<K, V> = seq<Entry<K, V>>

  datatype Table<K, V> = Table(buckets: seq<Chain<K, V>>, nEntries: int, usedBuckets: int)

  // The counters are size_t.  They are kept as integers here and read through Size: stepping
  // an integer and then reducing it is the same as stepping the 64-bit counter.

  const SIZE_MOD: nat := 0x1_0000_0000_0000_0000

  function Size(n: int): (r: nat)
    ensures r < SIZE_MOD
    ensures 0 <= n < SIZE_MOD ==> r == n
  {
    n % SIZE_MOD
  }

  const RESIZE_THRESHOLD: nat := 0x8000 + 0x4000

  /** The fixed-point load test, with the shift taken in 64 bits. */
  predicate OverLoaded(used: int, size: nat)
    requires size > 0
  {
    Size(Size(used) * 0x1_0000) / size >= RESIZE_THRESHOLD
  }

  // chains

  /** Index of the first entry whose key compares equal to `k`, or the length of the chain. */
  function Pos<K, C(==), V>(ops: KeyOps<K, C>, chain: Chain<K, V>, k: K): (p: nat)
    ensures p <= |chain|
    ensures p < |chain| ==> ops.norm(chain[p].key) == ops.norm(k)
    ensures forall j :: 0 <= j < p ==> ops.norm(chain[j].key) != ops.norm(k)
  {
    if chain == [] || ops.norm(chain[0].key) == ops.norm(k) then 0
    else 1 + Pos(ops, chain[1..], k)
  }

  function Without<T>(s: seq<T>, p: nat): (r: seq<T>)
    requires p < |s|
    ensures |r| == |s| - 1
    ensures forall j :: 0 <= j < p ==> r[j] == s[j]
    ensures forall j :: p <= j < |r| ==> r[j] == s[j + 1]
  {
    s[..p] + s[p + 1..]
  }

  function Total<K, V>(b: seq<Chain<K, V>>): nat {
    if b == [] then 0 else |b[0]| + Total(b[1..])
  }

  function NonEmpty<K, V>(b: seq<Chain<K, V>>): nat {
    if b == [] then 0 else (if b[0] == [] then 0 else 1) + NonEmpty(b[1..])
  }

  /** All entries in the order the iterator visits them. */
  function Flat<K, V>(b: seq<Chain<K, V>>): Chain<K, V> {
    if b == [] then [] else b[0] + Flat(b[1..])
  }

  function EmptyBuckets<K, V>(n: nat): (b: seq<Chain<K, V>>) {
    seq(n, _ => [])
  }

  // operations

  function Init<K, V>(sz: nat): Table<K, V> {
    Table(EmptyBuckets(if sz == 0 then 1 else sz), 0, 0)
  }

  function Home<K, C, V>(ops: KeyOps<K, C>, t: Table<K, V>, k: K): (i: nat)
    requires |t.buckets| > 0
    ensures i < |t.buckets|
  {
    ops.hash(k) % |t.buckets|
  }

  function Lookup<K, C(==), V>(ops: KeyOps<K, C>, t: Table<K, V>, k: K): Option<V>
    requires |t.buckets| > 0
  {
    var chain := t.buckets[Home(ops, t, k)];
    var p := Pos(ops, chain, k);
    if p < |chain| then Some(chain[p].data) else None
  }

  function Push<K, C, V>(ops: KeyOps<K, C>, b: seq<Chain<K, V>>, e: Entry<K, V>): (b': seq<Chain<K, V>>)
    requires |b| > 0
    ensures |b'| == |b|
  {
    var i := ops.hash(e.key) % |b|;
    b[i := [e] + b[i]]
  }

  /** Re-file every entry, in iteration order, at the front of its new chain. */
  function Rehash<K, C, V>(ops: KeyOps<K, C>, es: Chain<K, V>, n: nat): (b: seq<Chain<K, V>>)
    requires n > 0
    ensures |b| == n
  {
    if es == [] then EmptyBuckets(n)
    else
      Push(ops, Rehash(ops, es[..|es| - 1], n), es[|es| - 1])
  }

  function Resize<K, C, V>(ops: KeyOps<K, C>, t: Table<K, V>, n: nat): Table<K, V>
    requires n > 0
  {
    if n == |t.buckets| then t
    else
      var b := Rehash(ops, Flat(t.buckets), n);
      Table(b, Total(b), NonEmpty(b))
  }

  /** The check after relinking: the recount must equal the old entry counter. */
  predicate ResizeCheck<K, C, V>(ops: KeyOps<K, C>, t: Table<K, V>, n: nat)
    requires n > 0
  {
    n != |t.buckets| ==> Size(t.nEntries) == Size(Resize(ops, t, n).nEntries)
  }

  /** The table right after linking a new entry at the tail, before any resize. */
  function Linked<K, C, V>(ops: KeyOps<K, C>, t: Table<K, V>, e: Entry<K, V>): Table<K, V>
    requires |t.buckets| > 0
  {
    var i := Home(ops, t, e.key);
    Table(t.buckets[i := t.buckets[i] + [e]], t.nEntries + 1,
          if t.buckets[i] == [] then t.usedBuckets + 1 else t.usedBuckets)
  }

  /** Linking into an empty bucket is what triggers the load test. */
  predicate Grows<K, C, V>(ops: KeyOps<K, C>, t: Table<K, V>, k: K)
    requires |t.buckets| > 0
  {
    t.buckets[Home(ops, t, k)] == [] && OverLoaded(t.usedBuckets + 1, |t.buckets|)
  }

  function InsertNew<K, C, V>(ops: KeyOps<K, C>, t: Table<K, V>, e: Entry<K, V>): Table<K, V>
    requires |t.buckets| > 0
  {
    var t' := Linked(ops, t, e);
    if Grows(ops, t, e.key) then Resize(ops, t', |t.buckets| * 2) else t'
  }

  /** Whether the assertion inside a resize triggered by this insertion passes. */
  predicate InsertNewCheck<K, C, V>(ops: KeyOps<K, C>, t: Table<K, V>, e: Entry<K, V>)
    requires |t.buckets| > 0
  {
    Grows(ops, t, e.key) ==> ResizeCheck(ops, Linked(ops, t, e), |t.buckets| * 2)
  }

  function Insert<K, C(==), V>(ops: KeyOps<K, C>, t: Table<K, V>, k: K, v: V): Table<K, V>
    requires |t.buckets| > 0
  {
    if Lookup(ops, t, k).Some? then t else InsertNew(ops, t, Entry(k, v))
  }

  function Overwrite<K, C(==), V>(ops: KeyOps<K, C>, t: Table<K, V>, k: K, v: V): Table<K, V>
    requires |t.buckets| > 0
  {
    var i := Home(ops, t, k);
    var p := Pos(ops, t.buckets[i], k);
    if p < |t.buckets[i]| then t.(buckets := t.buckets[i := t.buckets[i][p := Entry(k, v)]])
    else InsertNew(ops, t, Entry(k, v))
  }

  /** Unlinking leaves `nEntries` to the caller; a removed head always costs a used bucket. */
  function Unlink<K, C(==), V>(ops: KeyOps<K, C>, t: Table<K, V>, k: K): Table<K, V>
    requires |t.buckets| > 0
  {
    var i := Home(ops, t, k);
    var p := Pos(ops, t.buckets[i], k);
    if p < |t.buckets[i]| then
      t.(buckets := t.buckets[i := Without(t.buckets[i], p)],
         usedBuckets := if p == 0 then t.usedBuckets - 1 else t.usedBuckets)
    else t
  }

  /** hash_remove */
  function Remove<K, C(==), V>(ops: KeyOps<K, C>, t: Table<K, V>, k: K): Table<K, V>
    requires |t.buckets| > 0
  {
    if Lookup(ops, t, k).Some? then
      Unlink(ops, t, k).(nEntries := t.nEntries - 1)
    else t
  }

  // well-formed tables

  ghost predicate ChainWF<K, C, V>(ops: KeyOps<K, C>, chain: Chain<K, V>, i: nat, n: nat)
    requires n > 0
  {
    && (forall j :: 0 <= j < |chain| ==> ops.hash(chain[j].key) % n == i)
    && (forall j, l :: 0 <= j < l < |chain| ==> ops.norm(chain[j].key) != ops.norm(chain[l].key))
  }

  ghost predicate BucketsWF<K, C, V>(ops: KeyOps<K, C>, b: seq<Chain<K, V>>) {
    |b| > 0 && forall i :: 0 <= i < |b| ==> ChainWF(ops, b[i], i, |b|)
  }

  ghost predicate WF<K, C, V>(ops: KeyOps<K, C>, t: Table<K, V>) {
    BucketsWF(ops, t.buckets)
  }
}
