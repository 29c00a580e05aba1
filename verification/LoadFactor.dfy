/** The 75% rule of src/hash.c: exactly which initial sizes keep fewer than three quarters of
    the buckets in use after every insertion. */
module LoadFactor {
  import opened Guard
  import opened HashSpec
  import opened Wrappers
  import opened HashLaws
  import opened HashCount

  lemma DivAtLeast(n: nat, d: nat, q: nat)
    requires d > 0
    ensures n / d >= q <==> n >= q * d
  {
    var p := n / d;
    assert n == p * d + n % d;
    if p >= q {
      assert p * d >= q * d;
    } else {
      assert (p + 1) * d <= q * d;
      assert (p + 1) * d == p * d + d;
    }
  }

  /** While the shift cannot overflow, the fixed-point test is the exact fraction 3/4. */
  lemma FixedPoint(used: nat, size: nat)
    requires size > 0 && used < MAX_SIZE
    ensures OverLoaded(used, size) <==> 4 * used >= 3 * size
  {
    assert Size(Size(used) * 0x1_0000) == used * 0x1_0000;
    DivAtLeast(used * 0x1_0000, size, RESIZE_THRESHOLD);
  }

  const MAX_SIZE: nat := 0x1_0000_0000_0000

  lemma MulStep(q: nat, p: nat, d: nat)
    ensures q < p ==> q * d + d <= p * d
  {
    assert q < p ==> (q + 1) * d <= p * d;
  }

  lemma ModUnique(n: nat, d: nat, q: nat, r: nat)
    requires r < d && n == q * d + r
    ensures n % d == r
  {
    var p := n / d;
    assert n == p * d + n % d;
    MulStep(p, q, d);
    MulStep(q, p, d);
  }

  /** The remainder by repeated subtraction. */
  function Rem(h: nat, s: nat): (r: nat)
    requires s > 0
    ensures r < s
  {
    if h < s then h else Rem(h - s, s)
  }

  lemma {:induction false} RemIsMod(h: nat, s: nat)
    requires s > 0
    ensures Rem(h, s) == h % s
  {
    if h < s {
      ModUnique(h, s, 0, h);
    } else {
      RemIsMod(h - s, s);
      var q := (h - s) / s;
      assert h - s == q * s + (h - s) % s;
      ModUnique(h, s, q + 1, (h - s) % s);
    }
  }

  /** The buckets in use, as the set of residues of the hashes present. */
  ghost function Residues(hs: set<nat>, size: nat): set<nat>
    requires size > 0
  {
    set h | h in hs :: Rem(h, size)
  }

  ghost function Hashes<K, C, V>(ops: KeyOps<K, C>, b: seq<Chain<K, V>>): set<nat> {
    set e | e in Flat(b) :: ops.hash(e.key)
  }

  ghost function InUse<K, V>(b: seq<Chain<K, V>>): set<nat> {
    set i | 0 <= i < |b| && b[i] != []
  }

  lemma {:induction false} NonEmptySet<K, V>(b: seq<Chain<K, V>>)
    ensures NonEmpty(b) == |InUse(b)|
  {
    if b == [] {
      assert InUse(b) == {};
    } else {
      var rest, last := b[..|b| - 1], b[|b| - 1];
      NonEmptySet(rest);
      assert b == rest + [last];
      NonEmptyAppend(rest, [last]);
      InUseNext(rest, last);
    }
  }

  lemma InUseNext<K, V>(rest: seq<Chain<K, V>>, last: Chain<K, V>)
    ensures |InUse(rest + [last])| == |InUse(rest)| + NonEmpty([last])
  {
    assert NonEmpty([last]) == (if last == [] then 0 else 1) + NonEmpty([last][1..]);
    assert InUse(rest + [last]) == if last == [] then InUse(rest) else InUse(rest) + {|rest|};
  }

  lemma {:induction false} NonEmptyAppend<K, V>(x: seq<Chain<K, V>>, y: seq<Chain<K, V>>)
    ensures NonEmpty(x + y) == NonEmpty(x) + NonEmpty(y)
  {
    if x == [] {
      assert x + y == y;
    } else {
      NonEmptyAppend(x[1..], y);
      assert (x + y)[1..] == x[1..] + y;
    }
  }

  /** A chain is non-empty exactly when its index is a residue of a hash present. */
  lemma HomeTaken<K(!new), C, V>(ops: KeyOps<K, C>, b: seq<Chain<K, V>>, i: nat)
    requires BucketsWF(ops, b) && i < |b|
    ensures b[i] != [] <==> i in Residues(Hashes(ops, b), |b|)
  {
    if b[i] != [] {
      var e := b[i][0];
      assert ChainWF(ops, b[i], i, |b|);
      InFlat(b, e);
      assert e in b[i];
      assert ops.hash(e.key) in Hashes(ops, b);
      RemIsMod(ops.hash(e.key), |b|);
    }
    if i in Residues(Hashes(ops, b), |b|) {
      var e :| e in Flat(b) && Rem(ops.hash(e.key), |b|) == i;
      RemIsMod(ops.hash(e.key), |b|);
      InFlat(b, e);
      var l :| 0 <= l < |b| && e in b[l];
      assert ChainWF(ops, b[l], l, |b|);
    }
  }

  lemma UsedIsResidues<K(!new), C, V>(ops: KeyOps<K, C>, b: seq<Chain<K, V>>)
    requires BucketsWF(ops, b)
    ensures NonEmpty(b) == |Residues(Hashes(ops, b), |b|)|
  {
    NonEmptySet(b);
    forall i: nat | i < |b| ensures b[i] != [] <==> i in Residues(Hashes(ops, b), |b|) {
      HomeTaken(ops, b, i);
    }
    assert InUse(b) == Residues(Hashes(ops, b), |b|);
  }

  // one insertion, in terms of the hashes present

  function LoadAfter(used: nat, size: nat, taken: bool): (size': nat)
  {
    if !taken && 4 * (used + 1) >= 3 * size then 2 * size else size
  }

  ghost predicate Loaded<K(!new), C, V>(ops: KeyOps<K, C>, t: Table<K, V>) {
    Compatible(ops) && WF(ops, t) && Exact(t)
  }

  ghost function Range(n: nat): (r: set<nat>)
    ensures |r| == n
    ensures forall i :: i in r <==> 0 <= i < n
  {
    if n == 0 then {} else Range(n - 1) + {n - 1}
  }

  lemma SubsetCard<T>(a: set<T>, b: set<T>)
    requires a <= b
    ensures |a| <= |b|
  {
    assert b == a + (b - a);
  }

  /** The table doubles exactly when a new bucket comes into use and brings them to 3/4. */
  lemma GrowsWhen<K(!new), C, V>(ops: KeyOps<K, C>, t: Table<K, V>, k: K)
    requires Loaded(ops, t) && |t.buckets| < MAX_SIZE
    ensures var s, h := |t.buckets|, ops.hash(k);
            var r := Residues(Hashes(ops, t.buckets), s);
            Grows(ops, t, k) <==> LoadAfter(|r|, s, Rem(h, s) in r) != s
  {
    var s, h := |t.buckets|, ops.hash(k);
    var r := Residues(Hashes(ops, t.buckets), s);
    UsedIsResidues(ops, t.buckets);
    RemIsMod(h, s);
    HomeTaken(ops, t.buckets, Rem(h, s));
    SubsetCard(r + {Rem(h, s)}, Range(s));
    if Rem(h, s) !in r { FixedPoint(t.usedBuckets + 1, s); }
  }

  /** What linking a new key does to the table, with the load test read as a fraction. */
  lemma InsertNewLoad<K(!new), C, V>(ops: KeyOps<K, C>, t: Table<K, V>, k: K, v: V)
    requires Loaded(ops, t) && Lookup(ops, t, k) == None && |t.buckets| < MAX_SIZE
    ensures var t', s, h := InsertNew(ops, t, Entry(k, v)), |t.buckets|, ops.hash(k);
            var r := Residues(Hashes(ops, t.buckets), s);
            && Loaded(ops, t')
            && Hashes(ops, t'.buckets) == Hashes(ops, t.buckets) + {h}
            && |t'.buckets| == LoadAfter(|r|, s, Rem(h, s) in r)
            && t'.usedBuckets == |Residues(Hashes(ops, t'.buckets), |t'.buckets|)|
  {
    var t' := InsertNew(ops, t, Entry(k, v));
    GrowsWhen(ops, t, k);
    InsertNewEntries(ops, t, Entry(k, v));
    InsertNewExact(ops, t, Entry(k, v));
    UsedIsResidues(ops, t'.buckets);
    HashesPlus(ops, t.buckets, t'.buckets, Entry(k, v));
  }

  lemma InsertNewEntries<K(!new), C, V>(ops: KeyOps<K, C>, t: Table<K, V>, e: Entry<K, V>)
    requires Compatible(ops) && WF(ops, t) && Lookup(ops, t, e.key) == None
    ensures WF(ops, InsertNew(ops, t, e))
    ensures forall x :: x in Flat(InsertNew(ops, t, e).buckets) <==> x == e || x in Flat(t.buckets)
  {
    var i, t' := Home(ops, t, e.key), Linked(ops, t, e);
    forall x ensures x in Flat(t'.buckets) <==> x == e || x in Flat(t.buckets) {
      ReplacedEntries(t.buckets, i, t'.buckets[i], x);
      InFlat(t.buckets, x);
    }
    LinkedWF(ops, t, e.key, e.data);
    EntriesDistinct(ops, t'.buckets);
    RehashWF(ops, Flat(t'.buckets), |t.buckets| * 2);
  }

  lemma HashesPlus<K, C, V>(ops: KeyOps<K, C>, b: seq<Chain<K, V>>, b': seq<Chain<K, V>>, e: Entry<K, V>)
    requires forall x :: x in Flat(b') <==> x == e || x in Flat(b)
    ensures Hashes(ops, b') == Hashes(ops, b) + {ops.hash(e.key)}
  {
    forall h ensures h in Hashes(ops, b') <==> h in Hashes(ops, b) + {ops.hash(e.key)} {
      if h in Hashes(ops, b') {
        var x :| x in Flat(b') && ops.hash(x.key) == h;
        assert x == e || x in Flat(b);
      }
      if h in Hashes(ops, b) {
        var x :| x in Flat(b) && ops.hash(x.key) == h;
        assert x in Flat(b');
      }
      assert e in Flat(b');
    }
  }

  // sizes that are a multiple of four

  lemma {:induction false} ResidueTwice(h: nat, s: nat)
    requires s > 0
    ensures Rem(h, 2 * s) == Rem(h, s) || Rem(h, 2 * s) == Rem(h, s) + s
  {
    if h >= 2 * s {
      ResidueTwice(h - 2 * s, s);
      assert Rem(h, s) == Rem(h - s, s) == Rem(h - s - s, s);
    }
  }

  lemma {:induction false} ShiftCard(r: set<nat>, s: nat)
    ensures |set x | x in r :: x + s| == |r|
    decreases r
  {
    var shifted := set x | x in r :: x + s;
    if r == {} {
      assert shifted == {};
    } else {
      var y :| y in r;
      ShiftCard(r - {y}, s);
      var rest := set x | x in r - {y} :: x + s;
      forall z ensures z in shifted <==> z in rest + {y + s} {
        if z in shifted {
          var x :| x in r && x + s == z;
          assert x == y || x in r - {y};
        }
      }
      assert shifted == rest + {y + s} && y + s !in rest;
    }
  }

  /** Doubling the table at most doubles the buckets in use. */
  lemma ResiduesDouble(hs: set<nat>, s: nat)
    requires s > 0
    ensures |Residues(hs, 2 * s)| <= 2 * |Residues(hs, s)|
  {
    var r := Residues(hs, s);
    var shifted := set x | x in r :: x + s;
    forall x | x in Residues(hs, 2 * s) ensures x in r + shifted {
      var h :| h in hs && Rem(h, 2 * s) == x;
      ResidueTwice(h, s);
      assert Rem(h, s) in r;
    }
    SubsetCard(Residues(hs, 2 * s), r + shifted);
    ShiftCard(r, s);
  }

  ghost predicate UnderThreeQuarters<K, V>(t: Table<K, V>) {
    |t.buckets| % 4 == 0 && 4 * NonEmpty(t.buckets) < 3 * |t.buckets|
  }

  /** The hash that triggers a doubling is alone in its residue, so it adds one bucket, not two. */
  lemma LoadUnder(hs: set<nat>, q: nat, h: nat)
    requires q > 0 && |Residues(hs, 4 * q)| < 3 * q
    ensures var s := 4 * q;
            var s' := LoadAfter(|Residues(hs, s)|, s, Rem(h, s) in Residues(hs, s));
            4 * |Residues(hs + {h}, s')| < 3 * s'
  {
    var s, u := 4 * q, |Residues(hs, 4 * q)|;
    ResiduesPlus(hs, s, h);
    if Rem(h, s) !in Residues(hs, s) && u + 1 >= 3 * q {
      ResiduesPlus(hs, 2 * s, h);
      ResiduesDouble(hs, s);
    }
  }

  lemma StillMultiple(used: nat, s: nat, taken: bool)
    requires s % 4 == 0
    ensures LoadAfter(used, s, taken) % 4 == 0
  {
    assert 2 * s == 4 * (2 * (s / 4));
  }

  lemma InsertNewUnder<K(!new), C, V>(ops: KeyOps<K, C>, t: Table<K, V>, k: K, v: V)
    requires Loaded(ops, t) && Lookup(ops, t, k) == None && |t.buckets| < MAX_SIZE
    requires UnderThreeQuarters(t)
    ensures UnderThreeQuarters(InsertNew(ops, t, Entry(k, v)))
  {
    var s, hs, h := |t.buckets|, Hashes(ops, t.buckets), ops.hash(k);
    var t' := InsertNew(ops, t, Entry(k, v));
    InsertNewLoad(ops, t, k, v);
    UsedIsResidues(ops, t.buckets);
    LoadUnder(hs, s / 4, h);
    StillMultiple(|Residues(hs, s)|, s, Rem(h, s) in Residues(hs, s));
    assert |t'.buckets| % 4 == 0;
    assert NonEmpty(t'.buckets) == |Residues(hs + {h}, |t'.buckets|)|;
  }

  lemma ResiduesPlus(hs: set<nat>, s: nat, h: nat)
    requires s > 0
    ensures Residues(hs + {h}, s) == Residues(hs, s) + {Rem(h, s)}
  {
    assert h in hs + {h};
  }

  ghost predicate InsertsOnly<K, V>(trace: seq<Op<K, V>>) {
    forall i :: 0 <= i < |trace| ==> trace[i].OpInsert? || trace[i].OpOverwrite?
  }

  /** Insertions never shrink a table. */
  lemma {:induction false} RunGrows<K, C, V>(ops: KeyOps<K, C>, t: Table<K, V>, trace: seq<Op<K, V>>)
    requires |t.buckets| > 0 && InsertsOnly(trace)
    ensures |Run(ops, t, trace).buckets| >= |t.buckets|
    decreases |trace|
  {
    if trace != [] {
      var t' := Step(ops, t, trace[0]);
      assert |t'.buckets| >= |t.buckets|;
      RunGrows(ops, t', trace[1..]);
    }
  }

  /** Starting below 3/4 with a size divisible by four, every run of insertions and overwrites
      ends below 3/4 (a run's prefixes are runs, so this holds after each call). */
  lemma {:induction false} RunUnder<K(!new), C, V>(ops: KeyOps<K, C>, t: Table<K, V>, trace: seq<Op<K, V>>)
    requires Loaded(ops, t) && UnderThreeQuarters(t) && InsertsOnly(trace)
    requires |Run(ops, t, trace).buckets| < MAX_SIZE
    ensures Loaded(ops, Run(ops, t, trace)) && UnderThreeQuarters(Run(ops, t, trace))
    ensures Run(ops, t, trace).usedBuckets == NonEmpty(Run(ops, t, trace).buckets)
    decreases |trace|
  {
    if trace != [] {
      var t' := Step(ops, t, trace[0]);
      RunGrows(ops, t, trace);
      StepUnder(ops, t, trace[0]);
      RunUnder(ops, t', trace[1..]);
    }
  }

  lemma StepUnder<K(!new), C, V>(ops: KeyOps<K, C>, t: Table<K, V>, op: Op<K, V>)
    requires Loaded(ops, t) && UnderThreeQuarters(t) && |t.buckets| < MAX_SIZE
    requires op.OpInsert? || op.OpOverwrite?
    ensures Loaded(ops, Step(ops, t, op)) && UnderThreeQuarters(Step(ops, t, op))
  {
    var k, v := op.k, op.v;
    if Lookup(ops, t, k) == None {
      InsertNewUnder(ops, t, k, v);
      InsertNewLoad(ops, t, k, v);
    } else if op.OpOverwrite? {
      var i := Home(ops, t, k);
      var chain := t.buckets[i][Pos(ops, t.buckets[i], k) := Entry(k, v)];
      OverwrittenRefines(ops, t, k, v);
      TotalUpdate(t.buckets, i, chain);
      NonEmptyUpdate(t.buckets, i, chain);
    }
  }

  // every other size: keys that are their own hashes, as sets of hashes

  const IDENTITY: KeyOps<nat, nat> := KeyOps((k: nat) => k, (k: nat) => k)

  datatype Load = Load(hs: set<nat>, size: nat)

  ghost function PutLoad(l: Load, k: nat): Load {
    if l.size == 0 || k in l.hs then l
    else Load(l.hs + {k}, LoadAfter(|Residues(l.hs, l.size)|, l.size, Rem(k, l.size) in Residues(l.hs, l.size)))
  }

  ghost function Puts(l: Load, keys: seq<nat>): Load {
    if keys == [] then l else PutLoad(Puts(l, keys[..|keys| - 1]), keys[|keys| - 1])
  }

  function Inserts(keys: seq<nat>): (trace: seq<Op<nat, nat>>)
    ensures InsertsOnly(trace) && |trace| == |keys|
  {
    seq(|keys|, i requires 0 <= i < |keys| => OpInsert(keys[i], 0))
  }

  ghost predicate Simulates(t: Table<nat, nat>, l: Load) {
    Loaded(IDENTITY, t) && Hashes(IDENTITY, t.buckets) == l.hs && |t.buckets| == l.size
  }

  lemma InsertSimulates(t: Table<nat, nat>, l: Load, k: nat)
    requires Simulates(t, l) && l.size < MAX_SIZE
    ensures Simulates(Insert(IDENTITY, t, k, 0), PutLoad(l, k))
  {
    LookupIsGet(IDENTITY, t, k);
    EntriesDistinct(IDENTITY, t.buckets);
    assert k in Abs(IDENTITY, t) <==> k in l.hs;
    if k !in l.hs {
      InsertNewLoad(IDENTITY, t, k, 0);
    }
  }

  lemma {:induction false} RunSnoc<K, C, V>(ops: KeyOps<K, C>, t: Table<K, V>, trace: seq<Op<K, V>>, op: Op<K, V>)
    requires |t.buckets| > 0 && InsertsOnly(trace)
    ensures |Run(ops, t, trace).buckets| > 0
    ensures Run(ops, t, trace + [op]) == Step(ops, Run(ops, t, trace), op)
    decreases |trace|
  {
    if trace == [] {
      assert trace + [op] == [op];
    } else {
      assert (trace + [op])[1..] == trace[1..] + [op];
      assert |Step(ops, t, trace[0]).buckets| > 0;
      RunSnoc(ops, Step(ops, t, trace[0]), trace[1..], op);
    }
  }

  lemma {:induction false} RunSimulates(s: nat, keys: seq<nat>)
    requires s > 0 && Puts(Load({}, s), keys).size < MAX_SIZE
    ensures Simulates(Run(IDENTITY, Init(s), Inserts(keys)), Puts(Load({}, s), keys))
  {
    if keys == [] {
      InitIsEmpty<nat, nat, nat>(IDENTITY, s);
      InitExact<nat, nat>(s);
      var b := Init<nat, nat>(s).buckets;
      forall e ensures e !in Flat(b) { InFlat(b, e); }
    } else {
      var front, k := keys[..|keys| - 1], keys[|keys| - 1];
      RunSimulates(s, front);
      RunSnoc(IDENTITY, Init<nat, nat>(s), Inserts(front), OpInsert(k, 0));
      assert Inserts(keys) == Inserts(front) + [OpInsert(k, 0)];
      InsertSimulates(Run(IDENTITY, Init(s), Inserts(front)), Puts(Load({}, s), front), k);
    }
  }

  lemma SmallResidues(hs: set<nat>, s: nat)
    requires s > 0 && forall h :: h in hs ==> h < s
    ensures Residues(hs, s) == hs
  {
    forall h | h in hs ensures h in Residues(hs, s) { assert Rem(h, s) == h; }
  }

  /** The keys 0, ..., n - 1 and s, ..., s + j - 1. */
  ghost function High(n: nat, j: nat, s: nat): (r: set<nat>)
    requires n <= s
    ensures |r| == n + j
    ensures forall i :: i in r <==> 0 <= i < n || s <= i < s + j
  {
    if j == 0 then Range(n) else High(n, j - 1, s) + {s + j - 1}
  }

  lemma HighResidues(n: nat, j: nat, s: nat)
    requires s > 0 && j <= n <= s
    ensures Residues(High(n, j, s), s) == Range(n)
  {
    var hs := High(n, j, s);
    forall h | h in hs ensures Rem(h, s) == if h < s then h else h - s {
      if h >= s { assert Rem(h, s) == Rem(h - s, s); }
    }
    forall h | h in Range(n) ensures h in Residues(hs, s) {
      assert h in hs && Rem(h, s) == h;
    }
  }

  lemma PutNext(l: Load, keys: seq<nat>, at: Load, k: nat) returns (keys': seq<nat>)
    requires Puts(l, keys) == at
    ensures Puts(l, keys') == PutLoad(at, k)
  {
    keys' := keys + [k];
    assert keys'[..|keys|] == keys;
  }

  ghost predicate Leads(at: Load, k: nat, next: Load) {
    forall n: nat {:trigger Opened(n)} :: Opened(n) ==> PutLoad(at, k) == next
  }

  lemma PutThen(l: Load, keys: seq<nat>, at: Load, k: nat, next: Load) returns (keys': seq<nat>)
    requires Puts(l, keys) == at && Leads(at, k, next)
    ensures Puts(l, keys') == next
  {
    assert Opened(0);
    keys' := PutNext(l, keys, at, k);
  }

  lemma PutLow(l: Load, keys: seq<nat>, m: nat, s: nat) returns (keys': seq<nat>)
    requires 4 * (m + 1) < 3 * s && Puts(l, keys) == Load(Range(m), s)
    ensures Puts(l, keys') == Load(Range(m + 1), s)
  {
    SmallResidues(Range(m), s);
    keys' := PutNext(l, keys, Load(Range(m), s), m);
  }

  /** Fill buckets m, m + 1, ..., n - 1 with one key each. */
  lemma {:induction false} FillLow(l: Load, keys: seq<nat>, m: nat, n: nat, s: nat) returns (keys': seq<nat>)
    requires m <= n && 4 * n < 3 * s && Puts(l, keys) == Load(Range(m), s)
    ensures Puts(l, keys') == Load(Range(n), s)
  {
    if m == n {
      keys' := keys;
    } else {
      keys' := FillLow(l, keys, m, n - 1, s);
      keys' := PutLow(l, keys', n - 1, s);
    }
  }

  lemma HighStep(n: nat, j: nat, s: nat)
    requires j < n < s
    ensures Leads(Load(High(n, j, s), s), s + j, Load(High(n, j + 1, s), s))
  {
    HighResidues(n, j, s);
    assert Rem(s + j, s) == Rem(j, s) == j;
  }

  lemma PutHigh(l: Load, keys: seq<nat>, n: nat, j: nat, s: nat) returns (keys': seq<nat>)
    requires j < n < s && Puts(l, keys) == Load(High(n, j, s), s)
    ensures Puts(l, keys') == Load(High(n, j + 1, s), s)
  {
    HighStep(n, j, s);
    keys' := PutThen(l, keys, Load(High(n, j, s), s), s + j, Load(High(n, j + 1, s), s));
  }

  /** Put a second key on each of the buckets 0, ..., n - 1. */
  lemma {:induction false} FillHigh(l: Load, keys: seq<nat>, j: nat, n: nat, s: nat) returns (keys': seq<nat>)
    requires j <= n < s && Puts(l, keys) == Load(Range(n), s)
    ensures Puts(l, keys') == Load(High(n, j, s), s)
  {
    if j == 0 {
      keys' := keys;
    } else {
      keys' := FillHigh(l, keys, j - 1, n, s);
      keys' := PutHigh(l, keys', n, j - 1, s);
    }
  }

  /** One more key than buckets n can hold below 3/4 doubles the table. */
  lemma Double(hs: set<nat>, n: nat, s: nat)
    requires n < s && 4 * n < 3 * s <= 4 * (n + 1) && n !in hs && Residues(hs, s) == Range(n)
    ensures PutLoad(Load(hs, s), n) == Load(hs + {n}, 2 * s)
  {
    assert Rem(n, s) == n;
  }

  lemma OverloadCount(n: nat, s: nat)
    requires n < s
    ensures |Residues(High(n, n, s) + {n}, 2 * s)| == 2 * n + 1
  {
    SmallResidues(High(n, n, s) + {n}, 2 * s);
  }

  /** From two keys on every filled bucket, the insertion that doubles the table overloads it. */
  lemma Overload(l: Load, keys: seq<nat>, m: nat, n: nat, s: nat) returns (keys': seq<nat>)
    requires m <= n && 4 * n < 3 * s <= 4 * (n + 1) && 4 * (2 * n + 1) >= 6 * s
    requires Puts(l, keys) == Load(Range(m), s)
    ensures var e := Puts(l, keys'); e.size == 2 * s && 4 * |Residues(e.hs, 2 * s)| >= 3 * e.size
  {
    keys' := FillLow(l, keys, m, n, s);
    keys' := FillHigh(l, keys', n, n, s);
    HighResidues(n, n, s);
    Double(High(n, n, s), n, s);
    OverloadCount(n, s);
    keys' := PutNext(l, keys', Load(High(n, n, s), s), n);
  }

  /** With 4q + 1 buckets to begin with, it takes the second doubling. */
  lemma OverloadTwice(q: nat) returns (keys: seq<nat>)
    ensures var e := Puts(Load({}, 4 * q + 1), keys);
            0 < e.size <= 4 * (4 * q + 1) && 4 * |Residues(e.hs, e.size)| >= 3 * e.size
  {
    var s, n := 4 * q + 1, 3 * q;
    keys := DoubleOnce(n, s);
    keys := Overload(Load({}, s), keys, n + 1, 6 * q + 1, 2 * s);
  }

  /** The insertions that fill `n` buckets and then double the table. */
  lemma DoubleOnce(n: nat, s: nat) returns (keys: seq<nat>)
    requires n < s && 4 * n < 3 * s <= 4 * (n + 1)
    ensures Puts(Load({}, s), keys) == Load(Range(n + 1), 2 * s)
  {
    var l := Load({}, s);
    assert Range(0) == {} && Puts(l, []) == l;
    keys := FillLow(l, [], 0, n, s);
    SmallResidues(Range(n), s);
    Double(Range(n), n, s);
    keys := PutNext(l, keys, Load(Range(n), s), n);
    assert Range(n + 1) == Range(n) + {n};
  }

  lemma OverloadExists(s: nat) returns (keys: seq<nat>)
    requires s % 4 != 0
    ensures var e := Puts(Load({}, s), keys); 0 < e.size <= 4 * s && 4 * |Residues(e.hs, e.size)| >= 3 * e.size
  {
    var l, q := Load({}, s), s / 4;
    assert Range(0) == {} && Puts(l, []) == l;
    if s == 4 * q + 1 {
      keys := OverloadTwice(q);
    } else {
      keys := Overload(l, [], 0, if s == 4 * q + 2 then 3 * q + 1 else 3 * q + 2, s);
    }
  }

  /** No run of insertions and overwrites starting from `s` buckets reaches three quarters. */
  ghost predicate KeepsBound(s: nat)
    requires s > 0
  {
    forall trace: seq<Op<nat, nat>> :: InsertsOnly(trace) ==>
      var t := Run(IDENTITY, Init(s), trace);
      |t.buckets| < MAX_SIZE ==> 4 * t.usedBuckets < 3 * |t.buckets|
  }

  /** Exactly the initial sizes divisible by four keep the bound. */
  lemma BoundIffMultipleOfFour(s: nat)
    requires 0 < 4 * s < MAX_SIZE
    ensures KeepsBound(s) <==> s % 4 == 0
  {
    if s % 4 == 0 {
      InitIsEmpty<nat, nat, nat>(IDENTITY, s);
      InitExact<nat, nat>(s);
      EmptyCounts<nat, nat>(s);
      forall trace: seq<Op<nat, nat>> | InsertsOnly(trace) && |Run(IDENTITY, Init(s), trace).buckets| < MAX_SIZE
        ensures 4 * Run(IDENTITY, Init(s), trace).usedBuckets < 3 * |Run(IDENTITY, Init(s), trace).buckets|
      {
        RunUnder(IDENTITY, Init(s), trace);
      }
    } else {
      var keys := OverloadExists(s);
      RunSimulates(s, keys);
      var t := Run(IDENTITY, Init(s), Inserts(keys));
      UsedIsResidues(IDENTITY, t.buckets);
      assert 4 * t.usedBuckets >= 3 * |t.buckets|;
    }
  }
}
