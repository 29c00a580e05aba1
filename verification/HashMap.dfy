/** The chained hash table of src/hash.c on the heap: an array of bucket heads, nodes linked
    through `next`, tail insertion, in-place relinking on resize and a resumable cursor.
    `model` is the value of HashSpec the object represents; every method says which function
    of HashSpec takes the old value to the new one. */
module HashMap {
  import opened Guard
  import opened HashSpec
  import opened Wrappers
  import opened HashCount

  /** Which relinking, and which bucket, a node was last filed by. */
  datatype Slot = Slot(gen: nat, bucket: nat)

  class Node<K, V> {
    var key: K
    var data: V
    var next: Node?<K, V>
    ghost var home: Slot

    constructor (key: K, data: V, ghost home: Slot)
      ensures this.key == key && this.data == data && next == null && this.home == home
    {
      this.key, this.data, this.next, this.home := key, data, null, home;
    }
  }

  /** From `head` the links run through exactly the nodes `ns`, which hold `es`, and then to `end`. */
  ghost predicate Segment<K, V>(head: Node?<K, V>, ns: seq<Node<K, V>>, es: Chain<K, V>, end: Node?<K, V>, home: Slot)
    reads set x | x in ns
    decreases |ns|
  {
    if ns == [] then head == end && es == []
    else
      && head == ns[0] && es != [] && ns[0] !in ns[1..]
      && es[0] == Entry(ns[0].key, ns[0].data) && ns[0].home == home
      && Segment(ns[0].next, ns[1..], es[1..], end, home)
  }

  lemma {:induction false} SegmentLength<K, V>(head: Node?<K, V>, ns: seq<Node<K, V>>, es: Chain<K, V>,
                                               end: Node?<K, V>, home: Slot)
    requires Segment(head, ns, es, end, home)
    ensures |ns| == |es|
    decreases |ns|
  {
    if ns != [] { SegmentLength(ns[0].next, ns[1..], es[1..], end, home); }
  }

  lemma {:induction false} SegmentHome<K, V>(head: Node?<K, V>, ns: seq<Node<K, V>>, es: Chain<K, V>,
                                             end: Node?<K, V>, home: Slot, x: Node<K, V>)
    requires Segment(head, ns, es, end, home)
    ensures x in ns ==> x.home == home
    decreases |ns|
  {
    if ns != [] { SegmentHome(ns[0].next, ns[1..], es[1..], end, home, x); }
  }

  ghost predicate Disjoint<T>(xs: seq<T>, ys: seq<T>) {
    forall x :: x in xs ==> x !in ys
  }

  /** A segment can be cut at any of its nodes ... */
  lemma {:induction false} Cut<K, V>(head: Node?<K, V>, ns: seq<Node<K, V>>, es: Chain<K, V>, end: Node?<K, V>,
                                     home: Slot, p: nat)
    requires Segment(head, ns, es, end, home) && p < |ns|
    ensures |ns| == |es|
    ensures Segment(head, ns[..p], es[..p], ns[p], home) && ns[p].home == home
    ensures Segment(ns[p].next, ns[p + 1..], es[p + 1..], end, home) && es[p] == Entry(ns[p].key, ns[p].data)
    ensures ns[p] !in ns[..p] && ns[p] !in ns[p + 1..]
    ensures Disjoint(ns[..p], ns[p + 1..])
    decreases |ns|
  {
    SegmentLength(head, ns, es, end, home);
    if p > 0 {
      Cut(ns[0].next, ns[1..], es[1..], end, home, p - 1);
      assert ns[1..][..p - 1] == ns[..p][1..] && es[1..][..p - 1] == es[..p][1..];
      assert ns[1..][p..] == ns[p + 1..] && es[1..][p..] == es[p + 1..];
      assert forall x :: x in ns[..p] ==> x == ns[0] || x in ns[..p][1..];
      assert forall x :: x in ns[p + 1..] ==> x in ns[1..];
    }
  }

  /** ... and two segments that meet can be joined. */
  lemma {:induction false} Join<K, V>(head: Node?<K, V>, xs: seq<Node<K, V>>, es: Chain<K, V>, mid: Node?<K, V>,
                                      ys: seq<Node<K, V>>, fs: Chain<K, V>, end: Node?<K, V>, home: Slot)
    requires Segment(head, xs, es, mid, home) && Segment(mid, ys, fs, end, home)
    requires Disjoint(xs, ys)
    ensures Segment(head, xs + ys, es + fs, end, home)
    decreases |xs|
  {
    if xs == [] {
      assert xs + ys == ys && es + fs == fs;
    } else {
      Join(xs[0].next, xs[1..], es[1..], mid, ys, fs, end, home);
      assert (xs + ys)[1..] == xs[1..] + ys && (es + fs)[1..] == es[1..] + fs;
    }
  }

  ghost predicate Within<K, V>(ns: seq<Node<K, V>>, nodes: set<Node<K, V>>) {
    forall x :: x in ns ==> x in nodes
  }

  ghost predicate AllLinked<K, V>(table: array<Node?<K, V>>, chains: seq<seq<Node<K, V>>>, b: seq<Chain<K, V>>,
                                  gen: nat, nodes: set<Node<K, V>>)
    reads table, nodes
  {
    && table.Length == |chains| == |b|
    && (forall i :: 0 <= i < |chains| ==> Within(chains[i], nodes))
    && (forall i: nat :: i < |chains| ==> Segment(table[i], chains[i], b[i], null, Slot(gen, i)))
  }

  /** What hash_get_internal_node hands out. */
  datatype Export<K, V> = Export(hash: nat, last: Node?<K, V>, node: Node?<K, V>, next: Node?<K, V>)

  class HashMap<K, C(==), V> {
    const ops: KeyOps<K, C>
    var table: array<Node?<K, V>>
    var nEntries: int
    var usedBuckets: int

    ghost var model: Table<K, V>
    ghost var chains: seq<seq<Node<K, V>>>
    ghost var nodes: set<Node<K, V>>
    ghost var gen: nat

    ghost predicate Valid()
      reads this, table, nodes
    {
      && table.Length > 0
      && nEntries == model.nEntries && usedBuckets == model.usedBuckets
      && AllLinked(table, chains, model.buckets, gen, nodes)
    }

    constructor (ops: KeyOps<K, C>, sz: nat)
      ensures Valid() && fresh(table) && nodes == {}
      ensures this.ops == ops && model == Init(sz)
    {
      this.ops := ops;
      var n := if sz == 0 then 1 else sz;
      table := new Node?<K, V>[n](_ => null);
      nEntries, usedBuckets := 0, 0;
      model, chains, nodes, gen := Init(sz), seq(n, _ => []), {}, 0;
    }

    /** The chain walk every keyed operation starts with. */
    method Scan(k: K) returns (i: nat, last: Node?<K, V>, iter: Node?<K, V>)
      requires Valid()
      ensures i == Home(ops, model, k) < |chains| == table.Length
      ensures var p := Pos(ops, model.buckets[i], k);
              && p <= |chains[i]| == |model.buckets[i]|
              && last == (if p > 0 then chains[i][p - 1] else null)
              && Segment(iter, chains[i][p..], model.buckets[i][p..], null, Slot(gen, i))
    {
      i := ops.hash(k) % table.Length;
      last, iter := null, table[i];
      ghost var p := 0;
      ghost var chain, ns := model.buckets[i], chains[i];
      while iter != null
        invariant p <= |chain| && p <= |ns|
        invariant last == (if p > 0 then ns[p - 1] else null)
        invariant Segment(iter, ns[p..], chain[p..], null, Slot(gen, i))
        invariant p + Pos(ops, chain[p..], k) == Pos(ops, chain, k)
        decreases |chain| - p
      {
        if ops.norm(iter.key) == ops.norm(k) {
          break;
        }
        assert chain[p..][1..] == chain[p + 1..];
        assert ns[p..][1..] == ns[p + 1..];
        last, iter := iter, iter.next;
        p := p + 1;
      }
      SegmentLength(iter, ns[p..], chain[p..], null, Slot(gen, i));
    }

    method Lookup(k: K) returns (r: Option<V>)
      requires Valid()
      ensures r == HashSpec.Lookup(ops, model, k)
    {
      var i, last, iter := Scan(k);
      r := if iter != null then Some(iter.data) else None;
    }

    // resize

    ghost predicate Recounted(b: seq<Chain<K, V>>)
      reads this
    {
      nEntries == Total(b) && usedBuckets == NonEmpty(b)
    }

    /** The bare-bones insert of the relinking loop: push one detached node on its new chain. */
    method Refile(iter: Node<K, V>, ghost moved: seq<seq<Node<K, V>>>, ghost b: seq<Chain<K, V>>)
      returns (ghost moved': seq<seq<Node<K, V>>>)
      requires table.Length > 0 && iter in nodes && iter.home.gen != gen
      requires AllLinked(table, moved, b, gen, nodes)
      modifies iter, table, `nEntries, `usedBuckets
      ensures iter.key == old(iter.key) && iter.data == old(iter.data)
      ensures AllLinked(table, moved', Push(ops, b, Entry(iter.key, iter.data)), gen, nodes)
      ensures nEntries == old(nEntries) + 1
      ensures usedBuckets == old(usedBuckets) + 1 - Tick(b[ops.hash(iter.key) % |b|])
    {
      var i := ops.hash(iter.key) % table.Length;
      ghost var e := Entry(iter.key, iter.data);
      forall l: nat | l < |moved| ensures iter !in moved[l] {
        SegmentHome(table[l], moved[l], b[l], null, Slot(gen, l), iter);
      }
      iter.next := table[i];
      table[i] := iter;
      iter.home := Slot(gen, i);
      if iter.next == null {
        usedBuckets := usedBuckets + 1;
      }
      nEntries := nEntries + 1;
      moved' := moved[i := [iter] + moved[i]];
      assert ([iter] + moved[i])[1..] == moved[i] && ([e] + b[i])[1..] == b[i];
    }

    /** One round of the inner relinking loop. */
    method RefileFirst(iter: Node<K, V>, ghost ns: seq<Node<K, V>>, ghost es: Chain<K, V>, ghost g: nat, ghost i: nat,
                       ghost moved: seq<seq<Node<K, V>>>, ghost b: seq<Chain<K, V>>)
      returns (next: Node?<K, V>, ghost moved': seq<seq<Node<K, V>>>)
      requires table.Length > 0 && g != gen
      requires Segment(iter, ns, es, null, Slot(g, i)) && Within(ns, nodes)
      requires AllLinked(table, moved, b, gen, nodes) && Recounted(b)
      modifies iter, table, `nEntries, `usedBuckets
      ensures |ns| == |es| > 0 && iter == ns[0]
      ensures Segment(next, ns[1..], es[1..], null, Slot(g, i))
      ensures AllLinked(table, moved', Push(ops, b, es[0]), gen, nodes) && Recounted(Push(ops, b, es[0]))
    {
      SegmentLength(iter, ns, es, null, Slot(g, i));
      next := iter.next;
      PushCounts(ops, b, es[0]);
      moved' := Refile(iter, moved, b);
    }

    /** The inner relinking loop: all nodes of one old chain. */
    method RefileChain(head: Node?<K, V>, ghost ns: seq<Node<K, V>>, ghost es: Chain<K, V>, ghost g: nat, ghost i: nat,
                       ghost moved: seq<seq<Node<K, V>>>, ghost done: Chain<K, V>)
      returns (ghost moved': seq<seq<Node<K, V>>>)
      requires table.Length > 0 && g != gen
      requires Segment(head, ns, es, null, Slot(g, i)) && Within(ns, nodes)
      requires AllLinked(table, moved, Rehash(ops, done, table.Length), gen, nodes)
      requires Recounted(Rehash(ops, done, table.Length))
      modifies (set x | x in ns), table, `nEntries, `usedBuckets
      ensures AllLinked(table, moved', Rehash(ops, done + es, table.Length), gen, nodes)
      ensures Recounted(Rehash(ops, done + es, table.Length))
    {
      var iter := head;
      ghost var j, b := 0, Rehash(ops, done, table.Length);
      moved' := moved;
      NoneTaken(done, es);
      SegmentLength(head, ns, es, null, Slot(g, i));
      while iter != null
        invariant j <= |es| == |ns|
        invariant Segment(iter, ns[j..], es[j..], null, Slot(g, i))
        invariant b == Rehash(ops, done + es[..j], table.Length)
        invariant AllLinked(table, moved', b, gen, nodes) && Recounted(b)
        decreases |es| - j
      {
        RestOfRest(ns, j);
        RestOfRest(es, j);
        RehashNext(ops, done, es, j, table.Length);
        iter, moved' := RefileFirst(iter, ns[j..], es[j..], g, i, moved', b);
        b := Push(ops, b, es[j]);
        j := j + 1;
      }
      AllTaken(es, j);
    }

    /** The outer relinking loop: every chain of the old bucket array, in order. */
    method RefileAll(from: array<Node?<K, V>>, ghost was: seq<seq<Node<K, V>>>, ghost b: seq<Chain<K, V>>, ghost g: nat)
      returns (ghost moved: seq<seq<Node<K, V>>>)
      requires table.Length > 0 && table != from && g != gen
      requires AllLinked(from, was, b, g, nodes)
      requires forall i :: 0 <= i < table.Length ==> table[i] == null
      requires nEntries == 0 && usedBuckets == 0
      modifies nodes, table, `nEntries, `usedBuckets
      ensures AllLinked(table, moved, Rehash(ops, Flat(b), table.Length), gen, nodes)
      ensures Recounted(Rehash(ops, Flat(b), table.Length))
    {
      moved := seq(table.Length, _ => []);
      EmptyCounts<K, V>(table.Length);
      for i := 0 to from.Length
        invariant AllLinked(table, moved, Rehash(ops, Flat(b[..i]), table.Length), gen, nodes)
        invariant Recounted(Rehash(ops, Flat(b[..i]), table.Length))
        invariant forall l: nat :: i <= l < |b| ==> Segment(from[l], was[l], b[l], null, Slot(g, l))
      {
        forall l: nat, x | i < l < |b| && x in was[i] ensures x !in was[l] {
          if x in was[l] {
            SegmentHome(from[i], was[i], b[i], null, Slot(g, i), x);
            SegmentHome(from[l], was[l], b[l], null, Slot(g, l), x);
          }
        }
        moved := RefileChain(from[i], was[i], b[i], g, i, moved, Flat(b[..i]));
        FlatSnoc(b, i);
      }
      assert b[..|b|] == b;
    }

    /** A new bucket array, filled from the old one. */
    method Rebuild(n: nat, ghost was: seq<seq<Node<K, V>>>, ghost b: seq<Chain<K, V>>, ghost g: nat)
      returns (ghost moved: seq<seq<Node<K, V>>>)
      requires n > 0 && g != gen
      requires AllLinked(table, was, b, g, nodes)
      modifies nodes, `table, `nEntries, `usedBuckets
      ensures AllLinked(table, moved, Rehash(ops, Flat(b), n), gen, nodes) && fresh(table)
      ensures Recounted(Rehash(ops, Flat(b), n))
    {
      var from := table;
      table := new Node?<K, V>[n](_ => null);
      nEntries, usedBuckets := 0, 0;
      moved := RefileAll(from, was, b, g);
    }

    /** hash_resize; `sane` is the outcome of its closing assertion. */
    method Resize(n: nat) returns (changed: bool, sane: bool)
      requires Valid() && n > 0
      modifies this, nodes
      ensures Valid() && nodes == old(nodes) && (table == old(table) || fresh(table))
      ensures model == HashSpec.Resize(ops, old(model), n)
      ensures changed == (n != |old(model).buckets|)
      ensures sane == ResizeCheck(ops, old(model), n)
    {
      changed, sane := n != table.Length, true;
      if changed {
        var oldEntries := nEntries;
        ghost var was, b := chains, model.buckets;
        model, gen := HashSpec.Resize(ops, model, n), gen + 1;
        chains := Rebuild(n, was, b, gen - 1);
        sane := Size(oldEntries) == Size(nEntries);
      }
    }

    // reading a chain by position

    lemma HeadAt(i: nat)
      requires Valid() && i < |chains|
      ensures |chains[i]| == |model.buckets[i]|
      ensures table[i] == (if chains[i] == [] then null else chains[i][0])
    {
      SegmentLength(table[i], chains[i], model.buckets[i], null, Slot(gen, i));
    }

    lemma NodeAt(i: nat, j: nat)
      requires Valid() && i < |chains| && j < |chains[i]|
      ensures |chains[i]| == |model.buckets[i]|
      ensures Entry(chains[i][j].key, chains[i][j].data) == model.buckets[i][j]
      ensures chains[i][j].next == (if j + 1 < |chains[i]| then chains[i][j + 1] else null)
    {
      Cut(table[i], chains[i], model.buckets[i], null, Slot(gen, i), j);
    }

    // insertion

    /** The nodes of other buckets. */
    lemma Apart(i: nat)
      requires Valid() && i < |chains|
      ensures forall l: nat, x :: l < |chains| && l != i && x in chains[i] ==> x !in chains[l]
    {
      forall l: nat, x | l < |chains| && l != i && x in chains[i] ensures x !in chains[l] {
        if x in chains[l] {
          SegmentHome(table[i], chains[i], model.buckets[i], null, Slot(gen, i), x);
          SegmentHome(table[l], chains[l], model.buckets[l], null, Slot(gen, l), x);
        }
      }
    }

    /** The link change of an insertion: a new node goes to the tail of chain `i`. */
    method LinkTail(k: K, v: V, i: nat, last: Node?<K, V>) returns (node: Node<K, V>)
      requires Valid() && i < |chains|
      requires last == (if chains[i] == [] then null else chains[i][|chains[i]| - 1])
      modifies table, nodes
      ensures fresh(node)
      ensures |chains[i]| == |model.buckets[i]|
      ensures AllLinked(table, chains[i := chains[i] + [node]],
                        model.buckets[i := model.buckets[i] + [Entry(k, v)]], gen, nodes + {node})
    {
      ghost var ns, es := chains[i], model.buckets[i];
      node := new Node(k, v, Slot(gen, i));
      Apart(i);
      SegmentLength(table[i], ns, es, null, Slot(gen, i));
      if last == null {
        table[i] := node;
        assert Segment(node, [node], [Entry(k, v)], null, Slot(gen, i));
        assert ns + [node] == [node] && es + [Entry(k, v)] == [Entry(k, v)];
      } else {
        Cut(table[i], ns, es, null, Slot(gen, i), |ns| - 1);
        assert last in ns;
        last.next := node;
        AppendNode(table[i], ns, es, node, Slot(gen, i));
      }
    }

    /** hash_internal_insert_new up to the load test. */
    method LinkNew(k: K, v: V, i: nat, last: Node?<K, V>)
      requires Valid()
      requires i == Home(ops, model, k) < |chains|
      requires last == (if chains[i] == [] then null else chains[i][|chains[i]| - 1])
      modifies this, table, nodes
      ensures Valid() && table == old(table) && old(nodes) <= nodes && fresh(nodes - old(nodes))
      ensures model == Linked(ops, old(model), Entry(k, v))
    {
      ghost var t' := Linked(ops, model, Entry(k, v));
      ghost var node := LinkTail(k, v, i, last);
      nEntries := nEntries + 1;
      if last == null {
        usedBuckets := usedBuckets + 1;
      }
      nodes, chains, model := nodes + {node}, chains[i := chains[i] + [node]], t';
    }

    /** hash_internal_insert_new */
    method InsertNew(k: K, v: V, i: nat, last: Node?<K, V>) returns (sane: bool)
      requires Valid()
      requires i == Home(ops, model, k) < |chains|
      requires last == (if chains[i] == [] then null else chains[i][|chains[i]| - 1])
      modifies this, table, nodes
      ensures Valid() && (table == old(table) || fresh(table)) && old(nodes) <= nodes && fresh(nodes - old(nodes))
      ensures model == HashSpec.InsertNew(ops, old(model), Entry(k, v))
      ensures sane == InsertNewCheck(ops, old(model), Entry(k, v))
    {
      LinkNew(k, v, i, last);
      sane := true;
      if last == null && OverLoaded(usedBuckets, table.Length) {
        var changed;
        changed, sane := Resize(table.Length * 2);
      }
    }

    /** hash_insert: an existing entry is left alone and its data returned. */
    method Insert(k: K, v: V) returns (existing: Option<V>, sane: bool)
      requires Valid()
      modifies this, table, nodes
      ensures Valid() && (table == old(table) || fresh(table)) && old(nodes) <= nodes && fresh(nodes - old(nodes))
      ensures model == HashSpec.Insert(ops, old(model), k, v)
      ensures existing == HashSpec.Lookup(ops, old(model), k)
      ensures sane == (existing == None ==> InsertNewCheck(ops, old(model), Entry(k, v)))
    {
      var i, last, iter := Scan(k);
      if iter != null {
        existing, sane := Some(iter.data), true;
      } else {
        existing := None;
        sane := InsertNew(k, v, i, last);
      }
    }

    /** The data change of an overwrite. */
    method SetAt(ghost i: nat, ghost p: nat, iter: Node<K, V>, k: K, v: V)
      requires Valid() && i < |chains| && p < |chains[i]| && iter == chains[i][p]
      modifies nodes
      ensures |chains[i]| == |model.buckets[i]|
      ensures AllLinked(table, chains, model.buckets[i := model.buckets[i][p := Entry(k, v)]], gen, nodes)
    {
      ghost var ns, es := chains[i], model.buckets[i];
      Apart(i);
      Cut(table[i], ns, es, null, Slot(gen, i), p);
      assert iter in ns;
      iter.key, iter.data := k, v;
      SetNode(table[i], ns, es, p, Slot(gen, i));
    }

    /** hash_overwrite: an existing entry is freed and replaced in place. */
    method Overwrite(k: K, v: V) returns (freed: Option<V>, sane: bool)
      requires Valid()
      modifies this, table, nodes
      ensures Valid() && (table == old(table) || fresh(table)) && old(nodes) <= nodes && fresh(nodes - old(nodes))
      ensures model == HashSpec.Overwrite(ops, old(model), k, v)
      ensures freed == HashSpec.Lookup(ops, old(model), k)
      ensures sane == (freed == None ==> InsertNewCheck(ops, old(model), Entry(k, v)))
    {
      var i, last, iter := Scan(k);
      if iter == null {
        freed := None;
        sane := InsertNew(k, v, i, last);
      } else {
        freed, sane := Some(iter.data), true;
        SetAt(i, Pos(ops, model.buckets[i], k), iter, k, v);
        model := HashSpec.Overwrite(ops, model, k, v);
      }
    }

    // removal

    /** The link change of a removal: of a head ... */
    method DropFirst(i: nat, next: Node?<K, V>)
      requires Valid() && i < |chains| && chains[i] != [] && next == chains[i][0].next
      modifies table
      ensures |chains[i]| == |model.buckets[i]|
      ensures AllLinked(table, chains[i := Without(chains[i], 0)],
                        model.buckets[i := Without(model.buckets[i], 0)], gen, nodes)
    {
      ghost var ns, es := chains[i], model.buckets[i];
      Cut(table[i], ns, es, null, Slot(gen, i), 0);
      WithoutFirst(ns);
      WithoutFirst(es);
      table[i] := next;
    }

    /** ... and of a later node. */
    method DropLater(i: nat, ghost p: nat, last: Node<K, V>, next: Node?<K, V>)
      requires Valid() && i < |chains| && 0 < p < |chains[i]|
      requires last == chains[i][p - 1] && next == chains[i][p].next
      modifies nodes
      ensures |chains[i]| == |model.buckets[i]|
      ensures AllLinked(table, chains[i := Without(chains[i], p)],
                        model.buckets[i := Without(model.buckets[i], p)], gen, nodes)
    {
      ghost var ns, es := chains[i], model.buckets[i];
      Apart(i);
      Cut(table[i], ns, es, null, Slot(gen, i), p);
      Cut(table[i], ns, es, null, Slot(gen, i), p - 1);
      assert last in ns;
      last.next := next;
      DropNode(table[i], ns, es, p, Slot(gen, i));
    }

    method DropAt(i: nat, ghost p: nat, last: Node?<K, V>, next: Node?<K, V>)
      requires Valid() && i < |chains| && p < |chains[i]|
      requires last == (if p > 0 then chains[i][p - 1] else null)
      requires next == chains[i][p].next
      modifies table, nodes
      ensures |chains[i]| == |model.buckets[i]|
      ensures AllLinked(table, chains[i := Without(chains[i], p)],
                        model.buckets[i := Without(model.buckets[i], p)], gen, nodes)
    {
      if last == null {
        DropFirst(i, next);
      } else {
        DropLater(i, p, last, next);
      }
    }

    /** The unlinking both removals share. */
    method UnlinkNode(ghost k: K, i: nat, last: Node?<K, V>, next: Node?<K, V>)
      requires Valid() && i == Home(ops, model, k) < |chains|
      requires var p := Pos(ops, model.buckets[i], k);
               && p < |chains[i]| == |model.buckets[i]|
               && last == (if p > 0 then chains[i][p - 1] else null)
               && next == chains[i][p].next
      modifies this, table, nodes
      ensures Valid() && table == old(table) && nodes == old(nodes)
      ensures model == Unlink(ops, old(model), k)
    {
      ghost var p := Pos(ops, model.buckets[i], k);
      DropAt(i, p, last, next);
      if last == null {
        usedBuckets := usedBuckets - 1;
      }
      chains, model := chains[i := Without(chains[i], p)], Unlink(ops, model, k);
    }

    /** hash_remove; `freed` is what the free callbacks are given. */
    method Remove(k: K) returns (freed: Option<V>)
      requires Valid()
      modifies this, table, nodes
      ensures Valid() && table == old(table) && nodes == old(nodes)
      ensures model == HashSpec.Remove(ops, old(model), k)
      ensures freed == HashSpec.Lookup(ops, old(model), k)
    {
      var i, last, iter := Scan(k);
      freed := None;
      if iter != null {
        freed := Some(iter.data);
        UnlinkNode(k, i, last, iter.next);
        nEntries := nEntries - 1;
        model := model.(nEntries := model.nEntries - 1);
      }
    }

    /** What an export of `k` must still say for its deletion to be safe. */
    ghost predicate Exported(x: Export<K, V>, k: K)
      requires Valid()
      reads this, table, nodes
    {
      var i := Home(ops, model, k);
      var p := Pos(ops, model.buckets[i], k);
      && x.hash == i
      && |chains[i]| == |model.buckets[i]|
      && x.last == (if p > 0 then chains[i][p - 1] else null)
      && x.node == (if p < |chains[i]| then chains[i][p] else null)
      && (x.node != null ==> x.next == x.node.next)
    }

    /** hash_get_internal_node */
    method GetInternalNode(k: K) returns (x: Export<K, V>)
      requires Valid()
      ensures Exported(x, k)
      ensures x.node != null <==> HashSpec.Lookup(ops, model, k).Some?
      ensures x.node != null ==> x.node.data == HashSpec.Lookup(ops, model, k).value
    {
      var i, last, iter := Scan(k);
      x := Export(i, last, iter, if iter == null then null else iter.next);
    }

    /** hash_del_internal_node: `nEntries` is not touched. */
    method DelInternalNode(x: Export<K, V>, ghost k: K)
      requires Valid() && Exported(x, k)
      modifies this, table, nodes
      ensures Valid() && table == old(table) && nodes == old(nodes)
      ensures model == Unlink(ops, old(model), k)
    {
      if x.node != null {
        UnlinkNode(k, x.hash, x.last, x.next);
      }
    }
  }

  /** The saved state of hash_iterate. */
  class Cursor<K, C(==), V> {
    const tab: HashMap<K, C, V>
    var node: Node?<K, V>
    var bucket: nat
    ghost var done: nat  // how many entries have been handed out
    ghost var step: nat  // how many of them from the current bucket

    ghost predicate Valid()
      reads this, tab
    {
      && bucket <= |tab.chains| == |tab.model.buckets|
      && done == |Flat(tab.model.buckets[..bucket])| + step
      && (if node == null then step == 0
          else bucket < |tab.chains| && 0 < step <= |tab.chains[bucket]| && node == tab.chains[bucket][step - 1])
    }

    constructor (tab: HashMap<K, C, V>)
      requires tab.Valid()
      ensures Valid() && this.tab == tab && done == 0
    {
      this.tab, node, bucket, done, step := tab, null, 0, 0, 0;
      new;
      assert tab.model.buckets[..0] == [];
    }

    /** One step within the current bucket; without a further node the next bucket is up. */
    method Advance() returns (r: Option<Entry<K, V>>)
      requires tab.Valid() && Valid() && bucket < tab.table.Length
      modifies this
      ensures Valid()
      ensures r == None ==> done == old(done) && bucket == old(bucket) + 1
      ensures r != None ==> done == old(done) + 1 <= |Flat(tab.model.buckets)|
      ensures r != None ==> r.value == Flat(tab.model.buckets)[old(done)]
    {
      var iter;
      if node == null {
        tab.HeadAt(bucket);
        iter := tab.table[bucket];
      } else {
        tab.NodeAt(bucket, step - 1);
        iter := node.next;
      }
      node := iter;
      if iter == null {
        FlatSnoc(tab.model.buckets, bucket);
        bucket, step := bucket + 1, 0;
        return None;
      }
      tab.NodeAt(bucket, step);
      FlatAt(tab.model.buckets, bucket, step);
      step, done := step + 1, done + 1;
      return Some(Entry(iter.key, iter.data));
    }

    /** Resume: the next entry in bucket and link order, or None after the last one. */
    method Next() returns (r: Option<Entry<K, V>>)
      requires tab.Valid() && Valid()
      modifies this
      ensures Valid()
      ensures var all := Flat(tab.model.buckets);
              && old(done) <= |all|
              && r == (if old(done) < |all| then Some(all[old(done)]) else None)
              && done == (if r.Some? then old(done) + 1 else old(done))
    {
      r := None;
      while bucket < tab.table.Length && r == None
        invariant Valid()
        invariant r == None ==> done == old(done)
        invariant r != None ==> done == old(done) + 1 <= |Flat(tab.model.buckets)|
        invariant r != None ==> r.value == Flat(tab.model.buckets)[old(done)]
        decreases r == None, tab.table.Length - bucket
      {
        r := Advance();
      }
      if r == None {
        assert tab.model.buckets[..bucket] == tab.model.buckets;
      }
    }
  }

  /** An empty table of `sz` buckets has received the first `n` of `all`. */
  ghost predicate CopiedSo<K, C, V>(ops: KeyOps<K, C>, sz: nat, all: Chain<K, V>, n: nat, t: Table<K, V>) {
    forall k: nat {:trigger Opened(k)} :: Opened(k) ==> n <= |all| && t == InsertAll(ops, Init(sz), all[..n])
  }

  lemma WithoutFirst<T>(s: seq<T>)
    requires s != []
    ensures Without(s, 0) == s[1..]
  {
  }

  lemma NoneTaken<T>(done: seq<T>, s: seq<T>)
    ensures done + s[..0] == done
  {
  }

  lemma AllTaken<T>(s: seq<T>, n: nat)
    requires n == |s|
    ensures s[..n] == s
  {
  }

  lemma RestOfRest<T>(s: seq<T>, j: nat)
    requires j < |s|
    ensures s[j..][1..] == s[j + 1..] && s[j..][0] == s[j]
  {
  }

  /** The insertion of the hash_dup loop: it cannot fail the resize check. */
  lemma CopiedNext<K, C, V>(ops: KeyOps<K, C>, sz: nat, all: Chain<K, V>, n: nat, t: Table<K, V>)
    requires n < |all| && CopiedSo(ops, sz, all, n, t) && |t.buckets| > 0
    ensures CopiedSo(ops, sz, all, n + 1, HashSpec.Insert(ops, t, all[n].key, all[n].data))
    ensures InsertSane(ops, t, all[n])
  {
    assert Opened(0);
    InsertAllNext(ops, sz, all, n);
  }

  lemma CopiedRound<K, C, V>(ops: KeyOps<K, C>, sz: nat, all: Chain<K, V>, n: nat, t: Table<K, V>, more: bool, n': nat, t': Table<K, V>)
    requires CopiedSo(ops, sz, all, n, t) && |t.buckets| > 0
    requires if more then n < |all| && n' == n + 1 && t' == HashSpec.Insert(ops, t, all[n].key, all[n].data) else n' == n && t' == t
    ensures CopiedSo(ops, sz, all, n', t') && (more ==> InsertSane(ops, t, all[n]))
  {
    if more { CopiedNext(ops, sz, all, n, t); }
  }

  ghost predicate InsertSane<K, C, V>(ops: KeyOps<K, C>, t: Table<K, V>, e: Entry<K, V>)
    requires |t.buckets| > 0
  {
    HashSpec.Lookup(ops, t, e.key) == None ==> InsertNewCheck(ops, t, Entry(e.key, e.data))
  }

  /** A copy of the next entry of the table. */
  method NextCopied<K, C(==), V>(save: Cursor<K, C, V>, dup: V -> V, ghost all: Chain<K, V>) returns (e: Option<Entry<K, V>>)
    requires save.tab.Valid() && save.Valid() && all == Copies(Flat(save.tab.model.buckets), dup)
    modifies save
    ensures save.Valid()
    ensures if e == None then save.done == old(save.done) == |all|
            else old(save.done) < |all| && save.done == old(save.done) + 1
                 && all[old(save.done)] == e.value
  {
    ghost var n, es := save.done, Flat(save.tab.model.buckets);
    e := save.Next();
    if e != None {
      CopiesAt(es, dup, n);
      e := Some(Entry(e.value.key, dup(e.value.data)));
    }
  }

  /** The heap work of one round of the hash_dup loop. */
  method CopyNext<K, C(==), V>(save: Cursor<K, C, V>, ret: HashMap<K, C, V>, dup: V -> V, ghost all: Chain<K, V>)
    returns (more: bool, sane: bool)
    requires save.tab.Valid() && save.Valid() && ret.Valid() && all == Copies(Flat(save.tab.model.buckets), dup)
    requires ret != save.tab && ret.table != save.tab.table && ret.nodes !! save.tab.nodes
    modifies save, ret, ret.table, ret.nodes
    ensures save.Valid() && ret.Valid()
    ensures (ret.table == old(ret.table) || fresh(ret.table)) && fresh(ret.nodes - old(ret.nodes))
    ensures more == (old(save.done) < |all|) && save.done == (if more then old(save.done) + 1 else |all|)
    ensures more ==> ret.model == HashSpec.Insert(ret.ops, old(ret.model), all[old(save.done)].key, all[old(save.done)].data)
    ensures sane == (more ==> InsertSane(ret.ops, old(ret.model), all[old(save.done)]))
    ensures !more ==> ret.model == old(ret.model) && save.done == old(save.done)
  {
    var e := NextCopied(save, dup, all);
    more, sane := e != None, true;
    if more {
      var existing;
      existing, sane := ret.Insert(e.value.key, e.value.data);
    }
  }

  /** One round of the hash_dup loop. */
  method CopyRound<K, C(==), V>(save: Cursor<K, C, V>, ret: HashMap<K, C, V>, dup: V -> V, ghost sz: nat, ghost all: Chain<K, V>)
    returns (more: bool, sane: bool)
    requires save.tab.Valid() && save.Valid() && ret.Valid() && all == Copies(Flat(save.tab.model.buckets), dup)
    requires save.done <= |all| && CopiedSo(ret.ops, sz, all, save.done, ret.model)
    requires ret != save.tab && ret.table != save.tab.table && ret.nodes !! save.tab.nodes
    modifies save, ret, ret.table, ret.nodes
    ensures save.Valid() && ret.Valid() && sane
    ensures save.done <= |all| && CopiedSo(ret.ops, sz, all, save.done, ret.model)
    ensures (ret.table == old(ret.table) || fresh(ret.table)) && fresh(ret.nodes - old(ret.nodes))
    ensures save.done == (if more then old(save.done) + 1 else |all|)
  {
    ghost var n, t := save.done, ret.model;
    more, sane := CopyNext(save, ret, dup, all);
    CopiedRound(ret.ops, sz, all, n, t, more, save.done, ret.model);
  }

  /** hash_dup; the identity stands for a table without dup callback. */
  method Dup<K, C(==), V>(tab: HashMap<K, C, V>, dup: V -> V) returns (ret: HashMap<K, C, V>, sane: bool)
    requires tab.Valid()
    ensures fresh(ret) && ret.Valid() && ret.ops == tab.ops && sane
    ensures ret.model == InsertAll(tab.ops, Init(|tab.model.buckets|), Copies(Flat(tab.model.buckets), dup))
  {
    ret := new HashMap(tab.ops, tab.table.Length);
    sane := true;
    var save := new Cursor(tab);
    var more := true;
    ghost var all := Copies(Flat(tab.model.buckets), dup);
    while more
      invariant unchanged(tab, tab.table, tab.nodes)
      invariant fresh(save) && save.tab == tab && save.Valid()
      invariant fresh(ret) && fresh(ret.table) && fresh(ret.nodes) && ret.Valid() && ret.ops == tab.ops
      invariant save.done <= |all| && CopiedSo(ret.ops, tab.table.Length, all, save.done, ret.model) && sane
      invariant !more ==> save.done == |all|
      decreases more, |all| - save.done
    {
      more, sane := CopyRound(save, ret, dup, tab.table.Length, all);
    }
    CopiedAll(ret.ops, tab.table.Length, all, save.done, ret.model);
  }

  lemma CopiedAll<K, C, V>(ops: KeyOps<K, C>, sz: nat, all: Chain<K, V>, n: nat, t: Table<K, V>)
    requires n == |all| && CopiedSo(ops, sz, all, n, t)
    ensures t == InsertAll(ops, Init(sz), all)
  {
    assert Opened(0);
    AllTaken(all, n);
  }

  // what a single link or data change does to a chain that was cut before it

  lemma AppendNode<K, V>(head: Node?<K, V>, ns: seq<Node<K, V>>, es: Chain<K, V>, x: Node<K, V>, home: Slot)
    requires |ns| == |es| > 0 && x !in ns && x.home == home && x.next == null
    requires var n := |ns| - 1;
             && Segment(head, ns[..n], es[..n], ns[n], home) && ns[n] !in ns[..n] && ns[n].home == home
             && es[n] == Entry(ns[n].key, ns[n].data) && ns[n].next == x
    ensures Segment(head, ns + [x], es + [Entry(x.key, x.data)], null, home)
  {
    var n, e := |ns| - 1, Entry(x.key, x.data);
    assert Segment(x, [x], [e], null, home);
    assert [ns[n], x][1..] == [x] && [es[n], e][1..] == [e];
    Join(head, ns[..n], es[..n], ns[n], [ns[n], x], [es[n], e], null, home);
    assert ns[..n] + [ns[n], x] == ns + [x] && es[..n] + [es[n], e] == es + [e];
  }

  lemma SetNode<K, V>(head: Node?<K, V>, ns: seq<Node<K, V>>, es: Chain<K, V>, p: nat, home: Slot)
    requires p < |ns| == |es|
    requires Segment(head, ns[..p], es[..p], ns[p], home) && ns[p].home == home
    requires Segment(ns[p].next, ns[p + 1..], es[p + 1..], null, home)
    requires ns[p] !in ns[..p] && ns[p] !in ns[p + 1..] && Disjoint(ns[..p], ns[p + 1..])
    ensures Segment(head, ns, es[p := Entry(ns[p].key, ns[p].data)], null, home)
  {
    var e := Entry(ns[p].key, ns[p].data);
    ConsTail(ns[p], ns[p + 1..]);
    ConsTail(e, es[p + 1..]);
    Join(head, ns[..p], es[..p], ns[p], [ns[p]] + ns[p + 1..], [e] + es[p + 1..], null, home);
    assert ns[..p] + ([ns[p]] + ns[p + 1..]) == ns;
    assert es[..p] + ([e] + es[p + 1..]) == es[p := e];
  }

  lemma ConsTail<T>(x: T, s: seq<T>)
    ensures ([x] + s)[1..] == s
  {
  }

  lemma Cutting<T>(s: seq<T>, p: nat)
    requires 0 < p < |s|
    ensures s[..p - 1] + ([s[p - 1]] + s[p + 1..]) == Without(s, p)
  {
  }

  lemma DropNode<K, V>(head: Node?<K, V>, ns: seq<Node<K, V>>, es: Chain<K, V>, p: nat, home: Slot)
    requires 0 < p < |ns| == |es|
    requires Segment(head, ns[..p - 1], es[..p - 1], ns[p - 1], home) && ns[p - 1].home == home
    requires es[p - 1] == Entry(ns[p - 1].key, ns[p - 1].data)
    requires Segment(ns[p - 1].next, ns[p + 1..], es[p + 1..], null, home)
    requires ns[p - 1] !in ns[..p - 1] && ns[p - 1] !in ns[p + 1..]
    requires Disjoint(ns[..p - 1], ns[p + 1..])
    ensures Segment(head, Without(ns, p), Without(es, p), null, home)
  {
    var q := p - 1;
    ConsTail(ns[q], ns[p + 1..]);
    ConsTail(es[q], es[p + 1..]);
    Join(head, ns[..q], es[..q], ns[q], [ns[q]] + ns[p + 1..], [es[q]] + es[p + 1..], null, home);
    Cutting(ns, p);
    Cutting(es, p);
  }
}
