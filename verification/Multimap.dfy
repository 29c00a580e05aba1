/** The multimap of src/multimap.c on the heap: a chained hash table whose data are nodes
    holding a linked list of pairs each. */
module Multimap {
  import opened Guard
  import opened HashSpec
  import opened Wrappers
  import opened HashLaws
  import opened HashMap
  import opened HashCount
  import opened HashDrift
  import M = MultimapSpec

  /** No node of `all` is both among `kept` and among `rest`. */
  ghost predicate Divided<K, V>(kept: seq<Node<K, V>>, rest: seq<Node<K, V>>, all: seq<Node<K, V>>) {
    Disjoint(kept, rest) && (forall x :: x in kept ==> x in all) && forall x :: x in rest ==> x in all
  }

  lemma DividedNext<K, V>(kept: seq<Node<K, V>>, rest: seq<Node<K, V>>, all: seq<Node<K, V>>)
    requires Divided(kept, rest, all) && rest != [] && rest[0] !in rest[1..]
    ensures rest[0] !in kept && Divided(kept, rest[1..], all) && Divided(kept + [rest[0]], rest[1..], all)
  {
  }

  /** All the pairs of one key; the list cells have the shape of table nodes. */
  class ListNode<K, V> {
    var list: Node?<K, V>
    var nPairs: nat
    ghost const home: Slot
    ghost var cells: seq<Node<K, V>>
    ghost var pairs: Chain<K, V>

    ghost predicate Valid()
      reads this, set x | x in cells
    {
      && nPairs == |pairs|
      && Segment(list, cells, pairs, null, home)
    }

    constructor (key: K, val: V, ghost home: Slot)
      ensures Valid() && this.home == home && pairs == [Entry(key, val)] && |cells| == 1 && fresh(cells[0])
    {
      this.home := home;
      var cell := new Node(key, val, home);
      list, nPairs, cells, pairs := cell, 1, [cell], [Entry(key, val)];
    }

    method Prepend(key: K, val: V) returns (cell: Node<K, V>)
      requires Valid()
      modifies this
      ensures Valid() && fresh(cell)
      ensures pairs == [Entry(key, val)] + old(pairs) && cells == [cell] + old(cells)
    {
      cell := new Node(key, val, home);
      cell.next := list;
      SegmentLength(list, cells, pairs, null, home);
      assert ([cell] + cells)[1..] == cells && ([Entry(key, val)] + pairs)[1..] == pairs;
      list, nPairs := cell, nPairs + 1;
      cells, pairs := [cell] + cells, [Entry(key, val)] + pairs;
    }

    /** Unlink a cell that lies between the cells `kept` and `next`. */
    method DropCell(last: Node?<K, V>, next: Node?<K, V>, ghost iter: Node<K, V>,
                    ghost kept: seq<Node<K, V>>, ghost es: Chain<K, V>)
      requires last == (if kept == [] then null else kept[|kept| - 1])
      requires Segment(list, kept, es, iter, home)
      modifies `list, set x | x in kept
      ensures Segment(list, kept, es, next, home)
    {
      if last == null {
        list := next;
      } else {
        Cut(list, kept, es, iter, home, |kept| - 1);
        assert last in kept;
        last.next := next;
        CloseSegment(list, kept, es, next, home);
      }
    }

    /** The body of the delete loop: `iter` joins the kept cells or is taken out. */
    method VisitCell(iter: Node<K, V>, last: Node?<K, V>, same: V -> bool,
                     ghost kept: seq<Node<K, V>>, ghost es: Chain<K, V>)
      returns (last': Node?<K, V>, ghost kept': seq<Node<K, V>>, ghost es': Chain<K, V>)
      requires last == (if kept == [] then null else kept[|kept| - 1])
      requires Segment(list, kept, es, iter, home) && iter !in kept && iter.home == home && nPairs > 0
      modifies `list, `nPairs, set x | x in kept
      ensures kept' == (if same(iter.data) then kept else kept + [iter])
      ensures last' == (if kept' == [] then null else kept'[|kept'| - 1])
      ensures nPairs == old(nPairs) - (if same(iter.data) then 1 else 0)
      ensures es' == (if same(iter.data) then es else es + [Entry(iter.key, iter.data)])
      ensures Segment(list, kept', es', iter.next, home)
    {
      if same(iter.data) {
        DropCell(last, iter.next, iter, kept, es);
        nPairs := nPairs - 1;
        last', kept', es' := last, kept, es;
      } else {
        ExtendSegment(list, kept, es, iter, home);
        last', kept', es' := iter, kept + [iter], es + [Entry(iter.key, iter.data)];
      }
    }

    /** The loop of multimap_delete; the values freed are returned in order. */
    method DeleteLoop(same: V -> bool) returns (freed: seq<V>, ghost kept: seq<Node<K, V>>)
      requires Valid()
      modifies `list, `nPairs, set x | x in cells
      ensures Segment(list, kept, M.Survivors(pairs, same), null, home)
      ensures forall x :: x in kept ==> x in cells
      ensures freed == M.Victims(pairs, same) && nPairs == |M.Survivors(pairs, same)|
    {
      var last: Node?<K, V>, iter: Node?<K, V> := null, list;
      freed, kept := [], [];
      ghost var s: Chain<K, V>, rest, fs := [], cells, pairs;
      while iter != null
        invariant last == (if kept == [] then null else kept[|kept| - 1])
        invariant Segment(list, kept, s, iter, home) && Segment(iter, rest, fs, null, home)
        invariant Divided(kept, rest, cells)
        invariant s + M.Survivors(fs, same) == M.Survivors(pairs, same)
        invariant freed + M.Victims(fs, same) == M.Victims(pairs, same)
        invariant nPairs == |s| + |fs|
        decreases |fs|
      {
        var next := iter.next;
        M.DeleteStep(s, freed, fs, same);
        DividedNext(kept, rest, cells);
        if same(iter.data) {
          freed := freed + [iter.data];
        }
        last, kept, s := VisitCell(iter, last, same, kept, s);
        iter, rest, fs := next, rest[1..], fs[1..];
      }
      assert s + [] == s && freed + [] == freed;
    }

    /** free_node: every value of the list is freed, in order. */
    method FreeNode() returns (freed: seq<V>)
      requires Valid()
      ensures freed == M.Values(pairs) && |freed| == nPairs
    {
      var iter := list;
      freed := [];
      ghost var rest, fs := cells, pairs;
      while iter != null
        invariant Segment(iter, rest, fs, null, home)
        invariant freed + M.Values(fs) == M.Values(pairs)
        decreases |fs|
      {
        M.ValuesNext(freed, fs);
        freed := freed + [iter.data];
        iter, rest, fs := iter.next, rest[1..], fs[1..];
      }
    }

    method DeleteMatching(same: V -> bool) returns (freed: seq<V>)
      requires Valid()
      modifies this, set x | x in cells
      ensures Valid() && (forall x :: x in cells ==> x in old(cells))
      ensures pairs == M.Survivors(old(pairs), same)
      ensures freed == M.Victims(old(pairs), same)
    {
      ghost var kept;
      freed, kept := DeleteLoop(same);
      cells, pairs := kept, M.Survivors(pairs, same);
    }
  }

  /** The list nodes carry the contents, each under its own label. */
  ghost predicate Carried<K, C, V>(contents: M.Lists<C, K, V>, lists: map<C, ListNode<K, V>>,
                                   heads: set<ListNode<K, V>>, cells: set<object>, labels: nat)
    reads heads, cells
  {
    && contents.Keys == lists.Keys
    && forall n: nat {:trigger Sealed(n)} :: Sealed(n) ==>
         && (forall c :: c in lists ==> lists[c] in heads && forall x :: x in lists[c].cells ==> x in cells)
         && (forall c :: c in lists ==> lists[c].Valid() && lists[c].home.gen < labels)
         && (forall c, d :: c in lists && d in lists && c != d ==> lists[c].home != lists[d].home)
         && (forall c :: c in lists ==> contents[c] == lists[c].pairs != [])
  }

  /** One of the lists. */
  lemma CarriedAt<K, C, V>(contents: M.Lists<C, K, V>, lists: map<C, ListNode<K, V>>, heads: set<ListNode<K, V>>,
                           cells: set<object>, labels: nat, c: C)
    requires Carried(contents, lists, heads, cells, labels) && c in lists
    ensures lists[c] in heads && (forall x :: x in lists[c].cells ==> x in cells)
    ensures lists[c].Valid() && contents[c] == lists[c].pairs != []
  {
    assert Sealed(0);
  }

  lemma CarriedPlus<K, C, V>(contents: M.Lists<C, K, V>, lists: map<C, ListNode<K, V>>, heads: set<ListNode<K, V>>,
                             cells: set<object>, labels: nat, c: C, node: ListNode<K, V>)
    requires Carried(contents, lists, heads, cells, labels)
    requires node.Valid() && node.home == Slot(labels, 0) && |node.cells| == 1 && node.pairs != []
    ensures Carried(contents[c := node.pairs], lists[c := node], heads + {node}, cells + {node.cells[0]}, labels + 1)
  {
    assert Sealed(0);
  }

  /** What a multimap represents, and the objects it does so with. */
  datatype View<C, !K, !V> = View(contents: M.Lists<C, K, V>, lists: map<C, ListNode<K, V>>, heads: set<ListNode<K, V>>,
                                  cells: set<object>, labels: nat, drift: Drift)

  /** The drift when a key's node has gone from the table with the entry counter left alone ... */
  ghost function Uncounted<K, C, V>(ops: KeyOps<K, C>, t: Table<K, V>, key: K, d: Drift): Drift
    requires |t.buckets| > 0
  {
    Drift(if Beheads(ops, t, key) then d.heads + 1 else d.heads, d.nodes + 1)
  }

  /** ... and when it has been removed and counted. */
  ghost function Beheaded<K, C, V>(ops: KeyOps<K, C>, t: Table<K, V>, key: K, d: Drift): Drift
    requires |t.buckets| > 0
  {
    if Beheads(ops, t, key) then d.(heads := d.heads + 1) else d
  }

  /** The table after a deletion of pairs: untouched unless the key's list has run empty. */
  ghost predicate TableAfter<K, C, V>(emptied: bool, ops: KeyOps<K, C>, t: Table<K, V>, key: K, d: Drift,
                                          t': Table<K, V>, d': Drift)
    requires |t.buckets| > 0
  {
    if emptied then t' == Unlink(ops, t, key) && d' == Uncounted(ops, t, key, d) else t' == t && d' == d
  }

  class Multimap<K(!new), C(==), V> {
    const hashTab: HashMap<K, C, ListNode<K, V>>
    const sameVal: (V, V) -> bool
    var totalPairs: int
    ghost var view: View<C, K, V>

    /** The hash table maps each key to its list node. */
    ghost predicate TableHolds(lists: map<C, ListNode<K, V>>, drift: Drift)
      reads hashTab, hashTab.table, hashTab.nodes
    {
      && hashTab.Valid()
      && forall n: nat {:trigger Opened(n)} :: Opened(n) ==>
           && Compatible(hashTab.ops) && WF(hashTab.ops, hashTab.model)
           && Abs(hashTab.ops, hashTab.model) == lists
           && Tracks(hashTab.model, drift)
    }

    ghost predicate Apart(cells: set<object>)
      reads hashTab
    {
      var ns: set<object> := hashTab.nodes;
      ns !! cells && hashTab !in cells && hashTab.table !in cells && this !in cells
    }

    ghost predicate Valid()
      reads this, hashTab, hashTab.table, hashTab.nodes, view.heads, view.cells
    {
      Shows(view) && totalPairs == M.Pairs(view.contents)
    }

    /** The two fields of the multimap itself. */
    method Put(n: int, ghost v: View<C, K, V>)
      requires Shows(v) && n == M.Pairs(v.contents)
      modifies `totalPairs, `view
      ensures Valid() && view == v
    {
      totalPairs, view := n, v;
    }

    constructor (tabsz: nat, ops: KeyOps<K, C>, sameVal: (V, V) -> bool)
      requires Compatible(ops)
      ensures Valid() && hashTab.ops == ops && this.sameVal == sameVal
      ensures hashTab.model == Init(tabsz) && view.contents == map[] && view.drift == NONE
      ensures fresh(hashTab) && fresh(hashTab.table) && hashTab.nodes == {} && view.heads == {} && view.cells == {}
    {
      this.sameVal := sameVal;
      hashTab := new HashMap(ops, tabsz);
      totalPairs, view := 0, View(map[], map[], {}, {}, 0, NONE);
      new;
      InitIsEmpty<K, C, ListNode<K, V>>(ops, tabsz);
      InitExact<K, ListNode<K, V>>(tabsz);
    }

    /** multimap_lookup: from `list` the links run through cells of this multimap that hold exactly
        the pairs of the key. */
    method Lookup(key: K) returns (list: Node?<K, V>, nPairs: nat)
      requires Valid()
      ensures nPairs == |M.At(view.contents, hashTab.ops.norm(key))| && (list == null <==> nPairs == 0)
      ensures exists cells: seq<Node<K, V>>, home: Slot ::
                && Segment(list, cells, M.At(view.contents, hashTab.ops.norm(key)), null, home)
                && forall x :: x in cells ==> x in view.cells
    {
      assert Opened(0);
      LookupIsGet(hashTab.ops, hashTab.model, key);
      var node := hashTab.Lookup(key);
      if node == None {
        list, nPairs := null, 0;
        assert Segment<K, V>(list, [], [], null, Slot(0, 0));
      } else {
        CarriedAt(view.contents, view.lists, view.heads, view.cells, view.labels, hashTab.ops.norm(key));
        list, nPairs := node.value.list, node.value.nPairs;
        assert Segment(list, node.value.cells, node.value.pairs, null, node.value.home);
        SegmentLength(list, node.value.cells, node.value.pairs, null, node.value.home);
      }
    }

    /** Enter a new list node in the hash table. */
    method EnterNode(key: K, node: ListNode<K, V>, ghost lists: map<C, ListNode<K, V>>, ghost drift: Drift)
      returns (sane: bool, ghost drift': Drift)
      requires TableHolds(lists, drift) && hashTab.ops.norm(key) !in lists
      modifies hashTab, hashTab.table, hashTab.nodes
      ensures TableHolds(lists[hashTab.ops.norm(key) := node], drift')
      ensures (hashTab.table == old(hashTab.table) || fresh(hashTab.table)) && fresh(hashTab.nodes - old(hashTab.nodes))
      ensures hashTab.model == HashSpec.InsertNew(hashTab.ops, old(hashTab.model), Entry(key, node))
      ensures drift' == if Grows(hashTab.ops, old(hashTab.model), key) then NONE else drift
      ensures sane <==> !Grows(hashTab.ops, old(hashTab.model), key) || Size(drift.nodes) == 0
    {
      ghost var t, ops := hashTab.model, hashTab.ops;
      assert Opened(0);
      LookupIsGet(ops, t, key);
      StepRefines(ops, t, OpInsert(key, node));
      StepTracks(ops, t, OpInsert(key, node), drift);
      InsertCheckTracks(ops, t, Entry(key, node), drift);
      drift' := DriftStep(ops, t, OpInsert(key, node), drift);
      var existing;
      existing, sane := hashTab.Insert(key, node);
    }

    /** What a view says about the heap. */
    ghost predicate Shows(v: View<C, K, V>)
      reads hashTab, hashTab.table, hashTab.nodes, v.heads, v.cells
    {
      TableHolds(v.lists, v.drift) && Carried(v.contents, v.lists, v.heads, v.cells, v.labels) && Apart(v.cells)
    }

    /** The list of a key's first pair, not yet in the table. */
    method NewList(key: K, val: V, ghost v: View<C, K, V>) returns (list: ListNode<K, V>, ghost w: View<C, K, V>)
      requires Shows(v) && hashTab.ops.norm(key) !in v.contents
      ensures TableHolds(v.lists, v.drift) && Apart(w.cells) && Carried(w.contents, w.lists, w.heads, w.cells, w.labels)
      ensures fresh(w.heads - v.heads) && fresh(w.cells - v.cells)
      ensures w.lists == v.lists[hashTab.ops.norm(key) := list]
      ensures w.contents == M.Insert(v.contents, hashTab.ops.norm(key), Entry(key, val)) && w.drift == v.drift
    {
      ghost var c := hashTab.ops.norm(key);
      list := new ListNode(key, val, Slot(v.labels, 0));
      assert [Entry(key, val)] + [] == [Entry(key, val)];
      CarriedPlus(v.contents, v.lists, v.heads, v.cells, v.labels, c, list);
      w := View(v.contents[c := list.pairs], v.lists[c := list], v.heads + {list}, v.cells + {list.cells[0]}, v.labels + 1, v.drift);
    }

    /** The heap work for the first pair of a key. */
    method AddKey(key: K, val: V, ghost v: View<C, K, V>)
      returns (sane: bool, ghost v': View<C, K, V>, ghost node: ListNode<K, V>)
      requires Shows(v) && hashTab.ops.norm(key) !in v.contents
      modifies hashTab, hashTab.table, hashTab.nodes
      ensures Shows(v') && fresh(v'.heads - v.heads) && fresh(v'.cells - v.cells)
      ensures (hashTab.table == old(hashTab.table) || fresh(hashTab.table)) && fresh(hashTab.nodes - old(hashTab.nodes))
      ensures v'.contents == M.Insert(v.contents, hashTab.ops.norm(key), Entry(key, val))
      ensures hashTab.model == HashSpec.InsertNew(hashTab.ops, old(hashTab.model), Entry(key, node))
      ensures v'.drift == if Grows(hashTab.ops, old(hashTab.model), key) then NONE else v.drift
      ensures sane <==> !Grows(hashTab.ops, old(hashTab.model), key) || Size(v.drift.nodes) == 0
    {
      var list;
      ghost var w, drift';
      list, w := NewList(key, val, v);
      sane, drift' := EnterNode(key, list, v.lists, v.drift);
      node, v' := list, w.(drift := drift');
    }

    /** Find the list node of a key that has one. */
    method FindNode(key: K, ghost v: View<C, K, V>) returns (r: Option<ListNode<K, V>>)
      requires TableHolds(v.lists, v.drift)
      ensures r == Get(v.lists, hashTab.ops.norm(key))
    {
      assert Opened(0);
      LookupIsGet(hashTab.ops, hashTab.model, key);
      r := hashTab.Lookup(key);
    }

    /** The heap work for a further pair of a key: it goes in front of the others. */
    method PushPair(key: K, val: V, node: ListNode<K, V>, ghost v: View<C, K, V>) returns (ghost v': View<C, K, V>)
      requires Shows(v) && Get(v.lists, hashTab.ops.norm(key)) == Some(node)
      modifies node
      ensures Shows(v') && v'.heads == v.heads && fresh(v'.cells - v.cells) && v'.drift == v.drift
      ensures v'.contents == M.Insert(v.contents, hashTab.ops.norm(key), Entry(key, val))
    {
      ghost var c := hashTab.ops.norm(key);
      ghost var cell := PushNode(v.contents, v.lists, v.heads, v.cells, v.labels, c, node, key, val);
      v' := v.(contents := v.contents[c := [Entry(key, val)] + v.contents[c]], cells := v.cells + {cell});
    }

    /** Whether the insertion of `key` makes the table grow. */
    ghost predicate Growing(contents: M.Lists<C, K, V>, key: K)
      requires hashTab.Valid()
      reads hashTab, hashTab.table, hashTab.nodes
    {
      hashTab.ops.norm(key) !in contents && Grows(hashTab.ops, hashTab.model, key)
    }

    method AddPair(key: K, val: V, ghost v: View<C, K, V>)
      returns (isNew: bool, sane: bool, ghost v': View<C, K, V>, ghost node: ListNode?<K, V>)
      requires Shows(v)
      modifies hashTab, hashTab.table, hashTab.nodes, v.heads
      ensures Shows(v') && fresh(v'.heads - v.heads) && fresh(v'.cells - v.cells)
      ensures (hashTab.table == old(hashTab.table) || fresh(hashTab.table)) && fresh(hashTab.nodes - old(hashTab.nodes))
      ensures v'.contents == M.Insert(v.contents, hashTab.ops.norm(key), Entry(key, val))
      ensures isNew == (hashTab.ops.norm(key) !in v.contents) == (node != null)
      ensures hashTab.model == if node != null then HashSpec.InsertNew(hashTab.ops, old(hashTab.model), Entry(key, node))
                               else old(hashTab.model)
      ensures v'.drift == if old(Growing(v.contents, key)) then NONE else v.drift
      ensures sane <==> !old(Growing(v.contents, key)) || Size(v.drift.nodes) == 0
    {
      var found := FindNode(key, v);
      isNew, sane, node := found == None, true, null;
      if isNew {
        sane, v', node := AddKey(key, val, v);
      } else {
        CarriedAt(v.contents, v.lists, v.heads, v.cells, v.labels, hashTab.ops.norm(key));
        v' := PushPair(key, val, found.value, v);
      }
    }

    /** multimap_insert; `sane` is the outcome of the hash table's resize assertion, which fails
        exactly when the table grows while deletions of emptied keys have gone uncounted. */
    method Insert(key: K, val: V) returns (isNew: bool, sane: bool, ghost node: ListNode?<K, V>)
      requires Valid()
      modifies this, hashTab, hashTab.table, hashTab.nodes, view.heads
      ensures Valid() && fresh(view.heads - old(view.heads)) && fresh(view.cells - old(view.cells))
      ensures (hashTab.table == old(hashTab.table) || fresh(hashTab.table)) && fresh(hashTab.nodes - old(hashTab.nodes))
      ensures view.contents == M.Insert(old(view.contents), hashTab.ops.norm(key), Entry(key, val))
      ensures isNew == (hashTab.ops.norm(key) !in old(view.contents)) == (node != null)
      ensures hashTab.model == if node != null then HashSpec.InsertNew(hashTab.ops, old(hashTab.model), Entry(key, node))
                               else old(hashTab.model)
      ensures view.drift == if old(Growing(view.contents, key)) then NONE else old(view.drift)
      ensures sane <==> !old(Growing(view.contents, key)) || Size(old(view.drift).nodes) == 0
    {
      ghost var v;
      isNew, sane, v, node := AddPair(key, val, view);
      M.PairsUpdate(view.contents, hashTab.ops.norm(key), v.contents[hashTab.ops.norm(key)]);
      Put(totalPairs + 1, v);
    }

    /** Take a key's list node out of the hash table: `nEntries` is left behind. */
    method DropKey(x: Export<K, ListNode<K, V>>, ghost key: K, ghost lists: map<C, ListNode<K, V>>, ghost drift: Drift)
      returns (ghost drift': Drift)
      requires TableHolds(lists, drift) && hashTab.Exported(x, key) && hashTab.ops.norm(key) in lists
      modifies hashTab, hashTab.table, hashTab.nodes
      ensures TableHolds(lists - {hashTab.ops.norm(key)}, drift')
      ensures hashTab.table == old(hashTab.table) && hashTab.nodes == old(hashTab.nodes)
      ensures hashTab.model == Unlink(hashTab.ops, old(hashTab.model), key)
      ensures drift' == Uncounted(hashTab.ops, old(hashTab.model), key, drift)
    {
      ghost var t, ops := hashTab.model, hashTab.ops;
      assert Opened(0);
      LookupIsGet(ops, t, key);
      StepRefines(ops, t, OpDelNode(key));
      StepTracks(ops, t, OpDelNode(key), drift);
      drift' := DriftStep(ops, t, OpDelNode(key), drift);
      hashTab.DelInternalNode(x, key);
    }

    /** After a deletion from its list a key stays, with what is left, or goes. */
    method Settle(key: K, node: ListNode<K, V>, x: Export<K, ListNode<K, V>>, ghost v: View<C, K, V>)
      returns (ghost v': View<C, K, V>)
      requires hashTab.ops.norm(key) in v.lists && node.nPairs == |node.pairs| && hashTab.Valid() && hashTab.Exported(x, key)
      requires TableHolds(v.lists, v.drift) && Apart(v.cells)
      requires var c := hashTab.ops.norm(key);
               if node.pairs == [] then Carried(v.contents - {c}, v.lists - {c}, v.heads, v.cells, v.labels)
               else Carried(v.contents[c := node.pairs], v.lists, v.heads, v.cells, v.labels)
      modifies hashTab, hashTab.table, hashTab.nodes
      ensures Shows(v') && v'.heads == v.heads && v'.cells == v.cells
      ensures hashTab.table == old(hashTab.table) && hashTab.nodes == old(hashTab.nodes)
      ensures v'.contents == (var c := hashTab.ops.norm(key);
                              if node.pairs == [] then v.contents - {c} else v.contents[c := node.pairs])
      ensures TableAfter(node.pairs == [], hashTab.ops, old(hashTab.model), key, v.drift, hashTab.model, v'.drift)
    {
      ghost var c := hashTab.ops.norm(key);
      if node.nPairs == 0 {
        ghost var drift' := DropKey(x, key, v.lists, v.drift);
        v' := v.(contents := v.contents - {c}, lists := v.lists - {c}, drift := drift');
      } else {
        v' := v.(contents := v.contents[c := node.pairs]);
      }
    }

    /** The heap work of a deletion from a list that exists: if it runs empty it leaves the table. */
    method DeleteFrom(key: K, node: ListNode<K, V>, x: Export<K, ListNode<K, V>>, same: V -> bool, ghost v: View<C, K, V>)
      returns (freed: seq<V>, ghost v': View<C, K, V>)
      requires Shows(v) && Get(v.lists, hashTab.ops.norm(key)) == Some(node) && hashTab.Exported(x, key)
      modifies hashTab, hashTab.table, hashTab.nodes, v.heads, v.cells
      ensures Shows(v') && v'.heads == v.heads && v'.cells == v.cells
      ensures hashTab.table == old(hashTab.table) && hashTab.nodes == old(hashTab.nodes)
      ensures v'.contents == M.Delete(v.contents, hashTab.ops.norm(key), same)
      ensures TableAfter(M.Empties(v.contents, hashTab.ops.norm(key), same), hashTab.ops, old(hashTab.model), key, v.drift,
                         hashTab.model, v'.drift)
      ensures freed == M.Victims(v.contents[hashTab.ops.norm(key)], same)
    {
      CarriedAt(v.contents, v.lists, v.heads, v.cells, v.labels, hashTab.ops.norm(key));
      freed := DeleteNode(v.contents, v.lists, v.heads, v.cells, v.labels, hashTab.ops.norm(key), node, same);
      v' := Settle(key, node, x, v);
    }

    method DeletePairs(key: K, same: V -> bool, ghost v: View<C, K, V>) returns (freed: seq<V>, ghost v': View<C, K, V>)
      requires Shows(v)
      modifies hashTab, hashTab.table, hashTab.nodes, v.heads, v.cells
      ensures Shows(v') && v'.heads == v.heads && v'.cells == v.cells
      ensures hashTab.table == old(hashTab.table) && hashTab.nodes == old(hashTab.nodes)
      ensures v'.contents == M.Delete(v.contents, hashTab.ops.norm(key), same)
      ensures TableAfter(M.Empties(v.contents, hashTab.ops.norm(key), same), hashTab.ops, old(hashTab.model), key, v.drift,
                         hashTab.model, v'.drift)
      ensures freed == M.Victims(M.At(v.contents, hashTab.ops.norm(key)), same)
    {
      var node := FindNode(key, v);
      var x := hashTab.GetInternalNode(key);
      if node == None {
        freed, v' := [], v;
      } else {
        freed, v' := DeleteFrom(key, node.value, x, same, v);
      }
    }

    /** multimap_delete: the values freed are returned in order. A key whose list runs empty leaves
        the table, whose entry counter then says one too many. */
    method Delete(key: K, val: V) returns (deleted: nat, freed: seq<V>)
      requires Valid()
      modifies this, hashTab, hashTab.table, hashTab.nodes, view.heads, view.cells
      ensures Valid() && view.heads == old(view.heads) && view.cells == old(view.cells)
      ensures hashTab.table == old(hashTab.table) && hashTab.nodes == old(hashTab.nodes)
      ensures view.contents == M.Delete(old(view.contents), hashTab.ops.norm(key), v => sameVal(val, v))
      ensures freed == M.Victims(M.At(old(view.contents), hashTab.ops.norm(key)), v => sameVal(val, v))
      ensures deleted == |freed|
      ensures TableAfter(M.Empties(old(view.contents), hashTab.ops.norm(key), v => sameVal(val, v)), hashTab.ops,
                         old(hashTab.model), key, old(view.drift), hashTab.model, view.drift)
    {
      ghost var v;
      freed, v := DeletePairs(key, v => sameVal(val, v), view);
      deleted := |freed|;
      M.DeleteCounts(view.contents, hashTab.ops.norm(key), v => sameVal(val, v));
      Put(totalPairs - deleted, v);
    }

    /** The heap work of removing a key, if it is there. */
    method RemovePairs(key: K, ghost v: View<C, K, V>) returns (freed: seq<V>, ghost v': View<C, K, V>)
      requires Shows(v)
      modifies hashTab, hashTab.table, hashTab.nodes
      ensures Shows(v') && v'.heads == v.heads && v'.cells == v.cells
      ensures hashTab.table == old(hashTab.table) && hashTab.nodes == old(hashTab.nodes)
      ensures v'.contents == M.DeleteAll(v.contents, hashTab.ops.norm(key))
      ensures freed == M.Values(M.At(v.contents, hashTab.ops.norm(key)))
      ensures hashTab.model == HashSpec.Remove(hashTab.ops, old(hashTab.model), key)
      ensures v'.drift == Beheaded(hashTab.ops, old(hashTab.model), key, v.drift)
    {
      var node := FindNode(key, v);
      NotThere(key, v.lists, v.drift);
      if node == None {
        assert v.contents - {hashTab.ops.norm(key)} == v.contents;
        return [], v;
      }
      CarriedAt(v.contents, v.lists, v.heads, v.cells, v.labels, hashTab.ops.norm(key));
      freed := node.value.FreeNode();
      v' := RemoveKey(key, v);
    }

    /** A key without a node is not in the table. */
    lemma NotThere(key: K, lists: map<C, ListNode<K, V>>, drift: Drift)
      requires TableHolds(lists, drift)
      ensures hashTab.ops.norm(key) in lists <==> HashSpec.Lookup(hashTab.ops, hashTab.model, key).Some?
      ensures hashTab.ops.norm(key) !in lists ==> !Beheads(hashTab.ops, hashTab.model, key)
    {
      assert Opened(0);
      LookupIsGet(hashTab.ops, hashTab.model, key);
    }

    /** multimap_delete_all: the values of the whole list are freed, in order. */
    method DeleteAll(key: K) returns (deleted: nat, freed: seq<V>)
      requires Valid()
      modifies this, hashTab, hashTab.table, hashTab.nodes
      ensures Valid() && view.heads == old(view.heads) && view.cells == old(view.cells)
      ensures hashTab.table == old(hashTab.table) && hashTab.nodes == old(hashTab.nodes)
      ensures view.contents == M.DeleteAll(old(view.contents), hashTab.ops.norm(key))
      ensures freed == M.Values(M.At(old(view.contents), hashTab.ops.norm(key))) && deleted == |freed|
      ensures hashTab.model == HashSpec.Remove(hashTab.ops, old(hashTab.model), key)
      ensures view.drift == Beheaded(hashTab.ops, old(hashTab.model), key, old(view.drift))
    {
      ghost var v;
      freed, v := RemovePairs(key, view);
      deleted := |freed|;
      M.PairsRemove(view.contents, hashTab.ops.norm(key));
      Put(totalPairs - deleted, v);
    }

    /** hash_remove on the table; the whole list goes with its node. */
    method TakeKey(key: K, ghost lists: map<C, ListNode<K, V>>, ghost drift: Drift) returns (ghost drift': Drift)
      requires TableHolds(lists, drift) && hashTab.ops.norm(key) in lists
      modifies hashTab, hashTab.table, hashTab.nodes
      ensures TableHolds(lists - {hashTab.ops.norm(key)}, drift')
      ensures hashTab.table == old(hashTab.table) && hashTab.nodes == old(hashTab.nodes)
      ensures hashTab.model == HashSpec.Remove(hashTab.ops, old(hashTab.model), key)
      ensures drift' == Beheaded(hashTab.ops, old(hashTab.model), key, drift)
    {
      ghost var t, ops := hashTab.model, hashTab.ops;
      assert Opened(0);
      LookupIsGet(ops, t, key);
      StepRefines(ops, t, OpRemove(key));
      StepTracks(ops, t, OpRemove(key), drift);
      drift' := DriftStep(ops, t, OpRemove(key), drift);
      var freed := hashTab.Remove(key);
    }

    method RemoveKey(key: K, ghost v: View<C, K, V>) returns (ghost v': View<C, K, V>)
      requires Shows(v) && hashTab.ops.norm(key) in v.lists
      modifies hashTab, hashTab.table, hashTab.nodes
      ensures Shows(v') && v'.heads == v.heads && v'.cells == v.cells
      ensures hashTab.table == old(hashTab.table) && hashTab.nodes == old(hashTab.nodes)
      ensures v'.contents == v.contents - {hashTab.ops.norm(key)}
      ensures hashTab.model == HashSpec.Remove(hashTab.ops, old(hashTab.model), key)
      ensures v'.drift == Beheaded(hashTab.ops, old(hashTab.model), key, v.drift)
    {
      ghost var c := hashTab.ops.norm(key);
      ghost var drift' := TakeKey(key, v.lists, v.drift);
      v' := v.(contents := v.contents - {c}, lists := v.lists - {c}, drift := drift');
    }
  }

  /** Prepend to one of the carried lists. */
  method PushNode<K, C, V>(ghost contents: M.Lists<C, K, V>, ghost lists: map<C, ListNode<K, V>>, ghost heads: set<ListNode<K, V>>,
                           ghost cells: set<object>, ghost labels: nat, ghost c: C, node: ListNode<K, V>, key: K, val: V)
    returns (ghost cell: Node<K, V>)
    requires Carried(contents, lists, heads, cells, labels) && c in lists && node == lists[c]
    modifies node
    ensures fresh(cell)
    ensures Carried(contents[c := [Entry(key, val)] + contents[c]], lists, heads, cells + {cell}, labels)
  {
    assert Sealed(0);
    cell := node.Prepend(key, val);
  }

  /** Delete from one of the carried lists; an emptied list is no longer carried. */
  method DeleteNode<K, C, V>(ghost contents: M.Lists<C, K, V>, ghost lists: map<C, ListNode<K, V>>, ghost heads: set<ListNode<K, V>>,
                             ghost cells: set<object>, ghost labels: nat, ghost c: C, node: ListNode<K, V>, same: V -> bool)
    returns (freed: seq<V>)
    requires Carried(contents, lists, heads, cells, labels) && c in lists && node == lists[c]
    modifies node, set x | x in node.cells
    ensures node.pairs == M.Survivors(contents[c], same) && node.nPairs == |node.pairs|
    ensures freed == M.Victims(contents[c], same)
    ensures node.pairs != [] ==> Carried(contents[c := node.pairs], lists, heads, cells, labels)
    ensures node.pairs == [] ==> Carried(contents - {c}, lists - {c}, heads, cells, labels)
  {
    assert Sealed(0);
    forall d, x | d in lists && d != c && x in lists[d].cells ensures x !in node.cells {
      SegmentHome(lists[d].list, lists[d].cells, lists[d].pairs, null, lists[d].home, x);
      SegmentHome(node.list, node.cells, node.pairs, null, node.home, x);
    }
    freed := node.DeleteMatching(same);
  }

  lemma ExtendSegment<K, V>(head: Node?<K, V>, ns: seq<Node<K, V>>, es: Chain<K, V>, x: Node<K, V>, home: Slot)
    requires Segment(head, ns, es, x, home) && x !in ns && x.home == home
    ensures Segment(head, ns + [x], es + [Entry(x.key, x.data)], x.next, home)
  {
    assert Segment(x, [x], [Entry(x.key, x.data)], x.next, home);
    Join(head, ns, es, x, [x], [Entry(x.key, x.data)], x.next, home);
  }

  lemma CloseSegment<K, V>(head: Node?<K, V>, ns: seq<Node<K, V>>, es: Chain<K, V>, end: Node?<K, V>, home: Slot)
    requires |ns| == |es| > 0
    requires var n := |ns| - 1;
             && Segment(head, ns[..n], es[..n], ns[n], home) && ns[n] !in ns[..n] && ns[n].home == home
             && es[n] == Entry(ns[n].key, ns[n].data) && ns[n].next == end
    ensures Segment(head, ns, es, end, home)
  {
    var n := |ns| - 1;
    ExtendSegment(head, ns[..n], es[..n], ns[n], home);
    assert ns[..n] + [ns[n]] == ns && es[..n] + [es[n]] == es;
  }

  // a run that ends in the assertion

  /** The size of the object tables of rooms and users. */
  const OBJMAP_SIZE: nat := 8

  lemma LoadOfEight(n: nat)
    requires n <= OBJMAP_SIZE
    ensures OverLoaded(n, OBJMAP_SIZE) <==> n >= 6
  {
  }

  ghost function Norms<K, C>(ops: KeyOps<K, C>, ks: seq<K>): set<C> {
    set k | k in ks :: ops.norm(k)
  }

  /** Keys for different buckets of a table of eight. */
  ghost predicate SpacedKeys<K(!new), C>(ops: KeyOps<K, C>, ks: seq<K>) {
    forall n: nat {:trigger Sealed(n)} :: Sealed(n) ==> Compatible(ops) && Spaced(ops, ks, OBJMAP_SIZE)
  }

  lemma NormsNext<K(!new), C>(ops: KeyOps<K, C>, ks: seq<K>, n: nat)
    requires n < |ks| && SpacedKeys(ops, ks)
    ensures ops.norm(ks[n]) !in Norms(ops, ks[..n])
    ensures Norms(ops, ks[..n + 1]) == Norms(ops, ks[..n]) + {ops.norm(ks[n])}
  {
    assert Sealed(0);
    assert ks[..n + 1] == ks[..n] + [ks[n]];
    forall k | k in ks[..n] ensures ops.norm(k) != ops.norm(ks[n]) {
      var i :| 0 <= i < n && ks[i] == k;
    }
  }

  /** The first `n` of the keys, one to a bucket, are what the table holds. */
  ghost predicate Filled<K, C, V>(ops: KeyOps<K, C>, t: Table<K, V>, ks: seq<K>, n: nat) {
    forall m: nat {:trigger Sealed(m)} :: Sealed(m) ==> n <= |ks| && Filling(ops, t, ks[..n], OBJMAP_SIZE)
  }

  lemma FilledGrows<K(!new), C, V>(ops: KeyOps<K, C>, t: Table<K, V>, ks: seq<K>, n: nat)
    requires n < |ks| && n < 6 && SpacedKeys(ops, ks) && Filled(ops, t, ks, n)
    ensures |t.buckets| == OBJMAP_SIZE && (Grows(ops, t, ks[n]) <==> n >= 5)
  {
    assert Sealed(0);
    LoadOfEight(n + 1);
    FillNext(ops, t, ks, OBJMAP_SIZE, n);
  }

  lemma FilledNext<K(!new), C, V>(ops: KeyOps<K, C>, t: Table<K, V>, ks: seq<K>, n: nat, v: V)
    requires n < |ks| && n < 5 && SpacedKeys(ops, ks) && Filled(ops, t, ks, n) && |t.buckets| > 0
    ensures Filled(ops, HashSpec.InsertNew(ops, t, Entry(ks[n], v)), ks, n + 1)
  {
    assert Sealed(0);
    LoadOfEight(n + 1);
    FillMore(ops, t, ks, OBJMAP_SIZE, n, v);
  }

  lemma FilledNone<K, C, V>(ops: KeyOps<K, C>, t: Table<K, V>, ks: seq<K>)
    requires Filling(ops, t, [], OBJMAP_SIZE)
    ensures Filled(ops, t, ks, 0)
  {
    assert ks[..0] == [];
  }

  /** One key more, into a bucket of its own: the sixth is the one that counts. */
  method InsertSpaced<K(!new), C(==), V>(m: Multimap<K, C, V>, ks: seq<K>, i: nat, v: V) returns (sane: bool)
    requires m.Valid() && i < |ks| && i < 6 && SpacedKeys(m.hashTab.ops, ks) && Filled(m.hashTab.ops, m.hashTab.model, ks, i)
    requires m.view.contents.Keys == Norms(m.hashTab.ops, ks[..i])
    modifies m, m.hashTab, m.hashTab.table, m.hashTab.nodes, m.view.heads
    ensures m.Valid() && fresh(m.view.heads - old(m.view.heads)) && fresh(m.view.cells - old(m.view.cells))
    ensures m.hashTab.table == old(m.hashTab.table) || fresh(m.hashTab.table)
    ensures fresh(m.hashTab.nodes - old(m.hashTab.nodes))
    ensures m.view.contents.Keys == Norms(m.hashTab.ops, ks[..i + 1])
    ensures sane <==> i < 5 || Size(old(m.view.drift).nodes) == 0
    ensures i < 5 ==> Filled(m.hashTab.ops, m.hashTab.model, ks, i + 1) && m.view.drift == old(m.view.drift)
  {
    ghost var t, node := m.hashTab.model, null;
    var isNew;
    NormsNext(m.hashTab.ops, ks, i);
    FilledGrows(m.hashTab.ops, t, ks, i);
    isNew, sane, node := m.Insert(ks[i], v);
    if i < 5 { FilledNext(m.hashTab.ops, t, ks, i, node); }
  }

  /** A fresh multimap of one pair. */
  method OnePair<K(!new), C(==), V>(ops: KeyOps<K, C>, sameVal: (V, V) -> bool, key: K, v: V) returns (m: Multimap<K, C, V>, sane: bool)
    requires Compatible(ops)
    ensures fresh(m) && fresh(m.hashTab) && fresh(m.hashTab.table) && fresh(m.hashTab.nodes)
    ensures fresh(m.view.heads) && fresh(m.view.cells)
    ensures m.Valid() && m.hashTab.ops == ops && m.sameVal == sameVal && sane
    ensures m.view.contents == M.Insert(map[], ops.norm(key), Entry(key, v)) && m.view.drift == NONE
    ensures |m.hashTab.model.buckets| > 0 && !Beheads(ops, m.hashTab.model, key)
    ensures Filling(ops, Unlink(ops, m.hashTab.model, key), [], OBJMAP_SIZE)
  {
    m := new Multimap(OBJMAP_SIZE, ops, sameVal);
    var isNew;
    ghost var node;
    isNew, sane, node := m.Insert(key, v);
    LoadOfEight(1);
    FillEmpty(ops, key, node, OBJMAP_SIZE);
  }

  /** A fresh multimap whose one key has come and gone. */
  method Emptied<K(!new), C(==), V>(ops: KeyOps<K, C>, sameVal: (V, V) -> bool, key: K, v: V) returns (m: Multimap<K, C, V>, sane: bool)
    requires Compatible(ops) && sameVal(v, v)
    ensures fresh(m) && fresh(m.hashTab) && fresh(m.hashTab.table) && fresh(m.hashTab.nodes)
    ensures fresh(m.view.heads) && fresh(m.view.cells) && m.Valid() && m.hashTab.ops == ops && sane
    ensures m.view.contents == map[] && m.view.drift == Drift(0, 1) && Filling(ops, m.hashTab.model, [], OBJMAP_SIZE)
  {
    var deleted, freed;
    m, sane := OnePair(ops, sameVal, key, v);
    M.OnlyPairDeleted(ops.norm(key), Entry(key, v), x => sameVal(v, x));
    deleted, freed := m.Delete(key, v);
  }

  /** In a table of eight, one key inserted and deleted again and then six keys that hash to
      different buckets: the sixth makes the table grow, and the entry counter is one too high. */
  method EmptiedKeyAborts<K(!new), C(==), V>(ops: KeyOps<K, C>, sameVal: (V, V) -> bool, first: K, ks: seq<K>, v: V)
    returns (before: bool, last: bool)
    requires Compatible(ops) && sameVal(v, v)
    requires |ks| == 6 && Spaced(ops, ks, OBJMAP_SIZE)
    ensures before && !last
  {
    var m;
    m, before := Emptied(ops, sameVal, first, v);
    FilledNone(ops, m.hashTab.model, ks);
    last := true;
    for i := 0 to |ks|
      invariant fresh(m) && fresh(m.hashTab) && fresh(m.hashTab.table) && fresh(m.hashTab.nodes)
      invariant fresh(m.view.heads) && fresh(m.view.cells)
      invariant m.Valid() && m.hashTab.ops == ops && before && (last <==> i < 6)
      invariant i < 6 ==> m.view.drift == Drift(0, 1) && Filled(ops, m.hashTab.model, ks, i)
      invariant m.view.contents.Keys == Norms(ops, ks[..i])
    {
      before := before && last;
      last := InsertSpaced(m, ks, i, v);
    }
  }
}
