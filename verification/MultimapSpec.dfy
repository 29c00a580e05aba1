/** The multimap of src/multimap.c as a value: a finite map from keys to non-empty lists, the
    newest pair first.  Keys are taken up to `norm`, as in HashSpec. */
module MultimapSpec {
  import opened HashSpec

  type Lists<C, K, V> = map<C, Chain<K, V>>

  ghost predicate NoEmptyList<C, K, V>(m: Lists<C, K, V>) {
    forall c :: c in m ==> m[c] != []
  }

  function At<C(==), K, V>(m: Lists<C, K, V>, c: C): Chain<K, V> {
    if c in m then m[c] else []
  }

  function Insert<C(==), K, V>(m: Lists<C, K, V>, c: C, e: Entry<K, V>): Lists<C, K, V> {
    m[c := [e] + At(m, c)]
  }

  /** The pairs whose value does not compare equal, in order. */
  function Survivors<K, V>(es: Chain<K, V>, same: V -> bool): (r: Chain<K, V>)
    ensures |r| <= |es|
  {
    if es == [] then []
    else if same(es[0].data) then Survivors(es[1..], same)
    else [es[0]] + Survivors(es[1..], same)
  }

  /** The values handed to the free callback, in the order it is called. */
  function Victims<K, V>(es: Chain<K, V>, same: V -> bool): (r: seq<V>)
    ensures |r| + |Survivors(es, same)| == |es|
  {
    if es == [] then []
    else if same(es[0].data) then [es[0].data] + Victims(es[1..], same)
    else Victims(es[1..], same)
  }

  /** One round of the delete loop, with `s` kept and `freed` freed so far. */
  lemma DeleteStep<K, V>(s: Chain<K, V>, freed: seq<V>, es: Chain<K, V>, same: V -> bool)
    requires es != []
    ensures s + Survivors(es, same) == (if same(es[0].data) then s else s + [es[0]]) + Survivors(es[1..], same)
    ensures freed + Victims(es, same) == (if same(es[0].data) then freed + [es[0].data] else freed) + Victims(es[1..], same)
  {
  }

  /** multimap_delete: a key whose list runs empty goes away. */
  function Delete<C, K, V>(m: Lists<C, K, V>, c: C, same: V -> bool): Lists<C, K, V> {
    if c !in m then m
    else if Survivors(m[c], same) == [] then m - {c}
    else m[c := Survivors(m[c], same)]
  }

  /** Whether a deletion leaves a key that was there without pairs. */
  predicate Empties<C, K, V>(m: Lists<C, K, V>, c: C, same: V -> bool) {
    c in m && Survivors(m[c], same) == []
  }

  /** The only pair deleted. */
  lemma OnlyPairDeleted<C, K, V>(c: C, e: Entry<K, V>, same: V -> bool)
    requires same(e.data)
    ensures var m := Insert(map[], c, e);
            Delete(m, c, same) == map[] && Empties(m, c, same)
  {
    assert Survivors([e], same) == Survivors([e][1..], same);
  }

  /** The values of a list, in order. */
  function Values<K, V>(es: Chain<K, V>): (r: seq<V>)
    ensures |r| == |es|
  {
    if es == [] then [] else [es[0].data] + Values(es[1..])
  }

  lemma ValuesNext<K, V>(done: seq<V>, es: Chain<K, V>)
    requires es != []
    ensures done + Values(es) == (done + [es[0].data]) + Values(es[1..])
  {
  }

  function DeleteAll<C, K, V>(m: Lists<C, K, V>, c: C): Lists<C, K, V> {
    m - {c}
  }

  /** The number of pairs over all keys. */
  ghost function Pairs<C, K, V>(m: Lists<C, K, V>): nat {
    if m.Keys == {} then 0
    else
      var c :| c in m.Keys;
      |m[c]| + Pairs(m - {c})
  }

  lemma {:induction false} PairsSplit<C, K, V>(m: Lists<C, K, V>, c: C)
    requires c in m
    ensures Pairs(m) == |m[c]| + Pairs(m - {c})
    decreases m.Keys
  {
    var d :| d in m.Keys && Pairs(m) == |m[d]| + Pairs(m - {d});
    if d != c {
      PairsSplit(m - {d}, c);
      PairsSplit(m - {c}, d);
      assert m - {d} - {c} == m - {c} - {d};
    }
  }

  lemma PairsUpdate<C, K, V>(m: Lists<C, K, V>, c: C, es: Chain<K, V>)
    ensures Pairs(m[c := es]) == Pairs(m) - |At(m, c)| + |es|
  {
    PairsSplit(m[c := es], c);
    assert m[c := es] - {c} == m - {c};
    if c in m { PairsSplit(m, c); } else { assert m - {c} == m; }
  }

  lemma PairsRemove<C, K, V>(m: Lists<C, K, V>, c: C)
    ensures Pairs(m - {c}) == Pairs(m) - |At(m, c)|
  {
    if c in m { PairsSplit(m, c); } else { assert m - {c} == m; }
  }

  lemma DeleteCounts<C, K, V>(m: Lists<C, K, V>, c: C, same: V -> bool)
    ensures Pairs(Delete(m, c, same)) == Pairs(m) - |Victims(At(m, c), same)|
  {
    if c in m {
      PairsRemove(m, c);
      PairsUpdate(m, c, Survivors(m[c], same));
    }
  }

  // deletion keeps exactly the pairs that differ, in their order

  /** The positions, from `i` on, of the survivors. */
  function KeptAt<K, V>(es: Chain<K, V>, same: V -> bool, i: nat): (ix: seq<nat>)
    requires i <= |es|
    ensures forall j :: 0 <= j < |ix| ==> i <= ix[j] < |es|
    decreases |es| - i
  {
    if i == |es| then []
    else if same(es[i].data) then KeptAt(es, same, i + 1)
    else [i] + KeptAt(es, same, i + 1)
  }

  lemma {:induction false} KeptAre<K, V>(es: Chain<K, V>, same: V -> bool, i: nat)
    requires i <= |es|
    ensures var ix := KeptAt(es, same, i);
            && (forall a, b :: 0 <= a < b < |ix| ==> ix[a] < ix[b])
            && (forall a: nat :: a in ix <==> i <= a < |es| && !same(es[a].data))
    decreases |es| - i
  {
    if i < |es| {
      KeptAre(es, same, i + 1);
    }
  }

  lemma {:induction false} SurvivorsAt<K, V>(es: Chain<K, V>, same: V -> bool, i: nat)
    requires i <= |es|
    ensures var r, ix := Survivors(es[i..], same), KeptAt(es, same, i);
            |r| == |ix| && forall j :: 0 <= j < |r| ==> r[j] == es[ix[j]]
    decreases |es| - i
  {
    if i < |es| {
      SurvivorsAt(es, same, i + 1);
      assert es[i..][1..] == es[i + 1..] && es[i..][0] == es[i];
    }
  }

  lemma SurvivorsInOrder<K, V>(es: Chain<K, V>, same: V -> bool, i: nat)
    requires i <= |es|
    ensures var r, ix := Survivors(es[i..], same), KeptAt(es, same, i);
            && |r| == |ix|
            && (forall j :: 0 <= j < |r| ==> r[j] == es[ix[j]])
            && (forall a, b :: 0 <= a < b < |ix| ==> ix[a] < ix[b])
            && (forall a: nat :: a in ix <==> i <= a < |es| && !same(es[a].data))
  {
    KeptAre(es, same, i);
    SurvivorsAt(es, same, i);
  }
}
