/** Grouping amounts by key with a JavaScript object used as a dictionary:
    `map[k] = (map[k] || 0) + amount` in a loop, then `Object.entries(map)`.
    The object keeps its keys in insertion order, so the entries are an
    association list in order of each key's first occurrence. */
module Groups {
  import opened Values

  datatype Entry<K> = Entry(key: K, amount: real)

  function KeysOf<K>(entries: seq<Entry<K>>): (ks: seq<K>)
    ensures |ks| == |entries| && forall i | 0 <= i < |entries| :: ks[i] == entries[i].key
  {
    if entries == [] then [] else [entries[0].key] + KeysOf(entries[1..])
  }

  function AmountsOf<K>(entries: seq<Entry<K>>): (xs: seq<real>)
    ensures |xs| == |entries| && forall i | 0 <= i < |entries| :: xs[i] == entries[i].amount
  {
    if entries == [] then [] else [entries[0].amount] + AmountsOf(entries[1..])
  }

  predicate Distinct<K(==)>(ks: seq<K>)
  {
    forall i, j | 0 <= i < j < |ks| :: ks[i] != ks[j]
  }

  /** The amount stored under `k`, or 0 when there is no entry: `map[k] || 0`. */
  function Lookup<K(==)>(entries: seq<Entry<K>>, k: K): real
  {
    if entries == [] then 0.0
    else if entries[0].key == k then entries[0].amount
    else Lookup(entries[1..], k)
  }

  /** One step of the loop: add `a` to the entry of `k`, or append a new entry. */
  function Upsert<K(==)>(entries: seq<Entry<K>>, k: K, a: real): seq<Entry<K>>
  {
    if entries == [] then [Entry(k, a)]
    else if entries[0].key == k then [Entry(k, entries[0].amount + a)] + entries[1..]
    else [entries[0]] + Upsert(entries[1..], k, a)
  }

  /** The dictionary after the loop has run over all of `items`. */
  function Grouped<K(==)>(items: seq<Entry<K>>): seq<Entry<K>>
  {
    if items == [] then []
    else Upsert(Grouped(items[..|items| - 1]), items[|items| - 1].key, items[|items| - 1].amount)
  }

  /** The specification of a group's amount: the sum of the item amounts with that key. */
  function Total<K(==)>(items: seq<Entry<K>>, k: K): real
  {
    if items == [] then 0.0
    else
      var last := items[|items| - 1];
      Total(items[..|items| - 1], k) + (if last.key == k then last.amount else 0.0)
  }

  /** The keys of `s` without repetitions, in order of first occurrence. */
  function Dedup<K(==)>(s: seq<K>): seq<K>
  {
    if s == [] then []
    else
      var d := Dedup(s[..|s| - 1]);
      if s[|s| - 1] in d then d else d + [s[|s| - 1]]
  }

  /** Index of the first occurrence of `x` in `s`. */
  function FirstIndex<K(==)>(s: seq<K>, x: K): (i: nat)
    requires x in s
    ensures i < |s| && s[i] == x && x !in s[..i]
  {
    if s[0] == x then 0 else 1 + FirstIndex(s[1..], x)
  }

  lemma {:induction false} UpsertKeys<K>(entries: seq<Entry<K>>, k: K, a: real)
    ensures KeysOf(Upsert(entries, k, a))
         == if k in KeysOf(entries) then KeysOf(entries) else KeysOf(entries) + [k]
  {
    if entries != [] && entries[0].key != k {
      UpsertKeys(entries[1..], k, a);
      assert KeysOf(entries) == [entries[0].key] + KeysOf(entries[1..]);
    }
  }

  lemma {:induction false} UpsertLookup<K>(entries: seq<Entry<K>>, k: K, a: real, j: K)
    ensures Lookup(Upsert(entries, k, a), j) == Lookup(entries, j) + (if j == k then a else 0.0)
  {
    if entries != [] && entries[0].key != k {
      UpsertLookup(entries[1..], k, a, j);
    }
  }

  lemma {:induction false} SumCons(x: real, xs: seq<real>)
    ensures Sum([x] + xs) == x + Sum(xs)
  {
    SumConcat([x], xs);
    assert [x][..0] == [];
  }

  lemma {:induction false} UpsertSum<K>(entries: seq<Entry<K>>, k: K, a: real)
    ensures Sum(AmountsOf(Upsert(entries, k, a))) == Sum(AmountsOf(entries)) + a
  {
    if entries == [] {
      assert AmountsOf([Entry(k, a)]) == [a];
      assert [a][..0] == [];
    } else {
      var u := Upsert(entries, k, a);
      assert AmountsOf(entries) == [entries[0].amount] + AmountsOf(entries[1..]);
      SumCons(entries[0].amount, AmountsOf(entries[1..]));
      if entries[0].key == k {
        assert AmountsOf(u) == [entries[0].amount + a] + AmountsOf(entries[1..]);
        SumCons(entries[0].amount + a, AmountsOf(entries[1..]));
      } else {
        UpsertSum(entries[1..], k, a);
        assert AmountsOf(u) == [entries[0].amount] + AmountsOf(Upsert(entries[1..], k, a));
        SumCons(entries[0].amount, AmountsOf(Upsert(entries[1..], k, a)));
      }
    }
  }

  lemma {:induction false} DedupElements<K>(s: seq<K>, x: K)
    ensures x in Dedup(s) <==> x in s
  {
    if s != [] {
      DedupElements(s[..|s| - 1], x);
      assert s == s[..|s| - 1] + [s[|s| - 1]];
    }
  }

  lemma {:induction false} DedupDistinct<K>(s: seq<K>)
    ensures Distinct(Dedup(s))
  {
    if s != [] {
      DedupDistinct(s[..|s| - 1]);
    }
  }

  lemma {:induction false} FirstIndexPrefix<K>(s: seq<K>, t: seq<K>, x: K)
    requires x in s
    ensures x in s + t && FirstIndex(s + t, x) == FirstIndex(s, x)
  {
    if s[0] != x {
      assert (s + t)[1..] == s[1..] + t;
      FirstIndexPrefix(s[1..], t, x);
    }
  }

  /** Deduplicated keys appear in the order of their first occurrences. */
  lemma {:induction false} DedupOrder<K>(s: seq<K>, i: nat, j: nat)
    requires i < j < |Dedup(s)|
    ensures Dedup(s)[i] in s && Dedup(s)[j] in s
    ensures FirstIndex(s, Dedup(s)[i]) < FirstIndex(s, Dedup(s)[j])
  {
    var init, x := s[..|s| - 1], s[|s| - 1];
    assert s == init + [x];
    var d := Dedup(init);
    DedupElements(init, x);
    DedupElements(init, Dedup(s)[i]);
    DedupElements(init, Dedup(s)[j]);
    if x in d {
      DedupOrder(init, i, j);
      FirstIndexPrefix(init, [x], d[i]);
      FirstIndexPrefix(init, [x], d[j]);
    } else if j < |d| {
      DedupOrder(init, i, j);
      FirstIndexPrefix(init, [x], d[i]);
      FirstIndexPrefix(init, [x], d[j]);
    } else {
      assert d[i] in d;
      FirstIndexPrefix(init, [x], d[i]);
      assert Dedup(s)[j] == x;
      assert x !in init;
      assert s[|init|] == x;
      assert FirstIndex(s, x) == |init|;
    }
  }

  lemma {:induction false} KeysOfGrouped<K>(items: seq<Entry<K>>)
    ensures KeysOf(Grouped(items)) == Dedup(KeysOf(items))
  {
    if items != [] {
      var init := items[..|items| - 1];
      KeysOfGrouped(init);
      UpsertKeys(Grouped(init), items[|items| - 1].key, items[|items| - 1].amount);
      assert KeysOf(items)[..|items| - 1] == KeysOf(init);
    }
  }

  lemma {:induction false} LookupGrouped<K>(items: seq<Entry<K>>, k: K)
    ensures Lookup(Grouped(items), k) == Total(items, k)
  {
    if items != [] {
      var init := items[..|items| - 1];
      LookupGrouped(init, k);
      UpsertLookup(Grouped(init), items[|items| - 1].key, items[|items| - 1].amount, k);
    }
  }

  lemma {:induction false} SumGrouped<K>(items: seq<Entry<K>>)
    ensures Sum(AmountsOf(Grouped(items))) == Sum(AmountsOf(items))
  {
    if items != [] {
      var init := items[..|items| - 1];
      SumGrouped(init);
      UpsertSum(Grouped(init), items[|items| - 1].key, items[|items| - 1].amount);
      assert AmountsOf(items)[..|items| - 1] == AmountsOf(init);
    }
  }

  /** In an association list without repeated keys, each entry is what a
      lookup of its key finds. */
  lemma {:induction false} LookupDistinct<K>(entries: seq<Entry<K>>, i: nat)
    requires Distinct(KeysOf(entries)) && i < |entries|
    ensures Lookup(entries, entries[i].key) == entries[i].amount
  {
    if i > 0 {
      assert KeysOf(entries[1..]) == KeysOf(entries)[1..];
      LookupDistinct(entries[1..], i - 1);
    }
  }

  /** Everything the services rely on about a grouping. */
  lemma {:induction false} GroupedFacts<K>(items: seq<Entry<K>>)
    ensures Distinct(KeysOf(Grouped(items)))
    ensures forall k :: k in KeysOf(Grouped(items)) <==> k in KeysOf(items)
    ensures forall i | 0 <= i < |Grouped(items)| ::
              Grouped(items)[i].amount == Total(items, Grouped(items)[i].key)
    ensures Sum(AmountsOf(Grouped(items))) == Sum(AmountsOf(items))
  {
    var g := Grouped(items);
    KeysOfGrouped(items);
    DedupDistinct(KeysOf(items));
    forall k ensures k in KeysOf(g) <==> k in KeysOf(items) {
      DedupElements(KeysOf(items), k);
    }
    forall i | 0 <= i < |g| ensures g[i].amount == Total(items, g[i].key) {
      LookupDistinct(g, i);
      LookupGrouped(items, g[i].key);
    }
    SumGrouped(items);
  }

  /** The grouping loop: one pass over the items, updating the dictionary. */
  method GroupSum<K(==)>(items: seq<Entry<K>>) returns (entries: seq<Entry<K>>)
    ensures entries == Grouped(items)
    ensures Distinct(KeysOf(entries))
    ensures forall k :: k in KeysOf(entries) <==> k in KeysOf(items)
    ensures forall i | 0 <= i < |entries| :: entries[i].amount == Total(items, entries[i].key)
    ensures Sum(AmountsOf(entries)) == Sum(AmountsOf(items))
  {
    entries := [];
    var i := 0;
    while i < |items|
      invariant 0 <= i <= |items|
      invariant entries == Grouped(items[..i])
    {
      assert items[..i + 1][..i] == items[..i];
      entries := Upsert(entries, items[i].key, items[i].amount);
      i := i + 1;
    }
    assert items[..|items|] == items;
    GroupedFacts(items);
  }
}
