/** An ordered multimap: a list of groups, each a key with the values added
    under it. It stands for two .NET constructs the generators use the same way:
    `Dictionary<K, List<V>>` filled by "create the key on first mention, then
    append" and never removed from (enumerated in insertion order — an
    assumption about `Dictionary`, which documents no order), and LINQ
    `GroupBy` (documented to yield groups in order of first key occurrence,
    each with its elements in source order). */
module Grouping {

  datatype Group<K, V> = Group(key: K, items: seq<V>)

  function Keys<K, V>(gs: seq<Group<K, V>>): (ks: seq<K>)
    ensures |ks| == |gs|
    ensures forall i :: 0 <= i < |gs| ==> ks[i] == gs[i].key
  {
    if |gs| == 0 then [] else [gs[0].key] + Keys(gs[1..])
  }

  predicate DistinctKeys<K(==), V>(gs: seq<Group<K, V>>)
  {
    forall i, j :: 0 <= i < j < |gs| ==> gs[i].key != gs[j].key
  }

  /** The values stored under `k` (`dict[k]`), empty when `k` is absent. */
  function Lookup<K(==), V>(gs: seq<Group<K, V>>, k: K): seq<V>
  {
    if |gs| == 0 then []
    else if gs[0].key == k then gs[0].items
    else Lookup(gs[1..], k)
  }

  /** `if (!dict.ContainsKey(k)) dict.Add(k, new List()); dict[k].Add(v);` */
  function Append<K(==, !new), V>(gs: seq<Group<K, V>>, k: K, v: V): (r: seq<Group<K, V>>)
    ensures Lookup(r, k) == Lookup(gs, k) + [v]
    ensures forall k' :: k' != k ==> Lookup(r, k') == Lookup(gs, k')
    ensures k in Keys(gs) ==> Keys(r) == Keys(gs)
    ensures k !in Keys(gs) ==> Keys(r) == Keys(gs) + [k]
  {
    if |gs| == 0 then [Group(k, [v])]
    else if gs[0].key == k then
      var r := [Group(k, gs[0].items + [v])] + gs[1..];
      assert forall i :: 0 <= i < |r| ==> r[i].key == gs[i].key;
      r
    else
      var rest := Append(gs[1..], k, v);
      assert Keys(gs) == [gs[0].key] + Keys(gs[1..]);
      assert Keys([gs[0]] + rest) == [gs[0].key] + Keys(rest);
      [gs[0]] + rest
  }

  /** Appending keeps the keys distinct. */
  lemma AppendDistinct<K(!new), V>(gs: seq<Group<K, V>>, k: K, v: V)
    requires DistinctKeys(gs)
    ensures DistinctKeys(Append(gs, k, v))
  {
    var r := Append(gs, k, v);
    var ks := Keys(gs);
    var rs := Keys(r);
    forall i, j | 0 <= i < j < |r|
      ensures r[i].key != r[j].key
    {
      assert rs[i] == r[i].key && rs[j] == r[j].key;
      if k in ks {
        assert rs == ks;
      } else if j < |gs| {
        assert rs[i] == ks[i] && rs[j] == ks[j];
      } else {
        assert rs[i] == ks[i] && rs[j] == k;
      }
    }
  }

  /** The groups built by appending each (key, value) pair in order. */
  function GroupPairs<K(==, !new), V>(pairs: seq<(K, V)>): (r: seq<Group<K, V>>)
    ensures DistinctKeys(r)
  {
    if |pairs| == 0 then []
    else
      var last := pairs[|pairs| - 1];
      var g := GroupPairs(pairs[..|pairs| - 1]);
      AppendDistinct(g, last.0, last.1);
      Append(g, last.0, last.1)
  }

  lemma GroupPairsSnoc<K(!new), V>(pairs: seq<(K, V)>, p: (K, V))
    ensures GroupPairs(pairs + [p]) == Append(GroupPairs(pairs), p.0, p.1)
  {
    assert (pairs + [p])[..|pairs|] == pairs;
  }

  /** Reference definition: the values paired with `k`, in pair order. */
  function ItemsFor<K(==), V>(pairs: seq<(K, V)>, k: K): seq<V>
  {
    if |pairs| == 0 then []
    else (if pairs[0].0 == k then [pairs[0].1] else []) + ItemsFor(pairs[1..], k)
  }

  lemma {:induction false} ItemsForConcat<K, V>(a: seq<(K, V)>, b: seq<(K, V)>, k: K)
    ensures ItemsFor(a + b, k) == ItemsFor(a, k) + ItemsFor(b, k)
    decreases |a|
  {
    if |a| == 0 {
      assert a + b == b;
    } else {
      var head := if a[0].0 == k then [a[0].1] else [];
      var ab := a + b;
      assert ab[0] == a[0] && ab[1..] == a[1..] + b;
      assert ItemsFor(ab, k) == head + ItemsFor(a[1..] + b, k);
      ItemsForConcat(a[1..], b, k);
      assert ItemsFor(a, k) == head + ItemsFor(a[1..], k);
    }
  }

  /** The keys of pairs, in pair order (with repetitions). */
  function Firsts<K, V>(pairs: seq<(K, V)>): (ks: seq<K>)
    ensures |ks| == |pairs|
    ensures forall i :: 0 <= i < |pairs| ==> ks[i] == pairs[i].0
  {
    seq(|pairs|, i requires 0 <= i < |pairs| => pairs[i].0)
  }

  /** `Firsts` seen from the last pair. */
  lemma FirstsInit<K, V>(pairs: seq<(K, V)>)
    requires |pairs| > 0
    ensures Firsts(pairs) == Firsts(pairs[..|pairs| - 1]) + [pairs[|pairs| - 1].0]
  {
    var a := Firsts(pairs);
    var b := Firsts(pairs[..|pairs| - 1]) + [pairs[|pairs| - 1].0];
    assert |a| == |b|;
    forall i | 0 <= i < |a|
      ensures a[i] == b[i]
    {
      if i < |pairs| - 1 {
        assert pairs[..|pairs| - 1][i] == pairs[i];
      }
    }
  }

  /** Position of the first occurrence of `x` in `s`. */
  function FirstIndex<K(==)>(s: seq<K>, x: K): (i: nat)
    requires x in s
    ensures i < |s| && s[i] == x
    ensures forall j :: 0 <= j < i ==> s[j] != x
  {
    if s[0] == x then 0 else 1 + FirstIndex(s[1..], x)
  }

  lemma FirstIndexSnoc<K>(s: seq<K>, x: K, y: K)
    requires x in s
    ensures FirstIndex(s + [y], x) == FirstIndex(s, x)
  {
    var i := FirstIndex(s, x);
    var t := s + [y];
    assert t[i] == x;
    assert forall j :: 0 <= j < i ==> t[j] == s[j];
  }

  lemma FirstIndexNew<K>(s: seq<K>, x: K)
    requires x !in s
    ensures FirstIndex(s + [x], x) == |s|
  {
    var t := s + [x];
    assert t[|s|] == x;
    assert forall j :: 0 <= j < |s| ==> t[j] == s[j];
  }

  /** Keys listed without repetition, each in order of its first mention in `mentions`. */
  predicate InFirstMentionOrder<K(==)>(ks: seq<K>, mentions: seq<K>)
  {
    && (forall i, j :: 0 <= i < j < |ks| ==> ks[i] != ks[j])
    && (forall i :: 0 <= i < |ks| ==> ks[i] in mentions)
    && (forall j :: 0 <= j < |mentions| ==> mentions[j] in ks)
    && (forall i, j :: 0 <= i < j < |ks| && ks[i] in mentions && ks[j] in mentions ==>
          FirstIndex(mentions, ks[i]) < FirstIndex(mentions, ks[j]))
  }

  /** The values under each key are exactly the values paired with it, in order. */
  lemma {:induction false} GroupPairsLookup<K(!new), V>(pairs: seq<(K, V)>, k: K)
    ensures Lookup(GroupPairs(pairs), k) == ItemsFor(pairs, k)
    decreases |pairs|
  {
    if |pairs| > 0 {
      var init := pairs[..|pairs| - 1];
      var last := pairs[|pairs| - 1];
      assert GroupPairs(pairs) == Append(GroupPairs(init), last.0, last.1);
      ItemsForInit(pairs, k);
      GroupPairsLookup(init, k);
    }
  }

  /** `ItemsFor` seen from the last pair. */
  lemma ItemsForInit<K, V>(pairs: seq<(K, V)>, k: K)
    requires |pairs| > 0
    ensures var last := pairs[|pairs| - 1];
      ItemsFor(pairs, k) == ItemsFor(pairs[..|pairs| - 1], k) + (if last.0 == k then [last.1] else [])
  {
    var init := pairs[..|pairs| - 1];
    var last := pairs[|pairs| - 1];
    ItemsForSnoc(init, last, k);
    assert init + [last] == pairs;
  }

  lemma ItemsForSnoc<K, V>(init: seq<(K, V)>, last: (K, V), k: K)
    ensures ItemsFor(init + [last], k) == ItemsFor(init, k) + (if last.0 == k then [last.1] else [])
  {
    ItemsForConcat(init, [last], k);
    assert [last][1..] == [];
  }

  /** Appending a mention never moves an earlier first mention. */
  lemma FirstIndexesKept<K>(ms: seq<K>, x: K)
    ensures forall k :: k in ms ==> k in ms + [x] && FirstIndex(ms + [x], k) == FirstIndex(ms, k)
  {
    forall k | k in ms
      ensures FirstIndex(ms + [x], k) == FirstIndex(ms, k)
    {
      FirstIndexSnoc(ms, k, x);
    }
  }

  /** Appending a mention of a known key keeps the keys in first-mention order. */
  lemma FirstMentionKnown<K>(ks: seq<K>, ms: seq<K>, x: K)
    requires InFirstMentionOrder(ks, ms) && x in ks
    ensures InFirstMentionOrder(ks, ms + [x])
  {
    FirstIndexesKept(ms, x);
    var ms' := ms + [x];
    assert forall j :: 0 <= j < |ms| ==> ms'[j] == ms[j];
    assert ms'[|ms|] == x;
  }

  /** Appending the first mention of a new key puts that key last. */
  lemma FirstMentionNew<K>(ks: seq<K>, ms: seq<K>, x: K)
    requires InFirstMentionOrder(ks, ms) && x !in ks
    ensures InFirstMentionOrder(ks + [x], ms + [x])
  {
    FirstIndexesKept(ms, x);
    var ms' := ms + [x];
    var ks' := ks + [x];
    assert x !in ms;
    FirstIndexNew(ms, x);
    assert forall j :: 0 <= j < |ms| ==> ms'[j] == ms[j];
    assert ms'[|ms|] == x;
    assert forall i :: 0 <= i < |ks| ==> ks'[i] == ks[i];
    assert ks'[|ks|] == x;
    forall i | 0 <= i < |ks|
      ensures FirstIndex(ms', ks'[i]) < FirstIndex(ms', x)
    {
      assert ks[i] in ms;
    }
  }

  /** Keys appear once each, in order of first mention. */
  lemma {:induction false} GroupPairsKeys<K(!new), V>(pairs: seq<(K, V)>)
    ensures InFirstMentionOrder(Keys(GroupPairs(pairs)), Firsts(pairs))
    decreases |pairs|
  {
    if |pairs| > 0 {
      var init := pairs[..|pairs| - 1];
      var last := pairs[|pairs| - 1];
      var ks := Keys(GroupPairs(init));
      var ms := Firsts(init);
      var x := last.0;
      GroupPairsKeys(init);
      FirstsInit(pairs);
      assert GroupPairs(pairs) == Append(GroupPairs(init), x, last.1);
      if x in ks {
        FirstMentionKnown(ks, ms, x);
      } else {
        FirstMentionNew(ks, ms, x);
      }
    }
  }

  /** Key `k` has a group exactly when some pair mentions it. */
  lemma {:induction false} LookupEmptyIffAbsent<K(!new), V>(pairs: seq<(K, V)>, k: K)
    ensures k in Keys(GroupPairs(pairs)) <==> exists i :: 0 <= i < |pairs| && pairs[i].0 == k
  {
    GroupPairsKeys(pairs);
    var ms := Firsts(pairs);
    if k in ms {
      var i :| 0 <= i < |ms| && ms[i] == k;
      assert pairs[i].0 == k;
    }
  }

  /** With distinct keys, looking up a group's own key finds that group. */
  lemma {:induction false} LookupAt<K, V>(gs: seq<Group<K, V>>, i: nat)
    requires DistinctKeys(gs) && i < |gs|
    ensures Lookup(gs, gs[i].key) == gs[i].items
    decreases i
  {
    if i > 0 {
      assert gs[0].key != gs[i].key;
      LookupAt(gs[1..], i - 1);
    }
  }

  /** A value is listed under `k` exactly when some pair carries it with `k`. */
  lemma {:induction false} ItemsForMembers<K, V>(pairs: seq<(K, V)>, k: K, v: V)
    ensures v in ItemsFor(pairs, k) <==> exists i :: 0 <= i < |pairs| && pairs[i] == (k, v)
    decreases |pairs|
  {
    if |pairs| > 0 {
      ItemsForMembers(pairs[1..], k, v);
      if exists i :: 0 <= i < |pairs[1..]| && pairs[1..][i] == (k, v) {
        var i :| 0 <= i < |pairs[1..]| && pairs[1..][i] == (k, v);
        assert pairs[i + 1] == (k, v);
      }
      if exists i :: 0 <= i < |pairs| && pairs[i] == (k, v) {
        var i :| 0 <= i < |pairs| && pairs[i] == (k, v);
        if i > 0 {
          assert pairs[1..][i - 1] == (k, v);
        }
      }
    }
  }

  /** Each group of `GroupPairs` holds exactly the values paired with its key. */
  lemma GroupItems<K(!new), V>(pairs: seq<(K, V)>, j: nat)
    requires j < |GroupPairs(pairs)|
    ensures GroupPairs(pairs)[j].items == ItemsFor(pairs, GroupPairs(pairs)[j].key)
  {
    LookupAt(GroupPairs(pairs), j);
    GroupPairsLookup(pairs, GroupPairs(pairs)[j].key);
  }
}
