/** Keyed sums, the `groupby(...).sum()` of the pipeline, and a descending sort
    of their results. */
module Aggregate {
  import opened Seqs

  /** One row of a grouped sum: a key and the total of the values under it. */
  datatype Group<K> = Group(key: K, sum: int)

  /** The sum of `v` over all of `s`. */
  function Total<T>(s: seq<T>, v: T -> int): int {
    if s == [] then 0 else v(s[0]) + Total(s[1..], v)
  }

  /** The sum of `v` over the elements of `s` whose key is `k`. */
  function SumBy<T, K(==)>(s: seq<T>, key: T -> K, v: T -> int, k: K): int {
    if s == [] then 0 else (if key(s[0]) == k then v(s[0]) else 0) + SumBy(s[1..], key, v, k)
  }

  /** A key no element carries sums to zero (the `fill_value=0` cells). */
  lemma {:induction false} SumByAbsent<T, K>(s: seq<T>, key: T -> K, v: T -> int, k: K)
    requires forall i :: 0 <= i < |s| ==> key(s[i]) != k
    ensures SumBy(s, key, v, k) == 0
  {
    if s != [] {
      SumByAbsent(s[1..], key, v, k);
    }
  }

  /** Two sequences that agree value by value have the same total. */
  lemma {:induction false} TotalPointwise<T, U>(s: seq<T>, v: T -> int, t: seq<U>, w: U -> int)
    requires |s| == |t|
    requires forall i :: 0 <= i < |s| ==> v(s[i]) == w(t[i])
    ensures Total(s, v) == Total(t, w)
  {
    if s != [] {
      TotalPointwise(s[1..], v, t[1..], w);
    }
  }

  /** The key of every element, in order. */
  function Keys<T, K>(s: seq<T>, key: T -> K): seq<K> {
    seq(|s|, i requires 0 <= i < |s| => key(s[i]))
  }

  /** The keys of a grouped result, in order. */
  function GroupKeys<K>(g: seq<Group<K>>): seq<K> {
    seq(|g|, i requires 0 <= i < |g| => g[i].key)
  }

  lemma GroupKeysCons<K>(a: Group<K>, t: seq<Group<K>>)
    ensures GroupKeys([a] + t) == [a.key] + GroupKeys(t)
  {
  }

  /** At most one group per key. */
  predicate UniqueKeys<K(==)>(g: seq<Group<K>>) {
    NoDup(GroupKeys(g))
  }

  /** The sum of all the groups' sums. */
  function SumGroups<K>(g: seq<Group<K>>): int {
    if g == [] then 0 else g[0].sum + SumGroups(g[1..])
  }

  /** The sum of the sums of the groups whose key projects to `j`. */
  function SumGroupsWhere<K, J(==)>(g: seq<Group<K>>, proj: K -> J, j: J): int {
    if g == [] then 0
    else (if proj(g[0].key) == j then g[0].sum else 0) + SumGroupsWhere(g[1..], proj, j)
  }

  /** One group per key of `ks`, in that order, each holding the sum of `v`
      over the elements of `s` with that key. */
  function Sums<T, K(==)>(s: seq<T>, key: T -> K, v: T -> int, ks: seq<K>): (g: seq<Group<K>>)
    ensures |g| == |ks|
    ensures GroupKeys(g) == ks
    ensures forall i :: 0 <= i < |g| ==> g[i].key == ks[i] && g[i].sum == SumBy(s, key, v, ks[i])
  {
    if ks == [] then []
    else
      var rest := Sums(s, key, v, ks[1..]);
      var g := [Group(ks[0], SumBy(s, key, v, ks[0]))] + rest;
      assert GroupKeys(g) == [ks[0]] + ks[1..];
      g
  }

  lemma {:induction false} SumsOfEmpty<T, K>(key: T -> K, v: T -> int, proj: K -> bool, ks: seq<K>)
    ensures SumGroups(Sums([], key, v, ks)) == 0
    ensures SumGroupsWhere(Sums([], key, v, ks), proj, true) == 0
  {
    if ks != [] {
      var g := Sums([], key, v, ks);
      assert g[1..] == Sums([], key, v, ks[1..]);
      SumsOfEmpty(key, v, proj, ks[1..]);
    }
  }

  /** Adding one element in front adds its value to the total of the groups
      exactly once when its key is listed (and the keys are distinct), and not
      at all otherwise. */
  lemma {:induction false} SumsCons<T, K, J>(x: T, r: seq<T>, key: T -> K, v: T -> int,
                                                      ks: seq<K>, proj: K -> J, j: J)
    requires NoDup(ks)
    ensures SumGroups(Sums([x] + r, key, v, ks))
         == SumGroups(Sums(r, key, v, ks)) + (if key(x) in ks then v(x) else 0)
    ensures SumGroupsWhere(Sums([x] + r, key, v, ks), proj, j)
         == SumGroupsWhere(Sums(r, key, v, ks), proj, j)
            + (if key(x) in ks && proj(key(x)) == j then v(x) else 0)
  {
    if ks != [] {
      var s := [x] + r;
      assert s[1..] == r;
      assert ks == [ks[0]] + ks[1..];
      NoDupCons(ks[0], ks[1..]);
      var g, h := Sums(s, key, v, ks), Sums(r, key, v, ks);
      assert g[1..] == Sums(s, key, v, ks[1..]);
      assert h[1..] == Sums(r, key, v, ks[1..]);
      SumsCons(x, r, key, v, ks[1..], proj, j);
    }
  }

  /** Conservation: when the listed keys are distinct and cover every element,
      the groups' sums add up to the total over all elements. */
  lemma {:induction false} Conservation<T, K>(s: seq<T>, key: T -> K, v: T -> int, ks: seq<K>)
    requires NoDup(ks)
    requires forall i :: 0 <= i < |s| ==> key(s[i]) in ks
    ensures SumGroups(Sums(s, key, v, ks)) == Total(s, v)
  {
    if s == [] {
      SumsOfEmpty(key, v, k => true, ks);
    } else {
      assert s == [s[0]] + s[1..];
      SumsCons(s[0], s[1..], key, v, ks, k => true, true);
      Conservation(s[1..], key, v, ks);
    }
  }

  /** Conservation within a coarser key: the groups whose (fine) key projects
      to `j` add up to the sum over the elements whose coarse key is `j`,
      provided every such element's fine key is listed. */
  lemma {:induction false} RefinedConservation<T, K, J>(
      s: seq<T>, key: T -> K, proj: K -> J, coarse: T -> J, v: T -> int, ks: seq<K>, j: J)
    requires NoDup(ks)
    requires forall x :: proj(key(x)) == coarse(x)
    requires forall i :: 0 <= i < |s| && coarse(s[i]) == j ==> key(s[i]) in ks
    ensures SumGroupsWhere(Sums(s, key, v, ks), proj, j) == SumBy(s, coarse, v, j)
  {
    if s == [] {
      RefinedOfEmpty(key, v, proj, ks, j);
    } else {
      assert s == [s[0]] + s[1..];
      SumsCons(s[0], s[1..], key, v, ks, proj, j);
      RefinedConservation(s[1..], key, proj, coarse, v, ks, j);
    }
  }

  lemma {:induction false} RefinedOfEmpty<T, K, J>(key: T -> K, v: T -> int, proj: K -> J, ks: seq<K>, j: J)
    ensures SumGroupsWhere(Sums([], key, v, ks), proj, j) == 0
  {
    if ks != [] {
      var g := Sums([], key, v, ks);
      assert g[1..] == Sums([], key, v, ks[1..]);
      RefinedOfEmpty(key, v, proj, ks[1..], j);
    }
  }

  /** The `groupby(key)[v].sum()` of `s`: one group per distinct key present,
      each holding the sum over the elements with that key. */
  function GroupSums<T, K(==)>(s: seq<T>, key: T -> K, v: T -> int): (g: seq<Group<K>>)
    ensures UniqueKeys(g)
    ensures forall i :: 0 <= i < |s| ==> key(s[i]) in GroupKeys(g)
    ensures forall i :: 0 <= i < |g| ==> g[i].key in Keys(s, key)
    ensures forall i :: 0 <= i < |g| ==> g[i].sum == SumBy(s, key, v, g[i].key)
    ensures SumGroups(g) == Total(s, v)
  {
    var ks := Distinct(Keys(s, key));
    assert forall i :: 0 <= i < |s| ==> Keys(s, key)[i] == key(s[i]);
    Conservation(s, key, v, ks);
    Sums(s, key, v, ks)
  }

  /** Non-increasing in the summed value. */
  predicate Descending<K>(g: seq<Group<K>>) {
    forall i, j :: 0 <= i < j < |g| ==> g[i].sum >= g[j].sum
  }

  /** Insert `x` before the first group whose sum is at most `x`'s. */
  function Insert<K>(x: Group<K>, g: seq<Group<K>>): (r: seq<Group<K>>)
    ensures |r| == |g| + 1
    ensures SumGroups(r) == SumGroups(g) + x.sum
  {
    if g == [] || x.sum >= g[0].sum then
      var r := [x] + g;
      assert r[1..] == g;
      r
    else
      var rest := Insert(x, g[1..]);
      var r := [g[0]] + rest;
      assert r[1..] == rest;
      r
  }

  /** Inserting adds exactly one occurrence of `x` and keeps all the others. */
  lemma {:induction false} InsertPermutes<K>(x: Group<K>, g: seq<Group<K>>)
    ensures multiset(Insert(x, g)) == multiset(g) + multiset{x}
  {
    if !(g == [] || x.sum >= g[0].sum) {
      assert g == [g[0]] + g[1..];
      InsertPermutes(x, g[1..]);
      assert Insert(x, g) == [g[0]] + Insert(x, g[1..]);
    }
  }

  /** A bound on `x` and on every group bounds every group after inserting. */
  lemma {:induction false} InsertBound<K>(x: Group<K>, g: seq<Group<K>>, b: int)
    requires x.sum <= b
    requires forall i :: 0 <= i < |g| ==> g[i].sum <= b
    ensures forall i :: 0 <= i < |Insert(x, g)| ==> Insert(x, g)[i].sum <= b
  {
    if !(g == [] || x.sum >= g[0].sum) {
      var rest := Insert(x, g[1..]);
      assert Insert(x, g) == [g[0]] + rest;
      InsertBound(x, g[1..], b);
    }
  }

  /** Inserting into a descending sequence leaves it descending. */
  lemma {:induction false} InsertDescending<K>(x: Group<K>, g: seq<Group<K>>)
    requires Descending(g)
    ensures Descending(Insert(x, g))
  {
    var r := Insert(x, g);
    if g == [] || x.sum >= g[0].sum {
      assert r == [x] + g;
      forall i, j | 0 <= i < j < |r| ensures r[i].sum >= r[j].sum {
        assert r[j] == g[j - 1];
        if i > 0 { assert r[i] == g[i - 1]; }
      }
    } else {
      var rest := Insert(x, g[1..]);
      assert r == [g[0]] + rest;
      InsertDescending(x, g[1..]);
      InsertBound(x, g[1..], g[0].sum);
      forall i, j | 0 <= i < j < |r| ensures r[i].sum >= r[j].sum {
        assert r[j] == rest[j - 1];
        if i > 0 { assert r[i] == rest[i - 1]; }
      }
    }
  }

  /** The groups sorted by descending sum (`sort_values(ascending=False)`);
      the order among equal sums is not a promise. */
  function SortDesc<K>(g: seq<Group<K>>): (r: seq<Group<K>>)
    ensures Descending(r)
    ensures multiset(r) == multiset(g)
    ensures |r| == |g|
    ensures SumGroups(r) == SumGroups(g)
  {
    if g == [] then []
    else
      assert g == [g[0]] + g[1..];
      InsertPermutes(g[0], SortDesc(g[1..]));
      InsertDescending(g[0], SortDesc(g[1..]));
      Insert(g[0], SortDesc(g[1..]))
  }

  /** The keys after inserting are `x`'s key and the keys before. */
  lemma {:induction false} InsertKeys<K>(x: Group<K>, g: seq<Group<K>>)
    ensures forall k :: k in GroupKeys(Insert(x, g)) <==> k == x.key || k in GroupKeys(g)
  {
    if g == [] || x.sum >= g[0].sum {
      GroupKeysCons(x, g);
    } else {
      var rest := Insert(x, g[1..]);
      assert g == [g[0]] + g[1..];
      assert Insert(x, g) == [g[0]] + rest;
      GroupKeysCons(g[0], g[1..]);
      GroupKeysCons(g[0], rest);
      InsertKeys(x, g[1..]);
    }
  }

  /** Inserting a group with a fresh key keeps the keys unique. */
  lemma {:induction false} InsertUnique<K>(x: Group<K>, g: seq<Group<K>>)
    requires UniqueKeys(g) && x.key !in GroupKeys(g)
    ensures UniqueKeys(Insert(x, g))
  {
    if g == [] || x.sum >= g[0].sum {
      GroupKeysCons(x, g);
      NoDupCons(x.key, GroupKeys(g));
    } else {
      var rest := Insert(x, g[1..]);
      assert g == [g[0]] + g[1..];
      assert Insert(x, g) == [g[0]] + rest;
      GroupKeysCons(g[0], g[1..]);
      NoDupCons(g[0].key, GroupKeys(g[1..]));
      InsertUnique(x, g[1..]);
      InsertKeys(x, g[1..]);
      GroupKeysCons(g[0], rest);
      NoDupCons(g[0].key, GroupKeys(rest));
    }
  }

  /** Sorting keeps the keys and their uniqueness. */
  lemma {:induction false} SortDescKeys<K>(g: seq<Group<K>>)
    requires UniqueKeys(g)
    ensures UniqueKeys(SortDesc(g))
    ensures forall k :: k in GroupKeys(SortDesc(g)) <==> k in GroupKeys(g)
  {
    if g != [] {
      assert g == [g[0]] + g[1..];
      GroupKeysCons(g[0], g[1..]);
      NoDupCons(g[0].key, GroupKeys(g[1..]));
      SortDescKeys(g[1..]);
      InsertKeys(g[0], SortDesc(g[1..]));
      InsertUnique(g[0], SortDesc(g[1..]));
    }
  }

  /** Every sorted group is one of the groups sorted. */
  lemma SortDescElements<K>(g: seq<Group<K>>)
    ensures forall i :: 0 <= i < |SortDesc(g)| ==> SortDesc(g)[i] in g
  {
    var r := SortDesc(g);
    forall i | 0 <= i < |r| ensures r[i] in g {
      assert r[i] in multiset(r);
    }
  }
}
