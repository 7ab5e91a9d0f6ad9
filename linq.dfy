/** The LINQ operators the series pipelines are built from, over any element type and key
    selector: the stable OrderBy, GroupBy with groups in order of first appearance, and
    Last. The series module instantiates them with dates and ISO week keys. */
module Linq {
  import opened Wrappers

  predicate SortedBy<T>(s: seq<T>, key: T -> int) {
    forall i, j | 0 <= i < j < |s| :: key(s[i]) <= key(s[j])
  }

  // ---------------------------------------------------------------- OrderBy

  /** Where x goes in a sorted sequence: behind every element whose key is not larger. */
  function InsertPos<T>(x: T, t: seq<T>, key: T -> int): (k: nat)
    ensures k <= |t|
    ensures k == 0 || key(t[k - 1]) <= key(x)
    ensures forall i | k <= i < |t| :: key(x) < key(t[i])
  {
    if t == [] || key(t[|t| - 1]) <= key(x) then |t| else InsertPos(x, t[..|t| - 1], key)
  }

  function Insert<T>(x: T, t: seq<T>, key: T -> int): (r: seq<T>)
    ensures r == t[..InsertPos(x, t, key)] + [x] + t[InsertPos(x, t, key)..]
  {
    if t == [] || key(t[|t| - 1]) <= key(x) then t + [x]
    else
      var t', last := t[..|t| - 1], t[|t| - 1];
      var k := InsertPos(x, t', key);
      SnocSlices(t, k);
      Insert(x, t', key) + [last]
  }

  lemma SnocSlices<T>(t: seq<T>, k: nat)
    requires k < |t|
    ensures t[..|t| - 1][..k] == t[..k]
    ensures t[..|t| - 1][k..] + [t[|t| - 1]] == t[k..]
  {
  }

  /** Enumerable.OrderBy(key): an insertion sort, stable like OrderBy. */
  function OrderBy<T>(s: seq<T>, key: T -> int): (r: seq<T>)
    ensures |r| == |s|
  {
    if s == [] then [] else Insert(s[|s| - 1], OrderBy(s[..|s| - 1], key), key)
  }

  /** The result is sorted and a permutation of the input. */
  lemma OrderBySorts<T>(s: seq<T>, key: T -> int)
    ensures SortedBy(OrderBy(s, key), key)
    ensures multiset(OrderBy(s, key)) == multiset(s)
  {
    OrderBySorted(s, key);
    OrderByPermutes(s, key);
  }

  lemma {:induction false} OrderBySorted<T>(s: seq<T>, key: T -> int)
    ensures SortedBy(OrderBy(s, key), key)
  {
    if s != [] {
      var s', x := s[..|s| - 1], s[|s| - 1];
      var t := OrderBy(s', key);
      OrderBySorted(s', key);
      SortedInsertAt(t, InsertPos(x, t, key), x, key);
    }
  }

  lemma {:induction false} OrderByPermutes<T>(s: seq<T>, key: T -> int)
    ensures multiset(OrderBy(s, key)) == multiset(s)
  {
    if s != [] {
      var s', x := s[..|s| - 1], s[|s| - 1];
      var t := OrderBy(s', key);
      OrderByPermutes(s', key);
      MultisetInsertAt(t, InsertPos(x, t, key), x);
      MultisetSnoc(s);
    }
  }

  lemma SortedInsertAt<T>(t: seq<T>, k: nat, x: T, key: T -> int)
    requires SortedBy(t, key) && k <= |t|
    requires k == 0 || key(t[k - 1]) <= key(x)
    requires forall i | k <= i < |t| :: key(x) < key(t[i])
    ensures SortedBy(t[..k] + [x] + t[k..], key)
  {
    var r := t[..k] + [x] + t[k..];
    forall i, j | 0 <= i < j < |r|
      ensures key(r[i]) <= key(r[j])
    {
      if j < k {
        assert r[i] == t[i] && r[j] == t[j];
      } else if i > k {
        assert r[i] == t[i - 1] && r[j] == t[j - 1];
      } else if i < k && j == k {
        assert r[i] == t[i];
      } else if i < k {
        assert r[i] == t[i] && r[j] == t[j - 1];
      } else {
        assert r[j] == t[j - 1];
      }
    }
  }

  lemma MultisetInsertAt<T>(t: seq<T>, k: nat, x: T)
    requires k <= |t|
    ensures multiset(t[..k] + [x] + t[k..]) == multiset(t) + multiset{x}
  {
    assert t == t[..k] + t[k..];
  }

  lemma MultisetSnoc<T>(s: seq<T>)
    requires s != []
    ensures multiset(s) == multiset(s[..|s| - 1]) + multiset{s[|s| - 1]}
  {
    assert s == s[..|s| - 1] + [s[|s| - 1]];
  }

  /** The elements of s with key n, in their order in s. */
  function WithKey<T>(s: seq<T>, key: T -> int, n: int): (r: seq<T>)
  {
    if s == [] then []
    else WithKey(s[..|s| - 1], key, n) + (if key(s[|s| - 1]) == n then [s[|s| - 1]] else [])
  }

  lemma {:induction false} WithKeyAppend<T>(a: seq<T>, b: seq<T>, key: T -> int, n: int)
    ensures WithKey(a + b, key, n) == WithKey(a, key, n) + WithKey(b, key, n)
    decreases |b|
  {
    if b == [] {
      assert a + b == a;
    } else {
      var b' := b[..|b| - 1];
      assert (a + b)[..|a + b| - 1] == a + b';
      WithKeyAppend(a, b', key, n);
    }
  }

  lemma {:induction false} NoneWithKey<T>(s: seq<T>, key: T -> int, n: int)
    requires forall i | 0 <= i < |s| :: n < key(s[i])
    ensures WithKey(s, key, n) == []
  {
    if s != [] {
      NoneWithKey(s[..|s| - 1], key, n);
    }
  }

  /** Stability: elements with equal keys keep their relative order. Together with
      OrderBySorts this pins the result down to OrderBy's stable sort. */
  lemma {:induction false} OrderByIsStable<T>(s: seq<T>, key: T -> int, n: int)
    ensures WithKey(OrderBy(s, key), key, n) == WithKey(s, key, n)
  {
    if s != [] {
      var s', x := s[..|s| - 1], s[|s| - 1];
      var t := OrderBy(s', key);
      OrderByIsStable(s', key, n);
      var k := InsertPos(x, t, key);
      InsertKeepsTies(t, k, x, key, n);
    }
  }

  lemma InsertKeepsTies<T>(t: seq<T>, k: nat, x: T, key: T -> int, n: int)
    requires k <= |t|
    requires forall i | k <= i < |t| :: key(x) < key(t[i])
    ensures WithKey(t[..k] + [x] + t[k..], key, n)
      == WithKey(t, key, n) + (if key(x) == n then [x] else [])
  {
    WithKeyAppend(t[..k], [x], key, n);
    WithKeyAppend(t[..k] + [x], t[k..], key, n);
    WithKeyAppend(t[..k], t[k..], key, n);
    assert t == t[..k] + t[k..];
    if key(x) == n {
      NoneWithKey(t[k..], key, n);
    }
    assert [x][..0] == [];
  }

  /** OrderBy leaves a sorted sequence as it is. */
  lemma {:induction false} OrderByOfSorted<T>(s: seq<T>, key: T -> int)
    requires SortedBy(s, key)
    ensures OrderBy(s, key) == s
  {
    if s != [] {
      var s' := s[..|s| - 1];
      SortedPrefix(s, key);
      OrderByOfSorted(s', key);
      assert s == s' + [s[|s| - 1]];
    }
  }

  lemma SortedPrefix<T>(s: seq<T>, key: T -> int)
    requires SortedBy(s, key) && s != []
    ensures SortedBy(s[..|s| - 1], key)
    ensures |s| == 1 || key(s[|s| - 2]) <= key(s[|s| - 1])
  {
    var s' := s[..|s| - 1];
    assert forall i | 0 <= i < |s'| :: s'[i] == s[i];
  }

  // ---------------------------------------------------------------- GroupBy and Last

  /** Enumerable.Last() of OrderBy(key): the element with the largest key, the last of
      them in input order when several share it. */
  function LastBy<T>(g: seq<T>, key: T -> int): (o: T)
    requires g != []
  {
    OrderBy(g, key)[|g| - 1]
  }

  lemma LastByIsLatest<T>(g: seq<T>, key: T -> int)
    requires g != []
    ensures LastBy(g, key) in g
    ensures forall i | 0 <= i < |g| :: key(g[i]) <= key(LastBy(g, key))
  {
    var r := OrderBy(g, key);
    OrderBySorts(g, key);
    assert r[|r| - 1] in multiset(g);
    forall i | 0 <= i < |g|
      ensures key(g[i]) <= key(r[|r| - 1])
    {
      assert g[i] in multiset(r);
    }
  }

  /** The keys of GroupBy(gkey), in order of first appearance. */
  function GroupKeys<T, K(==)>(s: seq<T>, gkey: T -> K): (ks: seq<K>)
  {
    if s == [] then []
    else
      var ks := GroupKeys(s[..|s| - 1], gkey);
      if gkey(s[|s| - 1]) in ks then ks else ks + [gkey(s[|s| - 1])]
  }

  predicate Distinct<K(==)>(ks: seq<K>) {
    forall i, j | 0 <= i < j < |ks| :: ks[i] != ks[j]
  }

  /** No two elements share a group key. */
  predicate DistinctBy<T, K(==)>(s: seq<T>, gkey: T -> K) {
    forall i, j | 0 <= i < j < |s| :: gkey(s[i]) != gkey(s[j])
  }

  /** Every key belongs to some element, every element's key is listed, and once only. */
  lemma {:induction false} GroupKeysExact<T, K>(s: seq<T>, gkey: T -> K)
    ensures forall i | 0 <= i < |GroupKeys(s, gkey)| :: GroupKeys(s, gkey)[i] in Map(s, gkey)
    ensures forall j | 0 <= j < |s| :: gkey(s[j]) in GroupKeys(s, gkey)
    ensures Distinct(GroupKeys(s, gkey))
  {
    if s != [] {
      var s' := s[..|s| - 1];
      GroupKeysExact(s', gkey);
      assert Map(s, gkey) == Map(s', gkey) + [gkey(s[|s| - 1])];
      assert forall j | 0 <= j < |s'| :: s[j] == s'[j];
    }
  }

  /** The group of one key: the elements with that key, in their order in s. */
  function Group<T, K(==)>(s: seq<T>, gkey: T -> K, k: K): (g: seq<T>)
  {
    if s == [] then []
    else Group(s[..|s| - 1], gkey, k) + (if gkey(s[|s| - 1]) == k then [s[|s| - 1]] else [])
  }

  lemma {:induction false} GroupMembers<T, K>(s: seq<T>, gkey: T -> K, k: K)
    ensures forall i | 0 <= i < |Group(s, gkey, k)| :: gkey(Group(s, gkey, k)[i]) == k && Group(s, gkey, k)[i] in s
    ensures forall j | 0 <= j < |s| && gkey(s[j]) == k :: s[j] in Group(s, gkey, k)
  {
    if s != [] {
      var s' := s[..|s| - 1];
      GroupMembers(s', gkey, k);
      assert forall j | 0 <= j < |s'| :: s[j] == s'[j];
    }
  }

  /** GroupBy(gkey).Select(g => g.OrderBy(key).Last()): one element per listed key. */
  function LastOfGroups<T, K(==)>(s: seq<T>, gkey: T -> K, key: T -> int, ks: seq<K>): (r: seq<T>)
    requires forall i | 0 <= i < |ks| :: ks[i] in Map(s, gkey)
    ensures |r| == |ks|
  {
    if ks == [] then []
    else
      var k := ks[|ks| - 1];
      GroupNonEmpty(s, gkey, k);
      LastOfGroups(s, gkey, key, ks[..|ks| - 1]) + [LastBy(Group(s, gkey, k), key)]
  }

  function Map<T, K>(s: seq<T>, f: T -> K): (r: seq<K>)
    ensures |r| == |s|
    ensures forall i | 0 <= i < |s| :: r[i] == f(s[i])
  {
    if s == [] then [] else Map(s[..|s| - 1], f) + [f(s[|s| - 1])]
  }

  /** Mapping one more element appends its image. */
  lemma MapSnoc<T, K>(s: seq<T>, i: nat, f: T -> K)
    requires i < |s|
    ensures Map(s[..i + 1], f) == Map(s[..i], f) + [f(s[i])]
  {
    assert s[..i + 1][..i] == s[..i];
  }

  lemma GroupNonEmpty<T, K>(s: seq<T>, gkey: T -> K, k: K)
    requires k in Map(s, gkey)
    ensures Group(s, gkey, k) != []
  {
    GroupMembers(s, gkey, k);
    var j :| 0 <= j < |s| && Map(s, gkey)[j] == k;
    assert s[j] in Group(s, gkey, k);
  }

  lemma {:induction false} LastOfGroupsAt<T, K>(s: seq<T>, gkey: T -> K, key: T -> int, ks: seq<K>, i: int)
    requires forall i | 0 <= i < |ks| :: ks[i] in Map(s, gkey)
    requires 0 <= i < |ks|
    ensures Group(s, gkey, ks[i]) != []
    ensures LastOfGroups(s, gkey, key, ks)[i] == LastBy(Group(s, gkey, ks[i]), key)
  {
    GroupNonEmpty(s, gkey, ks[i]);
    if i < |ks| - 1 {
      LastOfGroupsAt(s, gkey, key, ks[..|ks| - 1], i);
    }
  }

  // ---------------------------------------------------------------- latest per group

  /** GroupBy(gkey).Select(g => g.OrderBy(key).Last()).OrderBy(key). */
  function LatestPerGroup<T, K(==)>(s: seq<T>, gkey: T -> K, key: T -> int): (r: seq<T>)
  {
    GroupKeysExact(s, gkey);
    OrderBy(LastOfGroups(s, gkey, key, GroupKeys(s, gkey)), key)
  }

  /** The result has one element per group, each taken from the input and carrying the
      largest key of its group. */
  lemma LatestPerGroupPicksLatest<T, K>(s: seq<T>, gkey: T -> K, key: T -> int)
    ensures DistinctBy(LatestPerGroup(s, gkey, key), gkey)
    ensures forall i | 0 <= i < |LatestPerGroup(s, gkey, key)| :: LatestPerGroup(s, gkey, key)[i] in s
    ensures forall i, j | 0 <= i < |LatestPerGroup(s, gkey, key)| && 0 <= j < |s|
      && gkey(s[j]) == gkey(LatestPerGroup(s, gkey, key)[i])
      :: key(s[j]) <= key(LatestPerGroup(s, gkey, key)[i])
  {
    var ks := GroupKeys(s, gkey);
    GroupKeysExact(s, gkey);
    var l := LastOfGroups(s, gkey, key, ks);
    var w := LatestPerGroup(s, gkey, key);
    forall i | 0 <= i < |l|
      ensures gkey(l[i]) == ks[i] && l[i] in s
      ensures forall j | 0 <= j < |s| && gkey(s[j]) == ks[i] :: key(s[j]) <= key(l[i])
    {
      LatestOfGroup(s, gkey, key, ks, i);
    }
    assert DistinctBy(l, gkey);
    OrderByKeepsDistinct(l, gkey, key);
    OrderByPermutes(l, key);
    forall i | 0 <= i < |w|
      ensures w[i] in s
      ensures forall j | 0 <= j < |s| && gkey(s[j]) == gkey(w[i]) :: key(s[j]) <= key(w[i])
    {
      assert w[i] in multiset(l);
      var p :| 0 <= p < |l| && l[p] == w[i];
    }
  }

  lemma LatestOfGroup<T, K>(s: seq<T>, gkey: T -> K, key: T -> int, ks: seq<K>, i: int)
    requires forall i | 0 <= i < |ks| :: ks[i] in Map(s, gkey)
    requires 0 <= i < |ks|
    ensures gkey(LastOfGroups(s, gkey, key, ks)[i]) == ks[i]
    ensures LastOfGroups(s, gkey, key, ks)[i] in s
    ensures forall j | 0 <= j < |s| && gkey(s[j]) == ks[i] :: key(s[j]) <= key(LastOfGroups(s, gkey, key, ks)[i])
  {
    LastOfGroupsAt(s, gkey, key, ks, i);
    var g := Group(s, gkey, ks[i]);
    GroupMembers(s, gkey, ks[i]);
    LastByIsLatest(g, key);
    var o := LastBy(g, key);
    var p :| 0 <= p < |g| && g[p] == o;
    forall j | 0 <= j < |s| && gkey(s[j]) == ks[i]
      ensures key(s[j]) <= key(o)
    {
      var q :| 0 <= q < |g| && g[q] == s[j];
    }
  }

  /** OrderBy keeps group keys pairwise different. */
  lemma {:induction false} OrderByKeepsDistinct<T, K>(s: seq<T>, gkey: T -> K, key: T -> int)
    requires DistinctBy(s, gkey)
    ensures DistinctBy(OrderBy(s, key), gkey)
  {
    if s != [] {
      var x, s' := s[|s| - 1], s[..|s| - 1];
      assert Map(s', gkey) == Map(s, gkey)[..|s| - 1];
      OrderByKeepsDistinct(s', gkey, key);
      var t := OrderBy(s', key);
      OrderByPermutes(s', key);
      forall i | 0 <= i < |t|
        ensures gkey(t[i]) != gkey(x)
      {
        assert t[i] in multiset(s');
        var p :| 0 <= p < |s'| && s'[p] == t[i];
        assert s[p] == t[i];
      }
      DistinctInsertAt(t, InsertPos(x, t, key), x, gkey);
    }
  }

  lemma DistinctInsertAt<T, K>(t: seq<T>, k: nat, x: T, gkey: T -> K)
    requires DistinctBy(t, gkey) && k <= |t|
    requires forall i | 0 <= i < |t| :: gkey(t[i]) != gkey(x)
    ensures DistinctBy(t[..k] + [x] + t[k..], gkey)
  {
    var r := t[..k] + [x] + t[k..];
    forall i, j | 0 <= i < j < |r|
      ensures gkey(r[i]) != gkey(r[j])
    {
      if j < k {
        assert r[i] == t[i] && r[j] == t[j];
      } else if i > k {
        assert r[i] == t[i - 1] && r[j] == t[j - 1];
      } else if i < k && j == k {
        assert r[i] == t[i];
      } else if i < k {
        assert r[i] == t[i] && r[j] == t[j - 1];
      } else {
        assert r[j] == t[j - 1];
      }
    }
  }

  /** Every group of the input is represented in the result. */
  lemma LatestPerGroupCoversGroups<T, K>(s: seq<T>, gkey: T -> K, key: T -> int)
    ensures forall j | 0 <= j < |s| :: gkey(s[j]) in Map(LatestPerGroup(s, gkey, key), gkey)
  {
    var ks := GroupKeys(s, gkey);
    GroupKeysExact(s, gkey);
    var l := LastOfGroups(s, gkey, key, ks);
    var w := LatestPerGroup(s, gkey, key);
    OrderByPermutes(l, key);
    forall j | 0 <= j < |s|
      ensures gkey(s[j]) in Map(w, gkey)
    {
      var p :| 0 <= p < |ks| && ks[p] == gkey(s[j]);
      LatestOfGroup(s, gkey, key, ks, p);
      assert l[p] in multiset(w);
      var i :| 0 <= i < |w| && w[i] == l[p];
      assert Map(w, gkey)[i] == gkey(s[j]);
    }
  }

  /** When equal keys imply equal groups, the result's keys strictly increase. */
  lemma LatestPerGroupStrictlyAscending<T, K>(s: seq<T>, gkey: T -> K, key: T -> int)
    requires forall a, b :: key(a) == key(b) ==> gkey(a) == gkey(b)
    ensures forall i, j | 0 <= i < j < |LatestPerGroup(s, gkey, key)| ::
      key(LatestPerGroup(s, gkey, key)[i]) < key(LatestPerGroup(s, gkey, key)[j])
  {
    var w := LatestPerGroup(s, gkey, key);
    LatestPerGroupPicksLatest(s, gkey, key);
    GroupKeysExact(s, gkey);
    OrderBySorted(LastOfGroups(s, gkey, key, GroupKeys(s, gkey)), key);
    forall i, j | 0 <= i < j < |w|
      ensures key(w[i]) < key(w[j])
    {
    }
  }

  /** Applying the pipeline to its own result changes nothing. */
  lemma LatestPerGroupIdempotent<T, K>(s: seq<T>, gkey: T -> K, key: T -> int)
    ensures LatestPerGroup(LatestPerGroup(s, gkey, key), gkey, key) == LatestPerGroup(s, gkey, key)
  {
    var w := LatestPerGroup(s, gkey, key);
    LatestPerGroupPicksLatest(s, gkey, key);
    GroupKeysExact(s, gkey);
    OrderBySorted(LastOfGroups(s, gkey, key, GroupKeys(s, gkey)), key);
    LatestPerGroupOfDistinct(w, gkey, key);
    OrderByOfSorted(w, key);
  }

  /** With one element per group the pipeline is just OrderBy. */
  lemma LatestPerGroupOfDistinct<T, K>(s: seq<T>, gkey: T -> K, key: T -> int)
    requires DistinctBy(s, gkey)
    ensures LatestPerGroup(s, gkey, key) == OrderBy(s, key)
  {
    var ks := GroupKeys(s, gkey);
    GroupKeysExact(s, gkey);
    GroupKeysOfDistinct(s, gkey);
    var l := LastOfGroups(s, gkey, key, ks);
    forall i | 0 <= i < |s|
      ensures l[i] == s[i]
    {
      LastOfGroupsAt(s, gkey, key, ks, i);
      SingletonGroup(s, gkey, i, |s|);
      assert s[..|s|] == s;
      assert OrderBy([s[i]], key) == [s[i]];
    }
    assert l == s;
  }

  lemma {:induction false} GroupKeysOfDistinct<T, K>(s: seq<T>, gkey: T -> K)
    requires DistinctBy(s, gkey)
    ensures GroupKeys(s, gkey) == Map(s, gkey)
  {
    if s != [] {
      var s' := s[..|s| - 1];
      assert Map(s', gkey) == Map(s, gkey)[..|s| - 1];
      GroupKeysOfDistinct(s', gkey);
    }
  }

  lemma {:induction false} SingletonGroup<T, K>(s: seq<T>, gkey: T -> K, i: int, n: int)
    requires DistinctBy(s, gkey) && 0 <= i < n <= |s|
    ensures Group(s[..n], gkey, gkey(s[i])) == [s[i]]
  {
    assert s[..n][..n - 1] == s[..n - 1];
    if i < n - 1 {
      SingletonGroup(s, gkey, i, n - 1);
    } else {
      EmptyGroup(s, gkey, i, n - 1);
    }
  }

  lemma {:induction false} EmptyGroup<T, K>(s: seq<T>, gkey: T -> K, i: int, n: int)
    requires DistinctBy(s, gkey) && 0 <= n <= i < |s|
    ensures Group(s[..n], gkey, gkey(s[i])) == []
  {
    if n > 0 {
      assert s[..n][..n - 1] == s[..n - 1];
      EmptyGroup(s, gkey, i, n - 1);
    }
  }

  /** A Select that may drop an element (None) or raise, followed by Where(x is not
      null), enumerated in order: the values kept, or the first exception raised. */
  function SelectKept<A, B>(xs: seq<A>, f: A -> Result<Option<B>, Exn>): (r: Result<seq<B>, Exn>)
    ensures r.Ok? ==> |r.value| <= |xs|
  {
    if xs == [] then Ok([])
    else match f(xs[0])
      case Err(e) => Err(e)
      case Ok(x) =>
        match SelectKept(xs[1..], f)
        case Err(e) => Err(e)
        case Ok(rest) => Ok((if x.Some? then [x.value] else []) + rest)
  }

  /** The pipeline keeps an element exactly when it maps to a value, raises exactly when
      some element raises, and then raises the exception of the first one. */
  lemma {:induction false} SelectKeptSpec<A, B>(xs: seq<A>, f: A -> Result<Option<B>, Exn>)
    ensures SelectKept(xs, f).Ok? <==> forall i | 0 <= i < |xs| :: f(xs[i]).Ok?
    ensures SelectKept(xs, f).Err? ==> exists i | 0 <= i < |xs| ::
      f(xs[i]) == Err(SelectKept(xs, f).error) && forall j | 0 <= j < i :: f(xs[j]).Ok?
    ensures SelectKept(xs, f).Ok? ==> forall y :: y in SelectKept(xs, f).value <==>
      exists i | 0 <= i < |xs| :: f(xs[i]) == Ok(Some(y))
  {
    if xs != [] {
      var tail := xs[1..];
      SelectKeptSpec(tail, f);
      assert forall i | 1 <= i < |xs| :: xs[i] == tail[i - 1];
      if f(xs[0]).Ok? && SelectKept(tail, f).Err? {
        var i :| 0 <= i < |tail| && f(tail[i]) == Err(SelectKept(tail, f).error)
          && forall j | 0 <= j < i :: f(tail[j]).Ok?;
        assert f(xs[i + 1]) == Err(SelectKept(xs, f).error);
      }
      if SelectKept(xs, f).Ok? {
        forall y
          ensures y in SelectKept(xs, f).value <==> exists i | 0 <= i < |xs| :: f(xs[i]) == Ok(Some(y))
        {
          if exists i | 0 <= i < |xs| :: f(xs[i]) == Ok(Some(y)) {
            var i :| 0 <= i < |xs| && f(xs[i]) == Ok(Some(y));
            if i > 0 {
              assert f(tail[i - 1]) == Ok(Some(y));
            }
          }
        }
      }
    }
  }

  /** Where(p): the elements satisfying p, in order. */
  function Where<T>(s: seq<T>, p: T -> bool): (r: seq<T>)
    ensures |r| <= |s|
    ensures forall i | 0 <= i < |r| :: p(r[i]) && r[i] in s
  {
    if s == [] then [] else if p(s[0]) then [s[0]] + Where(s[1..], p) else Where(s[1..], p)
  }

  /** Selecting back with an inverse of the mapping gives the elements back. */
  lemma {:induction false} SelectKeptOfMap<A, B>(xs: seq<A>, enc: A -> B, dec: B -> Result<Option<A>, Exn>)
    requires forall x | x in xs :: dec(enc(x)) == Ok(Some(x))
    ensures SelectKept(Map(xs, enc), dec) == Ok(xs)
    decreases |xs|
  {
    if xs != [] {
      assert Map(xs, enc)[1..] == Map(xs[1..], enc);
      assert xs[0] in xs;
      SelectKeptOfMap(xs[1..], enc, dec);
      assert xs == [xs[0]] + xs[1..];
    }
  }

  /** Elements mapped to None are dropped without effect, and every other element gives
      one value, in order. */
  lemma {:induction false} SelectKeptWhere<A, B>(xs: seq<A>, f: A -> Result<Option<B>, Exn>, keep: A -> bool)
    requires forall x | x in xs :: f(x) == Ok(None) <==> !keep(x)
    ensures SelectKept(xs, f) == SelectKept(Where(xs, keep), f)
    ensures SelectKept(xs, f).Ok? ==>
      && |SelectKept(xs, f).value| == |Where(xs, keep)|
      && forall k | 0 <= k < |Where(xs, keep)| :: f(Where(xs, keep)[k]) == Ok(Some(SelectKept(xs, f).value[k]))
    decreases |xs|
  {
    if xs != [] {
      var w, rest := Where(xs, keep), Where(xs[1..], keep);
      assert xs[0] in xs;
      assert forall x | x in xs[1..] :: x in xs;
      SelectKeptWhere(xs[1..], f, keep);
      if !keep(xs[0]) {
        if SelectKept(xs[1..], f).Ok? {
          assert [] + SelectKept(xs[1..], f).value == SelectKept(xs[1..], f).value;
        }
      } else {
        assert w[1..] == rest;
        if SelectKept(xs, f).Ok? {
          var rs := SelectKept(xs, f).value;
          forall k | 0 <= k < |w|
            ensures f(w[k]) == Ok(Some(rs[k]))
          {
            if k > 0 {
              assert w[k] == rest[k - 1];
            }
          }
        }
      }
    }
  }

  /** An element that raises, after elements that do not, raises for the whole sequence. */
  lemma {:induction false} SelectKeptAt<A, B>(before: seq<A>, x: A, after: seq<A>, f: A -> Result<Option<B>, Exn>)
    requires SelectKept(before, f).Ok? && f(x).Err?
    ensures SelectKept(before + [x] + after, f) == Err(f(x).error)
    decreases |before|
  {
    if before == [] {
      assert before + [x] + after == [x] + after;
    } else {
      assert (before + [x] + after)[1..] == before[1..] + [x] + after;
      SelectKeptAt(before[1..], x, after, f);
    }
  }
}
