/**
 * Shared vocabulary: an Option type, Python's insertion-ordered dict
 * modelled as a sequence of key/value pairs, sequences without
 * repetitions, and `random.shuffle` modelled as an arbitrary permutation
 * supplied by the caller.
 */
module Common {

  datatype Option<T> = None | Some(value: T)

  type UserId = int
  type ChannelId = int

  /** Length limits shared by question selection and preparation (bot.py:141-143). */
  const MaxQuestionChars := 80
  const MaxOptionChars := 45

  function Min(a: int, b: int): int { if a <= b then a else b }

  function Max(a: int, b: int): int { if a <= b then b else a }

  /** No element occurs twice. */
  predicate Distinct<T(==)>(s: seq<T>) {
    forall i, j :: 0 <= i < j < |s| ==> s[i] != s[j]
  }

  function ToSet<T>(s: seq<T>): set<T> {
    set x | x in s
  }

  lemma {:induction false} DistinctCardinality<T>(s: seq<T>)
    requires Distinct(s)
    ensures |ToSet(s)| == |s|
  {
    if s != [] {
      var t := s[1..];
      assert Distinct(t);
      DistinctCardinality(t);
      assert ToSet(s) == ToSet(t) + {s[0]};
      assert s[0] !in ToSet(t);
    }
  }

  /** A repetition-free sequence drawn from `t` is no longer than `t` has distinct elements. */
  lemma DistinctWithin<T>(s: seq<T>, t: seq<T>)
    requires Distinct(s) && Distinct(t)
    requires forall x :: x in s ==> x in t
    ensures |s| <= |t|
    ensures |s| == |t| <==> (forall x :: x in t ==> x in s)
  {
    DistinctCardinality(s);
    DistinctCardinality(t);
    var a, b := ToSet(s), ToSet(t);
    assert a <= b;
    assert b == a + (b - a);
    assert |b| == |a| + |b - a|;
    if forall x :: x in t ==> x in s {
      assert a == b;
    }
    if |s| == |t| {
      assert b - a == {};
      forall x | x in t ensures x in s {
        assert x in b;
        assert x !in b - a;
      }
    }
  }

  lemma DistinctSuffixDisjoint<T>(s: seq<T>, i: nat, x: T)
    requires Distinct(s) && i <= |s| && x in s[i..]
    ensures x !in s[..i]
  {
    var k :| i <= k < |s| && s[k] == x;
    forall m | 0 <= m < i ensures s[..i][m] != x {
      assert s[m] != s[k];
    }
  }

  lemma DistinctConcat<T>(a: seq<T>, b: seq<T>)
    requires Distinct(a) && Distinct(b)
    requires forall x :: x in a ==> x !in b
    ensures Distinct(a + b)
  {
    var c := a + b;
    forall i, j | 0 <= i < j < |c| ensures c[i] != c[j] {
      if j >= |a| {
        assert c[j] == b[j - |a|];
        if i < |a| {
          assert c[i] == a[i];
          assert a[i] in a;
        } else {
          assert c[i] == b[i - |a|];
        }
      }
    }
  }

  /** The values present in a sequence of options, in order. */
  function Present<T>(s: seq<Option<T>>): seq<T> {
    if s == [] then []
    else Present(s[..|s| - 1]) + (if s[|s| - 1].Some? then [s[|s| - 1].value] else [])
  }

  lemma {:induction false} PresentMembers<T>(s: seq<Option<T>>, x: T)
    ensures x in Present(s) <==> Some(x) in s
    ensures |Present(s)| <= |s|
  {
    if s != [] {
      var init := s[..|s| - 1];
      PresentMembers(init, x);
      assert s == init + [s[|s| - 1]];
    }
  }

  /** Collecting the values of a prefix gives a prefix of the values. */
  lemma {:induction false} PresentPrefix<T>(s: seq<Option<T>>, k: nat)
    requires k <= |s|
    ensures |Present(s[..k])| <= |Present(s)|
    ensures Present(s[..k]) == Present(s)[..|Present(s[..k])|]
    decreases |s|
  {
    if k < |s| {
      var init := s[..|s| - 1];
      assert s[..k] == init[..k];
      PresentPrefix(init, k);
    } else {
      assert s[..k] == s;
    }
  }

  /** Each value adds at most one element. */
  lemma PresentStep<T>(s: seq<Option<T>>, k: nat)
    requires k < |s|
    ensures s[..k + 1][..k] == s[..k]
    ensures Present(s[..k + 1]) == Present(s[..k]) + (if s[k].Some? then [s[k].value] else [])
  {
    assert s[..k + 1][..k] == s[..k];
  }

  // ---------------------------------------------------------------------
  // Insertion-ordered dictionaries (Python `dict`)
  // ---------------------------------------------------------------------

  function Keys<K, V>(d: seq<(K, V)>): set<K> {
    set i | 0 <= i < |d| :: d[i].0
  }

  predicate DistinctKeys<K(==), V>(d: seq<(K, V)>) {
    forall i, j :: 0 <= i < j < |d| ==> d[i].0 != d[j].0
  }

  /** `d.get(k, default)` */
  function Lookup<K(==), V>(d: seq<(K, V)>, k: K, default: V): V
    decreases |d|
  {
    if d == [] then default
    else if d[0].0 == k then d[0].1
    else Lookup(d[1..], k, default)
  }

  /** `d[k] = v`: replaces the value in place when `k` is present, appends otherwise. */
  function Put<K(==), V>(d: seq<(K, V)>, k: K, v: V): seq<(K, V)>
    decreases |d|
  {
    if d == [] then [(k, v)]
    else if d[0].0 == k then [(k, v)] + d[1..]
    else [d[0]] + Put(d[1..], k, v)
  }

  lemma {:induction false} LookupMissing<K, V>(d: seq<(K, V)>, k: K, default: V)
    requires k !in Keys(d)
    ensures Lookup(d, k, default) == default
  {
    if d != [] {
      assert d[0].0 in Keys(d);
      assert Keys(d[1..]) <= Keys(d) by {
        forall j | j in Keys(d[1..]) ensures j in Keys(d) {
          var i :| 0 <= i < |d[1..]| && d[1..][i].0 == j;
          assert d[i + 1].0 == j;
        }
      }
      LookupMissing(d[1..], k, default);
    }
  }

  lemma KeysCons<K, V>(x: (K, V), t: seq<(K, V)>)
    ensures Keys([x] + t) == {x.0} + Keys(t)
  {
    var d := [x] + t;
    forall j | j in Keys(d) ensures j in {x.0} + Keys(t) {
      var i :| 0 <= i < |d| && d[i].0 == j;
      if i > 0 { assert d[i] == t[i - 1]; }
    }
    forall j | j in Keys(t) ensures j in Keys(d) {
      var i :| 0 <= i < |t| && t[i].0 == j;
      assert d[i + 1] == t[i];
    }
    assert d[0].0 == x.0;
  }

  lemma {:induction false} PutKeys<K, V>(d: seq<(K, V)>, k: K, v: V)
    ensures Keys(Put(d, k, v)) == Keys(d) + {k}
  {
    if d == [] {
      assert Keys([(k, v)]) == {k} by { KeysCons((k, v), []); }
    } else if d[0].0 == k {
      assert d == [d[0]] + d[1..];
      KeysCons(d[0], d[1..]);
      KeysCons((k, v), d[1..]);
    } else {
      assert d == [d[0]] + d[1..];
      KeysCons(d[0], d[1..]);
      PutKeys(d[1..], k, v);
      KeysCons(d[0], Put(d[1..], k, v));
    }
  }

  /** After `d[k] = v`, `get(k)` gives `v` and every other key reads as before. */
  lemma {:induction false} PutLookup<K, V>(d: seq<(K, V)>, k: K, v: V, j: K, default: V)
    ensures Lookup(Put(d, k, v), j, default) == (if j == k then v else Lookup(d, j, default))
  {
    if d != [] && d[0].0 != k {
      PutLookup(d[1..], k, v, j, default);
      assert Put(d, k, v)[1..] == Put(d[1..], k, v);
    } else if d != [] {
      assert Put(d, k, v)[1..] == d[1..];
    }
  }

  lemma {:induction false} PutDistinct<K, V>(d: seq<(K, V)>, k: K, v: V)
    requires DistinctKeys(d)
    ensures DistinctKeys(Put(d, k, v))
  {
    if d != [] {
      var t := d[1..];
      assert d == [d[0]] + t;
      KeysCons(d[0], t);
      assert d[0].0 !in Keys(t) by {
        forall i | 0 <= i < |t| ensures t[i].0 != d[0].0 {
          assert d[i + 1] == t[i];
        }
      }
      if d[0].0 != k {
        assert DistinctKeys(t);
        PutDistinct(t, k, v);
        PutKeys(t, k, v);
        var r := Put(d, k, v);
        var pt := Put(t, k, v);
        assert r == [d[0]] + pt;
        forall a, b | 0 <= a < b < |r| ensures r[a].0 != r[b].0 {
          assert r[b] == pt[b - 1];
          if a == 0 {
            assert pt[b - 1].0 in Keys(pt);
          } else {
            assert r[a] == pt[a - 1];
          }
        }
      }
    }
  }

  /** Updating a present key keeps the key order; a new key goes to the end. */
  lemma {:induction false} PutOrder<K, V>(d: seq<(K, V)>, k: K, v: V)
    ensures k in Keys(d) ==> |Put(d, k, v)| == |d| && forall i :: 0 <= i < |d| ==> Put(d, k, v)[i].0 == d[i].0
    ensures k !in Keys(d) ==> Put(d, k, v) == d + [(k, v)]
  {
    if d != [] {
      assert d == [d[0]] + d[1..];
      KeysCons(d[0], d[1..]);
      if d[0].0 != k {
        PutOrder(d[1..], k, v);
        var r := Put(d, k, v);
        assert r == [d[0]] + Put(d[1..], k, v);
        if k in Keys(d) {
          forall i | 0 <= i < |d| ensures r[i].0 == d[i].0 {
            if i > 0 { assert r[i] == Put(d[1..], k, v)[i - 1]; }
          }
        }
      }
    }
  }

  /** Everything `d[k] = v` does, for a dict with distinct keys. */
  lemma PutSpec<K, V>(d: seq<(K, V)>, k: K, v: V)
    requires DistinctKeys(d)
    ensures DistinctKeys(Put(d, k, v))
    ensures Keys(Put(d, k, v)) == Keys(d) + {k}
    ensures forall j, default :: Lookup(Put(d, k, v), j, default) == (if j == k then v else Lookup(d, j, default))
    ensures k in Keys(d) ==> |Put(d, k, v)| == |d| && forall i :: 0 <= i < |d| ==> Put(d, k, v)[i].0 == d[i].0
    ensures k !in Keys(d) ==> Put(d, k, v) == d + [(k, v)]
  {
    PutDistinct(d, k, v);
    PutKeys(d, k, v);
    PutOrder(d, k, v);
    forall j, default ensures Lookup(Put(d, k, v), j, default) == (if j == k then v else Lookup(d, j, default)) {
      PutLookup(d, k, v, j, default);
    }
  }

  /** A dict with distinct keys is its entries but the last, with the last one put back. */
  lemma LastEntry<K, V>(d: seq<(K, V)>, k: K, default: V)
    requires DistinctKeys(d) && d != []
    ensures DistinctKeys(d[..|d| - 1])
    ensures k == d[|d| - 1].0 ==> Lookup(d[..|d| - 1], k, default) == default
    ensures Lookup(d, k, default) == if k == d[|d| - 1].0 then d[|d| - 1].1 else Lookup(d[..|d| - 1], k, default)
  {
    var init, last := d[..|d| - 1], d[|d| - 1];
    assert DistinctKeys(init);
    assert last.0 !in Keys(init) by {
      forall i | 0 <= i < |init| ensures init[i].0 != last.0 {
        assert d[i] == init[i];
      }
    }
    LookupMissing(init, last.0, default);
    PutOrder(init, last.0, last.1);
    assert Put(init, last.0, last.1) == d;
    PutLookup(init, last.0, last.1, k, default);
  }

  /** `s.index(x)`: the first position holding `x`. */
  function FirstIndex<T(==)>(s: seq<T>, x: T): (i: nat)
    requires x in s
    ensures i < |s| && s[i] == x && x !in s[..i]
  {
    if s[0] == x then 0 else 1 + FirstIndex(s[1..], x)
  }

  // ---------------------------------------------------------------------
  // random.shuffle
  // ---------------------------------------------------------------------

  /** `p` lists every index below `n` exactly once. */
  predicate IsPermutation(p: seq<nat>, n: nat) {
    && |p| == n
    && (forall i :: 0 <= i < n ==> p[i] < n)
    && (forall i, j :: 0 <= i < j < n ==> p[i] != p[j])
    && (forall k :: 0 <= k < n ==> k in p)
  }

  /**
   * The order `random.shuffle` leaves `s` in. The caller chooses that order:
   * `p` is applied when it is a permutation of the indices of `s`; any other
   * `p` leaves `s` as it is (also one of the orders a shuffle may produce).
   */
  function Permute<T(==,!new)>(s: seq<T>, p: seq<nat>): (r: seq<T>)
    ensures |r| == |s|
    ensures forall x :: x in r <==> x in s
    ensures Distinct(s) ==> Distinct(r)
  {
    if IsPermutation(p, |s|) then
      var r := seq(|s|, i requires 0 <= i < |s| => s[p[i]]);
      assert forall x :: x in s ==> x in r by {
        forall x | x in s ensures x in r {
          var k :| 0 <= k < |s| && s[k] == x;
          assert k in p;
          var i :| 0 <= i < |p| && p[i] == k;
          assert r[i] == x;
        }
      }
      r
    else s
  }

  /** A shuffle keeps every element as often as it was there. */
  lemma PermuteMultiset<T(!new)>(s: seq<T>, p: seq<nat>)
    ensures multiset(Permute(s, p)) == multiset(s)
  {
    if IsPermutation(p, |s|) {
      assert Permute(s, p) == Pick(s, p);
      ReorderMultiset(s, p);
    }
  }

  /** The elements of `s` at the positions `p` lists, in that order. */
  function Pick<T>(s: seq<T>, p: seq<nat>): seq<T>
    requires forall i :: 0 <= i < |p| ==> p[i] < |s|
  {
    seq(|p|, i requires 0 <= i < |p| => s[p[i]])
  }

  /** `s` read in the order of an index permutation `p` holds the same multiset. */
  lemma {:induction false} ReorderMultiset<T>(s: seq<T>, p: seq<nat>)
    requires IsPermutation(p, |s|)
    ensures multiset(Pick(s, p)) == multiset(s)
    decreases |s|
  {
    var n := |s|;
    if n > 0 {
      var k := p[n - 1];
      var s' := s[..k] + s[k + 1..];
      var p' := seq(n - 1, i requires 0 <= i < n - 1 => if p[i] < k then p[i] else p[i] - 1);
      DropPermutation(p, k, p');
      ReorderMultiset(s', p');
      DropPick(s, p, k, s', p');
      assert s == s[..k] + [s[k]] + s[k + 1..];
      calc {
        multiset(Pick(s, p));
        multiset(Pick(s', p')) + multiset{s[k]};
        multiset(s') + multiset{s[k]};
        multiset(s[..k]) + multiset(s[k + 1..]) + multiset{s[k]};
        multiset(s);
      }
    }
  }

  /** Reading `s` by `p` is reading `s` without its element `k` by the closed-up `p'`, then element `k`. */
  lemma DropPick<T>(s: seq<T>, p: seq<nat>, k: nat, s': seq<T>, p': seq<nat>)
    requires |s| >= 1 && IsPermutation(p, |s|) && k == p[|s| - 1] && s' == s[..k] + s[k + 1..]
    requires |p'| == |s| - 1 && forall i :: 0 <= i < |p'| ==> p'[i] == if p[i] < k then p[i] else p[i] - 1
    requires IsPermutation(p', |s'|)
    ensures Pick(s, p) == Pick(s', p') + [s[k]]
  {
    var n := |s|;
    forall i | 0 <= i < n - 1 ensures Pick(s', p')[i] == Pick(s, p)[i] {
      assert p[i] != p[n - 1];
    }
  }

  /** Removing value `k` from an index permutation and closing the gap leaves an index permutation. */
  lemma DropPermutation(p: seq<nat>, k: nat, p': seq<nat>)
    requires |p| >= 1 && IsPermutation(p, |p|) && k == p[|p| - 1]
    requires |p'| == |p| - 1 && forall i :: 0 <= i < |p'| ==> p'[i] == if p[i] < k then p[i] else p[i] - 1
    ensures IsPermutation(p', |p| - 1)
  {
    var n := |p|;
    forall i | 0 <= i < n - 1 ensures p[i] != k {
      assert p[i] != p[n - 1];
    }
    forall m | 0 <= m < n - 1 ensures m in p' {
      var t := if m < k then m else m + 1;
      assert t in p;
      var i :| 0 <= i < n && p[i] == t;
      assert i != n - 1;
      assert p'[i] == m;
    }
  }

  /** `range(n)` */
  function Range(n: nat): (r: seq<nat>)
    ensures |r| == n && Distinct(r)
    ensures forall i :: 0 <= i < n ==> r[i] == i
    ensures forall k: nat :: k in r <==> k < n
  {
    var r := seq(n, i requires 0 <= i < n => i);
    forall k: nat | k < n ensures k in r {
      assert r[k] == k;
    }
    forall k: nat | k in r ensures k < n {
      var i :| 0 <= i < |r| && r[i] == k;
    }
    r
  }

  /** `random.sample(range(n), k)`: `pick` when it is `k` distinct indices below `n`, else the first `k`. */
  predicate IsSample(pick: seq<nat>, n: nat, k: nat) {
    && |pick| == k
    && (forall i :: 0 <= i < k ==> pick[i] < n)
    && Distinct(pick)
  }

  function Sample(pick: seq<nat>, n: nat, k: nat): (r: seq<nat>)
    requires k <= n
    ensures IsSample(r, n, k)
  {
    if IsSample(pick, n, k) then pick else Range(k)
  }
}
