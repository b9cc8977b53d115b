/** The listing shared by the three content stores: every stored document
    exactly once, newest first by one timestamp field (a `.find(query).sort({
    field: -1 })`), plus the stable descending sort the information page uses
    for its "Most Viewed" order. */
module Listing {

  /** The stored documents a query selects (a `.find(filter)`): exactly the
      ids whose document satisfies the filter, each with its document. */
  function Where<V>(m: map<nat, V>, keep: V -> bool): (r: map<nat, V>)
    ensures forall k :: k in r <==> k in m && keep(m[k])
    ensures forall k :: k in r ==> r[k] == m[k]
  {
    map k | k in m && keep(m[k]) :: m[k]
  }

  /** Non-increasing by `key`. */
  predicate SortedDesc<T>(s: seq<T>, key: T -> int) {
    forall i, j :: 0 <= i < j < |s| ==> key(s[i]) >= key(s[j])
  }

  /** Putting `h` in front of a sorted sequence whose head is not larger
      keeps it sorted. */
  lemma SortedCons<T>(h: T, t: seq<T>, key: T -> int)
    requires SortedDesc(t, key)
    requires t == [] || key(h) >= key(t[0])
    ensures SortedDesc([h] + t, key)
  {
  }

  /** Places `x` in front of the first element whose key is not larger, so
      that `x` stays ahead of the elements with an equal key. */
  function InsertDesc<T>(x: T, s: seq<T>, key: T -> int): (r: seq<T>)
    requires SortedDesc(s, key)
    ensures SortedDesc(r, key)
    ensures multiset(r) == multiset(s) + multiset{x}
    ensures |r| == |s| + 1
    ensures r[0] == x || (s != [] && r[0] == s[0])
  {
    if s == [] || key(s[0]) <= key(x) then
      SortedCons(x, s, key);
      [x] + s
    else
      var t := InsertDesc(x, s[1..], key);
      assert s == [s[0]] + s[1..];
      SortedCons(s[0], t, key);
      [s[0]] + t
  }

  /** A stable sort into non-increasing `key` order (insertion sort; the
      comparator `(a, b) => key(b) - key(a)` under a stable sort). */
  function SortDesc<T>(s: seq<T>, key: T -> int): (r: seq<T>)
    ensures SortedDesc(r, key)
    ensures multiset(r) == multiset(s)
    ensures |r| == |s|
  {
    if s == [] then []
    else
      assert s == [s[0]] + s[1..];
      InsertDesc(s[0], SortDesc(s[1..], key), key)
  }

  predicate NoDuplicates<T(==)>(s: seq<T>) {
    forall i, j :: 0 <= i < j < |s| ==> s[i] != s[j]
  }

  /** A sequence without duplicates holds each value at most once. */
  lemma {:induction false} NoDuplicatesCounts<T>(s: seq<T>)
    requires NoDuplicates(s)
    ensures forall x :: multiset(s)[x] <= 1
  {
    if s != [] {
      NoDuplicatesCounts(s[1..]);
      assert s == [s[0]] + s[1..];
      assert s[0] !in s[1..];
    }
  }

  /** A sequence holding each value at most once has no duplicates. */
  lemma {:induction false} CountsNoDuplicates<T>(s: seq<T>)
    requires forall x :: multiset(s)[x] <= 1
    ensures NoDuplicates(s)
  {
    if s != [] {
      var rest := s[1..];
      assert s == [s[0]] + rest;
      assert multiset(s) == multiset{s[0]} + multiset(rest);
      forall x ensures multiset(rest)[x] <= 1 {
        assert multiset(s)[x] <= 1;
      }
      CountsNoDuplicates(rest);
      assert multiset(rest)[s[0]] == 0 by {
        assert multiset(s)[s[0]] <= 1;
      }
      forall i, j | 0 <= i < j < |s| ensures s[i] != s[j] {
        if i == 0 {
          assert s[j] == rest[j - 1];
          assert s[j] in multiset(rest);
        } else {
          assert s[i] == rest[i - 1] && s[j] == rest[j - 1];
        }
      }
    }
  }

  /** Reordering keeps a sequence free of duplicates. */
  lemma PermutationNoDuplicates<T>(s: seq<T>, t: seq<T>)
    requires NoDuplicates(s) && multiset(s) == multiset(t)
    ensures NoDuplicates(t)
  {
    NoDuplicatesCounts(s);
    CountsNoDuplicates(t);
  }

  /** Appending a value the sequence lacks keeps it free of duplicates. */
  lemma AppendFresh<T>(s: seq<T>, x: T)
    requires NoDuplicates(s) && x !in s
    ensures NoDuplicates(s + [x])
  {
    forall i, j | 0 <= i < j < |s| + 1 ensures (s + [x])[i] != (s + [x])[j] {
      if j == |s| {
        assert (s + [x])[i] == s[i];
      }
    }
  }

  /** The keys of a map, in some order, each once. */
  method KeysOf<V>(m: map<nat, V>) returns (ks: seq<nat>)
    ensures NoDuplicates(ks) && |ks| == |m|
    ensures forall k :: k in ks <==> k in m
  {
    ks := [];
    var rest := m.Keys;
    while rest != {}
      invariant rest <= m.Keys
      invariant forall k :: k in ks <==> k in m.Keys - rest
      invariant NoDuplicates(ks)
      invariant |ks| + |rest| == |m.Keys|
      decreases |rest|
    {
      var k :| k in rest;
      assert k !in ks;
      AppendFresh(ks, k);
      ks := ks + [k];
      rest := rest - {k};
    }
  }

  /** `r` lists every document of the id-keyed store `m` exactly once (by
      length, membership and distinct ids), newest first by `key`. */
  ghost predicate ListsNewestFirst<V>(m: map<nat, V>, r: seq<V>, id: V -> nat, key: V -> int) {
    && |r| == |m|
    && (forall i :: 0 <= i < |r| ==> id(r[i]) in m && m[id(r[i])] == r[i])
    && (forall i, j :: 0 <= i < j < |r| ==> id(r[i]) != id(r[j]))
    && SortedDesc(r, key)
  }

  /** The store listing: collect the documents, then sort them newest first. */
  method ListNewestFirst<V>(m: map<nat, V>, id: V -> nat, key: V -> int) returns (r: seq<V>)
    requires forall k :: k in m ==> id(m[k]) == k
    ensures ListsNewestFirst(m, r, id, key)
  {
    var ks := KeysOf(m);
    var docs := seq(|ks|, i requires 0 <= i < |ks| => m[ks[i]]);
    assert NoDuplicates(docs) by {
      forall i, j | 0 <= i < j < |docs| ensures docs[i] != docs[j] {
        assert id(docs[i]) == ks[i] && id(docs[j]) == ks[j];
      }
    }
    r := SortDesc(docs, key);
    PermutationNoDuplicates(docs, r);
    forall i | 0 <= i < |r| ensures id(r[i]) in m && m[id(r[i])] == r[i] {
      assert r[i] in multiset(docs);
      var j :| 0 <= j < |docs| && docs[j] == r[i];
    }
  }

  /** A distinct list of keys as long as the key set names every key. */
  lemma {:induction false} DistinctCovers(ids: seq<nat>, keys: set<nat>)
    requires NoDuplicates(ids) && |ids| == |keys|
    requires forall x :: x in ids ==> x in keys
    ensures forall k :: k in keys ==> k in ids
  {
    if ids != [] {
      var x := ids[0];
      var rest := keys - {x};
      var tail := ids[1..];
      assert x !in tail;
      forall y | y in tail ensures y in rest {
        var j :| 0 <= j < |tail| && tail[j] == y;
        assert ids[j + 1] == y;
      }
      assert |rest| == |tail|;
      assert NoDuplicates(tail) by {
        forall i, j | 0 <= i < j < |tail| ensures tail[i] != tail[j] {
          assert tail[i] == ids[i + 1] && tail[j] == ids[j + 1];
        }
      }
      DistinctCovers(tail, rest);
      forall k | k in keys ensures k in ids {
        if k != x {
          assert k in tail;
          var j :| 0 <= j < |tail| && tail[j] == k;
          assert ids[j + 1] == k;
        }
      }
    }
  }

  /** A listing leaves out no stored document. */
  lemma ListingCoversStore<V>(m: map<nat, V>, r: seq<V>, id: V -> nat, key: V -> int)
    requires ListsNewestFirst(m, r, id, key)
    ensures forall k :: k in m ==> m[k] in r
  {
    var ids := seq(|r|, i requires 0 <= i < |r| => id(r[i]));
    forall x | x in ids ensures x in m.Keys {
      var i :| 0 <= i < |ids| && ids[i] == x;
    }
    DistinctCovers(ids, m.Keys);
    forall k | k in m ensures m[k] in r {
      var i :| 0 <= i < |ids| && ids[i] == k;
    }
  }
}
