/**
 Two library behaviours the memory code leans on: the stable descending sort, and filling an insertion-ordered
 dictionary in a loop. Each is a function here, with the facts that pin it down.
 */
module Ordering {
  import opened Prelude

  // ---- Stable descending sort ----

  function Insert<T>(x: T, sorted: seq<T>, score: T -> real): seq<T> {
    if sorted == [] || score(x) >= score(sorted[0]) then [x] + sorted
    else [sorted[0]] + Insert(x, sorted[1..], score)
  }

  function SortDesc<T>(s: seq<T>, score: T -> real): seq<T> {
    if s == [] then [] else Insert(s[0], SortDesc(s[1..], score), score)
  }

  predicate Descending<T>(s: seq<T>, score: T -> real) {
    forall i, j | 0 <= i < j < |s| :: score(s[i]) >= score(s[j])
  }

  /** The elements of a given score, in order. */
  function AtScore<T>(s: seq<T>, score: T -> real, v: real): seq<T> {
    if s == [] then [] else One(s[0], score, v) + AtScore(s[1..], score, v)
  }

  function One<T>(x: T, score: T -> real, v: real): seq<T> {
    if score(x) == v then [x] else []
  }

  /** Equal scores keep their order. */
  ghost predicate SameAtEveryScore<T>(s: seq<T>, t: seq<T>, score: T -> real) {
    forall v :: AtScore(s, score, v) == AtScore(t, score, v)
  }

  lemma {:induction false} InsertDescends<T>(x: T, sorted: seq<T>, score: T -> real)
    requires Descending(sorted, score)
    ensures var r := Insert(x, sorted, score);
      && Descending(r, score)
      && |r| == |sorted| + 1
      && (r[0] == x || (sorted != [] && r[0] == sorted[0]))
      && score(r[0]) >= score(x)
  {
    if sorted != [] && score(x) < score(sorted[0]) {
      InsertDescends(x, sorted[1..], score);
    }
  }

  lemma {:induction false} InsertAtScore<T>(x: T, sorted: seq<T>, score: T -> real, v: real)
    requires Descending(sorted, score)
    ensures AtScore(Insert(x, sorted, score), score, v) == One(x, score, v) + AtScore(sorted, score, v)
  {
    hide One;
    var r := Insert(x, sorted, score);
    if sorted == [] || score(x) >= score(sorted[0]) {
      assert r[1..] == sorted;
    } else {
      var rest := AtScore(sorted[1..], score, v);
      assert r[1..] == Insert(x, sorted[1..], score);
      InsertAtScore(x, sorted[1..], score, v);
      Commute(One(x, score, v), One(sorted[0], score, v), rest) by {
        OneOfTwo(x, sorted[0], score, v);
      }
    }
  }

  lemma OneOfTwo<T>(x: T, y: T, score: T -> real, v: real)
    requires score(x) != score(y)
    ensures One(x, score, v) == [] || One(y, score, v) == []
  {}

  lemma Commute<T>(a: seq<T>, b: seq<T>, c: seq<T>)
    requires a == [] || b == []
    ensures a + (b + c) == b + (a + c)
  {
    if a == [] {
      assert a + (b + c) == b + c && a + c == c;
    } else {
      assert b + (a + c) == a + c && b + c == c;
    }
  }

  lemma {:induction false} InsertMultiset<T>(x: T, sorted: seq<T>, score: T -> real)
    ensures multiset(Insert(x, sorted, score)) == multiset{x} + multiset(sorted)
  {
    if sorted != [] && score(x) < score(sorted[0]) {
      InsertMultiset(x, sorted[1..], score);
      assert sorted == [sorted[0]] + sorted[1..];
    }
  }

  /** The sort orders by descending score, keeps the order of equal scores, and permutes. */
  lemma {:induction false} SortIsStable<T>(s: seq<T>, score: T -> real)
    ensures Descending(SortDesc(s, score), score)
    ensures SameAtEveryScore(SortDesc(s, score), s, score)
    ensures multiset(SortDesc(s, score)) == multiset(s) && |SortDesc(s, score)| == |s|
  {
    if s != [] {
      var rest := SortDesc(s[1..], score);
      SortIsStable(s[1..], score);
      InsertDescends(s[0], rest, score);
      InsertMultiset(s[0], rest, score);
      assert s == [s[0]] + s[1..];
      forall v
        ensures AtScore(SortDesc(s, score), score, v) == AtScore(s, score, v)
      {
        InsertAtScore(s[0], rest, score, v);
        assert AtScore(rest, score, v) == AtScore(s[1..], score, v);
      }
    }
  }

  lemma HeadAtScore<T>(s: seq<T>, score: T -> real)
    ensures s != [] ==> AtScore(s, score, score(s[0])) != []
  {}

  lemma {:induction false} AtScoreMember<T>(s: seq<T>, score: T -> real, v: real)
    requires AtScore(s, score, v) != []
    ensures exists i :: 0 <= i < |s| && score(s[i]) == v
  {
    if score(s[0]) != v {
      AtScoreMember(s[1..], score, v);
      var i :| 0 <= i < |s[1..]| && score(s[1..][i]) == v;
      assert score(s[i + 1]) == v;
    }
  }

  lemma HeadIsTop<T>(s: seq<T>, score: T -> real)
    requires s != [] && Descending(s, score)
    ensures forall i | 0 <= i < |s| :: score(s[i]) <= score(s[0])
  {}

  lemma AtScoreTail<T>(s: seq<T>, t: seq<T>, score: T -> real, v: real)
    requires s != [] && t != [] && s[0] == t[0] && AtScore(s, score, v) == AtScore(t, score, v)
    ensures AtScore(s[1..], score, v) == AtScore(t[1..], score, v)
  {
    var head := One(s[0], score, v);
    assert AtScore(s, score, v) == head + AtScore(s[1..], score, v);
    assert AtScore(t, score, v) == head + AtScore(t[1..], score, v);
    assert AtScore(s[1..], score, v) == (head + AtScore(s[1..], score, v))[|head|..];
    assert AtScore(t[1..], score, v) == (head + AtScore(t[1..], score, v))[|head|..];
  }

  lemma SameHeads<T>(s: seq<T>, t: seq<T>, score: T -> real)
    requires s != [] && Descending(s, score) && Descending(t, score) && SameAtEveryScore(s, t, score)
    ensures t != [] && s[0] == t[0]
  {
    hide Descending;
    HeadAtScore(s, score);
    HeadAtScore(t, score);
    AtScoreMember(t, score, score(s[0]));
    AtScoreMember(s, score, score(t[0]));
    HeadIsTop(s, score);
    HeadIsTop(t, score);
    assert score(s[0]) == score(t[0]);
    FirstOfScore(s, score);
    FirstOfScore(t, score);
  }

  lemma FirstOfScore<T>(s: seq<T>, score: T -> real)
    requires s != []
    ensures AtScore(s, score, score(s[0])) != [] && AtScore(s, score, score(s[0]))[0] == s[0]
  {}

  lemma SameTails<T>(s: seq<T>, t: seq<T>, score: T -> real)
    requires s != [] && t != [] && s[0] == t[0] && SameAtEveryScore(s, t, score)
    ensures SameAtEveryScore(s[1..], t[1..], score)
  {
    hide AtScore;
    forall v
      ensures AtScore(s[1..], score, v) == AtScore(t[1..], score, v)
    {
      AtScoreTail(s, t, score, v);
    }
  }

  /** Two descending sequences that agree at every score are equal: those two facts determine the sort. */
  lemma {:induction false} StableSortUnique<T>(s: seq<T>, t: seq<T>, score: T -> real)
    requires Descending(s, score) && Descending(t, score) && SameAtEveryScore(s, t, score)
    ensures s == t
  {
    hide AtScore, SameAtEveryScore;
    if s == [] {
      if t != [] {
        SomeAtSomeScore(s, t, score);
      }
    } else {
      SameHeads(s, t, score);
      SameTails(s, t, score);
      StableSortUnique(s[1..], t[1..], score);
      assert s == [s[0]] + s[1..] && t == [t[0]] + t[1..];
    }
  }

  lemma SomeAtSomeScore<T>(s: seq<T>, t: seq<T>, score: T -> real)
    requires t != [] && SameAtEveryScore(s, t, score)
    ensures s != []
  {
    HeadAtScore(t, score);
    AgreeAt(s, t, score, score(t[0]));
  }

  lemma AgreeAt<T>(s: seq<T>, t: seq<T>, score: T -> real, v: real)
    requires SameAtEveryScore(s, t, score)
    ensures AtScore(s, score, v) == AtScore(t, score, v)
  {}

  /** Sorting what is sorted changes nothing. */
  lemma SortSorted<T>(s: seq<T>, score: T -> real)
    requires Descending(s, score)
    ensures SortDesc(s, score) == s
  {
    SortIsStable(s, score);
    StableSortUnique(SortDesc(s, score), s, score);
  }

  lemma {:induction false} InsertMember<T>(x: T, sorted: seq<T>, score: T -> real, y: T)
    ensures y in Insert(x, sorted, score) <==> y == x || y in sorted
  {
    if sorted != [] && score(x) < score(sorted[0]) {
      InsertMember(x, sorted[1..], score, y);
      assert sorted == [sorted[0]] + sorted[1..];
    }
  }

  lemma {:induction false} SortMember<T>(s: seq<T>, score: T -> real, y: T)
    ensures y in SortDesc(s, score) <==> y in s
  {
    if s != [] {
      SortMember(s[1..], score, y);
      InsertMember(s[0], SortDesc(s[1..], score), score, y);
      assert s == [s[0]] + s[1..];
    }
  }

  // ---- Filling an insertion-ordered dictionary ----

  /** The position of the first element with a given key, or the length. */
  function Find<T, K(==)>(s: seq<T>, key: T -> K, k: K): (i: nat)
    ensures i <= |s|
    ensures i < |s| ==> key(s[i]) == k
    ensures forall j | 0 <= j < i :: key(s[j]) != k
  {
    if s == [] then 0 else if key(s[0]) == k then 0 else 1 + Find(s[1..], key, k)
  }

  /**
   Assign one item to its key: a new key goes last; an old one keeps its place, and its item unless the new one wins.
   */
  function Put<T, K(==)>(dict: seq<T>, item: T, key: T -> K, wins: (T, T) -> bool): seq<T> {
    var i := Find(dict, key, key(item));
    if i == |dict| then dict + [item]
    else if wins(item, dict[i]) then dict[i := item]
    else dict
  }

  function Collect<T, K(==)>(items: seq<T>, key: T -> K, wins: (T, T) -> bool): seq<T> {
    if items == [] then []
    else Put(Collect(items[..|items| - 1], key, wins), items[|items| - 1], key, wins)
  }

  predicate DistinctKeys<T, K(==)>(s: seq<T>, key: T -> K) {
    forall i, j | 0 <= i < j < |s| :: key(s[i]) != key(s[j])
  }

  lemma {:induction false} InsertDistinct<T, K>(x: T, sorted: seq<T>, score: T -> real, key: T -> K)
    requires DistinctKeys([x] + sorted, key)
    ensures DistinctKeys(Insert(x, sorted, score), key)
  {
    if sorted != [] && score(x) < score(sorted[0]) {
      var rest := Insert(x, sorted[1..], score);
      assert DistinctKeys([x] + sorted[1..], key) by {
        var all, fewer := [x] + sorted, [x] + sorted[1..];
        forall i, j | 0 <= i < j < |fewer|
          ensures key(fewer[i]) != key(fewer[j])
        {
          assert fewer[j] == all[j + 1] && fewer[i] == all[if i == 0 then 0 else i + 1];
        }
      }
      InsertDistinct(x, sorted[1..], score, key);
      forall j | 0 <= j < |rest|
        ensures key(rest[j]) != key(sorted[0])
      {
        InsertMember(x, sorted[1..], score, rest[j]);
        KeyApart(x, sorted, key, rest[j]);
      }
    }
  }

  lemma KeyApart<T, K>(x: T, sorted: seq<T>, key: T -> K, y: T)
    requires sorted != [] && DistinctKeys([x] + sorted, key) && (y == x || y in sorted[1..])
    ensures key(y) != key(sorted[0])
  {
    var all := [x] + sorted;
    assert all[0] == x && all[1] == sorted[0];
    if y in sorted[1..] {
      var i :| 0 <= i < |sorted[1..]| && sorted[1..][i] == y;
      assert all[i + 2] == y;
    }
  }

  /** Sorting keeps keys distinct. */
  lemma {:induction false} SortDistinct<T, K>(s: seq<T>, score: T -> real, key: T -> K)
    requires DistinctKeys(s, key)
    ensures DistinctKeys(SortDesc(s, score), key)
  {
    if s != [] {
      var rest := SortDesc(s[1..], score);
      SortDistinct(s[1..], score, key);
      forall j | 0 <= j < |rest|
        ensures key(rest[j]) != key(s[0])
      {
        SortMember(s[1..], score, rest[j]);
        var i :| 0 <= i < |s[1..]| && s[1..][i] == rest[j];
        assert s[i + 1] == rest[j];
      }
      InsertDistinct(s[0], rest, score, key);
    }
  }

  /** The keys of a sequence, each at its first appearance. */
  function FirstKeys<T, K(==)>(items: seq<T>, key: T -> K): (ks: seq<K>)
    ensures forall i | 0 <= i < |items| :: key(items[i]) in ks
    ensures forall k | k in ks :: exists i :: 0 <= i < |items| && key(items[i]) == k
  {
    if items == [] then []
    else
      var last := |items| - 1;
      var ks := FirstKeys(items[..last], key);
      assert items == items[..last] + [items[last]];
      assert forall i | 0 <= i < last :: items[i] == items[..last][i];
      if key(items[last]) in ks then ks else ks + [key(items[last])]
  }

  function KeysOf<T, K>(s: seq<T>, key: T -> K): seq<K> {
    seq(|s|, i requires 0 <= i < |s| => key(s[i]))
  }

  lemma NoKeys<T, K>(items: seq<T>, key: T -> K)
    requires items == []
    ensures FirstKeys(items, key) == KeysOf(items, key) && DistinctKeys(items, key)
  {}

  lemma FirstKeysStep<T, K>(items: seq<T>, key: T -> K)
    requires items != []
    ensures var last := |items| - 1;
      var ks := FirstKeys(items[..last], key);
      FirstKeys(items, key) == if key(items[last]) in ks then ks else ks + [key(items[last])]
  {}

  lemma PutKeys<T, K>(dict: seq<T>, item: T, key: T -> K, wins: (T, T) -> bool)
    requires DistinctKeys(dict, key)
    ensures var r := Put(dict, item, key, wins); var ks := KeysOf(dict, key);
      && DistinctKeys(r, key)
      && KeysOf(r, key) == if key(item) in ks then ks else ks + [key(item)]
  {
    var ks := KeysOf(dict, key);
    var i := Find(dict, key, key(item));
    if i < |dict| {
      assert ks[i] == key(item);
    } else {
      assert forall j | 0 <= j < |dict| :: ks[j] != key(item);
    }
  }

  /** The result has one item per key, keys in order of first appearance. */
  lemma {:induction false} CollectKeys<T, K>(items: seq<T>, key: T -> K, wins: (T, T) -> bool)
    ensures var r := Collect(items, key, wins);
      DistinctKeys(r, key) && KeysOf(r, key) == FirstKeys(items, key)
  {
    hide FirstKeys, Put, DistinctKeys, KeysOf;
    if items == [] {
      NoKeys(items, key);
    } else {
      var last := |items| - 1;
      FirstKeysStep(items, key);
      CollectKeys(items[..last], key, wins);
      PutKeys(Collect(items[..last], key, wins), items[last], key, wins);
    }
  }

  /** Each collected item is one of the given ones. */
  lemma {:induction false} CollectFrom<T, K>(items: seq<T>, key: T -> K, wins: (T, T) -> bool, x: T)
    requires x in Collect(items, key, wins)
    ensures x in items
  {
    var last := |items| - 1;
    if x != items[last] {
      CollectFrom(items[..last], key, wins, x);
    }
  }

  /** The first item of a key that no other item of that key beats. */
  predicate FirstBest<T, K(==)>(items: seq<T>, key: T -> K, score: T -> real, j: nat) {
    && j < |items|
    && (forall i | 0 <= i < |items| && key(items[i]) == key(items[j]) :: score(items[i]) <= score(items[j]))
    && (forall i | 0 <= i < j && key(items[i]) == key(items[j]) :: score(items[i]) < score(items[j]))
  }

  function Beats<T>(score: T -> real): (T, T) -> bool { (x: T, y: T) => score(x) > score(y) }

  lemma BestExtends<T, K>(items: seq<T>, key: T -> K, score: T -> real, j: nat)
    requires items != [] && FirstBest(items[..|items| - 1], key, score, j)
    requires var late := items[|items| - 1]; key(late) == key(items[j]) ==> score(late) <= score(items[j])
    ensures FirstBest(items, key, score, j)
  {
    var before := items[..|items| - 1];
    assert items[j] == before[j];
    forall i | 0 <= i < |items| && key(items[i]) == key(items[j])
      ensures score(items[i]) <= score(items[j]) && (i < j ==> score(items[i]) < score(items[j]))
    {
      if i < |before| {
        assert items[i] == before[i];
      }
    }
  }

  lemma BestReplaced<T, K>(items: seq<T>, key: T -> K, score: T -> real, j: nat)
    requires items != [] && FirstBest(items[..|items| - 1], key, score, j)
    requires var late := items[|items| - 1]; key(late) == key(items[j]) && score(late) > score(items[j])
    ensures FirstBest(items, key, score, |items| - 1)
  {
    var before := items[..|items| - 1];
    forall i | 0 <= i < |before| && key(items[i]) == key(items[|before|])
      ensures score(items[i]) < score(items[|before|])
    {
      assert items[i] == before[i];
    }
  }

  lemma BestIsNew<T, K>(items: seq<T>, key: T -> K, score: T -> real, ks: seq<K>)
    requires items != [] && ks == FirstKeys(items[..|items| - 1], key) && key(items[|items| - 1]) !in ks
    ensures FirstBest(items, key, score, |items| - 1)
  {
    var before := items[..|items| - 1];
    forall i | 0 <= i < |before|
      ensures key(items[i]) != key(items[|before|])
    {
      assert items[i] == before[i] && key(before[i]) in ks;
    }
  }

  /** Keeping the better item leaves, for each key, the first of its best items: here, the one at position `j`. */
  lemma {:induction false} CollectBest<T, K>(items: seq<T>, key: T -> K, score: T -> real, h: nat) returns (j: nat)
    requires h < |Collect(items, key, Beats(score))|
    ensures j < |items| && FirstBest(items, key, score, j) && items[j] == Collect(items, key, Beats(score))[h]
  {
    hide FirstBest, FirstKeys;
    var last := |items| - 1;
    var before := Collect(items[..last], key, Beats(score));
    var late := items[last];
    var i := Find(before, key, key(late));
    CollectKeys(items[..last], key, Beats(score));
    if h < |before| {
      j := CollectBest(items[..last], key, score, h);
      if h == i && score(late) > score(before[h]) {
        BestReplaced(items, key, score, j);
        j := last;
      } else {
        DistinctFind(before, key, key(late), h);
        BestExtends(items, key, score, j);
      }
    } else {
      assert forall g | 0 <= g < |before| :: KeysOf(before, key)[g] != key(late);
      BestIsNew(items, key, score, KeysOf(before, key));
      j := last;
    }
  }

  lemma DistinctFind<T, K>(s: seq<T>, key: T -> K, k: K, h: nat)
    requires DistinctKeys(s, key) && h < |s|
    ensures key(s[h]) == k <==> h == Find(s, key, k)
  {}

  /** Items with distinct keys are collected as they are. */
  lemma {:induction false} CollectDistinct<T, K>(items: seq<T>, key: T -> K, wins: (T, T) -> bool)
    requires DistinctKeys(items, key)
    ensures Collect(items, key, wins) == items
  {
    if items != [] {
      var last := |items| - 1;
      CollectDistinct(items[..last], key, wins);
      assert Find(items[..last], key, key(items[last])) == last;
      assert items == items[..last] + [items[last]];
    }
  }
}
