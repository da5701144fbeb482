/** The curation job: rank the store, and prune what has gone stale, at a fixed clock. */
module Jobs {
  import opened Prelude
  import opened Ordering
  import opened MemoryService
  import Curation

  type KindKey = (string, string)

  function KindKeyOf(m: MemoryItem): KindKey { (m.kind, m.key) }

  /** The clock and the reading of stored dates, as the staleness test of one run. */
  datatype Clock = Clock(now: real, parse: string -> Curation.Stamp)
  {
    predicate Stale(m: MemoryItem) { Curation.IsStale(m.kind, parse(m.createdAt), now) }
  }

  function StaleOf(clock: Clock, results: seq<MemoryItem>): seq<MemoryItem> {
    if results == [] then []
    else
      var last := |results| - 1;
      StaleOf(clock, results[..last]) + if clock.Stale(results[last]) then [results[last]] else []
  }

  /** The pairs deleted by the job. */
  function Doomed(clock: Clock, results: seq<MemoryItem>): seq<KindKey> {
    FirstKeys(StaleOf(clock, results), KindKeyOf)
  }

  /** The items whose kind and key are not doomed, in order. */
  function Spared(items: seq<MemoryItem>, doomed: seq<KindKey>): seq<MemoryItem> {
    if items == [] then [] else SparedOne(items[0], doomed) + Spared(items[1..], doomed)
  }

  function SparedOne(x: MemoryItem, doomed: seq<KindKey>): seq<MemoryItem> {
    if KindKeyOf(x) in doomed then [] else [x]
  }

  /** What `search("")` lists: one item per triple, the last stored. */
  function Listing(items: seq<MemoryItem>): seq<MemoryItem> { Collect(items, TripleOf, Always()) }

  lemma {:induction false} EmptyQueryListsAll(tools: Tools, items: seq<MemoryItem>)
    ensures Filtered(tools, items, "") == items
  {
    if items != [] {
      var last := |items| - 1;
      EmptyQueryListsAll(tools, items[..last]);
      assert items == items[..last] + [items[last]];
    }
  }

  // ---- One deletion ----

  lemma {:induction false} SparedMore(items: seq<MemoryItem>, doomed: seq<KindKey>, k: KindKey)
    ensures Spared(items, doomed + [k]) == Keeping(Spared(items, doomed), k.0, k.1)
  {
    if items != [] {
      var rest := Spared(items[1..], doomed);
      SparedMore(items[1..], doomed, k);
      if KindKeyOf(items[0]) !in doomed {
        assert Spared(items, doomed)[1..] == rest;
        assert Keeping(Spared(items, doomed), k.0, k.1)
            == (if KindKeyOf(items[0]) == k then [] else [items[0]]) + Keeping(rest, k.0, k.1);
      } else {
        assert Spared(items, doomed) == rest;
      }
    }
  }

  lemma {:induction false} SparedMember(items: seq<MemoryItem>, doomed: seq<KindKey>, x: MemoryItem)
    ensures x in Spared(items, doomed) <==> x in items && KindKeyOf(x) !in doomed
  {
    if items != [] {
      SparedMember(items[1..], doomed, x);
      assert items == [items[0]] + items[1..];
    }
  }

  lemma {:induction false} SparedAll(items: seq<MemoryItem>)
    ensures Spared(items, []) == items
  {
    if items != [] {
      SparedAll(items[1..]);
      assert items == [items[0]] + items[1..];
    }
  }

  /** Deleting a doomed pair again finds nothing; a new one finds at least the item that doomed it. */
  lemma DeletionFinds(items: seq<MemoryItem>, doomed: seq<KindKey>, m: MemoryItem)
    requires m in items
    ensures Matching(Spared(items, doomed), m.kind, m.key) != [] <==> KindKeyOf(m) !in doomed
    ensures KindKeyOf(m) in doomed ==> Keeping(Spared(items, doomed), m.kind, m.key) == Spared(items, doomed)
  {
    var spared := Spared(items, doomed);
    KeepingSpec(spared, m.kind, m.key);
    SparedMember(items, doomed, m);
    if KindKeyOf(m) in doomed {
      forall i | 0 <= i < |spared|
        ensures !(spared[i].kind == m.kind && spared[i].key == m.key)
      {
        SparedMember(items, doomed, spared[i]);
        assert KindKeyOf(spared[i]) !in doomed;
      }
      NothingMatches(spared, m.kind, m.key);
    } else {
      assert m in Matching(spared, m.kind, m.key);
    }
  }

  lemma {:induction false} NothingMatches(items: seq<MemoryItem>, kind: string, key: string)
    requires forall i | 0 <= i < |items| :: !(items[i].kind == kind && items[i].key == key)
    ensures Matching(items, kind, key) == [] && Keeping(items, kind, key) == items
  {
    if items != [] {
      NothingMatches(items[1..], kind, key);
      assert items == [items[0]] + items[1..];
    }
  }

  lemma DoomedStep(clock: Clock, results: seq<MemoryItem>, m: MemoryItem)
    ensures var before := Doomed(clock, results);
      Doomed(clock, results + [m]) ==
        if clock.Stale(m) && KindKeyOf(m) !in before then before + [KindKeyOf(m)] else before
  {
    assert (results + [m])[..|results|] == results;
    var stale := StaleOf(clock, results);
    if clock.Stale(m) {
      assert (stale + [m])[..|stale|] == stale;
    } else {
      assert stale + [] == stale;
    }
  }

  /** The listed items as the ranking sees them. */
  function ScoredOf(clock: Clock, items: seq<MemoryItem>, score: MemoryItem -> real): seq<Curation.ScoredMemory> {
    seq(|items|, i requires 0 <= i < |items| => Scored(clock, items[i], score))
  }

  function Scored(clock: Clock, m: MemoryItem, score: MemoryItem -> real): Curation.ScoredMemory {
    Curation.ScoredMemory(m.kind, m.key, m.value, clock.parse(m.createdAt), score(m), "in-memory")
  }

  lemma NoneScored(clock: Clock, score: MemoryItem -> real)
    ensures ScoredOf(clock, [], score) == []
  {}

  lemma ScoredMore(clock: Clock, items: seq<MemoryItem>, score: MemoryItem -> real, m: MemoryItem)
    ensures ScoredOf(clock, items + [m], score) == ScoredOf(clock, items, score) + [Scored(clock, m, score)]
  {}

  /** The fresh listed items are those that are not stale, each with a triple of its own. */
  lemma {:induction false} FreshListed(clock: Clock, items: seq<MemoryItem>, score: MemoryItem -> real)
    requires DistinctKeys(items, TripleOf)
    ensures var current := Curation.Fresh(ScoredOf(clock, items, score), clock.now);
      && |current| == |items| - |StaleOf(clock, items)|
      && DistinctKeys(current, Curation.TripleOf)
      && forall c | c in current :: exists m :: m in items && TripleOf(m) == Curation.TripleOf(c)
  {
    if items != [] {
      var before, late := items[..|items| - 1], items[|items| - 1];
      assert items == before + [late];
      FreshListed(clock, before, score);
      ScoredMore(clock, before, score, late);
      assert ScoredOf(clock, items, score)[..|before|] == ScoredOf(clock, before, score);
      forall m | m in before
        ensures TripleOf(m) != TripleOf(late)
      {
        var i :| 0 <= i < |before| && before[i] == m;
        assert TripleOf(items[i]) != TripleOf(items[|before|]);
      }
      assert Curation.TripleOf(Scored(clock, late, score)) == TripleOf(late);
    }
  }

  /** The number of ranked items: up to eight of the listed items that are not stale. */
  lemma RankedCount(clock: Clock, items: seq<MemoryItem>, score: MemoryItem -> real)
    ensures |Curation.Rank(ScoredOf(clock, Listing(items), score), 8, clock.now)|
         == Min(8, |Listing(items)| - |StaleOf(clock, Listing(items))|)
  {
    hide Curation.Rank, Curation.Fresh;
    var scored := ScoredOf(clock, Listing(items), score);
    var current := Curation.Fresh(scored, clock.now);
    CollectKeys(items, TripleOf, Always());
    FreshListed(clock, Listing(items), score);
    Curation.RankIsPrefix(scored, 8, 8, clock.now);
    CollectDistinct(current, Curation.TripleOf, Beats(Curation.ScoreOf));
    CollectKeys(current, Curation.TripleOf, Beats(Curation.ScoreOf));
  }

  /** How one run reports. */
  datatype Report = Report(scanned: nat, ranked: nat, pruned: nat)

  /**
   Exactly the items whose kind and key match no stale listed item survive, in order; `pruned` is the number of
   distinct kind-and-key pairs among the stale listed items.
   */
  method CurateMemories(memory: MemoryService, clock: Clock, score: MemoryItem -> real) returns (report: Report)
    requires memory.Valid()
    modifies memory, memory.index
    ensures memory.Valid()
    ensures var listing := Listing(old(memory.items));
      && memory.items == Spared(old(memory.items), Doomed(clock, listing))
      && report.scanned == |listing|
      && report.ranked == |Curation.Rank(ScoredOf(clock, listing, score), 8, clock.now)|
      && report.pruned == |Doomed(clock, listing)|
  {
    hide Listing, Doomed, Spared, ScoredOf;
    var items := ListAll(memory);
    var scored := ScoreAll(clock, items, score);
    var ranked := Curation.RankMemories(scored, 8, clock.now);
    var pruned := Prune(memory, items, clock);
    report := Report(|items|, |ranked|, pruned);
  }

  method ScoreAll(clock: Clock, items: seq<MemoryItem>, score: MemoryItem -> real)
    returns (scored: seq<Curation.ScoredMemory>)
    ensures scored == ScoredOf(clock, items, score)
  {
    hide ScoredOf;
    scored := [];
    assert ScoredOf(clock, items[..0], score) == [] by { NoneScored(clock, score); }
    for i := 0 to |items|
      invariant scored == ScoredOf(clock, items[..i], score)
    {
      var m := items[i];
      assert items[..i + 1] == items[..i] + [m];
      ScoredMore(clock, items[..i], score, m);
      scored := scored
        + [Curation.ScoredMemory(m.kind, m.key, m.value, clock.parse(m.createdAt), score(m), "in-memory")];
    }
    assert items[..|items|] == items;
  }

  /** `search("")`: the semantic layer leaves a blank query alone. */
  method ListAll(memory: MemoryService) returns (items: seq<MemoryItem>)
    requires memory.Valid()
    ensures items == Listing(memory.items) && forall m | m in items :: m in memory.items
  {
    hide Collect;
    items := memory.Search("", 5, (_: MemoryItem) => 0.0);
    EmptyQueryListsAll(memory.tools, memory.items);
    forall m | m in items
      ensures m in memory.items
    {
      CollectFrom(memory.items, TripleOf, Always(), m);
    }
  }

  method Prune(memory: MemoryService, items: seq<MemoryItem>, clock: Clock) returns (pruned: nat)
    requires memory.Valid() && forall m | m in items :: m in memory.items
    modifies memory, memory.index
    ensures memory.Valid()
    ensures memory.items == Spared(old(memory.items), Doomed(clock, items)) && pruned == |Doomed(clock, items)|
  {
    hide Doomed, Spared, Keeping, Matching, FirstKeys;
    ghost var items0 := memory.items;
    pruned := 0;
    NoneDoomed(clock);
    SparedAll(items0);
    for i := 0 to |items|
      invariant memory.Valid()
      invariant memory.items == Spared(items0, Doomed(clock, items[..i])) && pruned == |Doomed(clock, items[..i])|
    {
      var m := items[i];
      ghost var before := Doomed(clock, items[..i]);
      assert items[..i + 1] == items[..i] + [m];
      DoomedStep(clock, items[..i], m);
      if clock.Stale(m) {
        DeletionFinds(items0, before, m);
        SparedMore(items0, before, KindKeyOf(m));
        var removed := memory.Delete(m.kind, m.key);
        if removed {
          pruned := pruned + 1;
        }
      }
    }
    assert items[..|items|] == items;
  }

  lemma NoneDoomed(clock: Clock)
    ensures Doomed(clock, []) == []
  {}

  // ---- The job converges ----

  lemma {:induction false} StaleMember(clock: Clock, results: seq<MemoryItem>, m: MemoryItem)
    ensures m in StaleOf(clock, results) <==> m in results && clock.Stale(m)
  {
    if results != [] {
      var last := |results| - 1;
      StaleMember(clock, results[..last], m);
      assert results == results[..last] + [results[last]];
    }
  }

  lemma DoomedMember(clock: Clock, results: seq<MemoryItem>, k: KindKey)
    ensures k in Doomed(clock, results) <==> exists m :: m in results && clock.Stale(m) && KindKeyOf(m) == k
  {
    var stale := StaleOf(clock, results);
    if k in Doomed(clock, results) {
      var i :| 0 <= i < |stale| && KindKeyOf(stale[i]) == k;
      StaleMember(clock, results, stale[i]);
    }
    if m :| m in results && clock.Stale(m) && KindKeyOf(m) == k {
      StaleMember(clock, results, m);
      var i :| 0 <= i < |stale| && stale[i] == m;
      assert KindKeyOf(stale[i]) in Doomed(clock, results);
    }
  }

  /** An item survives exactly when no stale listed item, itself included, has its kind and key. */
  lemma SurvivesIff(clock: Clock, items: seq<MemoryItem>, x: MemoryItem)
    requires x in items
    ensures x in Spared(items, Doomed(clock, Listing(items)))
      <==> !exists m :: m in Listing(items) && clock.Stale(m) && KindKeyOf(m) == KindKeyOf(x)
  {
    SparedMember(items, Doomed(clock, Listing(items)), x);
    DoomedMember(clock, Listing(items), KindKeyOf(x));
  }

  /** Assigning a triple: its item is the new one, the others stay. */
  lemma PutMember(before: seq<MemoryItem>, late: MemoryItem, x: MemoryItem)
    requires DistinctKeys(before, TripleOf)
    ensures x in Put(before, late, TripleOf, Always()) <==> x == late || (x in before && TripleOf(x) != TripleOf(late))
  {
    var r := Put(before, late, TripleOf, Always());
    var i := Find(before, TripleOf, TripleOf(late));
    if x in before && TripleOf(x) != TripleOf(late) {
      var h :| 0 <= h < |before| && before[h] == x;
      assert r[h] == x;
    }
    assert r[if i < |before| then i else |before|] == late;
    if x in r && x != late {
      var h :| 0 <= h < |r| && r[h] == x;
      assert before[h] == x && h != i;
      DistinctFind(before, TripleOf, TripleOf(late), h);
    }
  }

  lemma ListingStep(items: seq<MemoryItem>, late: MemoryItem, x: MemoryItem)
    ensures x in Listing(items + [late]) <==> x == late || (x in Listing(items) && TripleOf(x) != TripleOf(late))
  {
    assert (items + [late])[..|items|] == items;
    CollectKeys(items, TripleOf, Always());
    PutMember(Listing(items), late, x);
  }

  lemma {:induction false} SparedSnoc(items: seq<MemoryItem>, doomed: seq<KindKey>, late: MemoryItem)
    ensures Spared(items + [late], doomed) == Spared(items, doomed) + SparedOne(late, doomed)
  {
    hide SparedOne;
    var more := items + [late];
    if items == [] {
      assert more[1..] == [] && more[0] == late;
      assert Spared(more, doomed) == SparedOne(late, doomed) + Spared([], doomed);
    } else {
      assert more[1..] == items[1..] + [late] && more[0] == items[0];
      SparedSnoc(items[1..], doomed, late);
      assert SparedOne(items[0], doomed) + (Spared(items[1..], doomed) + SparedOne(late, doomed))
          == (SparedOne(items[0], doomed) + Spared(items[1..], doomed)) + SparedOne(late, doomed);
    }
  }

  /** Items of one kind and key survive or go together, so what is listed after pruning was listed before. */
  lemma {:induction false} ListedBefore(items: seq<MemoryItem>, doomed: seq<KindKey>, x: MemoryItem)
    requires x in Listing(Spared(items, doomed))
    ensures x in Listing(items) && KindKeyOf(x) !in doomed
  {
    hide Listing, Spared;
    if items == [] {
      NothingListed(doomed);
    } else {
      var pre, late := items[..|items| - 1], items[|items| - 1];
      assert items == pre + [late];
      SparedSnoc(pre, doomed, late);
      ListingStep(pre, late, x);
      if KindKeyOf(late) in doomed {
        assert Spared(pre, doomed) + [] == Spared(pre, doomed);
        ListedBefore(pre, doomed, x);
        assert TripleOf(x) == TripleOf(late) ==> KindKeyOf(x) == KindKeyOf(late);
      } else {
        ListingStep(Spared(pre, doomed), late, x);
        if x != late {
          ListedBefore(pre, doomed, x);
        }
      }
    }
  }

  lemma NothingListed(doomed: seq<KindKey>)
    ensures Listing(Spared([], doomed)) == []
  {}

  /** After a run the listing shows nothing stale. */
  lemma ListingIsClean(clock: Clock, items: seq<MemoryItem>, x: MemoryItem)
    requires x in Listing(Spared(items, Doomed(clock, Listing(items))))
    ensures !clock.Stale(x)
  {
    hide Listing, Spared, Doomed;
    ListedBefore(items, Doomed(clock, Listing(items)), x);
    DoomedMember(clock, Listing(items), KindKeyOf(x));
  }

  lemma {:induction false} NothingStale(clock: Clock, results: seq<MemoryItem>)
    requires forall m | m in results :: !clock.Stale(m)
    ensures StaleOf(clock, results) == []
  {
    if results != [] {
      var last := |results| - 1;
      assert results[last] in results;
      NothingStale(clock, results[..last]);
    }
  }

  /** A second run at the same clock dooms nothing, so it changes nothing and prunes nothing. */
  lemma SecondRunIdle(clock: Clock, items: seq<MemoryItem>)
    ensures var after := Spared(items, Doomed(clock, Listing(items)));
      Doomed(clock, Listing(after)) == [] && Spared(after, Doomed(clock, Listing(after))) == after
  {
    hide Listing, Spared;
    var after := Spared(items, Doomed(clock, Listing(items)));
    forall m | m in Listing(after)
      ensures !clock.Stale(m)
    {
      ListingIsClean(clock, items, m);
    }
    NothingStale(clock, Listing(after));
    SparedAll(after);
  }

  /** On the same store a later run prunes at least what an earlier one would. */
  lemma LaterRunPrunesMore(clock: Clock, later: real, items: seq<MemoryItem>, x: MemoryItem)
    requires clock.now <= later
    requires x in Spared(items, Doomed(clock.(now := later), Listing(items)))
    ensures x in Spared(items, Doomed(clock, Listing(items)))
  {
    hide Listing, Spared, Doomed;
    var after := clock.(now := later);
    SparedMember(items, Doomed(after, Listing(items)), x);
    SparedMember(items, Doomed(clock, Listing(items)), x);
    DoomedMember(after, Listing(items), KindKeyOf(x));
    DoomedMember(clock, Listing(items), KindKeyOf(x));
    forall m | m in Listing(items) && clock.Stale(m)
      ensures after.Stale(m)
    {
      Curation.StalenessIsMonotone(m.kind, clock.parse(m.createdAt), clock.now, later);
    }
  }

  // ---- Two instances ----

  const NEW_YEAR := "2024-01-01T00:00:00+00:00"
  const NEW_YEARS_EVE := "2024-12-31T00:00:00+00:00"

  /** Days since the start of 2024, for the stamps used here. */
  function Days(stamp: string): Curation.Stamp {
    if stamp == NEW_YEAR then Curation.At(0.0)
    else if stamp == NEW_YEARS_EVE then Curation.At(365.0)
    else Curation.Unparseable
  }

  /** The start of 2025. */
  function NextNewYear(): Clock { Clock(366.0, Days) }

  lemma OldAndRecent(kind: string, key: string, value: string, uid: string)
    requires kind == "todo"
    ensures NextNewYear().Stale(MemoryItem(kind, key, value, NEW_YEAR, uid))
    ensures !NextNewYear().Stale(MemoryItem(kind, key, value, NEW_YEARS_EVE, uid))
  {
    assert NEW_YEAR[5] != NEW_YEARS_EVE[5];
  }

  lemma ListingOfTwo(a: MemoryItem, b: MemoryItem, x: MemoryItem)
    ensures x in Listing([a, b]) <==> x == b || (x == a && TripleOf(a) != TripleOf(b))
  {
    hide Listing;
    assert [] + [a] == [a] && [a] + [b] == [a, b];
    NoneListed();
    ListingStep([], a, x);
    ListingStep([a], b, x);
  }

  lemma NoneListed()
    ensures Listing([]) == []
  {}

  /** The job can prune a fresh item: here one that shares its kind and key with a stale listed one. */
  lemma FreshItemPruned() returns (clock: Clock, stale: MemoryItem, x: MemoryItem)
    ensures clock == NextNewYear() && stale.createdAt == NEW_YEAR && x.createdAt == NEW_YEARS_EVE
    ensures !clock.Stale(x) && x !in Spared([stale, x], Doomed(clock, Listing([stale, x])))
  {
    hide Listing, Spared, Doomed, NextNewYear;
    clock := NextNewYear();
    stale := MemoryItem("todo", "groceries", "milk", NEW_YEAR, "1");
    x := MemoryItem("todo", "groceries", "eggs", NEW_YEARS_EVE, "2");
    assert TripleOf(stale) != TripleOf(x) by {
      assert "milk"[0] != "eggs"[0];
    }
    OldAndRecent("todo", "groceries", "milk", "1");
    OldAndRecent("todo", "groceries", "eggs", "2");
    ListingOfTwo(stale, x, stale);
    SurvivesIff(clock, [stale, x], x);
    assert KindKeyOf(stale) == KindKeyOf(x);
  }

  /** The job can spare a stale item: here one that a fresh later copy of its triple hides from the listing. */
  lemma StaleItemSpared() returns (clock: Clock, stale: MemoryItem, x: MemoryItem)
    ensures clock == NextNewYear() && stale.createdAt == NEW_YEAR && x.createdAt == NEW_YEARS_EVE
    ensures clock.Stale(stale) && stale in Spared([stale, x], Doomed(clock, Listing([stale, x])))
  {
    hide Listing, Spared, Doomed, NextNewYear;
    clock := NextNewYear();
    stale := MemoryItem("todo", "groceries", "milk", NEW_YEAR, "1");
    x := MemoryItem("todo", "groceries", "milk", NEW_YEARS_EVE, "2");
    OldAndRecent("todo", "groceries", "milk", "1");
    OldAndRecent("todo", "groceries", "milk", "2");
    forall m | m in Listing([stale, x])
      ensures !clock.Stale(m)
    {
      ListingOfTwo(stale, x, m);
    }
    SurvivesIff(clock, [stale, x], stale);
  }
}
