/** Staleness, duplicate removal and ranking of memories, at a fixed clock. */
module Curation {
  import opened Prelude
  import opened Ordering

  /** When an item was created, in days on the clock's scale; some stored stamps do not parse. */
  datatype Stamp = At(day: real) | Unparseable

  datatype ScoredMemory =
    ScoredMemory(kind: string, key: string, value: string, createdAt: Stamp, score: real, source: string)

  type Triple = (string, string, string)

  function TripleOf(m: ScoredMemory): Triple { (m.kind, m.key, m.value) }

  function ScoreOf(m: ScoredMemory): real { m.score }

  /** Days an item of each kind stays fresh; other kinds never go stale. */
  function TtlDays(kind: string): Option<real> {
    if kind == "project" then Some(180.0)
    else if kind == "goal" then Some(365.0)
    else if kind == "todo" then Some(30.0)
    else if kind == "note" then Some(90.0)
    else if kind == "ephemeral" then Some(7.0)
    else None
  }

  predicate IsStale(kind: string, createdAt: Stamp, now: real) {
    TtlDays(kind).Some? && createdAt.At? && now - createdAt.day > TtlDays(kind).value
  }

  /** How long each kind stays fresh; the other kinds, and items with a stamp that does not parse, never go stale. */
  lemma StaleAfter(kind: string, created: real, now: real)
    ensures IsStale("project", At(created), now) <==> now - created > 180.0
    ensures IsStale("goal", At(created), now) <==> now - created > 365.0
    ensures IsStale("todo", At(created), now) <==> now - created > 30.0
    ensures IsStale("note", At(created), now) <==> now - created > 90.0
    ensures IsStale("ephemeral", At(created), now) <==> now - created > 7.0
    ensures kind !in {"project", "goal", "todo", "note", "ephemeral"} ==> !IsStale(kind, At(created), now)
    ensures !IsStale(kind, Unparseable, now)
  {
    assert "goal"[0] != "project"[0] && "todo"[0] != "project"[0] && "note"[0] != "project"[0];
    assert "ephemeral"[0] != "project"[0] && "todo"[0] != "goal"[0] && "note"[0] != "goal"[0];
    assert "ephemeral"[0] != "goal"[0] && "note"[0] != "todo"[0] && "ephemeral"[0] != "todo"[0];
    assert "ephemeral"[0] != "note"[0];
  }

  /** Time only makes items staler. */
  lemma StalenessIsMonotone(kind: string, createdAt: Stamp, now: real, later: real)
    requires now <= later && IsStale(kind, createdAt, now)
    ensures IsStale(kind, createdAt, later)
  {}

  function Fresh(items: seq<ScoredMemory>, now: real): (r: seq<ScoredMemory>)
    ensures forall m :: m in r <==> m in items && !IsStale(m.kind, m.createdAt, now)
  {
    if items == [] then []
    else
      var last := |items| - 1;
      assert items == items[..last] + [items[last]];
      Fresh(items[..last], now) + if IsStale(items[last].kind, items[last].createdAt, now) then [] else [items[last]]
  }

  function Dedup(items: seq<ScoredMemory>): seq<ScoredMemory> { Collect(items, TripleOf, Beats(ScoreOf)) }

  /** The whole ranking, before it is cut to the limit. */
  function Ranking(items: seq<ScoredMemory>, now: real): seq<ScoredMemory> {
    SortDesc(Dedup(Fresh(items, now)), ScoreOf)
  }

  /** Python's s[:limit]: a negative limit drops that many from the end. */
  function Slice<T>(s: seq<T>, limit: int): seq<T> {
    if limit >= 0 then s[..Min(limit, |s|)] else s[..Max(0, |s| + limit)]
  }

  function Rank(items: seq<ScoredMemory>, limit: int, now: real): seq<ScoredMemory> {
    Slice(Ranking(items, now), limit)
  }

  /** The dictionary loop: for each triple, its first best-scored item. */
  method DedupMemories(items: seq<ScoredMemory>) returns (deduped: seq<ScoredMemory>)
    ensures deduped == Dedup(items)
  {
    deduped := [];
    for n := 0 to |items|
      invariant deduped == Dedup(items[..n])
    {
      var item := items[n];
      assert items[..n + 1][..n] == items[..n];
      var i := Find(deduped, TripleOf, TripleOf(item));
      assert i < |deduped| ==> Beats(ScoreOf)(item, deduped[i]) == (ScoreOf(item) > ScoreOf(deduped[i]));
      if i == |deduped| {
        deduped := deduped + [item];
      } else if item.score > deduped[i].score {
        deduped := deduped[i := item];
      }
    }
    assert items[..|items|] == items;
  }

  method RankMemories(items: seq<ScoredMemory>, limit: int, now: real) returns (ranked: seq<ScoredMemory>)
    ensures ranked == Rank(items, limit, now)
  {
    var current: seq<ScoredMemory> := [];
    for n := 0 to |items|
      invariant current == Fresh(items[..n], now)
    {
      assert items[..n + 1][..n] == items[..n];
      if !IsStale(items[n].kind, items[n].createdAt, now) {
        current := current + [items[n]];
      }
    }
    assert items[..|items|] == items;
    var deduped := DedupMemories(current);
    deduped := SortDesc(deduped, ScoreOf);
    ranked := Slice(deduped, limit);
  }

  // ---- The ranking is optimal and canonical ----

  /**
   The ranking has one item per distinct fresh triple, in descending score, and equal scores in the order in which
   their triples first appear.
   */
  lemma RankingSpec(items: seq<ScoredMemory>, now: real)
    ensures var r := Ranking(items, now); var current := Fresh(items, now);
      && Descending(r, ScoreOf) && DistinctKeys(r, TripleOf) && |r| == |FirstKeys(current, TripleOf)|
      && SameAtEveryScore(r, Dedup(current), ScoreOf)
      && KeysOf(Dedup(current), TripleOf) == FirstKeys(current, TripleOf)
      && (forall m :: m in r <==> m in Dedup(current))
  {
    var current := Fresh(items, now);
    CollectKeys(current, TripleOf, Beats(ScoreOf));
    SortIsStable(Dedup(current), ScoreOf);
    forall m
      ensures m in Ranking(items, now) <==> m in Dedup(current)
    {
      SortMember(Dedup(current), ScoreOf, m);
    }
    SortDistinct(Dedup(current), ScoreOf, TripleOf);
    assert |KeysOf(Dedup(current), TripleOf)| == |Dedup(current)|;
  }

  /** Every ranked item is the first best-scored fresh copy of its triple, at some position `j`. */
  lemma {:induction false} RankedIsBest(items: seq<ScoredMemory>, now: real, m: ScoredMemory) returns (j: nat)
    requires m in Ranking(items, now)
    ensures var current := Fresh(items, now);
      j < |current| && FirstBest(current, TripleOf, ScoreOf, j) && current[j] == m
  {
    var current := Fresh(items, now);
    RankingSpec(items, now);
    var h :| 0 <= h < |Dedup(current)| && Dedup(current)[h] == m;
    j := CollectBest(current, TripleOf, ScoreOf, h);
  }

  /** Every fresh item is outscored or equalled by the ranked item of its triple. */
  lemma FreshIsRanked(items: seq<ScoredMemory>, now: real, m: ScoredMemory) returns (i: nat)
    requires m in Fresh(items, now)
    ensures var r := Ranking(items, now); i < |r| && TripleOf(r[i]) == TripleOf(m) && m.score <= r[i].score
  {
    hide Collect, Ranking, Fresh, FirstBest;
    var current := Fresh(items, now);
    var best := TripleIsKept(current, TripleOf(m));
    RankingSpec(items, now);
    assert best in Ranking(items, now);
    i :| 0 <= i < |Ranking(items, now)| && Ranking(items, now)[i] == best;
    var j := RankedIsBest(items, now, best);
    BestBeats(current, j, m);
  }

  lemma BestBeats(current: seq<ScoredMemory>, j: nat, m: ScoredMemory)
    requires FirstBest(current, TripleOf, ScoreOf, j) && m in current && TripleOf(m) == TripleOf(current[j])
    ensures m.score <= current[j].score
  {
    var f :| 0 <= f < |current| && current[f] == m;
    assert ScoreOf(current[f]) <= ScoreOf(current[j]);
  }

  /** Duplicate removal keeps an item of every triple. */
  lemma TripleIsKept(current: seq<ScoredMemory>, k: Triple) returns (best: ScoredMemory)
    requires exists m :: m in current && TripleOf(m) == k
    ensures best in Dedup(current) && TripleOf(best) == k
  {
    hide Collect;
    var m :| m in current && TripleOf(m) == k;
    var f :| 0 <= f < |current| && current[f] == m;
    CollectKeys(current, TripleOf, Beats(ScoreOf));
    var keys := KeysOf(Dedup(current), TripleOf);
    assert TripleOf(current[f]) in keys;
    var h :| 0 <= h < |keys| && keys[h] == k;
    best := Dedup(current)[h];
  }

  /**
   Optimality: with a limit that is not negative, the result has as many items as the limit and the distinct
   fresh triples allow, and no fresh item of an omitted triple beats a returned one.
   */
  lemma RankIsOptimal(items: seq<ScoredMemory>, limit: nat, now: real, omitted: ScoredMemory, i: nat)
    requires omitted in Fresh(items, now)
    requires var r := Rank(items, limit, now); i < |r| && forall k | 0 <= k < |r| :: TripleOf(r[k]) != TripleOf(omitted)
    ensures var r := Rank(items, limit, now);
      |r| == limit < |FirstKeys(Fresh(items, now), TripleOf)| && omitted.score <= r[i].score
  {
    var full := Ranking(items, now);
    RankingSpec(items, now);
    var k := FreshIsRanked(items, now, omitted);
    var r := Rank(items, limit, now);
    assert forall h | 0 <= h < |r| :: r[h] == full[h];
    assert k >= |r|;
    assert ScoreOf(full[i]) >= ScoreOf(full[k]);
  }

  /** The size of a ranking, and that a smaller limit gives a prefix. */
  lemma RankIsPrefix(items: seq<ScoredMemory>, small: nat, large: nat, now: real)
    requires small <= large
    ensures Rank(items, small, now) <= Rank(items, large, now)
    ensures |Rank(items, small, now)| == Min(small, |FirstKeys(Fresh(items, now), TripleOf)|)
  {
    RankingSpec(items, now);
  }

  lemma FreshSnoc(items: seq<ScoredMemory>, late: ScoredMemory, now: real)
    ensures Fresh(items + [late], now)
         == Fresh(items, now) + if IsStale(late.kind, late.createdAt, now) then [] else [late]
  {
    hide IsStale;
    assert (items + [late])[..|items|] == items;
  }

  lemma NoneFresh(now: real)
    ensures Fresh([], now) == []
  {}

  lemma {:induction false} FreshFixed(items: seq<ScoredMemory>, now: real)
    requires forall m | m in items :: !IsStale(m.kind, m.createdAt, now)
    ensures Fresh(items, now) == items
  {
    hide IsStale, Fresh;
    if items == [] {
      NoneFresh(now);
    } else {
      var last := |items| - 1;
      assert items == items[..last] + [items[last]];
      FreshFixed(items[..last], now);
      FreshSnoc(items[..last], items[last], now);
    }
  }

  /** Ranking a ranked prefix changes nothing but the cut. */
  lemma RankingFixed(items: seq<ScoredMemory>, now: real, n: nat)
    requires n <= |Ranking(items, now)|
    ensures Ranking(Ranking(items, now)[..n], now) == Ranking(items, now)[..n]
  {
    var r := Ranking(items, now)[..n];
    RankingSpec(items, now);
    forall m | m in r
      ensures !IsStale(m.kind, m.createdAt, now)
    {
      assert m in Ranking(items, now);
      var j := RankedIsBest(items, now, m);
    }
    FreshFixed(r, now);
    CollectDistinct(r, TripleOf, Beats(ScoreOf));
    SortSorted(r, ScoreOf);
  }

  /** Ranking a result again with the same limit fixes it, unless a negative limit cuts a non-empty result again. */
  lemma RankedAgain(items: seq<ScoredMemory>, limit: int, now: real)
    ensures var r := Rank(items, limit, now);
      Rank(r, limit, now) == r <==> limit >= 0 || r == []
  {
    var full := Ranking(items, now);
    var r := Rank(items, limit, now);
    RankingFixed(items, now, |r|);
    assert r == full[..|r|];
    if limit >= 0 {
      assert Slice(r, limit) == r;
    } else if r != [] {
      assert |Slice(r, limit)| < |r|;
    }
  }

  /**
   Ranking a result again with the same limit changes nothing, exactly when the limit is not negative or drops at
   least as many items as there are distinct fresh triples.
   */
  lemma {:induction false} RankIdempotent(items: seq<ScoredMemory>, limit: int, now: real)
    ensures var r := Rank(items, limit, now);
      Rank(r, limit, now) == r <==> limit >= 0 || |FirstKeys(Fresh(items, now), TripleOf)| <= -limit
  {
    hide Ranking, Fresh, FirstKeys;
    RankedAgain(items, limit, now);
    RankingSpec(items, now);
  }

  /** Two identities and a limit of -1: the first ranking keeps one of them, the second none. */
  lemma RankTwiceDiffers(now: real) returns (items: seq<ScoredMemory>, r: seq<ScoredMemory>)
    ensures |items| == 2 && r == Rank(items, -1, now) && |r| == 1 && Rank(r, -1, now) == []
  {
    hide Ranking, Fresh, FirstKeys;
    var a := ScoredMemory("identity", "name", "Ada", At(0.0), 1.0, "in-memory");
    var b := ScoredMemory("identity", "home", "London", At(0.0), 1.0, "in-memory");
    items := [a, b];
    r := Rank(items, -1, now);
    assert TripleOf(a) != TripleOf(b) by {
      assert "name"[0] != "home"[0];
    }
    FreshFixed(items, now);
    TwoKeys(a, b);
    RankingSpec(items, now);
    RankingFixed(items, now, 1);
  }

  lemma TwoKeys(a: ScoredMemory, b: ScoredMemory)
    requires TripleOf(a) != TripleOf(b)
    ensures |FirstKeys([a, b], TripleOf)| == 2
  {
    assert [a, b][..1] == [a] && [a][..0] == [];
    assert FirstKeys([a], TripleOf) == [TripleOf(a)];
  }
}
