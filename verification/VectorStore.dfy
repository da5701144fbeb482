/** The in-process cosine index: parallel lists and a position map, updated in place. */
module VectorStore {
  import opened Prelude
  import opened Ordering
  import opened Cosine

  type Metadata = map<string, string>

  datatype Entry = Entry(id: string, vector: Vector, text: string, metadata: Metadata)

  datatype Hit = Hit(id: string, similarity: real, metadata: Metadata)

  // ---- What the index is: an insertion-ordered map from ids to records ----

  function IdOf(e: Entry): string { e.id }

  function Replaces(): (Entry, Entry) -> bool { (_: Entry, _: Entry) => true }

  function Upserted(entries: seq<Entry>, e: Entry): seq<Entry> { Put(entries, e, IdOf, Replaces()) }

  function Removed(entries: seq<Entry>, id: string): seq<Entry> {
    var i := Find(entries, IdOf, id);
    if i == |entries| then entries else entries[..i] + entries[i + 1..]
  }

  predicate DistinctIds(entries: seq<Entry>) { DistinctKeys(entries, IdOf) }

  /** Upserting replaces the entry of a known id in its place, and appends that of a new one. */
  lemma UpsertedSpec(entries: seq<Entry>, e: Entry)
    requires DistinctIds(entries)
    ensures DistinctIds(Upserted(entries, e))
    ensures forall i | 0 <= i < |entries| :: entries[i].id == e.id ==> Upserted(entries, e) == entries[i := e]
    ensures (forall i | 0 <= i < |entries| :: entries[i].id != e.id) ==> Upserted(entries, e) == entries + [e]
  {
    hide Find;
    var i := Find(entries, IdOf, e.id);
    PutKeys(entries, e, IdOf, Replaces());
    forall j | 0 <= j < |entries| && entries[j].id == e.id
      ensures j == i
    {
      DistinctFind(entries, IdOf, e.id, j);
      assert IdOf(entries[j]) == e.id;
    }
    assert i < |entries| ==> IdOf(entries[i]) == e.id;
  }

  /** Removal takes out the entry of the id, wherever it is, and leaves the others in order. */
  lemma RemovedSpec(entries: seq<Entry>, id: string)
    requires DistinctIds(entries)
    ensures DistinctIds(Removed(entries, id))
    ensures forall e :: e in Removed(entries, id) <==> e in entries && e.id != id
    ensures forall i | 0 <= i < |entries| && entries[i].id == id ::
      Removed(entries, id) == entries[..i] + entries[i + 1..]
    ensures (forall i | 0 <= i < |entries| :: entries[i].id != id) ==> Removed(entries, id) == entries
  {
    var i := Find(entries, IdOf, id);
    forall j | 0 <= j < |entries| && entries[j].id == id
      ensures j == i
    {
      DistinctFind(entries, IdOf, id, j);
      assert IdOf(entries[j]) == id;
    }
    if i < |entries| {
      var r := Removed(entries, id);
      forall j | 0 <= j < |r|
        ensures r[j] == entries[if j < i then j else j + 1] && r[j].id != id
      {
        assert IdOf(entries[if j < i then j else j + 1]) != IdOf(entries[i]);
      }
      forall j | 0 <= j < |entries| && j != i
        ensures entries[j] in r
      {
        assert entries[j] == r[if j < i then j else j - 1];
      }
      assert IdOf(entries[i]) == id;
    } else {
      forall j | 0 <= j < |entries|
        ensures entries[j].id != id
      {
        assert IdOf(entries[j]) != id;
      }
    }
  }

  // ---- Queries ----

  function Sims(norm: Vector -> real, entries: seq<Entry>, query: Vector): (sims: seq<real>)
    requires forall e | e in entries :: |e.vector| == |query|
  {
    seq(|entries|, i requires 0 <= i < |entries| => Similarity(norm, entries[i].vector, query))
  }

  function SimAt(sims: seq<real>): nat -> real { (i: nat) => if i < |sims| then sims[i] else 0.0 }

  function Positions(start: nat, end: nat): seq<nat>
    requires start <= end
    decreases end - start
  {
    if start == end then [] else [start] + Positions(start + 1, end)
  }

  /** numpy's stable argsort of the negated similarities: positions, best first. */
  function Argsort(sims: seq<real>): (order: seq<nat>)
    ensures |order| == |sims|
    ensures forall i | 0 <= i < |order| :: order[i] < |sims|
  {
    var order := SortDesc(Positions(0, |sims|), SimAt(sims));
    PositionsSorted(sims, order);
    order
  }

  lemma {:induction false} PositionsSorted(sims: seq<real>, order: seq<nat>)
    requires order == SortDesc(Positions(0, |sims|), SimAt(sims))
    ensures |order| == |sims|
    ensures forall i | 0 <= i < |order| :: order[i] < |sims|
    ensures forall p: nat :: p in order <==> p < |sims|
  {
    SortIsStable(Positions(0, |sims|), SimAt(sims));
    PositionsMember(0, |sims|, 0);
    forall p: nat
      ensures p in order <==> p < |sims|
    {
      SortMember(Positions(0, |sims|), SimAt(sims), p);
      PositionsMember(0, |sims|, p);
    }
    forall i | 0 <= i < |order|
      ensures order[i] < |sims|
    {
      assert order[i] in order;
    }
  }

  function HitAt(entries: seq<Entry>, sims: seq<real>, p: nat): Hit
    requires p < |entries| == |sims|
  {
    Hit(entries[p].id, sims[p], entries[p].metadata)
  }

  function HitsAt(entries: seq<Entry>, sims: seq<real>, order: seq<nat>): seq<Hit>
    requires |entries| == |sims| && forall i | 0 <= i < |order| :: order[i] < |entries|
  {
    if order == [] then []
    else
      var last := |order| - 1;
      HitsAt(entries, sims, order[..last]) + [HitAt(entries, sims, order[last])]
  }

  /** The query result; None stands for the error raised on a query of the wrong dimension. */
  function TopK(norm: Vector -> real, entries: seq<Entry>, dim: nat, query: Vector, topK: int): Option<seq<Hit>>
    requires forall e | e in entries :: |e.vector| == dim
  {
    if entries == [] || topK <= 0 then Some([])
    else if |query| != dim then None
    else
      var sims := Sims(norm, entries, query);
      Some(HitsAt(entries, sims, Argsort(sims)[..Min(topK, |entries|)]))
  }

  /** `p` comes before `q`: better similarity, or equal and earlier. */
  predicate Before(sims: seq<real>, p: nat, q: nat) {
    SimAt(sims)(p) > SimAt(sims)(q) || (SimAt(sims)(p) == SimAt(sims)(q) && p < q)
  }

  predicate InOrder(sims: seq<real>, order: seq<nat>) {
    forall i, j | 0 <= i < j < |order| :: Before(sims, order[i], order[j])
  }

  lemma {:induction false} InsertInOrder(sims: seq<real>, p: nat, sorted: seq<nat>)
    requires InOrder(sims, sorted) && forall j | 0 <= j < |sorted| :: p < sorted[j]
    ensures InOrder(sims, Insert(p, sorted, SimAt(sims)))
  {
    if sorted != [] && SimAt(sims)(p) < SimAt(sims)(sorted[0]) {
      InsertInOrder(sims, p, sorted[1..]);
      var rest := Insert(p, sorted[1..], SimAt(sims));
      forall j | 0 <= j < |rest|
        ensures Before(sims, sorted[0], rest[j])
      {
        InsertMember(p, sorted[1..], SimAt(sims), rest[j]);
        if rest[j] != p {
          var h :| 0 <= h < |sorted[1..]| && sorted[1..][h] == rest[j];
          assert rest[j] == sorted[h + 1];
        }
      }
    } else {
      var r := [p] + sorted;
      forall j | 0 < j < |r|
        ensures Before(sims, p, r[j])
      {
        assert r[j] == sorted[j - 1];
        if j > 1 {
          assert Before(sims, sorted[0], sorted[j - 1]);
        }
      }
    }
  }

  lemma {:induction false} PositionsMember(start: nat, end: nat, p: nat)
    requires start <= end
    ensures |Positions(start, end)| == end - start
    ensures p in Positions(start, end) <==> start <= p < end
    decreases end - start
  {
    if start < end {
      PositionsMember(start + 1, end, p);
    }
  }

  lemma {:induction false} ArgsortFrom(sims: seq<real>, start: nat, end: nat)
    requires start <= end
    ensures InOrder(sims, SortDesc(Positions(start, end), SimAt(sims)))
    decreases end - start
  {
    if start < end {
      var rest := SortDesc(Positions(start + 1, end), SimAt(sims));
      ArgsortFrom(sims, start + 1, end);
      assert Positions(start, end)[1..] == Positions(start + 1, end);
      forall j | 0 <= j < |rest|
        ensures start < rest[j]
      {
        SortMember(Positions(start + 1, end), SimAt(sims), rest[j]);
        PositionsMember(start + 1, end, rest[j]);
      }
      InsertInOrder(sims, start, rest);
    }
  }

  /** The order is a permutation of the positions, best first, ties by insertion. */
  lemma ArgsortSpec(sims: seq<real>)
    ensures InOrder(sims, Argsort(sims))
    ensures forall p: nat :: p in Argsort(sims) <==> p < |sims|
  {
    ArgsortFrom(sims, 0, |sims|);
    PositionsSorted(sims, Argsort(sims));
  }

  lemma {:induction false} HitsAtIndex(entries: seq<Entry>, sims: seq<real>, order: seq<nat>, i: nat)
    requires |entries| == |sims| && (forall j | 0 <= j < |order| :: order[j] < |entries|) && i < |order|
    ensures |HitsAt(entries, sims, order)| == |order|
    ensures HitsAt(entries, sims, order)[i] == HitAt(entries, sims, order[i])
  {
    var last := |order| - 1;
    if last > 0 {
      HitsAtIndex(entries, sims, order[..last], if i < last then i else 0);
    }
  }

  /**
   A query of the right dimension returns the first min(k, n) entries of the order; each hit carries its entry's
   similarity, which lies in [-1, 1]; and every entry left out comes after every entry returned.
   */
  lemma QueryIsTopK(norm: Vector -> real, entries: seq<Entry>, dim: nat, query: Vector, topK: int, i: nat, q: nat)
    requires IsNorm(norm) && (forall e | e in entries :: |e.vector| == dim) && |query| == dim
    requires topK > 0 && i < |entries| && i < topK && q < |entries|
    ensures var sims := Sims(norm, entries, query); var order := Argsort(sims);
      var hits := TopK(norm, entries, dim, query, topK);
      && hits.Some? && |hits.value| == Min(topK, |entries|)
      && hits.value[i]
         == Hit(entries[order[i]].id, Similarity(norm, entries[order[i]].vector, query), entries[order[i]].metadata)
      && -1.0 <= hits.value[i].similarity <= 1.0
      && (q !in order[..Min(topK, |entries|)] ==> Before(sims, order[i], q))
  {
    hide Similarity, Argsort, HitsAt;
    var sims := Sims(norm, entries, query);
    var order := Argsort(sims);
    var n := Min(topK, |entries|);
    ArgsortSpec(sims);
    HitsAtIndex(entries, sims, order[..n], i);
    SimilarityInRange(norm, entries[order[i]].vector, query);
    assert q in order;
    var j :| 0 <= j < |order| && order[j] == q;
    if j < n {
      assert order[..n][j] == q;
    }
  }

  // ---- The parallel lists ----

  function Zip(ids: seq<string>, vectors: seq<Vector>, texts: seq<string>, metadata: seq<Metadata>)
    : (entries: seq<Entry>)
    requires |ids| == |vectors| == |texts| == |metadata|
    ensures |entries| == |ids|
    ensures forall i | 0 <= i < |ids| :: entries[i] == Entry(ids[i], vectors[i], texts[i], metadata[i])
  {
    seq(|ids|, i requires 0 <= i < |ids| => Entry(ids[i], vectors[i], texts[i], metadata[i]))
  }

  predicate Inverse(pos: map<string, nat>, ids: seq<string>) {
    && (forall i | 0 <= i < |ids| :: ids[i] in pos && pos[ids[i]] == i)
    && (forall id | id in pos :: pos[id] < |ids| && ids[pos[id]] == id)
  }

  /** The position map finds what a search through the entries would. */
  lemma FindIsPos(pos: map<string, nat>, entries: seq<Entry>, ids: seq<string>, id: string)
    requires Inverse(pos, ids) && |entries| == |ids| && forall i | 0 <= i < |ids| :: entries[i].id == ids[i]
    ensures Find(entries, IdOf, id) == if id in pos then pos[id] else |ids|
    ensures DistinctIds(entries)
  {
    forall i, j | 0 <= i < j < |entries|
      ensures IdOf(entries[i]) != IdOf(entries[j])
    {
      assert pos[ids[i]] == i && pos[ids[j]] == j;
    }
    var f := Find(entries, IdOf, id);
    if f < |entries| {
      assert IdOf(entries[f]) == ids[f];
    }
    if id in pos {
      assert IdOf(entries[pos[id]]) == id;
    }
  }

  function Without<T>(s: seq<T>, i: nat): (r: seq<T>)
    requires i < |s|
    ensures |r| == |s| - 1
    ensures forall j | 0 <= j < |r| :: r[j] == s[if j < i then j else j + 1]
  {
    s[..i] + s[i + 1..]
  }

  // ---- The class ----

  class NumpyVectorIndex {
    const dim: nat
    var pos: map<string, nat>
    var ids: seq<string>
    var vectors: seq<Vector>
    var texts: seq<string>
    var metadata: seq<Metadata>

    /** The parallel lists are parallel, and the position map is their inverse. */
    ghost predicate Valid()
      reads this
    {
      && |vectors| == |ids| && |texts| == |ids| && |metadata| == |ids|
      && Inverse(pos, ids)
      && (forall i | 0 <= i < |vectors| :: |vectors[i]| == dim)
    }

    ghost function Entries(): (entries: seq<Entry>)
      requires Valid()
      reads this
      ensures forall e | e in entries :: |e.vector| == dim
    {
      Zip(ids, vectors, texts, metadata)
    }

    /** The entries' ids are distinct. */
    lemma Distinct()
      requires Valid()
      ensures DistinctIds(Entries())
    {
      FindIsPos(pos, Entries(), ids, "");
    }

    constructor (dim: nat)
      requires dim > 0
      ensures Valid() && Entries() == [] && this.dim == dim
    {
      this.dim := dim;
      pos, ids, vectors, texts, metadata := map[], [], [], [], [];
    }

    /** Insert or replace; the wrong dimension is refused and changes nothing. */
    method Upsert(id: string, text: string, vector: Vector, meta: Metadata) returns (ok: bool)
      requires Valid()
      modifies this
      ensures Valid() && ok == (|vector| == dim)
      ensures Entries() == if ok then Upserted(old(Entries()), Entry(id, vector, text, meta)) else old(Entries())
    {
      if |vector| != dim {
        return false;
      }
      FindIsPos(pos, Entries(), ids, id);
      if id in pos {
        Overwrite(pos[id], text, vector, meta);
      } else {
        Append(id, text, vector, meta);
      }
      return true;
    }

    method Overwrite(i: nat, text: string, vector: Vector, meta: Metadata)
      requires Valid() && i < |ids| && |vector| == dim
      modifies this
      ensures Valid() && Entries() == old(Entries())[i := Entry(old(ids)[i], vector, text, meta)]
    {
      hide Inverse;
      vectors := vectors[i := vector];
      texts := texts[i := text];
      metadata := metadata[i := meta];
      assert Entries() == old(Entries())[i := Entry(ids[i], vector, text, meta)];
    }

    method Append(id: string, text: string, vector: Vector, meta: Metadata)
      requires Valid() && id !in pos && |vector| == dim
      modifies this
      ensures Valid() && Entries() == old(Entries()) + [Entry(id, vector, text, meta)]
    {
      pos := pos[id := |ids|];
      ids := ids + [id];
      vectors := vectors + [vector];
      texts := texts + [text];
      metadata := metadata + [meta];
      assert Entries() == old(Entries()) + [Entry(id, vector, text, meta)];
    }

    /** Give each id its position in the list. */
    method Renumber()
      requires forall i, j | 0 <= i < j < |ids| :: ids[i] != ids[j]
      requires forall id :: id in pos <==> id in ids
      modifies this`pos
      ensures Inverse(pos, ids)
    {
      for p := 0 to |ids|
        invariant forall id :: id in pos <==> id in ids
        invariant forall j | 0 <= j < p :: pos[ids[j]] == j
      {
        pos := pos[ids[p] := p];
      }
      forall id | id in pos
        ensures pos[id] < |ids| && ids[pos[id]] == id
      {
        var j :| 0 <= j < |ids| && ids[j] == id;
      }
    }

    /** Remove an id if present, and renumber the positions behind it. */
    method Delete(id: string)
      requires Valid()
      modifies this
      ensures Valid() && Entries() == Removed(old(Entries()), id)
    {
      FindIsPos(pos, Entries(), ids, id);
      if id in pos {
        Drop(pos[id], id);
      }
    }

    method Drop(i: nat, id: string)
      requires Valid() && id in pos && pos[id] == i
      modifies this
      ensures Valid() && i < |old(Entries())| && Entries() == Without(old(Entries()), i)
    {
      hide Inverse;
      WithoutKeys(pos, ids, id);
      InRange(pos, ids, id);
      pos := pos - {id};
      ids := Without(ids, i);
      vectors := Without(vectors, i);
      texts := Without(texts, i);
      metadata := Without(metadata, i);
      Renumber();
      assert Entries() == Without(old(Entries()), i);
    }

    method DeleteAll()
      modifies this
      ensures Valid() && Entries() == []
    {
      pos, ids, vectors, texts, metadata := map[], [], [], [], [];
    }

    /** The most similar entries; None for a query of the wrong dimension on a non-empty index. */
    method Query(norm: Vector -> real, query: Vector, topK: int) returns (hits: Option<seq<Hit>>)
      requires Valid()
      ensures hits == TopK(norm, Entries(), dim, query, topK)
      ensures Entries() == [] || topK <= 0 ==> hits == Some([])
      ensures Entries() != [] && topK > 0 ==> (hits.None? <==> |query| != dim)
    {
      if ids == [] || topK <= 0 {
        return Some([]);
      }
      if |query| != dim {
        return None;
      }
      var sims := Similarities(norm, query);
      var order := Argsort(sims)[..Min(topK, |ids|)];
      var result := Take(sims, order);
      hits := Some(result);
    }

    /** The similarity of each row. */
    method Similarities(norm: Vector -> real, query: Vector) returns (sims: seq<real>)
      requires Valid() && |query| == dim
      ensures sims == Sims(norm, Entries(), query)
    {
      hide Similarity;
      ghost var entries := Entries();
      sims := [];
      for i := 0 to |vectors|
        invariant |sims| == i && forall j | 0 <= j < i :: sims[j] == Similarity(norm, entries[j].vector, query)
      {
        sims := sims + [Similarity(norm, vectors[i], query)];
      }
    }

    /** The hits at some positions. */
    method Take(sims: seq<real>, order: seq<nat>) returns (result: seq<Hit>)
      requires Valid() && |sims| == |ids| && forall i | 0 <= i < |order| :: order[i] < |ids|
      ensures result == HitsAt(Entries(), sims, order)
    {
      result := [];
      for i := 0 to |order|
        invariant result == HitsAt(Entries(), sims, order[..i])
      {
        assert order[..i + 1][..i] == order[..i];
        result := result + [Hit(ids[order[i]], sims[order[i]], metadata[order[i]])];
      }
      assert order[..|order|] == order;
    }
  }

  lemma InRange(pos: map<string, nat>, ids: seq<string>, id: string)
    requires Inverse(pos, ids) && id in pos
    ensures pos[id] < |ids|
  {}

  /** Taking an id out of the map and out of the list leaves the same ids in both. */
  lemma WithoutKeys(pos: map<string, nat>, ids: seq<string>, id: string)
    requires Inverse(pos, ids) && id in pos
    ensures var rest := Without(ids, pos[id]);
      && (forall k :: k in pos - {id} <==> k in rest)
      && (forall i, j | 0 <= i < j < |rest| :: rest[i] != rest[j])
  {
    var i := pos[id];
    var rest := Without(ids, i);
    forall k
      ensures k in pos - {id} <==> k in rest
    {
      if k in pos && k != id {
        var was := pos[k];
        assert rest[if was < i then was else was - 1] == k;
      }
      if k in rest {
        var j :| 0 <= j < |rest| && rest[j] == k;
        assert ids[if j < i then j else j + 1] == k;
      }
    }
    forall a, b | 0 <= a < b < |rest|
      ensures rest[a] != rest[b]
    {
      assert pos[rest[a]] != pos[rest[b]];
    }
  }
}
