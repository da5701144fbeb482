/**
 The memory store: an item list kept in step with its file and, when the semantic layer is on, with the vector
 index; and its two searches. External databases are absent (the service's default).
 */
module MemoryService {
  import opened Prelude
  import opened Text
  import opened Ordering
  import opened Cosine
  import opened VectorStore

  datatype MemoryItem = MemoryItem(kind: string, key: string, value: string, createdAt: string, uid: string)

  type Triple = (string, string, string)

  function TripleOf(item: MemoryItem): Triple { (item.kind, item.key, item.value) }

  function UidOf(item: MemoryItem): string { item.uid }

  predicate DistinctUids(items: seq<MemoryItem>) { DistinctKeys(items, UidOf) }

  const DUPLICATE_WINDOW := 200

  /** Case folding and the embedding model, known only as functions. */
  datatype Tools = Tools(lower: string -> string, embed: string -> Vector, dim: nat, norm: Vector -> real)
  {
    /** The embedder always returns vectors of the index's dimension; folding invents no text. */
    ghost predicate Valid() {
      dim > 0 && IsNorm(norm) && lower("") == "" && forall text: string :: |embed(text)| == dim
    }
  }

  // ---- Writing ----

  /** Runs of whitespace become single spaces. */
  function Collapse(s: string): string {
    if s == "" then ""
    else if !IsSpace(s[0]) then [s[0]] + Collapse(s[1..])
    else if |s| > 1 && IsSpace(s[1]) then Collapse(s[1..])
    else " " + Collapse(s[1..])
  }

  /** Whatever whitespace stands between two texts, and however much, counts as one space. */
  lemma {:induction false} CollapseRuns(pre: string, w: string, post: string)
    requires w != "" && Blanks(w)
    ensures Collapse(pre + w + post) == Collapse(pre + " " + post)
    decreases |pre|, |w|
  {
    hide IsSpace;
    var a, b := pre + w + post, pre + " " + post;
    SpaceIsSpace();
    assert w[0] in w;
    if pre != "" {
      var p := pre[1..];
      assert a[1..] == p + w + post && b[1..] == p + " " + post;
      CollapseRuns(p, w, post);
      assert a[0] == b[0] == pre[0] && |a| > 1 && |b| > 1;
      assert IsSpace(a[1]) == IsSpace(b[1]);
    } else {
      assert a == w + post && b == " " + post && b[1..] == post;
      if |w| > 1 {
        assert a[1..] == pre + w[1..] + post && a[1] == w[1] && w[1] in w;
        CollapseRuns(pre, w[1..], post);
      } else {
        assert a[1..] == post;
      }
    }
  }

  lemma SpaceIsSpace()
    ensures IsSpace(' ')
  {}

  /** Single spaces, and everything else, are left as they are. */
  lemma {:induction false} CollapseKeeps(s: string)
    requires forall i | 0 <= i < |s| && IsSpace(s[i]) :: s[i] == ' ' && (i + 1 < |s| ==> !IsSpace(s[i + 1]))
    ensures Collapse(s) == s
  {
    if s != "" {
      var t := s[1..];
      forall i | 0 <= i < |t| && IsSpace(t[i])
        ensures t[i] == ' ' && (i + 1 < |t| ==> !IsSpace(t[i + 1]))
      {
        assert s[i + 1] == t[i];
        assert i + 1 < |t| ==> s[i + 2] == t[i + 1];
      }
      CollapseKeeps(t);
      assert s == [s[0]] + t;
    }
  }

  function Normalized(tools: Tools, s: string): string { Collapse(tools.lower(Strip(s))) }

  predicate IsNoise(kind: string, key: string, value: string) {
    Strip(key) == "" || Strip(value) == "" || |Strip(value)| < 2 || (kind == "ephemeral" && |Strip(value)| < 8)
  }

  predicate Same(tools: Tools, a: MemoryItem, kind: string, key: string, value: string) {
    && a.kind == kind
    && Normalized(tools, a.key) == Normalized(tools, key)
    && Normalized(tools, a.value) == Normalized(tools, value)
  }

  /** The most recent items, which a new item is compared with. */
  function Recent(items: seq<MemoryItem>): seq<MemoryItem> {
    if |items| <= DUPLICATE_WINDOW then items else items[|items| - DUPLICATE_WINDOW..]
  }

  predicate IsDuplicate(tools: Tools, items: seq<MemoryItem>, kind: string, key: string, value: string) {
    exists i | 0 <= i < |Recent(items)| :: Same(tools, Recent(items)[i], kind, key, value)
  }

  /** The window of the duplicate test, in positions of the whole list. */
  lemma DuplicateIff(tools: Tools, items: seq<MemoryItem>, kind: string, key: string, value: string)
    ensures IsDuplicate(tools, items, kind, key, value) <==>
      exists i | 0 <= i < |items| && |items| - 200 <= i ::
        && items[i].kind == kind && Normalized(tools, items[i].key) == Normalized(tools, key)
        && Normalized(tools, items[i].value) == Normalized(tools, value)
  {
    hide Normalized;
    var recent := Recent(items);
    var skipped := |items| - |recent|;
    if i :| 0 <= i < |items| && |items| - 200 <= i && Same(tools, items[i], kind, key, value) {
      assert recent[i - skipped] == items[i];
    }
    if i :| 0 <= i < |recent| && Same(tools, recent[i], kind, key, value) {
      assert items[i + skipped] == recent[i];
    }
  }

  lemma StripTwice(s: string)
    ensures Strip(Strip(s)) == Strip(s) && Trimmed(Strip(s))
  {
    StripTrims(s);
    StripTrimmed(Strip(s));
  }

  function NormalKind(tools: Tools, kind: string): string {
    tools.lower(Strip(if kind == "" then "note" else kind))
  }

  // ---- The index's view of an item ----

  function TextOf(item: MemoryItem): string { Strip(item.key + " " + item.value) }

  function EntryOf(tools: Tools, item: MemoryItem): Entry {
    Entry(item.uid, tools.embed(TextOf(item)), TextOf(item),
          map["kind" := item.kind, "key" := item.key, "value" := item.value, "created_at" := item.createdAt,
              "uid" := item.uid])
  }

  function EntriesOf(tools: Tools, items: seq<MemoryItem>): (entries: seq<Entry>)
    ensures |entries| == |items|
    ensures forall i | 0 <= i < |items| :: entries[i] == EntryOf(tools, items[i])
  {
    seq(|items|, i requires 0 <= i < |items| => EntryOf(tools, items[i]))
  }

  /** The entry of an item whose key and value are stripped and not blank, as those of stored items are. */
  lemma EntryIs(tools: Tools, item: MemoryItem)
    requires Trimmed(item.key) && Trimmed(item.value) && item.key != "" && item.value != ""
    ensures var e, text := EntryOf(tools, item), item.key + " " + item.value;
      && e.id == item.uid && e.text == text && e.vector == tools.embed(text)
      && e.metadata.Keys == {"kind", "key", "value", "created_at", "uid"}
      && e.metadata["kind"] == item.kind && e.metadata["key"] == item.key && e.metadata["value"] == item.value
      && e.metadata["created_at"] == item.createdAt && e.metadata["uid"] == item.uid
  {
    hide IsSpace, Strip;
    var text := item.key + " " + item.value;
    assert text[0] == item.key[0] && text[|text| - 1] == item.value[|item.value| - 1];
    StripTrimmed(text);
    FiveKeys();
  }

  lemma FiveKeys()
    ensures "kind"[0] != "key"[1] && "kind" != "key" && "kind" != "value" && "kind" != "created_at" && "kind" != "uid"
    ensures "key" != "value" && "key" != "created_at" && "key" != "uid"
    ensures "value" != "created_at" && "value" != "uid" && "created_at" != "uid"
  {
    assert "kind"[0] == "key"[0] && "kind"[1] != "key"[1];
    assert "kind"[0] != "value"[0] && "kind"[0] != "created_at"[0] && "kind"[0] != "uid"[0];
    assert "key"[0] != "value"[0] && "key"[0] != "created_at"[0] && "key"[0] != "uid"[0];
    assert "value"[0] != "created_at"[0] && "value"[0] != "uid"[0] && "created_at"[0] != "uid"[0];
  }

  /** The items deleted, and those kept, by a kind and key. */
  function Matching(items: seq<MemoryItem>, kind: string, key: string): seq<MemoryItem> {
    if items == [] then []
    else
      (if items[0].kind == kind && items[0].key == key then [items[0]] else []) + Matching(items[1..], kind, key)
  }

  function Keeping(items: seq<MemoryItem>, kind: string, key: string): seq<MemoryItem> {
    if items == [] then []
    else
      (if items[0].kind == kind && items[0].key == key then [] else [items[0]]) + Keeping(items[1..], kind, key)
  }

  lemma {:induction false} KeepingSpec(items: seq<MemoryItem>, kind: string, key: string)
    ensures |Keeping(items, kind, key)| + |Matching(items, kind, key)| == |items|
    ensures forall x :: x in Keeping(items, kind, key) <==> x in items && !(x.kind == kind && x.key == key)
    ensures forall x :: x in Matching(items, kind, key) <==> x in items && x.kind == kind && x.key == key
  {
    if items != [] {
      KeepingSpec(items[1..], kind, key);
      assert items == [items[0]] + items[1..];
    }
  }

  lemma {:induction false} KeepingDistinct(items: seq<MemoryItem>, kind: string, key: string)
    requires DistinctUids(items)
    ensures DistinctUids(Keeping(items, kind, key))
  {
    if items != [] {
      var rest := Keeping(items[1..], kind, key);
      KeepingDistinct(items[1..], kind, key);
      KeepingSpec(items[1..], kind, key);
      forall j | 0 <= j < |rest|
        ensures UidOf(rest[j]) != UidOf(items[0])
      {
        assert rest[j] in items[1..];
        var h :| 0 <= h < |items[1..]| && items[1..][h] == rest[j];
        assert items[h + 1] == rest[j];
      }
    }
  }

  /** Remove the entries of some items, one by one. */
  function RemovedAll(entries: seq<Entry>, gone: seq<MemoryItem>): seq<Entry> {
    if gone == [] then entries else RemovedAll(Removed(entries, gone[0].uid), gone[1..])
  }

  lemma {:induction false} RemovedAllSkips(e: Entry, entries: seq<Entry>, gone: seq<MemoryItem>)
    requires forall g | g in gone :: g.uid != e.id
    ensures RemovedAll([e] + entries, gone) == [e] + RemovedAll(entries, gone)
  {
    if gone != [] {
      RemovedCons(e, entries, gone[0].uid);
      RemovedAllSkips(e, Removed(entries, gone[0].uid), gone[1..]);
    }
  }

  lemma {:induction false} RemovedCons(e: Entry, entries: seq<Entry>, id: string)
    ensures Removed([e] + entries, id) == if e.id == id then entries else [e] + Removed(entries, id)
  {
    hide Find;
    var all := [e] + entries;
    FindCons(e, entries, id);
    if e.id == id {
      assert Removed(all, id) == all[..0] + all[1..] == entries;
    } else {
      var i := Find(entries, IdOf, id);
      if i < |entries| {
        assert all[..i + 1] == [e] + entries[..i] && all[i + 2..] == entries[i + 1..];
      }
    }
  }

  lemma FindCons(e: Entry, entries: seq<Entry>, id: string)
    ensures Find([e] + entries, IdOf, id) == if e.id == id then 0 else 1 + Find(entries, IdOf, id)
  {
    assert ([e] + entries)[1..] == entries;
  }

  lemma RemovedAllCons(entries: seq<Entry>, g: MemoryItem, gone: seq<MemoryItem>)
    ensures RemovedAll(entries, [g] + gone) == RemovedAll(Removed(entries, g.uid), gone)
  {
    assert ([g] + gone)[1..] == gone;
  }

  lemma HeadOf(items: seq<MemoryItem>, kind: string, key: string)
    requires items != []
    ensures var first, rest := items[0], items[1..];
      if first.kind == kind && first.key == key
      then
        && Matching(items, kind, key) == [first] + Matching(rest, kind, key)
        && Keeping(items, kind, key) == Keeping(rest, kind, key)
      else
        && Matching(items, kind, key) == Matching(rest, kind, key)
        && Keeping(items, kind, key) == [first] + Keeping(rest, kind, key)
  {}

  lemma HeadApart(items: seq<MemoryItem>, kind: string, key: string)
    requires items != [] && DistinctUids(items)
    ensures DistinctUids(items[1..])
    ensures forall g | g in Matching(items[1..], kind, key) :: g.uid != items[0].uid
  {
    var rest := items[1..];
    KeepingSpec(rest, kind, key);
    forall g | g in Matching(rest, kind, key)
      ensures g.uid != items[0].uid
    {
      var h :| 0 <= h < |rest| && rest[h] == g;
      assert UidOf(items[0]) != UidOf(items[h + 1]);
    }
  }

  lemma EntriesCons(tools: Tools, item: MemoryItem, items: seq<MemoryItem>)
    ensures EntriesOf(tools, [item] + items) == [EntryOf(tools, item)] + EntriesOf(tools, items)
  {}

  /** Deleting items and deleting their entries keep the list and the index in step. */
  lemma {:induction false} DeleteInStep(tools: Tools, items: seq<MemoryItem>, kind: string, key: string)
    requires DistinctUids(items)
    ensures RemovedAll(EntriesOf(tools, items), Matching(items, kind, key))
         == EntriesOf(tools, Keeping(items, kind, key))
  {
    if items == [] {
    } else {
      hide EntryOf, EntriesOf, Removed, RemovedAll, Matching, Keeping, DistinctUids;
      var first, rest := items[0], items[1..];
      var e, es := EntryOf(tools, first), EntriesOf(tools, rest);
      HeadApart(items, kind, key);
      HeadOf(items, kind, key);
      EntryId(tools, first);
      EntriesCons(tools, first, rest);
      assert items == [first] + rest;
      DeleteInStep(tools, rest, kind, key);
      if first.kind == kind && first.key == key {
        RemovedAllCons([e] + es, first, Matching(rest, kind, key));
        RemovedCons(e, es, first.uid);
      } else {
        RemovedAllSkips(e, es, Matching(rest, kind, key));
        EntriesCons(tools, first, Keeping(rest, kind, key));
      }
    }
  }

  lemma EntryId(tools: Tools, item: MemoryItem)
    ensures EntryOf(tools, item).id == item.uid
  {}

  /** A fresh uid is appended by an upsert. */
  lemma AppendInStep(tools: Tools, items: seq<MemoryItem>, item: MemoryItem)
    requires forall i | 0 <= i < |items| :: items[i].uid != item.uid
    ensures Upserted(EntriesOf(tools, items), EntryOf(tools, item)) == EntriesOf(tools, items + [item])
  {
    var es := EntriesOf(tools, items);
    assert forall i | 0 <= i < |es| :: IdOf(es[i]) == items[i].uid;
    assert Find(es, IdOf, item.uid) == |es|;
  }

  // ---- Hybrid search ----

  /** A search candidate and the best similarity seen for its triple. */
  datatype Cand = Cand(item: MemoryItem, sim: real)

  function CandTriple(c: Cand): Triple { TripleOf(c.item) }

  function CandSim(c: Cand): real { c.sim }

  function HitId(h: Hit): string { h.id }

  function HitSim(h: Hit): real { h.similarity }

  /** The similarity dictionary: the best similarity of each uid hit. */
  function SimByUid(hits: seq<Hit>): seq<Hit> { Collect(hits, HitId, Beats(HitSim)) }

  function SimOr(hits: seq<Hit>, uid: string, default: real): real {
    var i := Find(SimByUid(hits), HitId, uid);
    if i < |SimByUid(hits)| then SimByUid(hits)[i].similarity else default
  }

  /** The last item with a uid: what a dictionary from uids to items holds. */
  function ItemByUid(items: seq<MemoryItem>, uid: string): (r: Option<MemoryItem>)
    ensures r.Some? ==> r.value in items && r.value.uid == uid
    ensures r.None? ==> forall x | x in items :: x.uid != uid
  {
    if items == [] then None
    else
      var last := |items| - 1;
      assert items == items[..last] + [items[last]];
      if items[last].uid == uid then Some(items[last]) else ItemByUid(items[..last], uid)
  }

  function KeywordCands(keywordItems: seq<MemoryItem>, hits: seq<Hit>): (r: seq<Cand>)
    ensures |r| == |keywordItems|
    ensures forall i | 0 <= i < |r| :: r[i] == Cand(keywordItems[i], SimOr(hits, keywordItems[i].uid, 0.0))
  {
    seq(|keywordItems|, i requires 0 <= i < |keywordItems| =>
      Cand(keywordItems[i], SimOr(hits, keywordItems[i].uid, 0.0)))
  }

  function HitCands(items: seq<MemoryItem>, sims: seq<Hit>): (r: seq<Cand>)
    ensures |r| <= |sims|
    ensures forall c | c in r :: c.item in items && exists h :: h in sims && h == Hit(c.item.uid, c.sim, h.metadata)
  {
    if sims == [] then []
    else
      var last := |sims| - 1;
      var found := ItemByUid(items, sims[last].id);
      assert sims == sims[..last] + [sims[last]];
      HitCands(items, sims[..last]) + if found.Some? then [Cand(found.value, sims[last].similarity)] else []
  }

  function AllCands(items: seq<MemoryItem>, keywordItems: seq<MemoryItem>, hits: seq<Hit>): seq<Cand> {
    KeywordCands(keywordItems, hits) + HitCands(items, SimByUid(hits))
  }

  function Clamp(x: real): real { if x < 0.0 then 0.0 else if x > 1.0 then 1.0 else x }

  const BLEND_ALPHA := 0.5

  function Blended(curation: MemoryItem -> real): Cand -> real {
    (c: Cand) => BLEND_ALPHA * Clamp(c.sim) + (1.0 - BLEND_ALPHA) * Clamp(curation(c.item) / 1.5)
  }

  function Cut(x: real, top: real): real { if x < 0.0 then 0.0 else if x > top then top else x }

  /**
   The blended score weighs the similarity, cut to [0, 1], one half, and the curation score, cut to [0, 1.5], one third,
   so it lies in [0, 1]; and more of either never lowers it.
   */
  lemma BlendedIs(curation: MemoryItem -> real, c: Cand, d: Cand)
    ensures Blended(curation)(c) == Cut(c.sim, 1.0) / 2.0 + Cut(curation(c.item), 1.5) / 3.0
    ensures 0.0 <= Blended(curation)(c) <= 1.0
    ensures c.sim <= d.sim && curation(c.item) <= curation(d.item) ==> Blended(curation)(c) <= Blended(curation)(d)
  {
    assert forall x: Cand :: Blended(curation)(x) == Cut(x.sim, 1.0) / 2.0 + Cut(curation(x.item), 1.5) / 3.0;
  }

  /** A keyword candidate has the best similarity of its uid's hits, or 0 when there is none. */
  lemma {:induction false} KeywordSim(items: seq<MemoryItem>, keywordItems: seq<MemoryItem>, hits: seq<Hit>, k: nat)
    requires k < |keywordItems|
    ensures var c := AllCands(items, keywordItems, hits)[k];
      && c.item == keywordItems[k]
      && (forall h | h in hits && h.id == c.item.uid :: h.similarity <= c.sim)
      && ((exists h :: h in hits && h.id == c.item.uid && h.similarity == c.sim)
          || (c.sim == 0.0 && forall h | h in hits :: h.id != c.item.uid))
  {
    hide Collect, HitCands, FirstKeys;
    var uid := keywordItems[k].uid;
    var dict := SimByUid(hits);
    var i := Find(dict, HitId, uid);
    CollectKeys(hits, HitId, Beats(HitSim));
    if i < |dict| {
      CollectFrom(hits, HitId, Beats(HitSim), dict[i]);
    }
    forall h | h in hits && h.id == uid
      ensures i < |dict| && h.similarity <= dict[i].similarity
    {
      var n := SimByUidIsBest(hits, h);
      DistinctFind(dict, HitId, uid, n);
    }
  }

  function Hybrid(items: seq<MemoryItem>, keywordItems: seq<MemoryItem>, hits: seq<Hit>,
                  curation: MemoryItem -> real): seq<Cand> {
    SortDesc(Collect(AllCands(items, keywordItems, hits), CandTriple, Beats(CandSim)), Blended(curation))
  }

  lemma {:induction false} FirstKeysAppend<T, K>(a: seq<T>, b: seq<T>, key: T -> K)
    ensures |FirstKeys(a + b, key)| <= |FirstKeys(a, key)| + |b|
  {
    if b == [] {
      assert a + b == a;
    } else {
      var last := |b| - 1;
      assert (a + b)[..|a + b| - 1] == a + b[..last];
      FirstKeysAppend(a, b[..last], key);
    }
  }

  /**
   The hybrid result: one candidate per triple, sorted by descending blended score, ties in the order of the
   triples first appearing among the candidates, keyword hits before vector hits; and no more of them than the
   distinct keyword triples and the hits.
   */
  lemma HybridSpec(items: seq<MemoryItem>, keywordItems: seq<MemoryItem>, hits: seq<Hit>, curation: MemoryItem -> real)
    ensures var cands := AllCands(items, keywordItems, hits); var r := Hybrid(items, keywordItems, hits, curation);
      && DistinctKeys(r, CandTriple)
      && Descending(r, Blended(curation))
      && SameAtEveryScore(r, Collect(cands, CandTriple, Beats(CandSim)), Blended(curation))
      && KeysOf(Collect(cands, CandTriple, Beats(CandSim)), CandTriple) == FirstKeys(cands, CandTriple)
      && |r| <= |FirstKeys(KeywordCands(keywordItems, hits), CandTriple)| + |hits|
  {
    hide FirstKeys;
    var cands := AllCands(items, keywordItems, hits);
    var dict := Collect(cands, CandTriple, Beats(CandSim));
    CollectKeys(cands, CandTriple, Beats(CandSim));
    SortIsStable(dict, Blended(curation));
    SortDistinct(dict, Blended(curation), CandTriple);
    FirstKeysAppend(KeywordCands(keywordItems, hits), HitCands(items, SimByUid(hits)), CandTriple);
    CollectShrinks(hits, HitId, Beats(HitSim));
    assert |dict| == |KeysOf(dict, CandTriple)|;
  }

  lemma {:induction false} CollectShrinks<T, K>(s: seq<T>, key: T -> K, wins: (T, T) -> bool)
    ensures |Collect(s, key, wins)| <= |s|
  {
    if s != [] {
      CollectShrinks(s[..|s| - 1], key, wins);
    }
  }

  /** Every candidate's triple is in the result, with the candidate that has the best similarity seen for it. */
  lemma {:induction false} CandKept(items: seq<MemoryItem>, keywordItems: seq<MemoryItem>, hits: seq<Hit>,
                                    curation: MemoryItem -> real, k: nat) returns (c: Cand)
    requires k < |AllCands(items, keywordItems, hits)|
    ensures c in Hybrid(items, keywordItems, hits, curation)
    ensures CandTriple(c) == CandTriple(AllCands(items, keywordItems, hits)[k])
    ensures AllCands(items, keywordItems, hits)[k].sim <= c.sim
  {
    hide FirstKeys, FirstBest, AllCands;
    var cands := AllCands(items, keywordItems, hits);
    var dict := Collect(cands, CandTriple, Beats(CandSim));
    CollectKeys(cands, CandTriple, Beats(CandSim));
    assert CandTriple(cands[k]) in KeysOf(dict, CandTriple);
    var h :| 0 <= h < |dict| && KeysOf(dict, CandTriple)[h] == CandTriple(cands[k]);
    c := dict[h];
    var j := CollectBest(cands, CandTriple, CandSim, h);
    BestIsBest(cands, j, k);
    SortMember(dict, Blended(curation), c);
  }

  /** Every result is the first candidate, here at position `j`, with the best similarity seen for its triple. */
  lemma {:induction false} HybridIsBest(items: seq<MemoryItem>, keywordItems: seq<MemoryItem>, hits: seq<Hit>,
                                        curation: MemoryItem -> real, c: Cand) returns (j: nat)
    requires c in Hybrid(items, keywordItems, hits, curation)
    ensures var cands := AllCands(items, keywordItems, hits);
      && FirstBest(cands, CandTriple, CandSim, j) && cands[j] == c
      && forall d | d in cands && CandTriple(d) == CandTriple(c) :: d.sim <= c.sim
  {
    hide AllCands, FirstBest, Collect;
    var cands := AllCands(items, keywordItems, hits);
    var dict := Collect(cands, CandTriple, Beats(CandSim));
    SortMember(dict, Blended(curation), c);
    var h :| 0 <= h < |dict| && dict[h] == c;
    j := CollectBest(cands, CandTriple, CandSim, h);
    WithinCands(cands, j);
    forall d | d in cands && CandTriple(d) == CandTriple(c)
      ensures d.sim <= c.sim
    {
      var k :| 0 <= k < |cands| && cands[k] == d;
      BestIsBest(cands, j, k);
    }
  }

  lemma WithinCands(cands: seq<Cand>, j: nat)
    requires FirstBest(cands, CandTriple, CandSim, j)
    ensures j < |cands|
  {}

  /** A keyword hit is never dropped: its triple is in the result, with at least its own similarity. */
  lemma {:induction false} KeywordKept(items: seq<MemoryItem>, keywordItems: seq<MemoryItem>, hits: seq<Hit>,
                                       curation: MemoryItem -> real, k: nat) returns (c: Cand)
    requires k < |keywordItems|
    ensures c in Hybrid(items, keywordItems, hits, curation)
    ensures CandTriple(c) == TripleOf(keywordItems[k]) && c.sim >= SimOr(hits, keywordItems[k].uid, 0.0)
  {
    hide Hybrid, SimOr, HitCands;
    assert AllCands(items, keywordItems, hits)[k] == Cand(keywordItems[k], SimOr(hits, keywordItems[k].uid, 0.0));
    c := CandKept(items, keywordItems, hits, curation, k);
  }

  /** The similarity dictionary holds the best similarity of each uid hit. */
  lemma {:induction false} SimByUidIsBest(hits: seq<Hit>, h: Hit) returns (i: nat)
    requires h in hits
    ensures i < |SimByUid(hits)| && SimByUid(hits)[i] in hits
    ensures SimByUid(hits)[i].id == h.id && h.similarity <= SimByUid(hits)[i].similarity
  {
    hide FirstKeys;
    var dict := SimByUid(hits);
    CollectKeys(hits, HitId, Beats(HitSim));
    assert HitId(h) in KeysOf(dict, HitId);
    i :| 0 <= i < |dict| && KeysOf(dict, HitId)[i] == HitId(h);
    var j := CollectBest(hits, HitId, HitSim, i);
    var k :| 0 <= k < |hits| && hits[k] == h;
    assert HitSim(hits[k]) <= HitSim(hits[j]);
  }

  lemma {:induction false} HitCandFor(items: seq<MemoryItem>, sims: seq<Hit>, i: nat)
    requires i < |sims| && ItemByUid(items, sims[i].id).Some?
    ensures Cand(ItemByUid(items, sims[i].id).value, sims[i].similarity) in HitCands(items, sims)
  {
    hide ItemByUid;
    var last := |sims| - 1;
    if i < last {
      HitCandFor(items, sims[..last], i);
    }
  }

  /** Nor is a vector hit: the triple of the item it names is in the result, with at least the hit's similarity. */
  lemma {:induction false} HitKept(items: seq<MemoryItem>, keywordItems: seq<MemoryItem>, hits: seq<Hit>,
                                   curation: MemoryItem -> real, h: Hit) returns (c: Cand)
    requires h in hits && ItemByUid(items, h.id).Some?
    ensures c in Hybrid(items, keywordItems, hits, curation)
    ensures CandTriple(c) == TripleOf(ItemByUid(items, h.id).value) && h.similarity <= c.sim
  {
    hide Hybrid, ItemByUid, SimByUid, HitCands, KeywordCands;
    var i := SimByUidIsBest(hits, h);
    var sims, cands := SimByUid(hits), AllCands(items, keywordItems, hits);
    HitCandFor(items, sims, i);
    var d := Cand(ItemByUid(items, h.id).value, sims[i].similarity);
    assert d in cands;
    var k :| 0 <= k < |cands| && cands[k] == d;
    c := CandKept(items, keywordItems, hits, curation, k);
  }

  lemma BestIsBest(cands: seq<Cand>, j: nat, k: nat)
    requires j < |cands| && k < |cands| && FirstBest(cands, CandTriple, CandSim, j)
    requires CandTriple(cands[j]) == CandTriple(cands[k])
    ensures cands[k].sim <= cands[j].sim
  {
    assert CandSim(cands[k]) <= CandSim(cands[j]);
  }

  /**
   What is added beyond the keyword hits are vector hits: stored items whose uid was hit, with the similarity of
   the hit.
   */
  lemma AddedAreHits(items: seq<MemoryItem>, keywordItems: seq<MemoryItem>, hits: seq<Hit>,
                     curation: MemoryItem -> real, c: Cand)
    returns (h: Hit)
    requires c in Hybrid(items, keywordItems, hits, curation)
    requires forall k | 0 <= k < |keywordItems| :: TripleOf(keywordItems[k]) != CandTriple(c)
    ensures c.item in items && h in hits && h.id == c.item.uid && h.similarity == c.sim
  {
    hide FirstKeys, FirstBest, SimOr;
    var cands := AllCands(items, keywordItems, hits);
    var dict := Collect(cands, CandTriple, Beats(CandSim));
    var kws := KeywordCands(keywordItems, hits);
    SortMember(dict, Blended(curation), c);
    CollectFrom(cands, CandTriple, Beats(CandSim), c);
    var j :| 0 <= j < |cands| && cands[j] == c;
    assert forall k | 0 <= k < |kws| :: CandTriple(cands[k]) == TripleOf(keywordItems[k]);
    assert j >= |kws|;
    assert c in HitCands(items, SimByUid(hits));
    h :| h in SimByUid(hits) && h == Hit(c.item.uid, c.sim, h.metadata);
    CollectFrom(hits, HitId, Beats(HitSim), h);
  }

  // ---- Keyword search ----

  predicate Contains(hay: string, needle: string) {
    needle <= hay || (hay != "" && Contains(hay[1..], needle))
  }

  predicate Matches(tools: Tools, item: MemoryItem, q: string) {
    || q == "" || Contains(tools.lower(item.key), q)
    || Contains(tools.lower(item.value), q) || Contains(tools.lower(item.kind), q)
  }

  function Filtered(tools: Tools, items: seq<MemoryItem>, q: string): seq<MemoryItem> {
    if items == [] then []
    else
      var last := |items| - 1;
      Filtered(tools, items[..last], q) + if Matches(tools, items[last], q) then [items[last]] else []
  }

  function Always(): (MemoryItem, MemoryItem) -> bool { (_: MemoryItem, _: MemoryItem) => true }

  /** One item per triple: its last match, at the place of its first. */
  function KeywordResult(tools: Tools, items: seq<MemoryItem>, query: string): seq<MemoryItem> {
    Collect(Filtered(tools, items, Strip(tools.lower(query))), TripleOf, Always())
  }

  predicate OccursAt(hay: string, needle: string, i: nat) {
    i + |needle| <= |hay| && hay[i..i + |needle|] == needle
  }

  /** Does one text occur in another? */
  ghost predicate Occurs(hay: string, needle: string) { exists i: nat :: OccursAt(hay, needle, i) }

  lemma OccursAtHead(hay: string, needle: string)
    ensures OccursAt(hay, needle, 0) <==> needle <= hay
  {}

  lemma OccursInTail(hay: string, needle: string, i: nat)
    requires hay != "" && i > 0
    ensures OccursAt(hay, needle, i) <==> OccursAt(hay[1..], needle, i - 1)
  {
    if i + |needle| <= |hay| {
      var a, b := hay[i..i + |needle|], hay[1..][i - 1..i - 1 + |needle|];
      forall k | 0 <= k < |needle|
        ensures a[k] == b[k]
      {
        assert a[k] == hay[i + k];
      }
    }
  }

  lemma {:induction false} ContainsIff(hay: string, needle: string)
    ensures Contains(hay, needle) <==> Occurs(hay, needle)
  {
    hide OccursAt;
    OccursAtHead(hay, needle);
    if hay == "" {
      NowhereElse(needle);
    } else {
      ContainsIff(hay[1..], needle);
      forall i: nat | i > 0
        ensures OccursAt(hay, needle, i) <==> OccursAt(hay[1..], needle, i - 1)
      {
        OccursInTail(hay, needle, i);
      }
      if i: nat :| OccursAt(hay[1..], needle, i) {
        assert OccursAt(hay, needle, i + 1);
      }
    }
  }

  lemma NowhereElse(needle: string)
    ensures forall i: nat :: OccursAt("", needle, i) ==> i == 0
  {}

  /** A text occurs in every text that is put together around it, and in no other. */
  lemma OccursIn(pre: string, needle: string, post: string)
    ensures Occurs(pre + needle + post, needle)
  {
    assert OccursAt(pre + needle + post, needle, |pre|);
  }

  lemma OccursSplits(hay: string, needle: string) returns (pre: string, post: string)
    requires Occurs(hay, needle)
    ensures hay == pre + needle + post
  {
    var i: nat :| OccursAt(hay, needle, i);
    pre, post := hay[..i], hay[i + |needle|..];
  }

  lemma {:induction false} FilteredMember(tools: Tools, items: seq<MemoryItem>, q: string, x: MemoryItem)
    ensures x in Filtered(tools, items, q) <==> x in items && Matches(tools, x, q)
  {
    hide Matches;
    if items != [] {
      var last := |items| - 1;
      assert items == items[..last] + [items[last]];
      FilteredMember(tools, items[..last], q, x);
    }
  }

  /** Does the folded query occur in the item's folded key, value or kind? */
  ghost predicate Found(tools: Tools, item: MemoryItem, query: string) {
    var q := Strip(tools.lower(query));
    Occurs(tools.lower(item.key), q) || Occurs(tools.lower(item.value), q) || Occurs(tools.lower(item.kind), q)
  }

  lemma MatchesIff(tools: Tools, item: MemoryItem, query: string)
    ensures Matches(tools, item, Strip(tools.lower(query))) <==> Found(tools, item, query)
  {
    hide Occurs, Contains, Strip;
    var q := Strip(tools.lower(query));
    ContainsIff(tools.lower(item.key), q);
    ContainsIff(tools.lower(item.value), q);
    ContainsIff(tools.lower(item.kind), q);
    if q == "" {
      assert tools.lower(item.key) == "" + q + tools.lower(item.key);
      OccursIn("", q, tools.lower(item.key));
    }
  }

  /** The last of its triple among some items. */
  predicate LastOfTriple(items: seq<MemoryItem>, x: MemoryItem) {
    exists j | 0 <= j < |items| :: items[j] == x && forall k | j < k < |items| :: TripleOf(items[k]) != TripleOf(x)
  }

  lemma LateIsLast(before: seq<MemoryItem>, late: MemoryItem)
    ensures LastOfTriple(before + [late], late)
  {
    assert (before + [late])[|before|] == late;
  }

  lemma StillLast(before: seq<MemoryItem>, late: MemoryItem, x: MemoryItem)
    requires LastOfTriple(before, x) && TripleOf(late) != TripleOf(x)
    ensures LastOfTriple(before + [late], x)
  {
    var items := before + [late];
    var j :| 0 <= j < |before| && before[j] == x && forall k | j < k < |before| :: TripleOf(before[k]) != TripleOf(x);
    assert items[j] == x;
    forall k | j < k < |items|
      ensures TripleOf(items[k]) != TripleOf(x)
    {
      assert k < |before| ==> items[k] == before[k];
    }
  }

  lemma {:induction false} CollectLast(items: seq<MemoryItem>, x: MemoryItem)
    requires x in Collect(items, TripleOf, Always())
    ensures LastOfTriple(items, x)
  {
    hide FirstKeys, Put, LastOfTriple;
    var last := |items| - 1;
    var before, late := items[..last], items[last];
    assert items == before + [late];
    CollectKeys(before, TripleOf, Always());
    if x == late {
      LateIsLast(before, late);
    } else {
      PutOthers(Collect(before, TripleOf, Always()), late, x);
      CollectLast(before, x);
      StillLast(before, late, x);
    }
  }

  /** Assigning a triple leaves the items of the other triples, and no other of its own. */
  lemma PutOthers(dict: seq<MemoryItem>, late: MemoryItem, x: MemoryItem)
    requires DistinctKeys(dict, TripleOf) && x in Put(dict, late, TripleOf, Always()) && x != late
    ensures x in dict && TripleOf(x) != TripleOf(late)
  {
    var i := Find(dict, TripleOf, TripleOf(late));
    var r := Put(dict, late, TripleOf, Always());
    var h :| 0 <= h < |r| && r[h] == x;
    if i < |dict| {
      assert h != i && dict[h] == x;
      DistinctFind(dict, TripleOf, TripleOf(late), h);
    } else {
      assert h < |dict| && dict[h] == x;
    }
  }

  /**
   What keyword search finds, in terms of the texts: only stored items in whose key, value or kind the query occurs, and
   one of every triple that has such an item; each time the last one stored.
   */
  lemma {:induction false} KeywordSpec(tools: Tools, items: seq<MemoryItem>, query: string)
    ensures var r := KeywordResult(tools, items, query);
      && DistinctKeys(r, TripleOf)
      && (forall x | x in r :: x in items && Found(tools, x, query))
      && (forall x | x in items && Found(tools, x, query) :: exists y :: y in r && TripleOf(y) == TripleOf(x))
  {
    hide Filtered, Collect, Strip, Matches, Found, FirstKeys;
    var q := Strip(tools.lower(query));
    var matching, r := Filtered(tools, items, q), KeywordResult(tools, items, query);
    CollectKeys(matching, TripleOf, Always());
    forall x | x in r
      ensures x in items && Found(tools, x, query)
    {
      CollectFrom(matching, TripleOf, Always(), x);
      FilteredMember(tools, items, q, x);
      MatchesIff(tools, x, query);
    }
    forall x | x in items && Found(tools, x, query)
      ensures exists y :: y in r && TripleOf(y) == TripleOf(x)
    {
      FilteredMember(tools, items, q, x);
      MatchesIff(tools, x, query);
      var i :| 0 <= i < |matching| && matching[i] == x;
      assert TripleOf(x) in KeysOf(r, TripleOf);
      var h :| 0 <= h < |r| && KeysOf(r, TripleOf)[h] == TripleOf(x);
      assert r[h] in r;
    }
  }

  /** Of several matches with one triple the result has the last. */
  lemma {:induction false} KeywordLast(tools: Tools, items: seq<MemoryItem>, query: string, x: MemoryItem)
    requires x in KeywordResult(tools, items, query)
    ensures LastOfTriple(Filtered(tools, items, Strip(tools.lower(query))), x)
  {
    hide Filtered, Strip;
    CollectLast(Filtered(tools, items, Strip(tools.lower(query))), x);
  }

  function ItemsOf(cands: seq<Cand>): seq<MemoryItem> {
    seq(|cands|, i requires 0 <= i < |cands| => cands[i].item)
  }

  /** How an index stands to the items: exactly their entries, or only entries of theirs. */
  predicate Indexed(tools: Tools, entries: seq<Entry>, items: seq<MemoryItem>, exact: bool) {
    if exact then entries == EntriesOf(tools, items)
    else forall e | e in entries :: e in EntriesOf(tools, items)
  }

  lemma PrefixApart(items: seq<MemoryItem>, i: nat)
    requires DistinctUids(items) && i < |items|
    ensures forall j | 0 <= j < i :: items[..i][j].uid != items[i].uid
  {
    assert forall j | 0 <= j < i :: UidOf(items[j]) != UidOf(items[i]);
  }

  // ---- The service ----

  class MemoryService {
    const tools: Tools
    /** The vector index; null when the semantic layer is off. */
    const index: NumpyVectorIndex?
    /** Whether embedding and indexing never raise. */
    const reliable: bool
    /** Whether, moreover, the file's uids were distinct. A file from elsewhere may repeat one. */
    ghost const exact: bool
    var items: seq<MemoryItem>
    /** What the file holds. */
    var persisted: seq<MemoryItem>

    /** The index holds exactly the entries of the items, in their order; in any case it holds only entries of items. */
    ghost predicate InStep()
      requires index != null ==> index.Valid()
      reads this, index
    {
      index != null ==> Indexed(tools, index.Entries(), items, exact)
    }

    ghost predicate Valid()
      reads this, index
    {
      && tools.Valid() && (exact ==> reliable && DistinctUids(items))
      && (index != null ==> index.Valid() && index.dim == tools.dim)
      && InStep()
    }

    /** Load the file and build the index. */
    constructor (tools: Tools, loaded: seq<MemoryItem>, semantic: bool, reliable: bool)
      requires tools.Valid()
      ensures Valid() && items == loaded && persisted == loaded && (index != null <==> semantic)
      ensures exact == (reliable && DistinctUids(loaded))
      ensures index != null ==> fresh(index)
      ensures this.tools == tools && this.reliable == reliable
    {
      this.tools := tools;
      this.reliable := reliable;
      items, persisted := loaded, loaded;
      ghost var faithful := reliable && DistinctUids(loaded);
      exact := faithful;
      var built: NumpyVectorIndex? := null;
      if semantic {
        built := new NumpyVectorIndex(tools.dim);
        for i := 0 to |loaded|
          invariant fresh(built) && built.Valid() && built.dim == tools.dim
          invariant Indexed(tools, built.Entries(), loaded[..i], faithful)
        {
          assert loaded[..i + 1] == loaded[..i] + [loaded[i]];
          if faithful {
            PrefixApart(loaded, i);
          }
          IndexInto(built, tools, reliable, faithful, loaded[..i], loaded[i]);
        }
        assert loaded[..|loaded|] == loaded;
      }
      index := built;
    }

    /** Embed and upsert one item; an error is swallowed and leaves the index as it was. */
    static method IndexInto(index: NumpyVectorIndex, tools: Tools, reliable: bool, ghost exact: bool,
                            ghost items: seq<MemoryItem>, item: MemoryItem)
      requires index.Valid() && index.dim == tools.dim && tools.Valid()
      requires exact ==> reliable && forall i | 0 <= i < |items| :: items[i].uid != item.uid
      requires Indexed(tools, index.Entries(), items, exact)
      modifies index
      ensures index.Valid() && Indexed(tools, index.Entries(), items + [item], exact)
      ensures reliable ==> EntryOf(tools, item) in index.Entries()
    {
      hide EntryOf;
      var raises: bool := *;
      MoreEntries(tools, items, item);
      if raises && !reliable {
        return;
      }
      var e := EntryOf(tools, item);
      ghost var before := index.Entries();
      EntryShape(tools, item);
      var _ := index.Upsert(e.id, e.text, e.vector, e.metadata);
      if exact {
        AppendInStep(tools, items, item);
      } else {
        UpsertedFrom(before, e);
      }
      UpsertedHas(before, e);
    }

    method FlushPersisted()
      modifies this`persisted
      ensures persisted == items
    {
      persisted := items;
    }

    /**
     Store a memory unless it is noise or repeats a recent one. `uid` is the fresh random identity a new item gets.
     A filtered item is returned but neither stored nor indexed.
     */
    method Write(kind: string, key: string, value: string, uid: string, createdAt: string)
      returns (item: MemoryItem, filtered: bool)
      requires Valid()
      requires forall i | 0 <= i < |items| :: items[i].uid != uid
      modifies this`items, this`persisted, index
      ensures Valid()
      ensures item.kind == tools.lower(Strip(if kind == "" then "note" else kind))
      ensures item == MemoryItem(item.kind, Strip(key), Strip(value), createdAt, uid)
      ensures filtered <==>
        || item.key == "" || |item.value| < 2 || (item.kind == "ephemeral" && |item.value| < 8)
        || IsDuplicate(tools, old(items), item.kind, item.key, item.value)
      ensures items == old(items) + if filtered then [] else [item]
      ensures persisted == if filtered then old(persisted) else items
      ensures filtered && index != null ==> index.Entries() == old(index.Entries())
      ensures !filtered && reliable && index != null ==> exists e ::
        && e in index.Entries()
        && e.id == uid && e.text == item.key + " " + item.value && e.vector == tools.embed(e.text)
    {
      hide Strip, EntryOf, Normalized;
      StripTwice(key);
      StripTwice(value);
      item := MemoryItem(NormalKind(tools, kind), Strip(key), Strip(value), createdAt, uid);
      var duplicate := FindDuplicate(item.kind, item.key, item.value);
      filtered := IsNoise(item.kind, item.key, item.value) || duplicate;
      if filtered {
        return;
      }
      if index != null {
        IndexInto(index, tools, reliable, exact, items, item);
        EntryIs(tools, item);
      }
      if exact {
        DistinctMore(items, item);
      }
      items := items + [item];
      FlushPersisted();
    }

    /** Scan the recent items, newest first. */
    method FindDuplicate(kind: string, key: string, value: string) returns (found: bool)
      ensures found == IsDuplicate(tools, items, kind, key, value)
      ensures found <==> exists i | 0 <= i < |items| && |items| - 200 <= i ::
        && items[i].kind == kind && Normalized(tools, items[i].key) == Normalized(tools, key)
        && Normalized(tools, items[i].value) == Normalized(tools, value)
    {
      hide Normalized;
      DuplicateIff(tools, items, kind, key, value);
      var recent := Recent(items);
      var i := |recent|;
      while i > 0
        invariant 0 <= i <= |recent|
        invariant forall j | i <= j < |recent| :: !Same(tools, recent[j], kind, key, value)
      {
        i := i - 1;
        if Same(tools, recent[i], kind, key, value) {
          return true;
        }
      }
      return false;
    }

    /** Delete the entries of some items from the index, one by one. */
    static method Unindex(index: NumpyVectorIndex, gone: seq<MemoryItem>)
      requires index.Valid() && DistinctIds(index.Entries())
      modifies index
      ensures index.Valid() && index.Entries() == RemovedAll(old(index.Entries()), gone)
      ensures forall e | e in index.Entries() :: e in old(index.Entries()) && forall g | g in gone :: e.id != g.uid
    {
      hide Removed, DistinctKeys;
      assert gone[0..] == gone;
      for i := 0 to |gone|
        invariant index.Valid() && DistinctIds(index.Entries())
        invariant RemovedAll(index.Entries(), gone[i..]) == RemovedAll(old(index.Entries()), gone)
        invariant forall e | e in index.Entries() ::
          e in old(index.Entries()) && forall j | 0 <= j < i :: e.id != gone[j].uid
      {
        assert gone[i..][1..] == gone[i + 1..];
        RemovedSpec(index.Entries(), gone[i].uid);
        index.Delete(gone[i].uid);
      }
    }

    /** Remove every item of a kind and key, from the list, the index and the file. */
    method Delete(kind: string, key: string) returns (removed: bool)
      requires Valid()
      modifies this`items, this`persisted, index
      ensures Valid()
      ensures items == Keeping(old(items), kind, key)
      ensures removed == (Matching(old(items), kind, key) != [])
      ensures persisted == if removed then items else old(persisted)
    {
      hide Matching, Keeping, DistinctKeys, RemovedAll, EntriesOf;
      var gone := Matching(items, kind, key);
      ghost var before := items;
      if exact {
        KeepingDistinct(items, kind, key);
        DeleteInStep(tools, items, kind, key);
      }
      items := Keeping(items, kind, key);
      removed := gone != [];
      if index != null {
        index.Distinct();
        Unindex(index, gone);
        if !exact {
          StillItems(tools, before, kind, key, index.Entries());
        }
      }
      if removed {
        FlushPersisted();
      }
    }

    method EraseAll() returns (count: nat)
      requires Valid()
      modifies this`items, this`persisted, index
      ensures Valid() && items == [] && persisted == [] && count == |old(items)|
      ensures index != null ==> index.Entries() == []
    {
      count := |items|;
      items := [];
      if index != null {
        index.DeleteAll();
      }
      FlushPersisted();
    }

    /**
     The hybrid re-ranking. None tells the caller to use the keyword result: the layer is off, the query is blank,
     there is nothing to rank, or something raised.
     */
    method SemanticSearch(query: string, keywordItems: seq<MemoryItem>, topK: int, curation: MemoryItem -> real)
      returns (ranked: Option<seq<MemoryItem>>, ghost raised: bool, ghost hits: seq<Hit>)
      requires Valid()
      ensures reliable ==> !raised
      ensures ranked.Some? ==>
        && index != null && Strip(query) != "" && !raised
        && Some(hits) == TopK(tools.norm, index.Entries(), index.dim, tools.embed(Strip(query)), topK)
        && ranked.value == ItemsOf(Hybrid(items, keywordItems, hits, curation))
      ensures ranked.None? && index != null && Strip(query) != "" && !raised ==>
        && Some(hits) == TopK(tools.norm, index.Entries(), index.dim, tools.embed(Strip(query)), topK)
        && AllCands(items, keywordItems, hits) == []
    {
      hide Strip, HitCands, KeywordCands, SimByUid, Collect, SortDesc, TopK;
      raised, hits := false, [];
      if index == null {
        return None, false, [];
      }
      var q := Strip(query);
      if q == "" {
        return None, false, [];
      }
      var fails: bool := *;
      if fails && !reliable {
        return None, true, [];
      }
      var found := index.Query(tools.norm, tools.embed(q), topK);
      QueryFits(tools.norm, index.Entries(), index.dim, tools.embed(q), topK);
      hits := found.value;
      var cands := KeywordCands(keywordItems, found.value) + HitCands(items, SimByUid(found.value));
      var dict := BestCandidates(cands);
      if dict == [] {
        CollectSome(cands);
        return None, false, hits;
      }
      ranked := Some(ItemsOf(SortDesc(dict, Blended(curation))));
    }

    /** The candidate dictionary: for each triple, the first with the best similarity. */
    static method BestCandidates(cands: seq<Cand>) returns (dict: seq<Cand>)
      ensures dict == Collect(cands, CandTriple, Beats(CandSim))
    {
      dict := [];
      for i := 0 to |cands|
        invariant dict == Collect(cands[..i], CandTriple, Beats(CandSim))
      {
        assert cands[..i + 1][..i] == cands[..i];
        dict := Put(dict, cands[i], CandTriple, Beats(CandSim));
      }
      assert cands[..|cands|] == cands;
    }

    /** The matching items, the last of each triple at the place of its first. */
    static method MergeMatches(tools: Tools, items: seq<MemoryItem>, q: string) returns (merged: seq<MemoryItem>)
      ensures merged == Collect(Filtered(tools, items, q), TripleOf, Always())
    {
      hide Matches, Put;
      merged := [];
      for i := 0 to |items|
        invariant merged == Collect(Filtered(tools, items[..i], q), TripleOf, Always())
      {
        assert items[..i + 1][..i] == items[..i];
        ghost var before := Filtered(tools, items[..i], q);
        assert Filtered(tools, items[..i + 1], q) == before + if Matches(tools, items[i], q) then [items[i]] else [];
        assert before + [] == before;
        if Matches(tools, items[i], q) {
          assert (before + [items[i]])[..|before|] == before;
          merged := Put(merged, items[i], TripleOf, Always());
        }
      }
      assert items[..|items|] == items;
    }

    /** The results are the keyword hits and the vector hits, ranked together. */
    ghost predicate Reranked(query: string, topK: int, curation: MemoryItem -> real, results: seq<MemoryItem>)
      requires Valid()
      reads this, index
    {
      index != null && exists hits ::
        && Some(hits) == TopK(tools.norm, index.Entries(), index.dim, tools.embed(Strip(query)), topK)
        && results == ItemsOf(Hybrid(items, KeywordResult(tools, items, query), hits, curation))
    }

    /** Keyword search, re-ranked by the semantic layer when it is on. */
    method Search(query: string, topK: int, curation: MemoryItem -> real) returns (results: seq<MemoryItem>)
      requires Valid()
      ensures index == null || Strip(query) == "" ==>
        && results == KeywordResult(tools, items, query)
        && (forall x | x in results :: x in items && Found(tools, x, query))
        && (forall x | x in items && Found(tools, x, query) :: exists y :: y in results && TripleOf(y) == TripleOf(x))
      ensures results == KeywordResult(tools, items, query) || Reranked(query, topK, curation, results)
      ensures reliable && index != null && Strip(query) != "" ==> Reranked(query, topK, curation, results)
    {
      hide Collect, Filtered, Hybrid, Strip, TopK, AllCands, Found;
      KeywordSpec(tools, items, query);
      results := MergeMatches(tools, items, Strip(tools.lower(query)));
      var ranked, raised, hits := SemanticSearch(query, results, topK, curation);
      if ranked.Some? {
        results := ranked.value;
      } else if reliable && index != null && Strip(query) != "" {
        NothingToRank(items, results, hits, curation);
      }
    }
  }

  lemma NothingToRank(items: seq<MemoryItem>, keywordItems: seq<MemoryItem>, hits: seq<Hit>,
                      curation: MemoryItem -> real)
    requires AllCands(items, keywordItems, hits) == []
    ensures keywordItems == [] && ItemsOf(Hybrid(items, keywordItems, hits, curation)) == []
  {
    assert |KeywordCands(keywordItems, hits)| == 0;
  }

  lemma CollectSome(cands: seq<Cand>)
    ensures cands != [] ==> Collect(cands, CandTriple, Beats(CandSim)) != []
  {}

  lemma DistinctMore(items: seq<MemoryItem>, item: MemoryItem)
    requires DistinctUids(items) && forall i | 0 <= i < |items| :: items[i].uid != item.uid
    ensures DistinctUids(items + [item])
  {
    assert forall i | 0 <= i < |items| :: UidOf(items[i]) != UidOf(item);
  }

  lemma QueryFits(norm: Vector -> real, entries: seq<Entry>, dim: nat, query: Vector, topK: int)
    requires |query| == dim && forall e | e in entries :: |e.vector| == dim
    ensures TopK(norm, entries, dim, query, topK).Some?
  {}

  /** Entries of items, none of whose ids was deleted, are entries of the kept items. */
  lemma StillItems(tools: Tools, items: seq<MemoryItem>, kind: string, key: string, entries: seq<Entry>)
    requires forall e | e in entries ::
      e in EntriesOf(tools, items) && forall g | g in Matching(items, kind, key) :: e.id != g.uid
    ensures forall e | e in entries :: e in EntriesOf(tools, Keeping(items, kind, key))
  {
    hide EntryOf;
    forall e | e in entries
      ensures e in EntriesOf(tools, Keeping(items, kind, key))
    {
      var i :| 0 <= i < |items| && EntriesOf(tools, items)[i] == e;
      EntryId(tools, items[i]);
      KeepingSpec(items, kind, key);
      assert items[i] in Keeping(items, kind, key);
      var k :| 0 <= k < |Keeping(items, kind, key)| && Keeping(items, kind, key)[k] == items[i];
      assert EntriesOf(tools, Keeping(items, kind, key))[k] == e;
    }
  }

  lemma EntryShape(tools: Tools, item: MemoryItem)
    requires tools.Valid()
    ensures var e := EntryOf(tools, item);
      e.id == item.uid && |e.vector| == tools.dim && e == Entry(e.id, e.vector, e.text, e.metadata)
  {}

  lemma MoreEntries(tools: Tools, items: seq<MemoryItem>, item: MemoryItem)
    ensures EntriesOf(tools, items + [item]) == EntriesOf(tools, items) + [EntryOf(tools, item)]
  {}

  lemma UpsertedHas(entries: seq<Entry>, e: Entry)
    ensures e in Upserted(entries, e)
  {
    var i := Find(entries, IdOf, e.id);
    assert Upserted(entries, e)[i] == e;
  }

  lemma UpsertedFrom(entries: seq<Entry>, e: Entry)
    ensures forall x | x in Upserted(entries, e) :: x in entries || x == e
  {}
}
