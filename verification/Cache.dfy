/** The vault's merged view of all blob indexes. */
module Cache {
  import opened IndexCodec
  import opened Crypto
  import opened Ledger
  import opened Handles
  import opened Sorting

  datatype Located<E> = Located(blobId: BlobId, entry: E)

  datatype VaultIndex = VaultIndex(chunks: seq<Located<ChunkEntry>>, completed: seq<Located<CompleteEntry>>)

  const EMPTY_VAULT_INDEX := VaultIndex([], [])

  function Elsewhere<E>(b: BlobId): Located<E> -> bool {
    (x: Located<E>) => x.blobId != b
  }

  function Tagged<E>(b: BlobId, es: seq<E>): (xs: seq<Located<E>>)
    ensures |xs| == |es|
  {
    seq(|es|, i requires 0 <= i < |es| => Located(b, es[i]))
  }

  /** The entries a merged list holds for one blob, in order. */
  function Of<E>(b: BlobId, xs: seq<Located<E>>): seq<E> {
    if xs == [] then []
    else Of(b, xs[..|xs| - 1]) + if xs[|xs| - 1].blobId == b then [xs[|xs| - 1].entry] else []
  }

  function ReplaceIn<E>(b: BlobId, xs: seq<Located<E>>, es: seq<E>): seq<Located<E>> {
    Filter(Elsewhere(b), xs) + Tagged(b, es)
  }

  /** Drops what is cached for a blob and adds its index at the end. */
  function Replace(v: VaultIndex, b: BlobId, index: BlobIndex): VaultIndex {
    VaultIndex(ReplaceIn(b, v.chunks, index.chunks), ReplaceIn(b, v.completed, index.completed))
  }

  function Project(v: VaultIndex, b: BlobId): BlobIndex {
    BlobIndex(Of(b, v.chunks), Of(b, v.completed))
  }

  // Lists

  lemma {:induction false} FilterCounts<T>(keep: T -> bool, xs: seq<T>, x: T)
    ensures multiset(Filter(keep, xs))[x] == if keep(x) then multiset(xs)[x] else 0
  {
    if xs == [] {
    } else {
      FilterCounts(keep, xs[..|xs| - 1], x);
      assert xs == xs[..|xs| - 1] + [xs[|xs| - 1]];
    }
  }

  lemma {:induction false} OfAppend<E>(b: BlobId, xs: seq<Located<E>>, ys: seq<Located<E>>)
    ensures Of(b, xs + ys) == Of(b, xs) + Of(b, ys)
  {
    if ys == [] {
      assert xs + ys == xs;
    } else {
      var n := |ys| - 1;
      assert (xs + ys)[..|xs| + n] == xs + ys[..n];
      OfAppend(b, xs, ys[..n]);
    }
  }

  lemma OfSnoc<E>(b: BlobId, xs: seq<Located<E>>, x: Located<E>)
    ensures Of(b, xs + [x]) == Of(b, xs) + if x.blobId == b then [x.entry] else []
  {
    assert (xs + [x])[..|xs|] == xs;
  }

  lemma {:induction false} OfTagged<E>(b: BlobId, c: BlobId, es: seq<E>)
    ensures Of(c, Tagged(b, es)) == if c == b then es else []
  {
    if es == [] {
    } else {
      var n := |es| - 1;
      assert Tagged(b, es)[..n] == Tagged(b, es[..n]);
      OfTagged(b, c, es[..n]);
    }
  }

  lemma {:induction false} OfRetained<E>(b: BlobId, c: BlobId, xs: seq<Located<E>>)
    ensures Of(c, Filter(Elsewhere(b), xs)) == if c == b then [] else Of(c, xs)
  {
    if xs == [] {
    } else {
      var before, x := xs[..|xs| - 1], xs[|xs| - 1];
      OfRetained(b, c, before);
      if x.blobId != b {
        OfSnoc(c, Filter(Elsewhere(b), before), x);
        assert Filter(Elsewhere(b), xs) == Filter(Elsewhere(b), before) + [x];
      } else {
        assert Filter(Elsewhere(b), xs) == Filter(Elsewhere(b), before);
      }
    }
  }

  /** Replacing one blob's entries sets that blob's projection and no other. */
  lemma ReplaceProjects<E>(b: BlobId, c: BlobId, xs: seq<Located<E>>, es: seq<E>)
    ensures Of(c, ReplaceIn(b, xs, es)) == if c == b then es else Of(c, xs)
  {
    OfAppend(c, Filter(Elsewhere(b), xs), Tagged(b, es));
    OfRetained(b, c, xs);
    OfTagged(b, c, es);
  }

  lemma TaggedAppend<E>(b: BlobId, a: seq<E>, c: seq<E>)
    ensures Tagged(b, a + c) == Tagged(b, a) + Tagged(b, c)
  {
  }

  lemma TaggedSnoc<E>(b: BlobId, es: seq<E>, x: Located<E>)
    requires x.blobId == b
    ensures Tagged(b, es + [x.entry]) == Tagged(b, es) + [x]
  {
  }

  /** A list is, up to order, what it holds for a blob and what it holds for the others. */
  lemma {:induction false} Partition<E>(b: BlobId, xs: seq<Located<E>>)
    ensures multiset(xs) == multiset(Filter(Elsewhere(b), xs)) + multiset(Tagged(b, Of(b, xs)))
  {
    if xs == [] {
    } else {
      var n := |xs| - 1;
      var before, x := xs[..n], xs[n];
      Partition(b, before);
      assert xs == before + [x];
      OfSnoc(b, before, x);
      FilterSnoc(Elsewhere(b), before, x);
      hide Of, Filter, Tagged;
      if x.blobId == b {
        TaggedSnoc(b, Of(b, before), x);
      } else {
        assert Of(b, xs) == Of(b, before);
      }
    }
  }

  /** Extending a blob's index adds exactly the new entries to the merged list. */
  lemma ReplaceAdds<E>(b: BlobId, xs: seq<Located<E>>, es: seq<E>)
    ensures multiset(ReplaceIn(b, xs, Of(b, xs) + es)) == multiset(xs) + multiset(Tagged(b, es))
  {
    Partition(b, xs);
    TaggedAppend(b, Of(b, xs), es);
  }

  // Agreement with what was loaded

  function LoadedIndex(loaded: map<BlobId, BlobIndex>, b: BlobId): BlobIndex {
    if b in loaded then loaded[b] else EMPTY_INDEX
  }

  /** For every blob the merged view holds exactly the index last loaded for it. */
  ghost predicate Agrees(v: VaultIndex, loaded: map<BlobId, BlobIndex>) {
    forall b: BlobId :: Project(v, b) == LoadedIndex(loaded, b)
  }

  lemma ReplaceAgrees(v: VaultIndex, loaded: map<BlobId, BlobIndex>, b: BlobId, index: BlobIndex)
    requires Agrees(v, loaded)
    ensures Agrees(Replace(v, b, index), loaded[b := index])
  {
    hide Of, ReplaceIn;
    forall c: BlobId ensures Project(Replace(v, b, index), c) == LoadedIndex(loaded[b := index], c) {
      ReplaceProjects(b, c, v.chunks, index.chunks);
      ReplaceProjects(b, c, v.completed, index.completed);
      assert Project(v, c) == LoadedIndex(loaded, c);
    }
  }

  lemma EmptyAgrees()
    ensures Agrees(EMPTY_VAULT_INDEX, map[])
  {
  }

  // Agreement with what is committed

  /** A blob of the vault: its id, its keys and what it has committed. */
  datatype Shelf = Shelf(id: BlobId, keys: Keys, records: seq<Record>)

  ghost predicate Known(shelves: seq<Shelf>, b: BlobId) {
    exists k :: 0 <= k < |shelves| && shelves[k].id == b
  }

  ghost predicate DistinctIds(shelves: seq<Shelf>) {
    forall i, j :: 0 <= i < j < |shelves| ==> shelves[i].id != shelves[j].id
  }

  ghost predicate AllKnown<E>(shelves: seq<Shelf>, xs: seq<Located<E>>) {
    forall i :: 0 <= i < |xs| ==> Known(shelves, xs[i].blobId)
  }

  /** The merged view lists what every blob has committed, and nothing else. */
  ghost predicate Fresh(v: VaultIndex, shelves: seq<Shelf>) {
    && DistinctIds(shelves)
    && (forall k :: 0 <= k < |shelves| ==> Project(v, shelves[k].id) == IndexOf(shelves[k].records))
    && AllKnown(shelves, v.chunks) && AllKnown(shelves, v.completed)
  }

  function Shelve(shelves: seq<Shelf>, k: nat, rs: seq<Record>): seq<Shelf>
    requires k < |shelves|
  {
    shelves[k := shelves[k].(records := shelves[k].records + rs)]
  }

  /** What was committed stays so: blobs only gain records, and new blobs may come after them. */
  ghost predicate Extends(past: seq<Shelf>, now: seq<Shelf>) {
    && |past| <= |now|
    && forall k :: 0 <= k < |past| ==>
         now[k].id == past[k].id && now[k].keys == past[k].keys && past[k].records <= now[k].records
  }

  /** The records a blob has gained. */
  ghost function Gained(past: seq<Shelf>, now: seq<Shelf>, k: nat): seq<Record>
    requires Extends(past, now) && k < |past|
  {
    now[k].records[|past[k].records|..]
  }

  lemma KnownKept(shelves: seq<Shelf>, k: nat, rs: seq<Record>, b: BlobId)
    requires k < |shelves| && Known(shelves, b)
    ensures Known(Shelve(shelves, k, rs), b)
  {
    var i :| 0 <= i < |shelves| && shelves[i].id == b;
    assert Shelve(shelves, k, rs)[i].id == b;
  }

  lemma {:induction false} RetainedKnown<E>(shelves: seq<Shelf>, b: BlobId, xs: seq<Located<E>>)
    requires AllKnown(shelves, xs)
    ensures AllKnown(shelves, Filter(Elsewhere(b), xs))
  {
    if xs == [] {
    } else {
      RetainedKnown(shelves, b, xs[..|xs| - 1]);
    }
  }

  lemma ReplaceKnown<E>(shelves: seq<Shelf>, k: nat, rs: seq<Record>, xs: seq<Located<E>>, es: seq<E>)
    requires k < |shelves| && AllKnown(shelves, xs)
    ensures AllKnown(Shelve(shelves, k, rs), ReplaceIn(shelves[k].id, xs, es))
  {
    hide Known;
    var after, b := Shelve(shelves, k, rs), shelves[k].id;
    RetainedKnown(shelves, b, xs);
    var kept := Filter(Elsewhere(b), xs);
    forall i | 0 <= i < |kept| + |es| ensures Known(after, (kept + Tagged(b, es))[i].blobId) {
      if i < |kept| {
        KnownKept(shelves, k, rs, kept[i].blobId);
      } else {
        KnownAt(after, k);
      }
    }
  }

  lemma KnownAt(shelves: seq<Shelf>, k: nat)
    requires k < |shelves|
    ensures Known(shelves, shelves[k].id)
  {
  }

  /** Loading a blob's index after a commit keeps the view fresh and adds the commit's entries to it. */
  lemma CommitKeepsFresh(v: VaultIndex, shelves: seq<Shelf>, k: nat, rs: seq<Record>)
    requires Fresh(v, shelves) && k < |shelves|
    ensures var shelf := shelves[k];
      var after := Replace(v, shelf.id, IndexOf(shelf.records + rs));
      && Fresh(after, Shelve(shelves, k, rs))
      && multiset(after.chunks) == multiset(v.chunks) + multiset(Tagged(shelf.id, IndexOf(rs).chunks))
      && multiset(after.completed) == multiset(v.completed) + multiset(Tagged(shelf.id, IndexOf(rs).completed))
  {
    hide Of, ReplaceIn, Plain, AllKnown, Tagged;
    var shelf, index := shelves[k], IndexOf(shelves[k].records + rs);
    assert Project(v, shelf.id) == IndexOf(shelf.records);
    EntriesAppend(shelf.records, rs);
    hide IndexOf;
    ReplaceAdds(shelf.id, v.chunks, IndexOf(rs).chunks);
    ReplaceAdds(shelf.id, v.completed, IndexOf(rs).completed);
    ReplaceKnown(shelves, k, rs, v.chunks, index.chunks);
    ReplaceKnown(shelves, k, rs, v.completed, index.completed);
    var after, shelved := Replace(v, shelf.id, index), Shelve(shelves, k, rs);
    forall j | 0 <= j < |shelved| ensures Project(after, shelved[j].id) == IndexOf(shelved[j].records) {
      ReplaceProjects(shelf.id, shelved[j].id, v.chunks, index.chunks);
      ReplaceProjects(shelf.id, shelved[j].id, v.completed, index.completed);
      assert Project(v, shelves[j].id) == IndexOf(shelves[j].records);
      if j < k { assert shelves[j].id != shelves[k].id; }
      if k < j { assert shelves[k].id != shelves[j].id; }
    }
  }

  /** Loading one blob's index brings a view of the past up to date in that blob, whatever was committed
      to it and to the others meanwhile. */
  lemma LoadCatchesUp(v: VaultIndex, past: seq<Shelf>, now: seq<Shelf>, k: nat)
    requires Fresh(v, past) && Extends(past, now) && k < |past|
    ensures var w := Replace(v, now[k].id, IndexOf(now[k].records));
      && Fresh(w, past[k := now[k]])
      && multiset(w.chunks) == multiset(v.chunks) + multiset(Tagged(now[k].id, IndexOf(Gained(past, now, k)).chunks))
      && multiset(w.completed)
         == multiset(v.completed) + multiset(Tagged(now[k].id, IndexOf(Gained(past, now, k)).completed))
  {
    hide Fresh, IndexOf, Replace;
    assert past[k].records + Gained(past, now, k) == now[k].records;
    assert Shelve(past, k, Gained(past, now, k)) == past[k := now[k]];
    CommitKeepsFresh(v, past, k, Gained(past, now, k));
  }

  // Fresh views of the same blobs

  lemma ElsewhereKnown<E>(shelves: seq<Shelf>, xs: seq<Located<E>>)
    requires shelves != [] && AllKnown(shelves, xs)
    ensures var last := |shelves| - 1;
      AllKnown(shelves[..last], Filter(Elsewhere(shelves[last].id), xs))
  {
    var last := |shelves| - 1;
    var kept := Filter(Elsewhere(shelves[last].id), xs);
    RetainedKnown(shelves, shelves[last].id, xs);
    FilterKeeps(Elsewhere(shelves[last].id), xs);
    forall i | 0 <= i < |kept| ensures Known(shelves[..last], kept[i].blobId) {
      assert Elsewhere(shelves[last].id)(kept[i]);
      var k :| 0 <= k < |shelves| && shelves[k].id == kept[i].blobId;
      assert shelves[..last][k].id == kept[i].blobId;
    }
  }

  lemma NothingKnown<E>(xs: seq<Located<E>>)
    requires AllKnown([], xs)
    ensures xs == []
  {
    assert |xs| > 0 ==> Known([], xs[0].blobId);
  }

  lemma ProjectionsElsewhere<E>(shelves: seq<Shelf>, xs: seq<Located<E>>, ys: seq<Located<E>>)
    requires shelves != [] && DistinctIds(shelves)
    requires forall k :: 0 <= k < |shelves| ==> Of(shelves[k].id, xs) == Of(shelves[k].id, ys)
    ensures var last := |shelves| - 1;
      var b := shelves[last].id;
      && Of(b, xs) == Of(b, ys)
      && forall k :: 0 <= k < last ==>
           Of(shelves[..last][k].id, Filter(Elsewhere(b), xs)) == Of(shelves[..last][k].id, Filter(Elsewhere(b), ys))
  {
    hide Of, Filter;
    var last := |shelves| - 1;
    var b := shelves[last].id;
    forall k | 0 <= k < last
      ensures Of(shelves[..last][k].id, Filter(Elsewhere(b), xs)) == Of(shelves[..last][k].id, Filter(Elsewhere(b), ys))
    {
      OfRetained(b, shelves[k].id, xs);
      OfRetained(b, shelves[k].id, ys);
    }
  }

  /** Lists of known blobs' entries with the same projections hold the same entries. */
  lemma {:induction false} SameProjections<E>(shelves: seq<Shelf>, xs: seq<Located<E>>, ys: seq<Located<E>>)
    requires DistinctIds(shelves) && AllKnown(shelves, xs) && AllKnown(shelves, ys)
    requires forall k :: 0 <= k < |shelves| ==> Of(shelves[k].id, xs) == Of(shelves[k].id, ys)
    ensures multiset(xs) == multiset(ys)
  {
    if shelves == [] {
      NothingKnown(xs);
      NothingKnown(ys);
    } else {
      var last := |shelves| - 1;
      var b := shelves[last].id;
      assert DistinctIds(shelves[..last]);
      hide *;
      Partition(b, xs);
      Partition(b, ys);
      ElsewhereKnown(shelves, xs);
      ElsewhereKnown(shelves, ys);
      ProjectionsElsewhere(shelves, xs, ys);
      SameProjections(shelves[..last], Filter(Elsewhere(b), xs), Filter(Elsewhere(b), ys));
    }
  }

  /** Two fresh views of the same blobs list the same entries, in whatever order. */
  lemma FreshViews(v: VaultIndex, w: VaultIndex, shelves: seq<Shelf>)
    requires Fresh(v, shelves) && Fresh(w, shelves)
    ensures multiset(v.chunks) == multiset(w.chunks) && multiset(v.completed) == multiset(w.completed)
  {
    hide Of, IndexOf, AllKnown, DistinctIds;
    forall k | 0 <= k < |shelves|
      ensures Of(shelves[k].id, v.chunks) == Of(shelves[k].id, w.chunks)
      ensures Of(shelves[k].id, v.completed) == Of(shelves[k].id, w.completed)
    {
      assert Project(v, shelves[k].id) == Project(w, shelves[k].id);
    }
    SameProjections(shelves, v.chunks, w.chunks);
    SameProjections(shelves, v.completed, w.completed);
  }

  // Attaching a blob

  lemma {:induction false} ListedIsOf<E>(xs: seq<Located<E>>, i: nat)
    requires i < |xs|
    ensures Of(xs[i].blobId, xs) != []
  {
    if i < |xs| - 1 {
      ListedIsOf(xs[..|xs| - 1], i);
    }
  }

  lemma ReplaceProject(v: VaultIndex, b: BlobId, c: BlobId, index: BlobIndex)
    ensures Project(Replace(v, b, index), c) == if c == b then index else Project(v, c)
  {
    ReplaceProjects(b, c, v.chunks, index.chunks);
    ReplaceProjects(b, c, v.completed, index.completed);
  }

  lemma OnlyPosition(shelves: seq<Shelf>, k: nat)
    requires DistinctIds(shelves) && k < |shelves|
    ensures forall j :: 0 <= j < |shelves| && shelves[j].id == shelves[k].id ==> j == k
  {
  }

  lemma NothingTagged(b: BlobId)
    ensures Tagged(b, IndexOf([]).chunks) == [] && Tagged(b, IndexOf([]).completed) == []
  {
  }

  lemma KnownMore(shelves: seq<Shelf>, shelf: Shelf, b: BlobId)
    ensures Known(shelves + [shelf], b) <==> Known(shelves, b) || b == shelf.id
  {
    if Known(shelves, b) {
      var k :| 0 <= k < |shelves| && shelves[k].id == b;
      assert (shelves + [shelf])[k].id == b;
    }
    assert (shelves + [shelf])[|shelves|].id == shelf.id;
  }

  lemma AllKnownMore<E>(shelves: seq<Shelf>, shelf: Shelf, xs: seq<Located<E>>, es: seq<E>)
    requires AllKnown(shelves, xs)
    ensures AllKnown(shelves + [shelf], ReplaceIn(shelf.id, xs, es))
  {
    hide Known;
    RetainedKnown(shelves, shelf.id, xs);
    var ys := ReplaceIn(shelf.id, xs, es);
    forall i | 0 <= i < |ys| ensures Known(shelves + [shelf], ys[i].blobId) {
      KnownMore(shelves, shelf, ys[i].blobId);
    }
  }

  lemma AppendFresh(v: VaultIndex, shelves: seq<Shelf>, shelf: Shelf)
    requires Fresh(v, shelves) && !Known(shelves, shelf.id)
    ensures Fresh(Replace(v, shelf.id, IndexOf(shelf.records)), shelves + [shelf])
  {
    var w, more := Replace(v, shelf.id, IndexOf(shelf.records)), shelves + [shelf];
    AllKnownMore(shelves, shelf, v.chunks, IndexOf(shelf.records).chunks);
    AllKnownMore(shelves, shelf, v.completed, IndexOf(shelf.records).completed);
    forall k | 0 <= k < |more|
      ensures Project(w, more[k].id) == IndexOf(more[k].records)
      ensures k < |shelves| ==> more[k].id != shelf.id
    {
      ReplaceProject(v, shelf.id, more[k].id, IndexOf(shelf.records));
    }
    hide Project, IndexOf, AllKnown, Known;
  }

  lemma AppendEmpty(v: VaultIndex, shelves: seq<Shelf>, b: BlobId)
    requires Fresh(v, shelves) && !Known(shelves, b)
    ensures Replace(v, b, IndexOf([])) == v
  {
    hide Known;
    FilterAll(Elsewhere(b), v.chunks);
    FilterAll(Elsewhere(b), v.completed);
    NothingTagged(b);
  }
}
