/**
 Preserving a pinned Docker manifest in an OCI image layout, where a blob is stored under the
 digest of its bytes (OCI Image Format Specification, "OCI Content Descriptors", Digests).

 Hashing and parsing are parameters. Files are written whole or not at all.
 */
module BlobClosure {
  import opened Prelude

  type Bytes = string
  type Digest = string

  // size is negative when the descriptor gives none.
  datatype Blob = Blob(digest: Digest, size: int)

  datatype Graph = Graph(manifests: seq<Digest>, config: Blob, layers: seq<Blob>)

  datatype MediaType = NoMediaType | DockerList | OCIIndex | DockerManifest | OCIManifest | Unsupported

  /** What a digest is, and what the source serves.
      rank: a manifest ranks above those it lists, as hashes cannot be cyclic. */
  datatype Registry = Registry(
    hash: Bytes -> Digest,
    valid: Digest -> bool,
    parse: Bytes -> Option<Graph>,
    guess: Bytes -> MediaType,
    served: Digest -> (Bytes, MediaType),
    blob: Digest -> Bytes,
    rank: Digest -> nat)
  {
    ghost predicate Acyclic() {
      forall data: Bytes, c: Digest | parse(data).Some? && c in parse(data).value.manifests :: rank(c) < rank(hash(data))
    }

    function Data(d: Digest): Bytes {
      served(d).0
    }

    function Type(d: Digest): MediaType {
      if served(d).1 == NoMediaType then guess(Data(d)) else served(d).1
    }
  }

  type Store = map<Digest, Bytes>

  ghost predicate WellHashed(r: Registry, store: Store) {
    forall d | d in store :: r.hash(store[d]) == d
  }

  predicate Present(r: Registry, store: Store, b: Blob) {
    r.valid(b.digest) && b.digest in store
  }

  predicate AllPresent(r: Registry, store: Store, blobs: seq<Blob>) {
    forall i | 0 <= i < |blobs| :: Present(r, store, blobs[i])
  }

  // The blob is there, or the source serves the bytes and the size the descriptor asks for.
  predicate Fetchable(r: Registry, store: Store, b: Blob) {
    && r.valid(b.digest)
    && (b.digest in store || (r.hash(r.blob(b.digest)) == b.digest && (b.size < 0 || |r.blob(b.digest)| == b.size)))
  }

  lemma AllPresentNext(r: Registry, before: Store, store: Store, blobs: seq<Blob>, i: nat)
    requires i < |blobs| && before.Keys <= store.Keys
    requires AllPresent(r, before, blobs[..i]) && Present(r, store, blobs[i])
    ensures AllPresent(r, store, blobs[..i + 1])
  {
    forall j | 0 <= j < i ensures Present(r, store, blobs[j]) { assert Present(r, before, blobs[..i][j]); }
  }

  predicate AllFetchable(r: Registry, store: Store, blobs: seq<Blob>) {
    forall i | 0 <= i < |blobs| :: Fetchable(r, store, blobs[i])
  }

  // Everything reachable from d is in the store.
  ghost predicate Closed(r: Registry, store: Store, d: Digest)
    requires r.Acyclic()
    decreases r.rank(d)
  {
    && d in store && r.valid(d) && r.hash(r.Data(d)) == d && r.parse(r.Data(d)).Some?
    && var g := r.parse(r.Data(d)).value;
    match r.Type(d)
    case DockerList => g.manifests != [] && forall c | c in g.manifests :: Closed(r, store, c)
    case OCIIndex => g.manifests != [] && forall c | c in g.manifests :: Closed(r, store, c)
    case DockerManifest => Present(r, store, g.config) && AllPresent(r, store, g.layers)
    case OCIManifest => Present(r, store, g.config) && AllPresent(r, store, g.layers)
    case _ => false
  }

  // The source serves the whole graph of d as the digests ask for, blobs in the store apart.
  ghost predicate Servable(r: Registry, store: Store, d: Digest)
    requires r.Acyclic()
    decreases r.rank(d)
  {
    && r.valid(d) && r.hash(r.Data(d)) == d && r.parse(r.Data(d)).Some?
    && var g := r.parse(r.Data(d)).value;
    match r.Type(d)
    case DockerList => g.manifests != [] && forall c | c in g.manifests :: Servable(r, store, c)
    case OCIIndex => g.manifests != [] && forall c | c in g.manifests :: Servable(r, store, c)
    case DockerManifest => Fetchable(r, store, g.config) && AllFetchable(r, store, g.layers)
    case OCIManifest => Fetchable(r, store, g.config) && AllFetchable(r, store, g.layers)
    case _ => false
  }

  lemma {:induction false} ServableGrows(r: Registry, store: Store, larger: Store, d: Digest)
    requires r.Acyclic() && Servable(r, store, d) && store.Keys <= larger.Keys
    ensures Servable(r, larger, d)
    decreases r.rank(d)
  {
    var g := r.parse(r.Data(d)).value;
    if r.Type(d) == DockerList || r.Type(d) == OCIIndex {
      forall c | c in g.manifests ensures Servable(r, larger, c) { ServableGrows(r, store, larger, c); }
    }
  }

  ghost predicate AllClosed(r: Registry, store: Store, ds: seq<Digest>)
    requires r.Acyclic()
  {
    forall c | c in ds :: Closed(r, store, c)
  }

  ghost predicate AllServable(r: Registry, store: Store, ds: seq<Digest>)
    requires r.Acyclic()
  {
    forall c | c in ds :: Servable(r, store, c)
  }

  lemma AllClosedNext(r: Registry, before: Store, store: Store, ds: seq<Digest>, i: nat)
    requires r.Acyclic() && i < |ds| && before.Keys <= store.Keys
    requires AllClosed(r, before, ds[..i]) && Closed(r, store, ds[i])
    ensures AllClosed(r, store, ds[..i + 1])
  {
    forall c | c in ds[..i + 1] ensures Closed(r, store, c) {
      if c in ds[..i] { ClosedGrows(r, before, store, c); }
    }
  }

  lemma ServableStill(r: Registry, first: Store, before: Store, ds: seq<Digest>, i: nat)
    requires r.Acyclic() && i < |ds| && first.Keys <= before.Keys
    ensures AllServable(r, first, ds) ==> Servable(r, before, ds[i])
  {
    if AllServable(r, first, ds) { ServableGrows(r, first, before, ds[i]); }
  }

  // The digests reachable from d in at most n steps.
  ghost predicate Reachable(r: Registry, d: Digest, x: Digest, n: nat)
    decreases n
  {
    x == d ||
    (n > 0 && r.parse(r.Data(d)).Some? &&
     var g := r.parse(r.Data(d)).value;
     match r.Type(d)
     case DockerList => exists c | c in g.manifests :: Reachable(r, c, x, n - 1)
     case OCIIndex => exists c | c in g.manifests :: Reachable(r, c, x, n - 1)
     case DockerManifest => x == g.config.digest || exists i | 0 <= i < |g.layers| :: g.layers[i].digest == x
     case OCIManifest => x == g.config.digest || exists i | 0 <= i < |g.layers| :: g.layers[i].digest == x
     case _ => false)
  }

  // In a closed store every reachable digest is present, and with the bytes it names.
  lemma {:induction false} ClosedIsReachable(r: Registry, store: Store, d: Digest, x: Digest, n: nat)
    requires r.Acyclic() && WellHashed(r, store) && Closed(r, store, d) && Reachable(r, d, x, n)
    ensures x in store && r.hash(store[x]) == x
    decreases n
  {
    if x != d {
      var g := r.parse(r.Data(d)).value;
      if r.Type(d) == DockerList || r.Type(d) == OCIIndex {
        var c :| c in g.manifests && Reachable(r, c, x, n - 1);
        ClosedIsReachable(r, store, c, x, n - 1);
      }
    }
  }

  // A larger store stays closed.
  lemma {:induction false} ClosedGrows(r: Registry, store: Store, larger: Store, d: Digest)
    requires r.Acyclic() && Closed(r, store, d) && store.Keys <= larger.Keys
    ensures Closed(r, larger, d)
    decreases r.rank(d)
  {
    var g := r.parse(r.Data(d)).value;
    if r.Type(d) == DockerList || r.Type(d) == OCIIndex {
      forall c | c in g.manifests ensures Closed(r, larger, c) { ClosedGrows(r, store, larger, c); }
    }
  }

  ghost predicate Reaches(r: Registry, d: Digest, x: Digest) {
    exists n: nat :: Reachable(r, d, x, n)
  }

  predicate Lists(r: Registry, d: Digest) {
    r.parse(r.Data(d)).Some? && (r.Type(d) == DockerList || r.Type(d) == OCIIndex)
  }

  lemma ReachesThrough(r: Registry, d: Digest, c: Digest, x: Digest)
    requires Lists(r, d) && c in r.parse(r.Data(d)).value.manifests && Reaches(r, c, x)
    ensures Reaches(r, d, x)
  {
    var n: nat :| Reachable(r, c, x, n);
    assert Reachable(r, d, x, n + 1);
  }

  lemma ReachesBlob(r: Registry, d: Digest, b: Blob)
    requires r.parse(r.Data(d)).Some? && (r.Type(d) == DockerManifest || r.Type(d) == OCIManifest)
    requires var g := r.parse(r.Data(d)).value; b == g.config || b in g.layers
    ensures Reaches(r, d, b.digest)
  {
    assert Reachable(r, d, b.digest, 1);
  }

  // Nothing is stored but what is reachable from d.
  ghost predicate OnlyReached(r: Registry, before: Store, store: Store, d: Digest) {
    && before.Keys <= store.Keys
    && forall x | x in store && x !in before :: Reaches(r, d, x)
  }

  // An entry of index.json; tag is the reference-name annotation, empty when there is none.
  datatype Entry = Entry(tag: string, digest: Digest, mediaType: MediaType, size: int, rest: string)

  function Count(index: seq<Entry>, tag: string): nat {
    if index == [] then 0 else (if index[|index| - 1].tag == tag then 1 else 0) + Count(index[..|index| - 1], tag)
  }

  class Layout {
    const r: Registry
    var store: Store
    var index: seq<Entry>
    // How many calls have failed.
    ghost var faults: nat

    ghost predicate Valid() reads this {
      r.Acyclic() && WellHashed(r, store)
    }

    constructor (registry: Registry, blobs: Store, entries: seq<Entry>)
      requires registry.Acyclic() && WellHashed(registry, blobs)
      ensures Valid() && r == registry && store == blobs && index == entries && faults == 0
    {
      r, store, index, faults := registry, blobs, entries, 0;
    }

    // A call that may fail.
    method Call() returns (ok: bool)
      modifies `faults
      ensures faults == old(faults) + if ok then 0 else 1
    {
      ok := *;
      if !ok { faults := faults + 1; }
    }

    // preserveSourceBlob: it succeeds exactly when no call fails and the blob is there or served with
    // its digest and size, and stores no more than that.
    method PreserveBlob(b: Blob) returns (ok: bool)
      requires Valid()
      modifies `store, `faults
      ensures Valid() && faults >= old(faults) && old(store).Keys <= store.Keys
      ensures ok <==> faults == old(faults) && Fetchable(r, old(store), b)
      ensures store == if ok && b.digest !in old(store) then old(store)[b.digest := r.blob(b.digest)] else old(store)
    {
      if !r.valid(b.digest) { return false; }
      var checked := Call();
      if !checked { return false; }
      if b.digest in store { return true; }
      var copied := Call();
      var data := r.blob(b.digest);
      if !copied || r.hash(data) != b.digest || (b.size >= 0 && |data| != b.size) { return false; }
      var renamed := Call();
      if !renamed { return false; }
      store := store[b.digest := data];
      ok := true;
    }

    // preserveSourceManifest: the graph below first, then the manifest itself. It succeeds when no
    // call fails and all is served as asked for; success means the whole graph is there; and it
    // stores only what is of the graph.
    method PreserveManifest(d: Digest) returns (ok: bool)
      requires Valid()
      modifies `store, `faults
      ensures Valid() && faults >= old(faults) && OnlyReached(r, old(store), store, d)
      ensures ok ==> faults == old(faults) && Closed(r, store, d)
      ensures faults == old(faults) && Servable(r, old(store), d) ==> ok
      decreases r.rank(d)
    {
      var read := Call();
      if !read { return false; }
      var data, mediaType := r.Data(d), r.Type(d);
      if !r.valid(d) || r.hash(data) != d || r.parse(data).None? { return false; }
      var g := r.parse(data).value;
      match mediaType {
        case DockerList => ok := PreserveAll(d, g.manifests);
        case OCIIndex => ok := PreserveAll(d, g.manifests);
        case DockerManifest => ok := PreserveBlobs(d, g);
        case OCIManifest => ok := PreserveBlobs(d, g);
        case _ => return false;
      }
      if !ok { return; }
      var written := Call();
      if !written { return false; }
      ghost var before := store;
      store := store[d := data];
      assert Reachable(r, d, d, 0);
      if mediaType == DockerList || mediaType == OCIIndex {
        forall c | c in g.manifests ensures Closed(r, store, c) { ClosedGrows(r, before, store, c); }
      }
    }

    // The instances of a manifest list, which must have one.
    method PreserveAll(d: Digest, children: seq<Digest>) returns (ok: bool)
      requires Valid() && Lists(r, d) && children == r.parse(r.Data(d)).value.manifests
      requires forall c | c in children :: r.rank(c) < r.rank(d)
      modifies `store, `faults
      ensures Valid() && faults >= old(faults) && OnlyReached(r, old(store), store, d)
      ensures ok ==> faults == old(faults) && children != [] && AllClosed(r, store, children)
      ensures faults == old(faults) && children != [] && AllServable(r, old(store), children) ==> ok
      decreases r.rank(d), 0
    {
      if children == [] { return false; }
      for i := 0 to |children|
        invariant Valid() && faults == old(faults) && OnlyReached(r, old(store), store, d)
        invariant AllClosed(r, store, children[..i])
      {
        ghost var before := store;
        ServableStill(r, old(store), before, children, i);
        ok := PreserveManifest(children[i]);
        ReachedThrough(r, old(store), before, store, d, children[i]);
        if !ok { return; }
        AllClosedNext(r, before, store, children, i);
      }
      assert children[..|children|] == children;
      ok := true;
    }

    // A blob of the image manifest of d, while the graph of d is being stored.
    method PreserveOf(ghost first: Store, ghost d: Digest, b: Blob) returns (ok: bool)
      requires Valid() && OnlyReached(r, first, store, d) && Reaches(r, d, b.digest)
      modifies `store, `faults
      ensures Valid() && faults >= old(faults) && old(store).Keys <= store.Keys && OnlyReached(r, first, store, d)
      ensures ok ==> faults == old(faults) && Present(r, store, b)
      ensures faults == old(faults) && Fetchable(r, first, b) ==> ok
    {
      ok := PreserveBlob(b);
    }

    // The configuration and the layers of an image manifest.
    method PreserveBlobs(d: Digest, g: Graph) returns (ok: bool)
      requires Valid() && r.parse(r.Data(d)) == Some(g) && (r.Type(d) == DockerManifest || r.Type(d) == OCIManifest)
      modifies `store, `faults
      ensures Valid() && faults >= old(faults) && OnlyReached(r, old(store), store, d)
      ensures ok ==> faults == old(faults) && Present(r, store, g.config) && AllPresent(r, store, g.layers)
      ensures faults == old(faults) && Fetchable(r, old(store), g.config) && AllFetchable(r, old(store), g.layers) ==> ok
    {
      ghost var first := store;
      ReachesBlob(r, d, g.config);
      ok := PreserveOf(first, d, g.config);
      if !ok { return; }
      for i := 0 to |g.layers|
        invariant Valid() && faults == old(faults) && OnlyReached(r, first, store, d)
        invariant Present(r, store, g.config) && AllPresent(r, store, g.layers[..i])
      {
        ghost var before := store;
        ReachesBlob(r, d, g.layers[i]);
        ok := PreserveOf(first, d, g.layers[i]);
        if !ok { return; }
        AllPresentNext(r, before, store, g.layers, i);
      }
      assert g.layers[..|g.layers|] == g.layers;
      ok := true;
    }

    // The loop over the descriptors of the index.
    method Retag(tag: string, pinned: Digest, mediaType: MediaType, size: int) returns (entries: seq<Entry>, matches: nat)
      ensures matches == Count(index, tag) && |entries| == |index|
      ensures forall i | 0 <= i < |index| :: entries[i] ==
                if index[i].tag == tag then index[i].(digest := pinned, mediaType := mediaType, size := size) else index[i]
    {
      entries, matches := index, 0;
      for i := 0 to |entries|
        invariant |entries| == |index|
        invariant forall j | i <= j < |index| :: entries[j] == index[j]
        invariant forall j | 0 <= j < i :: entries[j] ==
                    if index[j].tag == tag then index[j].(digest := pinned, mediaType := mediaType, size := size) else index[j]
        invariant matches == Count(index[..i], tag)
      {
        assert index[..i + 1][..i] == index[..i];
        if entries[i].tag == tag {
          entries := entries[i := entries[i].(digest := pinned, mediaType := mediaType, size := size)];
          matches := matches + 1;
        }
      }
      assert index[..|index|] == index;
    }

    // preservePinnedDockerManifest: preserve the graph, then point the one descriptor with the tag
    // at the pinned manifest.
    method PreservePinned(tag: string, pinned: Digest) returns (ok: bool)
      requires Valid()
      modifies this
      ensures Valid() && OnlyReached(r, old(store), store, pinned)
      ensures ok ==> faults == old(faults) && Closed(r, store, pinned) && r.Type(pinned) in {DockerManifest, DockerList}
      ensures r.Type(pinned) in {DockerManifest, DockerList} && Count(old(index), tag) == 1 ==>
                (faults == old(faults) && Servable(r, old(store), pinned) ==> ok)
      ensures !ok ==> index == old(index)
      ensures ok ==> Count(old(index), tag) == 1
      ensures ok ==> forall i | 0 <= i < |old(index)| :: |index| == |old(index)| && index[i] ==
                       if old(index)[i].tag == tag
                       then old(index)[i].(digest := pinned, mediaType := r.Type(pinned), size := |r.Data(pinned)|)
                       else old(index)[i]
    {
      ok := PreserveManifest(pinned);
      if !ok { return; }
      var mediaType, size := r.Type(pinned), |r.Data(pinned)|;
      if mediaType != DockerManifest && mediaType != DockerList { return false; }
      var parsed := Call();
      if !parsed { return false; }
      var entries, matches := Retag(tag, pinned, mediaType, size);
      if matches != 1 { return false; }
      var written := Call();
      if !written { return false; }
      index := entries;
    }
  }

  // What preserving a listed manifest stores is reachable from the list.
  lemma ReachedThrough(r: Registry, first: Store, before: Store, store: Store, d: Digest, c: Digest)
    requires Lists(r, d) && c in r.parse(r.Data(d)).value.manifests
    requires OnlyReached(r, first, before, d) && OnlyReached(r, before, store, c)
    ensures OnlyReached(r, first, store, d)
  {
    forall x | x in store && x !in first ensures Reaches(r, d, x) {
      if x !in before { ReachesThrough(r, d, c, x); }
    }
  }
}
