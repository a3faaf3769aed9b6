/** The content-addressed snapshot store every repository and the remote keep. */
module Snapshots {
  import opened Wrappers

  type Hash = string
  type Path = string

  /** One file of a manifest. `hash` is the whole content's, `identity` the document's own id. */
  datatype Entry = Entry(hash: Hash, identity: Option<string>, fileId: Option<string>, chunks: seq<Hash>)

  type Files = map<Path, Entry>

  datatype Snapshot = Snapshot(hash: Hash, parent: Option<Hash>, files: Files)

  type Store = map<Hash, Snapshot>

  /** The address of every pair of parent and manifest. */
  type Hasher = imap<(Option<Hash>, Files), Hash>

  ghost predicate CollisionFree(H: Hasher) {
    && (forall key :: key in H)
    && (forall key, other {:trigger H[key], H[other]} :: H[key] == H[other] ==> key == other)
  }

  function SnapshotHash(H: Hasher, parent: Option<Hash>, files: Files): Hash {
    if (parent, files) in H then H[(parent, files)] else ""
  }

  /** An address commits to both the parent and the files. */
  lemma AddressCommits(H: Hasher, s: Snapshot, t: Snapshot)
    requires CollisionFree(H) && s.hash == t.hash
    requires s == Sealed(H, s.parent, s.files) && t == Sealed(H, t.parent, t.files)
    ensures s == t
  {
    assert H[(s.parent, s.files)] == H[(t.parent, t.files)];
  }

  /** A snapshot under its own address. */
  function Sealed(H: Hasher, parent: Option<Hash>, files: Files): Snapshot {
    Snapshot(SnapshotHash(H, parent, files), parent, files)
  }

  /** What a checkpoint changed about a file is its content and its identity, nothing else. */
  predicate SameEntry(a: Option<Entry>, b: Option<Entry>) {
    if a.None? || b.None? then a.None? && b.None?
    else a.value.hash == b.value.hash && a.value.identity == b.value.identity
  }

  /** Every object proves itself: it sits under the address of its own parent and files. */
  ghost predicate Addressed(H: Hasher, store: Store) {
    forall h :: h in store ==> store[h] == Sealed(H, store[h].parent, store[h].files) && store[h].hash == h
  }

  /** Parents are stored, and are older than their children. */
  ghost predicate Ranked(store: Store, rank: map<Hash, nat>) {
    forall h :: h in store ==>
      && h in rank
      && (store[h].parent.Some? ==> store[h].parent.value in store && store[h].parent.value in rank
                                    && rank[store[h].parent.value] < rank[h])
  }

  /** Every parent chain is stored down to a snapshot that has no parent. */
  ghost predicate Rooted(store: Store) {
    exists rank :: Ranked(store, rank)
  }

  /** A snapshot without a parent is the empty one. */
  ghost predicate EmptyRoots(store: Store) {
    forall h :: h in store && store[h].parent.None? ==> store[h].files == map[]
  }

  ghost predicate WellFormed(H: Hasher, store: Store) {
    Addressed(H, store) && EmptyRoots(store) && Rooted(store)
  }

  /** The walk down a parent chain, newest first: it ends at a root, at a snapshot that is not stored, or where it
    would repeat itself. */
  function Ancestry(store: Store, current: Option<Hash>, visited: set<Hash>): seq<Hash>
    decreases store.Keys - visited
  {
    if current.None? || current.value in visited || current.value !in store then []
    else
      var h := current.value;
      [h] + Ancestry(store, store[h].parent, visited + {h})
  }

  function Chain(store: Store, h: Hash): seq<Hash> {
    Ancestry(store, Some(h), {})
  }

  /** On an acyclic store the visited set never matters. */
  lemma {:induction false} VisitedIrrelevant(store: Store, rank: map<Hash, nat>, current: Option<Hash>,
                                             visited: set<Hash>)
    requires Ranked(store, rank) && (current.Some? ==> current.value in store)
    requires current.Some? ==> forall v :: v in visited && v in store ==> rank[current.value] < rank[v]
    ensures Ancestry(store, current, visited) == Ancestry(store, current, {})
    decreases if current.Some? then rank[current.value] + 1 else 0
  {
    if current.Some? {
      var h := current.value;
      VisitedIrrelevant(store, rank, store[h].parent, visited + {h});
      VisitedIrrelevant(store, rank, store[h].parent, {} + {h});
    }
  }

  lemma RankedStep(store: Store, rank: map<Hash, nat>, h: Hash)
    requires Ranked(store, rank) && h in store
    ensures Chain(store, h) == [h] + if store[h].parent.Some? then Chain(store, store[h].parent.value) else []
  {
    VisitedIrrelevant(store, rank, store[h].parent, {h});
    assert {} + {h} == {h};
  }

  lemma ChainStep(store: Store, h: Hash)
    requires Rooted(store) && h in store
    ensures Chain(store, h) == [h] + if store[h].parent.Some? then Chain(store, store[h].parent.value) else []
    ensures store[h].parent.Some? ==> store[h].parent.value in store
  {
    var rank :| Ranked(store, rank);
    RankedStep(store, rank, h);
  }

  /** The list of a chain: stored, each followed by its parent, the last one without a parent. */
  ghost predicate Linked(store: Store, c: seq<Hash>) {
    && |c| > 0
    && (forall i :: 0 <= i < |c| ==> c[i] in store)
    && (forall i, j :: 0 <= i && j == i + 1 && j < |c| ==> store[c[i]].parent == Some(c[j]))
    && store[c[|c| - 1]].parent == None
  }

  /** The chain of a stored snapshot is stored to its root and names no snapshot twice. */
  lemma {:induction false} RankedChain(store: Store, rank: map<Hash, nat>, h: Hash)
    requires Ranked(store, rank) && h in store
    ensures Linked(store, Chain(store, h)) && Chain(store, h)[0] == h
    ensures forall i, j :: 0 <= i < j < |Chain(store, h)| ==> rank[Chain(store, h)[j]] < rank[Chain(store, h)[i]]
    decreases rank[h]
  {
    RankedStep(store, rank, h);
    if store[h].parent.Some? {
      RankedChain(store, rank, store[h].parent.value);
      var c, rest := Chain(store, h), Chain(store, store[h].parent.value);
      assert forall i :: 0 < i < |c| ==> c[i] == rest[i - 1];
    }
  }

  lemma ChainIsAcyclic(store: Store, h: Hash)
    requires Rooted(store) && h in store
    ensures Linked(store, Chain(store, h)) && Chain(store, h)[0] == h
    ensures forall i, j :: 0 <= i < j < |Chain(store, h)| ==> Chain(store, h)[i] != Chain(store, h)[j]
  {
    var rank :| Ranked(store, rank);
    RankedChain(store, rank, h);
  }

  /** What hangs below a member of a chain hangs below its head. */
  lemma {:induction false} ChainSuffix(store: Store, h: Hash, i: nat)
    requires Rooted(store) && h in store && i < |Chain(store, h)|
    ensures Chain(store, h)[i] in store && Chain(store, h)[i..] == Chain(store, Chain(store, h)[i])
    decreases i
  {
    ChainStep(store, h);
    if i > 0 {
      var p := store[h].parent.value;
      ChainSuffix(store, p, i - 1);
      assert Chain(store, h)[i..] == Chain(store, p)[i - 1..];
    }
  }

  lemma ChainTransitive(store: Store, h: Hash, t: Hash)
    requires Rooted(store) && h in store && t in Chain(store, h)
    ensures t in store && forall u :: u in Chain(store, t) ==> u in Chain(store, h)
  {
    var i :| 0 <= i < |Chain(store, h)| && Chain(store, h)[i] == t;
    ChainSuffix(store, h, i);
    assert forall u :: u in Chain(store, h)[i..] ==> u in Chain(store, h);
  }

  /** Two members of one chain are on each other's chain, one way or the other, and both ways only if equal. */
  lemma ChainLinear(store: Store, h: Hash, t: Hash, u: Hash)
    requires Rooted(store) && h in store && t in Chain(store, h) && u in Chain(store, h)
    ensures t in store && u in store && (t in Chain(store, u) || u in Chain(store, t))
    ensures t in Chain(store, u) && u in Chain(store, t) ==> t == u
  {
    var c := Chain(store, h);
    ChainIsAcyclic(store, h);
    var i :| 0 <= i < |c| && c[i] == t;
    var j :| 0 <= j < |c| && c[j] == u;
    ChainSuffix(store, h, i);
    ChainSuffix(store, h, j);
    if i <= j {
      assert c[i..][j - i] == u;
    } else {
      assert c[j..][i - j] == t;
    }
    var rank :| Ranked(store, rank);
    RankedChain(store, rank, t);
    RankedChain(store, rank, u);
  }

  /** Storing more never changes what is already there. */
  ghost predicate Grows(small: Store, big: Store) {
    forall h :: h in small ==> h in big && big[h] == small[h]
  }

  lemma {:induction false} ChainGrows(small: Store, big: Store, rank: map<Hash, nat>, h: Hash)
    requires Ranked(small, rank) && Rooted(big) && Grows(small, big) && h in small
    ensures Chain(big, h) == Chain(small, h)
    decreases rank[h]
  {
    RankedStep(small, rank, h);
    ChainStep(big, h);
    if small[h].parent.Some? {
      ChainGrows(small, big, rank, small[h].parent.value);
    }
  }

  lemma ChainStable(small: Store, big: Store, h: Hash)
    requires Rooted(small) && Rooted(big) && Grows(small, big) && h in small
    ensures Chain(big, h) == Chain(small, h)
  {
    var rank :| Ranked(small, rank);
    ChainGrows(small, big, rank, h);
  }

  lemma RootedGrows(store: Store, s: Snapshot)
    requires Rooted(store) && s.hash !in store && (s.parent.Some? ==> s.parent.value in store)
    ensures Rooted(store[s.hash := s])
  {
    var rank :| Ranked(store, rank);
    var next := if s.parent.Some? then rank[s.parent.value] + 1 else 0;
    assert Ranked(store[s.hash := s], rank[s.hash := next]);
  }

  /** Writing a sealed snapshot on a stored parent, or the empty root, keeps the store well formed and changes
    nothing that was there. */
  lemma StoreSealed(H: Hasher, store: Store, parent: Option<Hash>, files: Files)
    requires CollisionFree(H) && WellFormed(H, store)
    requires if parent.Some? then parent.value in store else files == map[]
    ensures var s := Sealed(H, parent, files);
            WellFormed(H, store[s.hash := s]) && Grows(store, store[s.hash := s])
  {
    hide CollisionFree, SnapshotHash, Rooted;
    var s := Sealed(H, parent, files);
    var big := store[s.hash := s];
    if s.hash in store {
      AddressCommits(H, store[s.hash], s);
      assert big == store;
    } else {
      RootedGrows(store, s);
    }
  }

  /** Two stores of addressed objects cannot disagree about the history of a snapshot they both hold. */
  lemma {:induction false} RankedAgree(H: Hasher, one: Store, other: Store, rank: map<Hash, nat>, h: Hash)
    requires CollisionFree(H) && Addressed(H, one) && Addressed(H, other)
    requires Ranked(one, rank) && Rooted(other) && h in one && h in other
    ensures Chain(one, h) == Chain(other, h)
    decreases rank[h]
  {
    hide CollisionFree, SnapshotHash;
    RankedStep(one, rank, h);
    ChainStep(other, h);
    AddressCommits(H, one[h], other[h]);
    if one[h].parent.Some? {
      RankedAgree(H, one, other, rank, one[h].parent.value);
    }
  }

  lemma ChainsAgree(H: Hasher, one: Store, other: Store, h: Hash)
    requires CollisionFree(H) && WellFormed(H, one) && WellFormed(H, other) && h in one && h in other
    ensures one[h] == other[h] && Chain(one, h) == Chain(other, h)
  {
    hide CollisionFree, SnapshotHash;
    var rank :| Ranked(one, rank);
    RankedAgree(H, one, other, rank, h);
    AddressCommits(H, one[h], other[h]);
  }
}
