/** A round on a device that has nothing of its own to push. */
module FastForward {
  import opened Wrappers
  import opened Snapshots
  import opened Replay
  import opened Repo
  import opened Merge

  /** The tree holds exactly the manifest's files, but for those left pending. */
  ghost predicate Clean(d: Disk, files: Files) {
    d.tree.Keys <= files.Keys && forall p :: p in files ==> InSyncAt(d, files, p)
  }

  /** The remote's content is here as far as the device asked for it: all of it, or that of every file on disk, each of
    which the checkout knows. */
  ghost predicate Fetched(wt: WorkingTree, remote: Files)
    reads wt
  {
    || (forall p :: p in remote ==> wt.HasChunks(remote[p]))
    || (wt.tree.Keys <= wt.entries && forall p :: p in remote && p in wt.entries ==> wt.HasChunks(remote[p]))
  }

  /** On one chain the base is the lower of the two heads, and there is nothing to replay. */
  lemma NothingToReplay(H: Hasher, store: Store, local: Hash, remote: Hash)
    requires CollisionFree(H) && WellFormed(H, store) && local in store && remote in store
      && local in Chain(store, remote)
    ensures FindBase(store, local, remote) == Some(local)
    ensures RebasedHash(H, store, local, remote, Some(local)) == remote
  {
    hide CollisionFree, SnapshotHash, Rooted;
    BaseIsNearest(store, local, remote);
    ChainIsAcyclic(store, local);
    var base := FindBase(store, local, remote).value;
    ChainLinear(store, remote, base, local);
    ChainStep(store, local);
    assert Chain(store, local)[0] == local;
    assert Unpublished(store, Chain(store, local), Some(local)) == [];
    assert Todo(store, local, Some(local)) == [];
  }

  lemma StatusIsEmpty(was: Disk, now: Disk, journal: set<Path>, local: Files, remote: Files, merger: Merger,
                      chunks: set<Hash>)
    requires Clean(was, local) && OnlyCopiesNew(was.tree, now.tree, local, local, remote)
    requires forall p :: Settled(was, now, local, local, remote, merger, chunks, p)
    requires forall p :: p in remote && p in was.tree ==> Stored(remote[p], chunks)
    ensures ChangesOf(now, journal, remote) == map[] && now.tree.Keys <= remote.Keys
    ensures forall p :: p in remote ==> InSyncAt(now, remote, p)
    ensures forall p :: p in local && p !in remote ==> Gone(now, p)
  {
    hide Stored;
    forall p
      ensures p in remote ==> InSyncAt(now, remote, p) && ChangeAt(now, remote, p).None?
      ensures p in local && p !in remote ==> Gone(now, p)
    {
      assert Settled(was, now, local, local, remote, merger, chunks, p);
    }
    assert forall p :: !Clash(local, local, remote, p);
    assert forall p :: p in now.tree && p !in was.tree ==> p in Names(local, local, remote);
  }

  lemma InSyncStays(was: Disk, now: Disk, files: Files)
    requires now.tree == was.tree && PendingKept(was, now, files)
    requires forall p :: p in files ==> InSyncAt(was, files, p)
    ensures forall p :: p in files ==> InSyncAt(now, files, p)
    ensures forall p :: p !in was.pending ==> p !in now.pending
  {
  }

  /** Merge, rebase and snapshot, as a round runs them, where the device's head is on the remote head's chain and its
    tree is clean. Every remote path ends on disk with the manifest's content or pending, paths the remote dropped are
    gone, nothing is reported as a conflict, and the round ends at the remote head: there is nothing to push. */
  method Round(repo: Repo, wt: WorkingTree, remote: Hash, merger: Merger)
    returns (result: Option<MergeResult>, latest: Hash)
    requires repo.Valid() && WellFormed(repo.H, repo.store) && repo.head.Some?
    requires remote in repo.store && repo.head.value in Chain(repo.store, remote)
    requires Clean(wt.Now(), repo.store[repo.head.value].files) && Fetched(wt, repo.store[remote].files)
    requires forall p, q :: p in repo.store[remote].files && q in repo.store[remote].files && Under(p, q) ==> p == q
    modifies repo, wt
    ensures result.Some? && result.value.conflicts == [] && result.value.unresolved == []
    ensures latest == remote && repo.head == Some(remote)
    ensures var files := old(repo.store)[remote].files;
            && (forall p :: p in files ==> InSyncAt(wt.Now(), files, p))
            && (forall p :: p in wt.tree ==> p in files)
            && forall p :: p in old(wt.tree) && p !in files ==> p !in wt.tree && p !in wt.pending
  {
    hide CollisionFree, SnapshotHash, Rooted, Chain, Stored, ChangesOf, PendingKept, Kept, OnlyCopiesNew, NoEditLost,
      RebasedHash, Under, Settled, Reported;
    var local := repo.head.value;
    ghost var was := wt.Now();
    NothingToReplay(repo.H, repo.store, local, remote);
    var localFiles, remoteFiles := repo.store[local].files, repo.store[remote].files;
    var base := repo.FindBaseSnapshot(local, remote);
    result := wt.Merge(localFiles, localFiles, remoteFiles, merger);
    assert Mergeable(was, localFiles, localFiles, remoteFiles);
    assert forall p :: !Blocked(localFiles, localFiles, remoteFiles, wt.chunks, was.tree, p);
    QuietReport(result.value, was.tree, localFiles, localFiles, remoteFiles, merger, wt.chunks,
                Names(localFiles, localFiles, remoteFiles));
    StatusIsEmpty(was, wt.Now(), wt.journal, localFiles, remoteFiles, merger, wt.chunks);
    var outcome := repo.Rebase(local, remote, base);
    ghost var merged := wt.Now();
    var changes := wt.Status(repo.store[repo.head.value].files);
    InSyncStays(merged, wt.Now(), remoteFiles);
    // With nothing changed, a snapshot is the head itself.
    assert changes == map[];
    latest := repo.head.value;
  }
}
