/** Turning what a status found into the next snapshot. */
module SnapshotBuilder {
  import opened Wrappers
  import opened Snapshots
  import opened Merge
  import opened Repo

  /** What comes from outside: how the chunker cuts each content, and a random identifier for a file that needs one. */
  datatype Outside = Outside(chunking: map<Hash, seq<Hash>>, ids: map<Path, string>)

  predicate Gone(changes: map<Path, Change>, p: Path) {
    p in changes && changes[p] == Deleted
  }

  predicate Put(changes: map<Path, Change>, p: Path) {
    p in changes && changes[p] != Deleted
  }

  /** Whether a file that is gone had this content. */
  predicate Source(head: Files, changes: map<Path, Change>, q: Path, hash: Hash) {
    q in head && Gone(changes, q) && head[q].hash == hash
  }

  /** The first path, in the manifest's order, whose file is gone and had this content. */
  function RenamedFrom(order: seq<Path>, head: Files, changes: map<Path, Change>, hash: Hash): (r: Option<Path>)
    ensures r.Some? ==> r.value in order && Source(head, changes, r.value, hash)
    ensures r.None? ==> forall q :: q in order ==> !Source(head, changes, q, hash)
  {
    if order == [] then None
    else if Source(head, changes, order[0], hash) then Some(order[0])
    else RenamedFrom(order[1..], head, changes, hash)
  }

  /** Whose identifiers a path that was put takes over: its own, or those of the file it was renamed from. */
  function Previous(order: seq<Path>, head: Files, changes: map<Path, Change>, p: Path, hash: Hash): (r: Option<Path>)
    ensures r.Some? ==> r.value in head
  {
    if p in head then Some(p) else RenamedFrom(order, head, changes, hash)
  }

  function IdOf(head: Files, from: Option<Path>, freshId: string): string
    requires from.Some? ==> from.value in head
  {
    if from.Some? && head[from.value].fileId.Some? then head[from.value].fileId.value else freshId
  }

  /** All that changed paths need is at hand, and an identifier for every path. */
  ghost predicate Ready(head: Files, changes: map<Path, Change>, tree: map<Path, Hash>, outside: Outside) {
    && (forall p :: Put(changes, p) ==> p in tree && tree[p] in outside.chunking)
    && (forall p :: p in head || p in changes ==> p in outside.ids)
  }

  /** The next manifest's entry for a path. */
  ghost function EntryFor(order: seq<Path>, head: Files, changes: map<Path, Change>, tree: map<Path, Hash>,
                          outside: Outside, p: Path): Option<Entry>
    requires Ready(head, changes, tree, outside)
  {
    if Put(changes, p) then
      var from := Previous(order, head, changes, p, tree[p]);
      Some(Entry(tree[p], if from.Some? then head[from.value].identity else None,
                 Some(IdOf(head, from, outside.ids[p])),
                 outside.chunking[tree[p]]))
    else if p in head && p !in changes then Some(head[p].(fileId := Some(IdOf(head, Some(p), outside.ids[p]))))
    else None
  }

  ghost predicate Built(order: seq<Path>, head: Files, changes: map<Path, Change>, tree: map<Path, Hash>,
                        outside: Outside, files: Files)
    requires Ready(head, changes, tree, outside)
  {
    forall p :: Get(files, p) == EntryFor(order, head, changes, tree, outside, p)
  }

  /** The manifest as it is put together, before entries without an identifier are given one. */
  ghost predicate Building(order: seq<Path>, head: Files, changes: map<Path, Change>, tree: map<Path, Hash>,
                           outside: Outside, done: set<Path>, files: Files)
    requires Ready(head, changes, tree, outside)
  {
    forall p :: Get(files, p) == if p in done then EntryFor(order, head, changes, tree, outside, p) else Get(head, p)
  }

  /** Applies the changes to the head's manifest, storing the chunks of every file that was put. */
  method BuildManifest(wt: WorkingTree, order: seq<Path>, head: Files, changes: map<Path, Change>, outside: Outside)
    returns (files: Files)
    requires Ready(head, changes, wt.tree, outside)
    modifies wt`chunks
    ensures Built(order, head, changes, wt.tree, outside, files)
    ensures old(wt.chunks) <= wt.chunks
    ensures forall p :: p in files && p in changes ==> Stored(files[p], wt.chunks)
  {
    hide RenamedFrom;
    files := head;
    var todo := changes.Keys;
    while todo != {}
      invariant todo <= changes.Keys && old(wt.chunks) <= wt.chunks
      invariant Building(order, head, changes, wt.tree, outside, changes.Keys - todo, files)
      invariant forall p :: p in files && p in changes.Keys - todo ==> Stored(files[p], wt.chunks)
    {
      var p :| p in todo;
      ghost var done := changes.Keys - todo;
      todo := todo - {p};
      assert changes.Keys - todo == done + {p};
      if changes[p] == Deleted {
        files := files - {p};
      } else {
        var hash := wt.tree[p];
        var chunks := outside.chunking[hash];
        wt.chunks := wt.chunks + set c | c in chunks;
        var from := Previous(order, head, changes, p, hash);
        files := files[p := Entry(hash, if from.Some? then head[from.value].identity else None,
                                  Some(IdOf(head, from, outside.ids[p])), chunks)];
      }
    }
    assert changes.Keys - todo == changes.Keys;
    files := CompleteEntries(order, head, changes, wt.tree, outside, files);
  }

  /** Gives every entry that has no identifier one. */
  method CompleteEntries(ghost order: seq<Path>, ghost head: Files, ghost changes: map<Path, Change>,
                         ghost tree: map<Path, Hash>, outside: Outside, before: Files) returns (files: Files)
    requires Ready(head, changes, tree, outside) && Building(order, head, changes, tree, outside, changes.Keys, before)
    ensures Built(order, head, changes, tree, outside, files)
    ensures forall p :: p in files ==> p in before && files[p].chunks == before[p].chunks
  {
    files := before;
    var todo := files.Keys;
    while todo != {}
      invariant todo <= files.Keys == before.Keys
      invariant forall p :: p in files ==> files[p] == before[p] || (p !in todo && before[p].fileId.None?)
      invariant forall p :: p in files && p !in todo ==>
        Some(files[p]) == EntryFor(order, head, changes, tree, outside, p)
      invariant forall p :: p in files ==> files[p].chunks == before[p].chunks
    {
      var p :| p in todo;
      todo := todo - {p};
      assert Get(before, p).Some?;
      if files[p].fileId.None? {
        files := files[p := files[p].(fileId := Some(outside.ids[p]))];
      }
    }
    forall p
      ensures Get(files, p) == EntryFor(order, head, changes, tree, outside, p)
    {
      assert Get(before, p)
        == if p in changes.Keys then EntryFor(order, head, changes, tree, outside, p) else Get(head, p);
    }
  }

  /** A snapshot leaves nothing to snapshot: against it, the tree it was taken of has no change. What it lists is on
    disk as listed, or pending as before. */
  lemma SnapshotIsClean(was: Disk, now: Disk, journal: set<Path>, order: seq<Path>, head: Files, outside: Outside,
                        files: Files)
    requires now.tree == was.tree && PendingKept(was, now, head)
    requires Ready(head, ChangesOf(was, journal, head), was.tree, outside)
    requires Built(order, head, ChangesOf(was, journal, head), was.tree, outside, files)
    ensures ChangesOf(now, {}, files) == map[]
    ensures (forall p :: p in head && p in was.pending ==> was.pending[p] == head[p].hash) ==>
      forall p :: InSyncAt(now, files, p)
    ensures (forall p :: p in was.tree ==> Looked(was, journal, head, p)) ==> now.tree.Keys <= files.Keys
  {
    hide Under, RenamedFrom;
    var changes := ChangesOf(was, journal, head);
    forall p | p in files
      ensures ChangeAt(now, files, p).None?
      ensures p in now.tree ==> now.tree[p] == files[p].hash
      ensures p !in now.tree ==>
        p in head && files[p].hash == head[p].hash && p in was.pending && Get(now.pending, p) == Get(was.pending, p)
    {
      assert Get(files, p) == EntryFor(order, head, changes, was.tree, outside, p);
      assert Put(changes, p) ==> ChangeAt(was, head, p).Some?;
      assert Looked(was, journal, head, p) || p in changes;
    }
    forall p | p in now.tree && Looked(was, journal, head, p)
      ensures p in files
    {
      assert Get(files, p) == EntryFor(order, head, changes, was.tree, outside, p);
    }
  }

  // What a reader of the next manifest finds.

  /** An entry for the same document and file as an earlier one; a file that had no identifier has a fresh one now. */
  ghost predicate SameFile(was: Entry, now: Entry, freshId: string) {
    now.identity == was.identity && now.fileId == if was.fileId.Some? then was.fileId else Some(freshId)
  }

  /** A path of the head whose file this round found gone, and which had this content. */
  ghost predicate WasThere(files: Files, changes: map<Path, Change>, q: Path, hash: Hash) {
    q in files && Get(changes, q) == Some(Deleted) && files[q].hash == hash
  }

  /** The next manifest lists what is on disk at every changed path, cut as the chunker cuts it, and the rest as
    before. A path keeps its file; a new path has the file of a path that is gone and had its content, and else is a
    new file. */
  ghost predicate Continues(files: Files, changes: map<Path, Change>, tree: map<Path, Hash>, outside: Outside,
                            next: Files) {
    forall p :: ContinuesAt(files, changes, tree, outside, next, p)
  }

  ghost predicate Inherits(files: Files, changes: map<Path, Change>, freshId: string, entry: Entry) {
    if exists q :: WasThere(files, changes, q, entry.hash)
    then exists q :: WasThere(files, changes, q, entry.hash) && SameFile(files[q], entry, freshId)
    else entry.identity.None? && entry.fileId == Some(freshId)
  }

  /** One path's entry. */
  ghost predicate ContinuesAt(files: Files, changes: map<Path, Change>, tree: map<Path, Hash>, outside: Outside,
                              next: Files, p: Path) {
    && (p in next ==> p in outside.ids && (p in files || p in changes) && Get(changes, p) != Some(Deleted))
    && (p in changes && changes[p] != Deleted ==>
          && p in next && p in tree && tree[p] in outside.chunking
          && next[p].hash == tree[p] && next[p].chunks == outside.chunking[tree[p]])
    && (p in files && p !in changes ==>
          p in next && next[p].hash == files[p].hash && next[p].chunks == files[p].chunks)
    && (p in files && p in next ==> SameFile(files[p], next[p], outside.ids[p]))
    && (p in next && p !in files ==> Inherits(files, changes, outside.ids[p], next[p]))
  }

  lemma EntryContinues(order: seq<Path>, head: Files, changes: map<Path, Change>, tree: map<Path, Hash>,
                       outside: Outside, files: Files, p: Path)
    requires Ready(head, changes, tree, outside) && (forall q :: q in order <==> q in head)
    requires Get(files, p) == EntryFor(order, head, changes, tree, outside, p)
    ensures ContinuesAt(head, changes, tree, outside, files, p)
  {
    hide RenamedFrom, Inherits;
    if p in files && p !in head {
      HasHeirs(order, head, changes, tree[p], outside.ids[p], files[p]);
    }
  }

  lemma HasHeirs(order: seq<Path>, head: Files, changes: map<Path, Change>, hash: Hash, freshId: string, entry: Entry)
    requires (forall q :: q in order <==> q in head) && entry.hash == hash
    requires var from := RenamedFrom(order, head, changes, hash);
             && entry.identity == (if from.Some? then head[from.value].identity else None)
             && entry.fileId == Some(IdOf(head, from, freshId))
    ensures Inherits(head, changes, freshId, entry)
  {
    hide RenamedFrom;
    var from := RenamedFrom(order, head, changes, hash);
    if from.Some? {
      assert WasThere(head, changes, from.value, hash);
    } else {
      forall q
        ensures !WasThere(head, changes, q, hash)
      {
        assert q in order ==> !Source(head, changes, q, hash);
      }
    }
  }

  lemma BuiltContinues(order: seq<Path>, head: Files, changes: map<Path, Change>, tree: map<Path, Hash>,
                       outside: Outside, files: Files)
    requires Ready(head, changes, tree, outside) && Built(order, head, changes, tree, outside, files)
    requires forall p :: p in order <==> p in head
    ensures Continues(head, changes, tree, outside, files)
  {
    hide EntryFor, Inherits, SameFile, Ready;
    forall p
      ensures ContinuesAt(head, changes, tree, outside, files, p)
    {
      EntryContinues(order, head, changes, tree, outside, files, p);
    }
  }

  /** The bytes of a list of chunks, put together. */
  function PutTogether(chunks: seq<Hash>, content: map<Hash, string>): string
    requires forall c :: c in chunks ==> c in content
  {
    if chunks == [] then "" else PutTogether(chunks[..|chunks| - 1], content) + content[chunks[|chunks| - 1]]
  }

  /** Nothing is lost or added in cutting: what a content is cut into is that content again. */
  ghost predicate CutsRight(chunking: map<Hash, seq<Hash>>, content: map<Hash, string>) {
    forall h :: h in chunking ==>
      && h in content && (forall c :: c in chunking[h] ==> c in content)
      && PutTogether(chunking[h], content) == content[h]
  }

  /** Whoever has the chunks that the next manifest lists for a changed path can restore what was on disk there. */
  lemma PutFilesReadBack(files: Files, changes: map<Path, Change>, tree: map<Path, Hash>, outside: Outside, next: Files,
                         content: map<Hash, string>, p: Path)
    requires Continues(files, changes, tree, outside, next) && CutsRight(outside.chunking, content)
    requires p in changes && changes[p] != Deleted
    ensures p in next && p in tree && tree[p] in content && forall c :: c in next[p].chunks ==> c in content
    ensures PutTogether(next[p].chunks, content) == content[tree[p]]
  {
    hide Inherits, SameFile;
    assert ContinuesAt(files, changes, tree, outside, next, p);
  }

  // Identifiers.

  /** No two files of the manifest have the same identifier. */
  ghost predicate DistinctIds(files: Files) {
    forall p, q :: p in files && q in files && p != q && files[p].fileId.Some? ==> files[p].fileId != files[q].fileId
  }

  /** Random identifiers are new, and differ from each other. */
  ghost predicate FreshIds(ids: map<Path, string>, head: Files) {
    && (forall p, q :: p in ids && q in ids && p != q ==> ids[p] != ids[q])
    && forall p, q :: p in ids && q in head ==> head[q].fileId != Some(ids[p])
  }

  /** Two files that were put take over the identifier of one file that is gone. */
  ghost predicate TwoHeirs(order: seq<Path>, head: Files, changes: map<Path, Change>, tree: map<Path, Hash>, p: Path,
                           q: Path) {
    && p != q && Put(changes, p) && Put(changes, q) && p !in head && q !in head && p in tree && q in tree
      && tree[p] == tree[q]
    && var from := RenamedFrom(order, head, changes, tree[p]);
       from.Some? && head[from.value].fileId.Some?
  }

  /** Where an entry of the next manifest has its identifier from. */
  ghost function Origin(order: seq<Path>, head: Files, changes: map<Path, Change>, tree: map<Path, Hash>,
                        p: Path): (r: Option<Path>)
    requires Put(changes, p) ==> p in tree
    ensures r.Some? ==> r.value in head
  {
    if Put(changes, p) then Previous(order, head, changes, p, tree[p]) else if p in head then Some(p) else None
  }

  /** The same path is the same file and a renamed file keeps its identifier, so identifiers should stay unique; they
    do, exactly unless one round puts two new files with the content of a file that is gone. */
  lemma IdsStayDistinctIff(order: seq<Path>, head: Files, changes: map<Path, Change>, tree: map<Path, Hash>,
                           outside: Outside, files: Files)
    requires Ready(head, changes, tree, outside) && Built(order, head, changes, tree, outside, files)
    requires DistinctIds(head) && FreshIds(outside.ids, head)
    ensures DistinctIds(files) <==> !exists p, q :: TwoHeirs(order, head, changes, tree, p, q)
  {
    hide RenamedFrom;
    forall p | p in files
      ensures p in outside.ids && (Put(changes, p) ==> p in tree)
      ensures files[p].fileId == Some(IdOf(head, Origin(order, head, changes, tree, p), outside.ids[p]))
      ensures !Gone(changes, p)
    {
      assert Get(files, p) == EntryFor(order, head, changes, tree, outside, p);
    }
    if p, q :| TwoHeirs(order, head, changes, tree, p, q) {
      assert Get(files, p) == EntryFor(order, head, changes, tree, outside, p);
      assert Get(files, q) == EntryFor(order, head, changes, tree, outside, q);
      assert files[p].fileId == files[q].fileId;
    }
    if !DistinctIds(files) {
      var p, q :| p in files && q in files && p != q && files[p].fileId.Some? && files[p].fileId == files[q].fileId;
      SameOrigin(order, head, changes, tree, outside, p, q);
    }
  }

  lemma SameOrigin(order: seq<Path>, head: Files, changes: map<Path, Change>, tree: map<Path, Hash>, outside: Outside,
                   p: Path, q: Path)
    requires DistinctIds(head) && FreshIds(outside.ids, head) && p != q && p in outside.ids && q in outside.ids
    requires (Put(changes, p) ==> p in tree) && (Put(changes, q) ==> q in tree) && !Gone(changes, p)
      && !Gone(changes, q)
    requires IdOf(head, Origin(order, head, changes, tree, p), outside.ids[p])
      == IdOf(head, Origin(order, head, changes, tree, q), outside.ids[q])
    ensures TwoHeirs(order, head, changes, tree, p, q)
  {
    hide RenamedFrom;
    var one, other := Origin(order, head, changes, tree, p), Origin(order, head, changes, tree, q);
    assert one.Some? && head[one.value].fileId.Some? && other.Some? && head[other.value].fileId.Some?;
    assert one == other;
    assert p in head ==> one == Some(p);
    assert q in head ==> other == Some(q);
  }

  /** One file renamed and copied in one round: both new files end up with its identifier. */
  lemma RenamedAndCopied()
    ensures var head: Files := map["a" := Entry("x", None, Some("1"), [])];
            DistinctIds(head)
            && TwoHeirs(["a"], head, map["a" := Deleted, "b" := Created, "c" := Created], map["b" := "x", "c" := "x"],
                        "b", "c")
  {
    var head: Files := map["a" := Entry("x", None, Some("1"), [])];
    var changes := map["a" := Deleted, "b" := Created, "c" := Created];
    assert Source(head, changes, "a", "x");
    assert RenamedFrom(["a"], head, changes, "x") == Some("a");
  }

  /** Status, manifest, object, head. Nothing is written when nothing changed; otherwise one snapshot of the tree is, on
    the head, and the journal is empty. */
  method SnapshotChanges(repo: Repo, wt: WorkingTree, order: seq<Path>, outside: Outside) returns (latest: Hash)
    requires repo.Valid() && WellFormed(repo.H, repo.store) && repo.head.Some? && FilesAreLeaves(wt.tree)
    requires forall p :: p in order <==> p in repo.store[repo.head.value].files
    requires forall p :: p in wt.tree ==> wt.tree[p] in outside.chunking
    requires forall p :: p in wt.tree || p in repo.store[repo.head.value].files ==> p in outside.ids
    modifies repo, wt
    ensures repo.Valid() && WellFormed(repo.H, repo.store) && Grows(old(repo.store), repo.store)
      && repo.head == Some(latest)
    ensures latest in repo.store && wt.tree == old(wt.tree)
    ensures HoldsTree(old(repo.store)[old(repo.head).value].files, old(wt.tree), old(wt.pending), old(wt.journal),
                      repo.store[latest].files)
    ensures var head := old(repo.head).value;
            var files := old(repo.store)[head].files;
            var changes := ChangesOf(old(wt.Now()), old(wt.journal), files);
            && (changes == map[] ==> latest == head && repo.store == old(repo.store) && wt.journal == old(wt.journal))
            && (changes != map[] ==>
                  && repo.store[latest].parent == Some(head) && wt.journal == {}
                  && Ready(files, changes, wt.tree, outside)
                    && Built(order, files, changes, wt.tree, outside, repo.store[latest].files)
                  && Continues(files, changes, wt.tree, outside, repo.store[latest].files)
                  && ChangesOf(wt.Now(), wt.journal, repo.store[latest].files) == map[]
                  && forall p :: p in repo.store[latest].files && p in changes ==>
                    Stored(repo.store[latest].files[p], wt.chunks))
  {
    hide CollisionFree, SnapshotHash, Rooted, ChangesOf, PendingKept, Under, Stored, Built, Continues, Tells;
    var head := repo.head.value;
    var files := repo.store[head].files;
    ghost var was := wt.Now();
    var changes := wt.Status(files);
    if changes == map[] {
      NextHoldsTree(files, changes, wt.tree, was.pending, wt.journal, outside, files);
      return head;
    }
    assert Ready(files, changes, wt.tree, outside) by {
      ChangesAreKnown(was, wt.journal, files);
    }
    var manifest := BuildManifest(wt, order, files, changes, outside);
    SnapshotIsClean(was, wt.Now(), wt.journal, order, files, outside, manifest);
    ChangesAreKnown(was, wt.journal, files);
    BuiltContinues(order, files, changes, wt.tree, outside, manifest);
    NextHoldsTree(files, changes, wt.tree, was.pending, wt.journal, outside, manifest);
    StoreSealed(repo.H, repo.store, Some(head), manifest);
    var next := Sealed(repo.H, Some(head), manifest);
    repo.store := repo.store[next.hash := next];
    var moved := repo.AdvanceHead(Some(head), next.hash);
    wt.journal := {};
    return next.hash;
  }

  /** A snapshot lists every file on disk that the last one listed or the journal knows of, at the content it has; and
    of the files that are not on disk, those that the last one listed and that were left pending. */
  ghost predicate HoldsTree(files: Files, tree: map<Path, Hash>, pending: map<Path, Hash>, journal: set<Path>,
                            next: Files) {
    && (forall p :: p in tree && (p in files || p in journal) ==> p in next && next[p].hash == tree[p])
    && (forall j, p :: j in journal && j !in files && p in tree && j + "/" <= p ==>
        p in next && next[p].hash == tree[p])
    && (forall p :: p in files && p !in tree && p in pending ==> p in next && next[p].hash == files[p].hash)
    && forall p :: p in next ==> if p in tree then next[p].hash == tree[p] else p in files && p in pending
  }

  lemma NextHoldsTree(files: Files, changes: map<Path, Change>, tree: map<Path, Hash>, pending: map<Path, Hash>,
                      journal: set<Path>, outside: Outside, next: Files)
    requires Tells(tree, pending, journal, files, changes)
    requires if changes == map[] then next == files else Continues(files, changes, tree, outside, next)
    ensures HoldsTree(files, tree, pending, journal, next)
  {
    hide SameFile, Inherits, Tells;
    forall p
      ensures p in tree && (p in files || p in changes) ==> p in next && next[p].hash == tree[p]
      ensures p in tree && p in journal ==> p in files || p in changes
      ensures p in files && p !in tree && p in pending ==> p in next && next[p].hash == files[p].hash
      ensures p in next && p !in tree ==> p in files && p in pending
      ensures p in next ==> p in files || p in changes
    {
      ToldAt(tree, pending, journal, files, changes, p);
      assert changes != map[] ==> ContinuesAt(files, changes, tree, outside, next, p);
    }
    forall j, p | j in journal && j !in files && p in tree && j + "/" <= p
      ensures p in files || p in changes
    {
      if p !in files {
        ToldUnder(tree, pending, journal, files, changes, j, p);
      }
    }
  }

  lemma ToldAt(tree: map<Path, Hash>, pending: map<Path, Hash>, journal: set<Path>, files: Files,
               changes: map<Path, Change>, p: Path)
    requires Tells(tree, pending, journal, files, changes)
    ensures p in files && p in tree && tree[p] != files[p].hash ==> Get(changes, p) == Some(Modified)
    ensures p in files && p !in tree && p !in pending ==> Get(changes, p) == Some(Deleted)
    ensures p in journal && p in tree && p !in files ==> Get(changes, p) == Some(Created)
    ensures p in changes ==>
      if p in tree then changes[p] != Deleted else changes[p] == Deleted && p in files && p !in pending
  {
  }

  lemma ToldUnder(tree: map<Path, Hash>, pending: map<Path, Hash>, journal: set<Path>, files: Files,
                  changes: map<Path, Change>, j: Path, p: Path)
    requires Tells(tree, pending, journal, files, changes)
    requires j in journal && j !in files && p in tree && p !in files && j + "/" <= p
    ensures Get(changes, p) == Some(Created)
  {
  }

  lemma ChangesAreKnown(d: Disk, journal: set<Path>, files: Files)
    ensures forall p :: p in ChangesOf(d, journal, files) ==>
      (p in d.tree || p in files) && (Put(ChangesOf(d, journal, files), p) ==> p in d.tree)
  {
    hide Under;
  }
}
