/** The manifest a recorded checkpoint leaves behind. */
module FileHistory {
  import opened Wrappers
  import opened Snapshots

  /** A version of one file, saved from outside the working tree. */
  datatype Checkpoint = Checkpoint(path: Path, hash: Hash, identity: Option<string>, chunks: seq<Hash>)

  function EntryOf(c: Checkpoint, fileId: Option<string>): Entry {
    Entry(c.hash, c.identity, fileId, c.chunks)
  }

  /** Whether a manifest already holds this version. */
  predicate Holds(files: Files, c: Checkpoint) {
    c.path in files && files[c.path].hash == c.hash && files[c.path].identity == c.identity
  }

  /** A manifest with the checkpoint in it: the document is at its path and nowhere else. `fresh` is the id a file
    that has none is given. */
  function CheckpointFiles(files: Files, c: Checkpoint, freshId: string): (r: Files)
    ensures Holds(r, c) && r[c.path].chunks == c.chunks
    ensures r[c.path].fileId == if c.path in files
      && files[c.path].fileId.Some? then files[c.path].fileId else Some(freshId)
    ensures forall p :: p in r && p != c.path ==> p in files && r[p] == files[p]
    ensures c.identity.Some? ==> forall p :: p in r && r[p].identity == c.identity ==> p == c.path
    ensures forall p :: p in files && (files[p].identity != c.identity || c.identity.None?) ==> p in r
  {
    var kept := map p | p in files && (c.identity.None? || files[p].identity != c.identity || p == c.path) :: files[p];
    var fileId := if c.path in files && files[c.path].fileId.Some? then files[c.path].fileId else Some(freshId);
    kept[c.path := EntryOf(c, fileId)]
  }
}
