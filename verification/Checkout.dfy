/** The device's index of the working tree: which stat each file had when its content was last hashed. */
module Checkout {
  import opened Wrappers
  import opened Snapshots

  const RACY_MS := 2000

  /** A file on disk; its content is represented by its size and hash. */
  datatype File = File(size: nat, mtime: int, hash: Hash)

  datatype CheckoutEntry = CheckoutEntry(size: nat, mtime: int, hash: Hash, checkedAt: int)

  /** Whether an entry is taken at its word for a file with this stat. */
  predicate Trusted(known: CheckoutEntry, file: File) {
    known.size == file.size && known.mtime == file.mtime && known.mtime + RACY_MS < known.checkedAt
  }

  /** A timestamp the file system may put on a write at `now`: taken from the clock, no coarser than `RACY_MS`. */
  predicate StampedAt(mtime: int, now: int) {
    now - RACY_MS <= mtime <= now
  }

  /** The index and, as the environment it watches, the tree and the clock. */
  class Checkout {
    var entries: map<Path, CheckoutEntry>
    var pending: map<Path, Hash>
    var dirty: bool
    var tree: map<Path, File>
    var clock: int

    /** No entry speaks of the future, and none is wrong about a file it would be trusted for. */
    ghost predicate Valid()
      reads this
    {
      forall p :: p in entries ==>
        && entries[p].checkedAt <= clock
        && (p in tree && Trusted(entries[p], tree[p]) ==> entries[p].hash == tree[p].hash)
    }

    constructor (tree: map<Path, File>, now: int)
      ensures Valid() && entries == map[] && pending == map[] && !dirty && this.tree == tree && clock == now
    {
      this.tree := tree;
      entries, pending, dirty, clock := map[], map[], false, now;
    }

    /** Something else writes a file. */
    method ExternalWrite(p: Path, file: File, now: int)
      requires Valid() && clock <= now && StampedAt(file.mtime, now)
      modifies this`tree, this`clock
      ensures Valid() && tree == old(tree)[p := file] && clock == now
    {
      tree, clock := tree[p := file], now;
    }

    method ExternalDelete(p: Path, now: int)
      requires Valid() && clock <= now
      modifies this`tree, this`clock
      ensures Valid() && tree == old(tree) - {p} && clock == now
    {
      tree, clock := tree - {p}, now;
    }

    /** The hash of what is at `p` now, whether or not it took a read to know. */
    method HashOf(p: Path, now: int) returns (hash: Option<Hash>, read: bool)
      requires Valid() && clock <= now
      modifies this`entries, this`dirty, this`clock
      ensures Valid() && clock == now
      ensures hash == if p in tree then Some(tree[p].hash) else None
      ensures !read ==> entries == old(entries) && dirty == old(dirty)
      ensures read ==> dirty && p in tree
      ensures read ==> entries == old(entries)[p := CheckoutEntry(tree[p].size, tree[p].mtime, tree[p].hash, now)]
      ensures read <==> p in tree && !(p in old(entries) && Trusted(old(entries)[p], tree[p]))
    {
      clock := now;
      if p !in tree {
        return None, false;
      }
      var head := tree[p];
      if p in entries && entries[p].size == head.size && entries[p].mtime == head.mtime
         && entries[p].mtime + RACY_MS < entries[p].checkedAt {
        return Some(entries[p].hash), false;
      }
      var digest := head.hash;
      entries := entries[p := CheckoutEntry(head.size, head.mtime, digest, now)];
      dirty := true;
      return Some(digest), true;
    }

    /** Note a hash just established by writing the content; there is no stat to note when the file is gone. */
    method Record(p: Path, hash: Hash, now: int) returns (found: bool)
      requires Valid() && clock <= now && (p in tree ==> tree[p].hash == hash)
      modifies this`entries, this`dirty, this`clock
      ensures Valid() && clock == now && found == (p in tree)
      ensures entries
        == if found then old(entries)[p := CheckoutEntry(tree[p].size, tree[p].mtime, hash, now)] else old(entries)
      ensures dirty == (found || old(dirty))
    {
      clock := now;
      if p !in tree {
        return false;
      }
      entries := entries[p := CheckoutEntry(tree[p].size, tree[p].mtime, hash, now)];
      dirty := true;
      return true;
    }

    method Forget(p: Path)
      requires Valid()
      modifies this`entries, this`dirty
      ensures Valid() && entries == old(entries) - {p} && dirty == (old(dirty) || p in old(entries))
    {
      if p in entries {
        entries := entries - {p};
        dirty := true;
      }
    }

    method MarkPending(p: Path, hash: Hash)
      requires Valid()
      modifies this`entries, this`pending, this`dirty
      ensures Valid() && pending == old(pending)[p := hash]
      ensures if p in old(pending) && old(pending)[p] == hash then entries == old(entries) && dirty == old(dirty)
              else entries == old(entries) - {p} && dirty
    {
      if p in pending && pending[p] == hash {
        return;
      }
      pending := pending[p := hash];
      entries := entries - {p};
      dirty := true;
    }

    method ClearPending(p: Path)
      requires Valid()
      modifies this`pending, this`dirty
      ensures Valid() && pending == old(pending) - {p} && dirty == (old(dirty) || p in old(pending))
    {
      if p in pending {
        pending := pending - {p};
        dirty := true;
      }
    }
  }
}
