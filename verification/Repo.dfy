/** The repository: a snapshot store and the head that names its newest snapshot. */
module Repo {
  import opened Wrappers
  import opened Snapshots
  import opened Replay

  const MAX_HEAD_RETRIES := 16

  datatype Outcome = Done | RepoHeadMoved | SnapshotMissing

  /** A snapshot carries the name, as its own or as its parent's. */
  predicate CarriesName(s: Snapshot, h: Hash) {
    s.hash == h || s.parent == Some(h)
  }

  /** Whether `ancestor` is `h` itself or on its parent chain, by the names the stored snapshots carry. */
  ghost predicate Descends(store: Store, ancestor: Hash, h: Hash) {
    || ancestor == h
    || exists t :: t in Chain(store, h) && t in store && CarriesName(store[t], ancestor)
  }

  /** On a store that holds its chains whole, descent is membership of the chain. */
  lemma DescendsIsChain(H: Hasher, store: Store, ancestor: Hash, h: Hash)
    requires CollisionFree(H) && WellFormed(H, store) && h in store
    ensures Descends(store, ancestor, h) <==> ancestor in Chain(store, h)
  {
    ChainIsAcyclic(store, h);
    var c := Chain(store, h);
    if Descends(store, ancestor, h) && ancestor != h {
      var t :| t in c && t in store && CarriesName(store[t], ancestor);
      if store[t].parent == Some(ancestor) {
        ChainTransitive(store, h, t);
        ChainStep(store, t);
        ChainStep(store, ancestor);
        assert Chain(store, t)[1] == ancestor;
      }
    }
    if ancestor in c {
      assert store[ancestor].hash == ancestor;
    }
  }

  /** The first snapshot of a walk that is also in a set. */
  function FirstIn(chain: seq<Hash>, known: set<Hash>): (r: Option<Hash>)
    ensures r.None? <==> forall h :: h in chain ==> h !in known
    ensures r.Some? ==> r.value in chain && r.value in known
  {
    if chain == [] then None
    else if chain[0] in known then Some(chain[0])
    else FirstIn(chain[1..], known)
  }

  function FindBase(store: Store, local: Hash, remote: Hash): Option<Hash> {
    FirstIn(Chain(store, remote), set h | h in Chain(store, local))
  }

  lemma {:induction false} FirstInIsFirst(chain: seq<Hash>, known: set<Hash>, i: nat)
    requires i < |chain| && chain[i] in known
    ensures exists j :: 0 <= j <= i && FirstIn(chain, known) == Some(chain[j])
    decreases i
  {
    if chain[0] !in known {
      FirstInIsFirst(chain[1..], known, i - 1);
      var j :| 0 <= j <= i - 1 && FirstIn(chain[1..], known) == Some(chain[1..][j]);
      assert FirstIn(chain, known) == Some(chain[j + 1]);
    } else {
      assert FirstIn(chain, known) == Some(chain[0]);
    }
  }

  /** The base is the nearest common ancestor: every common ancestor is on its chain. */
  lemma BaseIsNearest(store: Store, local: Hash, remote: Hash)
    requires Rooted(store) && local in store && remote in store
    ensures FindBase(store, local, remote).None? ==> forall t :: t in Chain(store, local) ==> t !in Chain(store, remote)
    ensures FindBase(store, local, remote).Some? ==>
      var base := FindBase(store, local, remote).value;
      && base in store && base in Chain(store, local) && base in Chain(store, remote)
      && forall t :: t in Chain(store, local) && t in Chain(store, remote) ==> t in Chain(store, base)
  {
    var c, known := Chain(store, remote), set h | h in Chain(store, local);
    if FindBase(store, local, remote).Some? {
      var base := FindBase(store, local, remote).value;
      ChainTransitive(store, local, base);
      forall t | t in Chain(store, local) && t in c
        ensures t in Chain(store, base)
      {
        var i :| 0 <= i < |c| && c[i] == t;
        FirstInIsFirst(c, known, i);
        var j :| 0 <= j <= i && FirstIn(c, known) == Some(c[j]);
        ChainSuffix(store, remote, j);
        assert c[j..][i - j] == t;
      }
    }
  }

  lemma OneOver(pending: seq<Hash>, t: Hash, rest: seq<Hash>)
    ensures pending + ([t] + rest) == (pending + [t]) + rest
  {
  }

  lemma NothingDescends(store: Store)
    ensures Descending(store, [])
  {
  }

  lemma SameLookup<K, V>(m: map<K, V>, n: map<K, V>)
    requires forall k :: Get(m, k) == Get(n, k)
    ensures m == n
  {
    forall k
      ensures k in m <==> k in n
      ensures k in m ==> m[k] == n[k]
    {
      assert Get(m, k) == Get(n, k);
    }
  }

  /** A replay that has carried over `done` so far. */
  ghost predicate Progress(H: Hasher, start: Store, now: Store, done: seq<Hash>, remote: Snapshot, head: Snapshot) {
    && Replayable(start, done)
    && head == Top(remote, ReplayChain(H, start, done, remote))
    && now == Written(start, ReplayChain(H, start, done, remote))
    && Grows(start, now) && Addressed(H, now)
    && head.hash in now && now[head.hash] == head
  }

  lemma ProgressStart(H: Hasher, start: Store, remote: Snapshot)
    requires CollisionFree(H) && Addressed(H, start) && remote.hash in start && start[remote.hash] == remote
    ensures Progress(H, start, start, [], remote, remote)
  {
  }

  lemma ProgressStep(H: Hasher, start: Store, now: Store, done: seq<Hash>, h: Hash, remote: Snapshot, head: Snapshot)
    requires CollisionFree(H) && Progress(H, start, now, done, remote, head)
    requires h in start && start[h].parent.Some? && start[h].parent.value in start
    ensures var r :=
      Sealed(H, Some(head.hash), Replayed(start[start[h].parent.value].files, start[h].files, head.files));
            Progress(H, start, now[r.hash := r], done + [h], remote, r)
  {
    hide CollisionFree, Replayed, SnapshotHash;
    var r := Sealed(H, Some(head.hash), Replayed(start[start[h].parent.value].files, start[h].files, head.files));
    assert Replayable(start, done + [h]);
    ReplaySnoc(H, start, done, h, remote);
    WrittenSnoc(start, ReplayChain(H, start, done, remote), r);
    if r.hash in now {
      AddressCommits(H, now[r.hash], r);
      assert now[r.hash := r] == now;
    }
  }

  lemma ProgressKnows(H: Hasher, start: Store, now: Store, done: seq<Hash>, remote: Snapshot, head: Snapshot)
    requires CollisionFree(H) && Progress(H, start, now, done, remote, head)
    ensures Grows(start, now) && Addressed(H, now) && (done == [] ==> now == start)
  {
  }

  lemma ProgressEnds(H: Hasher, start: Store, now: Store, todo: seq<Hash>, remote: Snapshot, head: Snapshot)
    requires CollisionFree(H) && Progress(H, start, now, todo, remote, head)
    ensures Grows(start, now) && Addressed(H, now) && Replayable(start, todo)
    ensures head == Top(remote, ReplayChain(H, start, todo, remote))
    ensures now == Written(start, ReplayChain(H, start, todo, remote))
  {
  }

  lemma NotReplayable(store: Store, todo: seq<Hash>, h: Hash)
    requires h in todo && h in store && store[h].parent.Some? && store[h].parent.value !in store
    ensures !Replayable(store, todo)
  {
  }

  /** The address a rebase ends at, on a store that holds its chains whole. */
  ghost function RebasedHash(H: Hasher, store: Store, from: Hash, remote: Hash, base: Option<Hash>): Hash
    requires Rooted(store) && from in store && remote in store
  {
    TodoIsStretch(store, from, base);
    RebasedTop(H, store, from, remote, base).hash
  }

  /** Everything a rebase reads and writes, seen from a store that has only grown since `st`. */
  lemma RebaseStored(H: Hasher, st: Store, now: Store, from: Hash, remote: Hash, base: Option<Hash>)
    requires CollisionFree(H) && WellFormed(H, st) && WellFormed(H, now) && Grows(st, now) && from in st && remote in st
    ensures var todo := Todo(now, from, base);
            && Replayable(now, todo)
            && Top(now[remote], ReplayChain(H, now, todo, now[remote])).hash == RebasedHash(H, st, from, remote, base)
            && WellFormed(H, Written(now, ReplayChain(H, now, todo, now[remote])))
            && RebasedHash(H, st, from, remote, base) in Written(now, ReplayChain(H, now, todo, now[remote]))
  {
    hide CollisionFree, Rooted, Chain;
    RebaseStable(H, st, now, from, remote, base);
    ReplayStored(H, now, Todo(now, from, base), now[remote], now);
  }

  class Repo {
    const H: Hasher
    var store: Store
    var head: Option<Hash>

    /** Every object was proved against its address before it was stored, and the head names a stored one. */
    ghost predicate Valid()
      reads this
    {
      CollisionFree(H) && Addressed(H, store) && (head.Some? ==> head.value in store)
    }

    constructor (H: Hasher)
      requires CollisionFree(H)
      ensures Valid() && this.H == H && store == map[] && head == None
    {
      this.H := H;
      store := map[];
      head := None;
    }

    /** The one way the head moves. */
    method AdvanceHead(expected: Option<Hash>, next: Hash) returns (moved: bool)
      requires Valid() && next in store
      modifies this`head
      ensures Valid()
      ensures moved <==> old(head) == expected
      ensures head == if moved then Some(next) else old(head)
    {
      moved := head == expected;
      if moved {
        head := Some(next);
      }
    }

    method Prepare()
      requires Valid()
      modifies this
      ensures Valid() && Grows(old(store), store)
      ensures var empty := Sealed(H, None, map[]);
              empty.hash in store && store[empty.hash] == empty
                && head == if old(head).None? then Some(empty.hash) else old(head)
    {
      var empty := Sealed(H, None, map[]);
      if empty.hash !in store {
        store := store[empty.hash := empty];
      }
      assert store[empty.hash] == empty by {
        AddressCommits(H, store[empty.hash], empty);
      }
      if head.None? {
        var _ := AdvanceHead(None, empty.hash);
      }
    }

    method IsAncestor(ancestor: Hash, h: Hash) returns (found: bool)
      ensures found <==> Descends(store, ancestor, h)
    {
      if ancestor == h {
        return true;
      }
      var current: Option<Hash>, visited: set<Hash> := Some(h), {};
      ghost var done: seq<Hash> := [];
      while current.Some? && current.value !in visited && current.value in store
        invariant Chain(store, h) == done + Ancestry(store, current, visited)
        invariant forall t :: t in done ==> t in store && store[t].hash != ancestor && store[t].parent != Some(ancestor)
        decreases store.Keys - visited
      {
        var t := current.value;
        if store[t].hash == ancestor || store[t].parent == Some(ancestor) {
          assert t in Chain(store, h);
          return true;
        }
        visited := visited + {t};
        done := done + [t];
        current := store[t].parent;
      }
      return false;
    }

    /** The walk itself, as every caller that keeps what it yields sees it. */
    method Walk(h: Hash) returns (chain: seq<Hash>)
      ensures chain == Chain(store, h)
      ensures forall t :: t in chain ==> t in store
    {
      var current: Option<Hash>, visited: set<Hash> := Some(h), {};
      chain := [];
      while current.Some? && current.value !in visited && current.value in store
        invariant Chain(store, h) == chain + Ancestry(store, current, visited)
        invariant forall t :: t in chain ==> t in store
        decreases store.Keys - visited
      {
        var t := current.value;
        visited := visited + {t};
        chain := chain + [t];
        current := store[t].parent;
      }
    }

    method FindBaseSnapshot(local: Hash, remote: Hash) returns (base: Option<Hash>)
      ensures base == FindBase(store, local, remote)
    {
      var localChain := Walk(local);
      var localAncestors := set t | t in localChain;
      var current: Option<Hash>, visited: set<Hash> := Some(remote), {};
      while current.Some? && current.value !in visited && current.value in store
        invariant FindBase(store, local, remote) == FirstIn(Ancestry(store, current, visited), localAncestors)
        decreases store.Keys - visited
      {
        var t := current.value;
        if t in localAncestors {
          return Some(t);
        }
        visited := visited + {t};
        current := store[t].parent;
      }
      return None;
    }

    /** One checkpoint's change applied to the new base's manifest, path by path. */
    method ReplayManifest(parent: Files, snapshot: Files, base: Files) returns (files: Files)
      ensures files == Replayed(parent, snapshot, base)
    {
      files := base;
      var paths := parent.Keys + snapshot.Keys;
      while paths != {}
        invariant paths <= parent.Keys + snapshot.Keys
        invariant forall p :: Get(files, p) == (if p in paths || SameEntry(Get(parent, p), Get(snapshot, p))
                                                then Get(base, p) else Get(snapshot, p))
      {
        var p :| p in paths;
        paths := paths - {p};
        if !SameEntry(Get(parent, p), Get(snapshot, p)) {
          if p in snapshot {
            files := files[p := snapshot[p]];
          } else {
            files := map q | q in files && q != p :: files[q];
          }
        }
      }
      forall p
        ensures Get(files, p) == Get(Replayed(parent, snapshot, base), p)
      {
        ReplayedAt(parent, snapshot, base, p);
      }
      SameLookup(files, Replayed(parent, snapshot, base));
    }

    /** The local snapshots a rebase carries over, newest first. */
    method Pending(local: Hash, base: Option<Hash>) returns (pending: seq<Hash>)
      ensures pending == Unpublished(store, Chain(store, local), base)
      ensures Descending(store, pending)
    {
      var current: Option<Hash>, visited: set<Hash> := Some(local), {};
      pending := [];
      hide Ancestry, Unpublished, Descending;
      NothingDescends(store);
      ghost var all := Unpublished(store, Chain(store, local), base);
      while current.Some? && current.value !in visited && current.value in store
        invariant all == pending + Unpublished(store, Ancestry(store, current, visited), base)
        invariant Descending(store, pending)
        invariant pending != [] ==> pending[|pending| - 1] in store && store[pending[|pending| - 1]].parent == current
        decreases store.Keys - visited
      {
        var t := current.value;
        UnpublishedWalk(store, current, visited, base);
        if Some(t) == base || store[t].parent.None? {
          return;
        }
        DescendsTo(store, pending, t);
        OneOver(pending, t, Unpublished(store, Ancestry(store, store[t].parent, visited + {t}), base));
        visited := visited + {t};
        pending := pending + [t];
        current := store[t].parent;
      }
      UnpublishedWalk(store, current, visited, base);
    }

    /** Writes every local snapshot since `base` again on top of `remote`, oldest first. Objects only: the head does
      not move here. */
    method Replay(local: Hash, remote: Snapshot, base: Option<Hash>) returns (top: Option<Snapshot>)
      requires Valid() && remote.hash in store && store[remote.hash] == remote
      modifies this`store
      ensures Valid() && Grows(old(store), store)
      ensures var todo := Todo(old(store), local, base);
              if Replayable(old(store), todo) then
                && top == Some(Top(remote, ReplayChain(H, old(store), todo, remote)))
                && store == Written(old(store), ReplayChain(H, old(store), todo, remote))
              else top.None?
    {
      hide CollisionFree, ReplayChain, Written, Unpublished, Replayed, Replayable, Progress, Top, SnapshotHash;
      ghost var start := store;
      var pending := Pending(local, base);
      ghost var todo := Reverse(pending);
      var head := remote;
      var i := |pending|;
      ProgressStart(H, start, remote);
      assert todo[..0] == [];
      while i > 0
        invariant 0 <= i <= |pending|
        invariant Progress(H, start, store, todo[..|pending| - i], remote, head) && this.head == old(this.head)
      {
        i := i - 1;
        ghost var done := todo[..|pending| - i - 1];
        assert todo[|pending| - i - 1] == pending[i];
        assert todo[..|pending| - i] == done + [pending[i]];
        ProgressKnows(H, start, store, done, remote, head);
        var s := store[pending[i]];
        if s.parent.value !in store {
          assert s.parent.value !in start;
          NotReplayable(start, todo, pending[i]);
          return None;
        }
        var parent := store[s.parent.value];
        assert s.parent.value in start by {
          if done != [] {
            assert s.parent == Some(pending[i + 1]);
          }
        }
        ProgressStep(H, start, store, done, pending[i], remote, head);
        var files := ReplayManifest(parent.files, s.files, head.files);
        head := Sealed(H, Some(head.hash), files);
        store := store[head.hash := head];
      }
      assert todo[..|pending|] == todo;
      ProgressEnds(H, start, store, todo, remote, head);
      top := Some(head);
    }

    /** Moves the local checkpoints onto the remote head. Nothing moves when the remote is already underneath; when
      the head merely grew past `local` the replay starts over from it; when it was rewritten the round is lost. */
    method Rebase(local: Hash, remote: Hash, base: Option<Hash>) returns (outcome: Outcome)
      requires Valid() && WellFormed(H, store) && head.Some? && local in store && remote in store
      modifies this
      ensures Valid() && WellFormed(H, store) && Grows(old(store), store) && head.Some?
      ensures var st, was := old(store), old(head).value;
              var top := RebasedHash(H, st, local, remote, base);
              if base == Some(remote) then outcome == Done && head == old(head) && store == st
              else if was == local || was == top then outcome == Done && head == Some(top)
              else if local in Chain(st, was) then outcome == Done
                && head == Some(RebasedHash(H, st, was, remote, base))
              else outcome == RepoHeadMoved && head == old(head)
    {
      hide CollisionFree, Rooted, Chain, ReplayChain, Unpublished, Todo, Written, SnapshotHash, Replayable;
      ghost var st, was := store, head.value;
      if base == Some(remote) {
        return Done;
      }
      var from := local;
      var attempt := 1;
      while true
        invariant 1 <= attempt <= 2 && head == old(head)
        invariant Valid() && WellFormed(H, store) && Grows(st, store)
        invariant from in st && (attempt == 1 ==> from == local)
        invariant attempt == 2 ==> from == was && was != local && was != RebasedHash(H, st, local, remote, base)
                                   && local in Chain(st, was)
        decreases 3 - attempt
      {
        RebaseStored(H, st, store, from, remote, base);
        ghost var small := store;
        var replayed := Replay(from, store[remote], base);
        if replayed.None? {
          return SnapshotMissing;
        }
        var top := replayed.value;
        var moved := AdvanceHead(Some(from), top.hash);
        if moved {
          return Done;
        }
        var current := head.value;
        if current == top.hash {
          return Done;
        }
        DescendsIsChain(H, store, from, current);
        ChainStable(st, store, current);
        var linked := IsAncestor(from, current);
        if !linked || attempt >= MAX_HEAD_RETRIES {
          return RepoHeadMoved;
        }
        from := current;
        attempt := attempt + 1;
      }
    }
  }
}
