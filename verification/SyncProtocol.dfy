/** Any number of devices syncing with one remote: fetch, anchor check, merge, rebase and push, interleaved at every
  access to a store. The remote is append-only; its head moves only by compare-and-swap. */
module SyncProtocol {
  import opened Wrappers
  import opened Snapshots
  import opened Replay
  import opened Repo

  datatype Engine =
    | Idle
    | Asked(synced: Option<Hash>)
    | Fetching(synced: Option<Hash>, anchor: Option<Hash>)
    | Checked(synced: Option<Hash>)
    | Merged(synced: Option<Hash>, local: Hash)
    /** The local chain since `base` is replayed up to `top`; the local head is to be moved from `from`. */
    | Rebasing(synced: Option<Hash>, base: Option<Hash>, from: Hash, top: Hash)
    | Contended(synced: Option<Hash>, base: Option<Hash>, from: Hash, top: Hash)
    | Rebased(synced: Option<Hash>)
    /** What is still to be uploaded before the remote head is moved from `synced` to `latest`. */
    | Pushing(synced: Option<Hash>, latest: Hash, missing: set<Hash>, unsent: seq<Hash>)
    | Committed(latest: Hash)
    /** The round failed: the served head was refused, or a chunk to upload was not in the local store. */
    | Refused
    | ChunkLost

  /** One device's repository, the head of its last completed sync, and the engines sharing the repository. */
  datatype Device = Device(store: Store, chunks: set<Hash>, head: Hash, last: Option<Hash>, engines: map<nat, Engine>)

  datatype Remote = Remote(store: Store, chunks: set<Hash>, head: Option<Hash>)

  datatype System = System(devices: map<nat, Device>, remote: Remote)

  datatype Action =
    | Append(files: Files, added: set<Hash>, linked: bool)
    | Begin
    | ReadAnchor
    | FetchSnapshot(h: Hash)
    | FetchChunk(c: Hash)
    | Check
    | Snap
    | Plan
    | Swap
    | Recheck
    | Take
    | PutChunk(c: Hash)
    | PutSnapshot
    | Commit
    | Anchor
    | GiveUp

  function Empty(H: Hasher): Snapshot {
    Sealed(H, None, map[])
  }

  /** The snapshot a round merges with: the served head, or the empty one where nothing was ever pushed. */
  function Target(H: Hasher, synced: Option<Hash>): Hash {
    if synced.Some? then synced.value else Empty(H).hash
  }

  ghost predicate Covered(files: Files, chunks: set<Hash>) {
    forall p, c :: p in files && c in files[p].chunks ==> c in chunks
  }

  /** Every file of a new manifest is carried over from the head's, or was just chunked into the local store. */
  ghost predicate Buildable(head: Files, files: Files, chunks: set<Hash>) {
    forall p :: p in files ==>
      || (p in head && head[p].chunks == files[p].chunks)
      || forall c :: c in files[p].chunks ==> c in chunks
  }

  function Upto(chain: seq<Hash>, stop: Option<Hash>): (r: seq<Hash>)
    ensures r <= chain
  {
    if chain == [] || Some(chain[0]) == stop then [] else [chain[0]] + Upto(chain[1..], stop)
  }

  /** What of a walk the remote lacks, parents before children. */
  function Unsent(walk: seq<Hash>, known: set<Hash>): seq<Hash> {
    if walk == [] then []
    else Unsent(walk[1..], known) + if walk[0] in known then [] else [walk[0]]
  }

  ghost function ChunksOf(store: Store, hashes: seq<Hash>): set<Hash>
    requires forall h :: h in hashes ==> h in store
  {
    set h, p, c | h in hashes && p in store[h].files && c in store[h].files[p].chunks :: c
  }

  ghost predicate Refuses(store: Store, anchor: Option<Hash>, synced: Option<Hash>) {
    anchor.Some? && (synced.None? || !Descends(store, anchor.value, synced.value))
  }

  /** The repository after the objects of a rebase of `from` were written, and where it ends. */
  ghost predicate Replays(H: Hasher, d: Device, from: Hash, onto: Hash, base: Option<Hash>, store: Store, top: Hash) {
    && onto in d.store && Replayable(d.store, Todo(d.store, from, base))
    && store == Written(d.store, ReplayChain(H, d.store, Todo(d.store, from, base), d.store[onto]))
    && top == RebasedTop(H, d.store, from, onto, base).hash
  }

  /** A snapshot appended by any writer of the repository, or a round given up. */
  ghost predicate OtherStep(H: Hasher, d: Device, r: Remote, d': Device, r': Remote, e: nat, act: Action)
    requires e in d.engines
  {
    var me := d.engines[e];
    match act
    case Append(files, added, linked) =>
      && d.head in d.store && Buildable(d.store[d.head].files, files, d.chunks + added) && r' == r
      && var next := Sealed(H, Some(d.head), files);
         d' == d.(store := d.store[next.hash := next], chunks := d.chunks + added,
                  head := if linked then next.hash else d.head)
    case GiveUp =>
      r' == r && d' == d.(engines := d.engines[e := Idle])
    case _ => false
  }

  /** Reading the remote head, then the anchor, replicating its chain and chunks, and checking the anchor read. */
  ghost predicate FetchStep(H: Hasher, d: Device, r: Remote, d': Device, r': Remote, e: nat, act: Action)
    requires e in d.engines
  {
    var me := d.engines[e];
    match act
    case Begin =>
      me.Idle? && r' == r && d' == d.(engines := d.engines[e := Asked(r.head)])
    case ReadAnchor =>
      me.Asked? && r' == r && d' == d.(engines := d.engines[e := Fetching(me.synced, d.last)])
    case FetchSnapshot(h) =>
      && me.Fetching? && me.synced.Some? && h in Chain(r.store, me.synced.value) && h in r.store && r' == r
      && r.store[h] == Sealed(H, r.store[h].parent, r.store[h].files) && r.store[h].hash == h
      && (r.store[h].parent.Some? ==> r.store[h].parent.value in d.store)
      && d' == d.(store := d.store[h := r.store[h]])
    case FetchChunk(c) =>
      me.Fetching? && c in r.chunks && r' == r && d' == d.(chunks := d.chunks + {c})
    case Check =>
      && me.Fetching? && (me.synced.Some? ==> me.synced.value in d.store) && r' == r
      && d' == d.(engines :=
                  d.engines[e := if Refuses(d.store, me.anchor, me.synced) then Refused else Checked(me.synced)])
    case _ => false
  }

  /** From the local head the round merges to a head that has the remote one underneath. */
  ghost predicate RebaseStep(H: Hasher, d: Device, r: Remote, d': Device, r': Remote, e: nat, act: Action)
    requires e in d.engines
  {
    var me := d.engines[e];
    match act
    case Snap =>
      me.Checked? && r' == r && d' == d.(engines := d.engines[e := Merged(me.synced, d.head)])
    case Plan =>
      && me.Merged? && r' == r
      && var onto := Target(H, me.synced);
         var base := FindBase(d.store, me.local, onto);
         if base == Some(onto) then d' == d.(engines := d.engines[e := Rebased(me.synced)])
         else exists store, top :: Replays(H, d, me.local, onto, base, store, top)
                && d' == d.(store := store, engines := d.engines[e := Rebasing(me.synced, base, me.local, top)])
    case Swap =>
      && me.Rebasing? && r' == r
      && d' == if d.head == me.from then d.(head := me.top, engines := d.engines[e := Rebased(me.synced)])
               else d.(engines := d.engines[e := Contended(me.synced, me.base, me.from, me.top)])
    case Recheck =>
      && me.Contended? && r' == r
      && if d.head == me.top then d' == d.(engines := d.engines[e := Rebased(me.synced)])
         else if me.from !in Chain(d.store, d.head) then d' == d.(engines := d.engines[e := Idle])
         else exists store, top :: Replays(H, d, d.head, Target(H, me.synced), me.base, store, top)
                && d' == d.(store := store, engines := d.engines[e := Rebasing(me.synced, me.base, d.head, top)])
    case _ => false
  }

  /** Uploading chunks, then snapshots, then moving the remote head, then the anchor. */
  ghost predicate PushStep(H: Hasher, d: Device, r: Remote, d': Device, r': Remote, e: nat, act: Action)
    requires e in d.engines
  {
    var me := d.engines[e];
    match act
    case Take =>
      && me.Rebased? && r' == r
      && var walk := Upto(Chain(d.store, d.head), me.synced);
         var unsent := Unsent(walk, r.store.Keys);
         && (forall h :: h in unsent ==> h in d.store)
         && d' == d.(engines := d.engines[e := if me.synced == Some(d.head) then Committed(d.head)
                                               else Pushing(me.synced, d.head, ChunksOf(d.store, unsent) - r.chunks,
                                                            unsent)])
    case PutChunk(c) =>
      && me.Pushing? && c in me.missing
      && if c !in d.chunks then r' == r && d' == d.(engines := d.engines[e := ChunkLost])
         else && r' == r.(chunks := r.chunks + {c})
              && d' == d.(engines := d.engines[e := me.(missing := me.missing - {c})])
    case PutSnapshot =>
      && me.Pushing? && me.missing == {} && me.unsent != [] && me.unsent[0] in d.store
      && r' == r.(store := r.store[me.unsent[0] := d.store[me.unsent[0]]])
      && d' == d.(engines := d.engines[e := me.(unsent := me.unsent[1..])])
    case Commit =>
      && me.Pushing? && me.missing == {} && me.unsent == []
      && r' == (if r.head == me.synced then r.(head := Some(me.latest)) else r)
      && d' == d.(engines := d.engines[e := if r.head == me.synced then Committed(me.latest) else Idle])
    case Anchor =>
      me.Committed? && r' == r && d' == d.(last := Some(me.latest), engines := d.engines[e := Idle])
    case _ => false
  }

  /** What one engine, or for `Append` any writer, does on its device and the remote in one atomic step. */
  ghost predicate Act(H: Hasher, d: Device, r: Remote, d': Device, r': Remote, e: nat, act: Action) {
    && e in d.engines
    && (|| OtherStep(H, d, r, d', r', e, act) || FetchStep(H, d, r, d', r', e, act)
        || RebaseStep(H, d, r, d', r', e, act) || PushStep(H, d, r, d', r', e, act))
  }

  /** Every snapshot on the remote has its parent and every chunk it references there too. */
  ghost predicate RemoteInv(H: Hasher, r: Remote) {
    && WellFormed(H, r.store)
    && (r.head.Some? ==> r.head.value in r.store)
    && forall h :: h in r.store ==> Covered(r.store[h].files, r.chunks)
  }

  /** A device's store is whole, and the chunks of its snapshots are here or on the remote. */
  ghost predicate DeviceInv(H: Hasher, d: Device, r: Remote) {
    && WellFormed(H, d.store) && d.head in d.store && Empty(H).hash in d.store
    && forall h :: h in d.store ==> Covered(d.store[h].files, d.chunks + r.chunks)
  }

  /** An upload in the right order: each snapshot's parent is on the remote or goes before it. */
  ghost predicate Uploadable(store: Store, known: set<Hash>, unsent: seq<Hash>) {
    forall i :: 0 <= i < |unsent| ==>
      && unsent[i] in store
      && (store[unsent[i]].parent.Some? ==>
          store[unsent[i]].parent.value in known || store[unsent[i]].parent.value in unsent[..i])
  }

  ghost predicate Served(r: Remote, synced: Option<Hash>) {
    synced.Some? ==> synced.value in r.store
  }

  /** The replayed snapshots of a rebase are stored, and it ends at `top`. */
  ghost predicate Carried(H: Hasher, store: Store, from: Hash, onto: Hash, base: Option<Hash>, top: Hash) {
    && from in store && onto in store && Replayable(store, Todo(store, from, base))
    && top == RebasedTop(H, store, from, onto, base).hash
    && forall s :: s in ReplayChain(H, store, Todo(store, from, base), store[onto]) ==>
      s.hash in store && store[s.hash] == s
  }

  /** What an engine relies on, whoever else works on its repository. */
  ghost predicate EngineInv(H: Hasher, d: Device, r: Remote, me: Engine) {
    match me
    case Idle => true
    case Asked(synced) => Served(r, synced)
    case Fetching(synced, _) => Served(r, synced)
    case Checked(synced) => Served(r, synced) && Target(H, synced) in d.store
    case Merged(synced, local) => Served(r, synced) && Target(H, synced) in d.store && local in d.store
    case Rebasing(synced, base, from, top) => Served(r, synced)
      && Carried(H, d.store, from, Target(H, synced), base, top)
    case Contended(synced, base, from, top) => Served(r, synced)
      && Carried(H, d.store, from, Target(H, synced), base, top)
    case Rebased(synced) => Served(r, synced) && Target(H, synced) in d.store
    case Pushing(synced, latest, missing, unsent) =>
      && Served(r, synced) && Target(H, synced) in d.store && latest in d.store
      && missing <= d.chunks && Uploadable(d.store, r.store.Keys, unsent)
      && (forall h :: h in unsent ==> Covered(d.store[h].files, r.chunks + missing))
      && (latest in r.store || latest in unsent)
    case Committed(latest) => latest in r.store
    case Refused => true
    case ChunkLost => false
  }

  ghost predicate Inv(H: Hasher, s: System) {
    && RemoteInv(H, s.remote)
    && forall i :: i in s.devices ==>
         && DeviceInv(H, s.devices[i], s.remote)
         && forall e :: e in s.devices[i].engines ==> EngineInv(H, s.devices[i], s.remote, s.devices[i].engines[e])
  }

  /** The remote only gains objects. */
  ghost predicate Gains(r: Remote, r': Remote) {
    Grows(r.store, r'.store) && r.chunks <= r'.chunks
  }

  lemma CoveredMore(files: Files, chunks: set<Hash>, more: set<Hash>)
    requires Covered(files, chunks) && chunks <= more
    ensures Covered(files, more)
  {
  }

  lemma CoveredStill(store: Store, chunks: set<Hash>, more: set<Hash>)
    requires (forall h :: h in store ==> Covered(store[h].files, chunks)) && chunks <= more
    ensures forall h :: h in store ==> Covered(store[h].files, more)
  {
    hide Covered;
    forall h | h in store
      ensures Covered(store[h].files, more)
    {
      CoveredMore(store[h].files, chunks, more);
    }
  }

  /** Only a push writes to the remote, and it leaves the repository alone; every other step leaves the remote alone. */
  lemma OnlyPushesWrite(H: Hasher, d: Device, r: Remote, d': Device, r': Remote, e: nat, act: Action)
    requires CollisionFree(H) && Act(H, d, r, d', r', e, act)
    ensures e in d.engines && d'.engines.Keys == d.engines.Keys
    ensures PushStep(H, d, r, d', r', e, act) ==> d'.store == d.store && d'.chunks == d.chunks && d'.head == d.head
    ensures !PushStep(H, d, r, d', r', e, act) ==> r' == r
  {
    hide CollisionFree, SnapshotHash, Chain, Unsent, Upto, ChunksOf, Replays, Buildable, FindBase, Refuses;
    if FetchStep(H, d, r, d', r', e, act) || OtherStep(H, d, r, d', r', e, act) {
      hide RebaseStep, PushStep;
    } else if RebaseStep(H, d, r, d', r', e, act) {
      hide PushStep;
    }
  }

  lemma OthersStay(H: Hasher, d: Device, r: Remote, d': Device, r': Remote, e: nat, act: Action, f: nat)
    requires CollisionFree(H) && Act(H, d, r, d', r', e, act) && f in d.engines && f != e
    ensures f in d'.engines && d'.engines[f] == d.engines[f]
  {
    hide CollisionFree, SnapshotHash, Chain, Unsent, Upto, ChunksOf, Replays, Buildable, FindBase, Refuses;
    if FetchStep(H, d, r, d', r', e, act) || OtherStep(H, d, r, d', r', e, act) {
      hide RebaseStep, PushStep;
    } else if RebaseStep(H, d, r, d', r', e, act) {
      hide PushStep;
    }
  }

  /** Whatever is pushed, the remote keeps its parents and its chunks, and loses nothing. */
  lemma RemoteKeeps(H: Hasher, d: Device, r: Remote, d': Device, r': Remote, e: nat, act: Action)
    requires CollisionFree(H) && Act(H, d, r, d', r', e, act)
    requires RemoteInv(H, r) && DeviceInv(H, d, r) && EngineInv(H, d, r, d.engines[e])
    ensures RemoteInv(H, r') && Gains(r, r')
  {
    hide CollisionFree, Rooted, Chain, FetchStep, RebaseStep, OtherStep, PushStep, EngineInv, DeviceInv, Act, RemoteInv;
    OnlyPushesWrite(H, d, r, d', r', e, act);
    if PushStep(H, d, r, d', r', e, act) {
      PushedKeeps(H, d, r, d', r', e, act);
    }
  }

  lemma PushedKeeps(H: Hasher, d: Device, r: Remote, d': Device, r': Remote, e: nat, act: Action)
    requires CollisionFree(H) && e in d.engines && PushStep(H, d, r, d', r', e, act)
    requires RemoteInv(H, r) && DeviceInv(H, d, r) && EngineInv(H, d, r, d.engines[e])
    ensures RemoteInv(H, r') && Gains(r, r')
  {
    hide CollisionFree, Rooted, SnapshotHash, Chain, Unsent, Upto, ChunksOf, Covered;
    var me := d.engines[e];
    match act
    case PutChunk(c) =>
      CoveredStill(r.store, r.chunks, r'.chunks);
    case PutSnapshot =>
      var s := d.store[me.unsent[0]];
      assert me.unsent[..0] == [];
      StoreSealed(H, r.store, s.parent, s.files);
      assert r.chunks + me.missing == r.chunks;
    case _ =>
  }

  /** What an engine relies on survives every other writer, whatever it does to the heads. */
  lemma EngineStable(H: Hasher, d: Device, r: Remote, d': Device, r': Remote, me: Engine)
    requires CollisionFree(H) && WellFormed(H, d.store) && WellFormed(H, d'.store)
    requires Grows(d.store, d'.store) && d.chunks <= d'.chunks && Gains(r, r')
    requires EngineInv(H, d, r, me)
    ensures EngineInv(H, d', r', me)
  {
    hide CollisionFree, Rooted, Chain, Covered, Empty, Uploadable, Carried;
    match me
    case Pushing(_, _, missing, unsent) =>
      UploadableStored(d.store, r.store.Keys, unsent);
      PushStable(d.store, r, d'.store, r', missing, unsent);
    case Rebasing(synced, base, from, top) => CarriedStable(H, d.store, d'.store, from, Target(H, synced), base, top);
    case Contended(synced, base, from, top) => CarriedStable(H, d.store, d'.store, from, Target(H, synced), base, top);
    case _ =>
  }

  lemma CarriedStable(H: Hasher, small: Store, big: Store, from: Hash, onto: Hash, base: Option<Hash>, top: Hash)
    requires CollisionFree(H) && Rooted(small) && Rooted(big) && Grows(small, big)
    requires Carried(H, small, from, onto, base, top)
    ensures Carried(H, big, from, onto, base, top)
  {
    hide CollisionFree, Rooted, SnapshotHash, Chain, Todo;
    RebaseStable(H, small, big, from, onto, base);
    ReplayStable(H, small, big, Todo(small, from, base), small[onto]);
  }

  lemma UploadableStored(store: Store, known: set<Hash>, unsent: seq<Hash>)
    requires Uploadable(store, known, unsent)
    ensures forall h :: h in unsent ==> h in store
  {
  }

  lemma PushStable(store: Store, r: Remote, store': Store, r': Remote, missing: set<Hash>, unsent: seq<Hash>)
    requires Uploadable(store, r.store.Keys, unsent) && Grows(store, store') && Gains(r, r')
    requires forall h :: h in unsent ==> h in store && Covered(store[h].files, r.chunks + missing)
    ensures Uploadable(store', r'.store.Keys, unsent)
    ensures forall h :: h in unsent ==> h in store' && Covered(store'[h].files, r'.chunks + missing)
  {
    hide Covered;
    forall h | h in unsent
      ensures h in store && Covered(store'[h].files, r'.chunks + missing)
    {
      CoveredMore(store[h].files, r.chunks + missing, r'.chunks + missing);
    }
  }

  lemma {:induction false} ReplayCovered(H: Hasher, store: Store, todo: seq<Hash>, head: Snapshot, chunks: set<Hash>)
    requires CollisionFree(H) && Replayable(store, todo) && Covered(head.files, chunks)
    requires forall h :: h in todo ==> Covered(store[h].files, chunks)
    ensures forall s :: s in ReplayChain(H, store, todo, head) ==> Covered(s.files, chunks)
    decreases |todo|
  {
    hide CollisionFree, SnapshotHash;
    if todo != [] {
      var r := ReplayChain(H, store, todo, head);
      ReplayCovered(H, store, todo[1..], r[0], chunks);
      assert r[1..] == ReplayChain(H, store, todo[1..], r[0]);
    }
  }

  lemma {:induction false} WrittenMembers(store: Store, replayed: seq<Snapshot>, h: Hash)
    ensures h in Written(store, replayed) ==>
      (h in store && Written(store, replayed)[h] == store[h]) || Written(store, replayed)[h] in replayed
    decreases |replayed|
  {
    if replayed != [] {
      WrittenMembers(store[replayed[0].hash := replayed[0]], replayed[1..], h);
    }
  }

  /** Rebasing writes snapshots whose files come from snapshots the device already had. */
  lemma ReplaysKeep(H: Hasher, d: Device, r: Remote, from: Hash, onto: Hash, base: Option<Hash>, store: Store,
                    top: Hash)
    requires CollisionFree(H) && DeviceInv(H, d, r) && from in d.store && Replays(H, d, from, onto, base, store, top)
    ensures WellFormed(H, store) && Grows(d.store, store) && Carried(H, store, from, onto, base, top)
    ensures forall h :: h in store ==> Covered(store[h].files, d.chunks + r.chunks)
  {
    hide CollisionFree, SnapshotHash, Rooted, Chain, Covered, Todo;
    var todo := Todo(d.store, from, base);
    var replayed := ReplayChain(H, d.store, todo, d.store[onto]);
    assert d.store[onto].hash == onto;
    ReplayStored(H, d.store, todo, d.store[onto], d.store);
    ReplayCovered(H, d.store, todo, d.store[onto], d.chunks + r.chunks);
    RebaseStable(H, d.store, store, from, onto, base);
    ReplayStable(H, d.store, store, todo, d.store[onto]);
    forall h | h in store
      ensures Covered(store[h].files, d.chunks + r.chunks)
    {
      WrittenMembers(d.store, replayed, h);
    }
  }

  /** One device's step keeps its store whole, and it loses nothing. */
  lemma DeviceKeeps(H: Hasher, d: Device, r: Remote, d': Device, r': Remote, e: nat, act: Action)
    requires CollisionFree(H) && Act(H, d, r, d', r', e, act)
    requires RemoteInv(H, r) && DeviceInv(H, d, r) && EngineInv(H, d, r, d.engines[e]) && Gains(r, r')
    ensures DeviceInv(H, d', r') && Grows(d.store, d'.store) && d.chunks <= d'.chunks
  {
    hide CollisionFree, Rooted, Chain, Covered, Empty, FetchStep, RebaseStep, OtherStep, PushStep, EngineInv, RemoteInv;
    OnlyPushesWrite(H, d, r, d', r', e, act);
    if PushStep(H, d, r, d', r', e, act) {
      CoveredStill(d.store, d.chunks + r.chunks, d'.chunks + r'.chunks);
    } else if RebaseStep(H, d, r, d', r', e, act) {
      StoreRebased(H, d, r, d', e, act);
    } else {
      StoreGained(H, d, r, d', e, act);
    }
  }

  lemma StoreGained(H: Hasher, d: Device, r: Remote, d': Device, e: nat, act: Action)
    requires CollisionFree(H) && e in d.engines
      && (FetchStep(H, d, r, d', r, e, act) || OtherStep(H, d, r, d', r, e, act))
    requires RemoteInv(H, r) && DeviceInv(H, d, r)
    ensures DeviceInv(H, d', r) && Grows(d.store, d'.store) && d.chunks <= d'.chunks
  {
    hide CollisionFree, Rooted, SnapshotHash, Chain, Refuses, Covered, Buildable, Empty;
    assert d.chunks <= d'.chunks;
    CoveredStill(d.store, d.chunks + r.chunks, d'.chunks + r.chunks);
    match act
    case Append(files, added, linked) =>
      StoreSealed(H, d.store, Some(d.head), files);
      BuildableCovered(d.store[d.head].files, files, d.chunks + added, d.chunks + r.chunks, d'.chunks + r.chunks);
    case FetchSnapshot(h) =>
      StoreSealed(H, d.store, r.store[h].parent, r.store[h].files);
      CoveredMore(r.store[h].files, r.chunks, d'.chunks + r.chunks);
    case _ =>
  }

  lemma StoreRebased(H: Hasher, d: Device, r: Remote, d': Device, e: nat, act: Action)
    requires CollisionFree(H) && e in d.engines && e in d'.engines && RebaseStep(H, d, r, d', r, e, act)
    requires DeviceInv(H, d, r) && EngineInv(H, d, r, d.engines[e])
    ensures DeviceInv(H, d', r) && Grows(d.store, d'.store) && d'.chunks == d.chunks
    ensures EngineInv(H, d', r, d'.engines[e])
  {
    hide CollisionFree, Rooted, SnapshotHash, Chain, Replays, Covered, FindBase, Empty, Carried;
    var me := d.engines[e];
    match act
    case Plan =>
      var onto := Target(H, me.synced);
      var base := FindBase(d.store, me.local, onto);
      if base != Some(onto) {
        var store, top :| Replays(H, d, me.local, onto, base, store, top)
          && d' == d.(store := store, engines := d.engines[e := Rebasing(me.synced, base, me.local, top)]);
        ReplaysKeep(H, d, r, me.local, onto, base, store, top);
      }
    case Recheck =>
      if d.head != me.top && me.from in Chain(d.store, d.head) {
        var store, top :| Replays(H, d, d.head, Target(H, me.synced), me.base, store, top)
          && d' == d.(store := store, engines := d.engines[e := Rebasing(me.synced, me.base, d.head, top)]);
        ReplaysKeep(H, d, r, d.head, Target(H, me.synced), me.base, store, top);
      } else if d.head == me.top {
        TopIsStored(H, d.store, me.from, Target(H, me.synced), me.base, me.top);
      }
    case Swap =>
      TopIsStored(H, d.store, me.from, Target(H, me.synced), me.base, me.top);
    case _ =>
  }

  lemma TopIsStored(H: Hasher, store: Store, from: Hash, onto: Hash, base: Option<Hash>, top: Hash)
    requires CollisionFree(H) && Addressed(H, store) && Carried(H, store, from, onto, base, top)
    ensures top in store && onto in store
  {
    hide CollisionFree, SnapshotHash, Chain, Todo;
    var replayed := ReplayChain(H, store, Todo(store, from, base), store[onto]);
    assert replayed != [] ==> replayed[|replayed| - 1] in replayed;
  }

  lemma BuildableCovered(head: Files, files: Files, local: set<Hash>, known: set<Hash>, all: set<Hash>)
    requires Buildable(head, files, local) && Covered(head, known) && local <= all && known <= all
    ensures Covered(files, all)
  {
  }

  lemma {:induction false} UptoStops(chain: seq<Hash>, stop: Option<Hash>)
    ensures var walk := Upto(chain, stop);
            && (|walk| < |chain| ==> Some(chain[|walk|]) == stop)
            && forall h :: h in walk ==> Some(h) != stop
    decreases |chain|
  {
    if chain != [] {
      UptoStops(chain[1..], stop);
    }
  }

  /** A walk down a chain whose end hangs off something the remote has. */
  ghost predicate Anchored(store: Store, walk: seq<Hash>, known: set<Hash>) {
    && (forall i :: 0 <= i < |walk| ==> walk[i] in store)
    && (forall i, j :: 0 <= i && j == i + 1 && j < |walk| ==> store[walk[i]].parent == Some(walk[j]))
    && (walk != [] ==> var p := store[walk[|walk| - 1]].parent; p.Some? ==> p.value in known)
  }

  lemma {:induction false} UnsentIsUploadable(store: Store, walk: seq<Hash>, known: set<Hash>)
    requires Anchored(store, walk, known)
    ensures Uploadable(store, known, Unsent(walk, known))
    ensures forall h :: h in Unsent(walk, known) <==> h in walk && h !in known
    decreases |walk|
  {
    hide Uploadable;
    if walk != [] {
      var rest := walk[1..];
      assert walk == [walk[0]] + rest;
      AnchoredRest(store, walk, known);
      UnsentIsUploadable(store, rest, known);
      var sent := Unsent(rest, known);
      if walk[0] in known {
        assert Unsent(walk, known) == sent;
      } else {
        UploadableNext(store, known, sent, walk[0]);
        assert Unsent(walk, known) == sent + [walk[0]];
      }
    } else {
      UploadableNone(store, known);
    }
  }

  lemma UploadableNone(store: Store, known: set<Hash>)
    ensures Uploadable(store, known, [])
  {
  }

  lemma AnchoredRest(store: Store, walk: seq<Hash>, known: set<Hash>)
    requires Anchored(store, walk, known) && walk != []
    ensures Anchored(store, walk[1..], known) && walk[0] in store
    ensures store[walk[0]].parent.Some? ==>
      store[walk[0]].parent.value in known || store[walk[0]].parent.value in walk[1..]
  {
    var rest := walk[1..];
    assert forall i :: 0 <= i < |rest| ==> rest[i] == walk[i + 1];
    if rest != [] {
      assert store[walk[0]].parent == Some(walk[1]) && rest[0] == walk[1];
    }
  }

  /** A child goes last. */
  lemma UploadableNext(store: Store, known: set<Hash>, unsent: seq<Hash>, h: Hash)
    requires Uploadable(store, known, unsent) && h in store
    requires store[h].parent.Some? ==> store[h].parent.value in known || store[h].parent.value in unsent
    ensures Uploadable(store, known, unsent + [h])
  {
    var more := unsent + [h];
    forall i | 0 <= i < |more|
      ensures more[i] in store && (store[more[i]].parent.Some? ==>
        store[more[i]].parent.value in known || store[more[i]].parent.value in more[..i])
    {
      if i < |unsent| {
        assert more[i] == unsent[i] && more[..i] == unsent[..i];
      } else {
        assert more[i] == h && more[..i] == unsent;
      }
    }
  }

  lemma UptoIsAnchored(store: Store, h: Hash, stop: Option<Hash>, known: set<Hash>)
    requires Rooted(store) && h in store && (stop.Some? ==> stop.value in known)
    ensures Anchored(store, Upto(Chain(store, h), stop), known)
    ensures Some(h) != stop ==> h in Upto(Chain(store, h), stop)
  {
    hide Rooted;
    var c := Chain(store, h);
    ChainIsAcyclic(store, h);
    UptoStops(c, stop);
    var walk := Upto(c, stop);
    if walk != [] {
      if |walk| < |c| {
        assert store[c[|walk| - 1]].parent == Some(c[|walk|]);
      }
    }
  }

  /** A push starts with every chunk it will read in the local store, and every snapshot it will send in order. */
  lemma TakeKeeps(H: Hasher, d: Device, r: Remote, synced: Option<Hash>)
    requires CollisionFree(H) && RemoteInv(H, r) && DeviceInv(H, d, r) && EngineInv(H, d, r, Rebased(synced))
    requires synced != Some(d.head)
    ensures var unsent := Unsent(Upto(Chain(d.store, d.head), synced), r.store.Keys);
            && (forall h :: h in unsent ==> h in d.store)
            && EngineInv(H, d, r, Pushing(synced, d.head, ChunksOf(d.store, unsent) - r.chunks, unsent))
  {
    hide CollisionFree, Rooted, SnapshotHash, Chain, Upto, Unsent, Empty;
    var walk := Upto(Chain(d.store, d.head), synced);
    var unsent := Unsent(walk, r.store.Keys);
    UptoIsAnchored(d.store, d.head, synced, r.store.Keys);
    UnsentIsUploadable(d.store, walk, r.store.Keys);
    MissingIsLocal(d.store, unsent, d.chunks, r.chunks);
  }

  lemma MissingIsLocal(store: Store, unsent: seq<Hash>, local: set<Hash>, remote: set<Hash>)
    requires forall h :: h in unsent ==> h in store && Covered(store[h].files, local + remote)
    ensures var missing := ChunksOf(store, unsent) - remote;
            missing <= local && forall h :: h in unsent ==> Covered(store[h].files, remote + missing)
  {
    var missing := ChunksOf(store, unsent) - remote;
    forall c | c in missing
      ensures c in local
    {
      var h, p :| h in unsent && p in store[h].files && c in store[h].files[p].chunks;
      assert Covered(store[h].files, local + remote);
      assert c in store[h].files[p].chunks;
      assert c in local + remote;
    }
    forall h | h in unsent
      ensures Covered(store[h].files, remote + missing)
    {
      forall p, c | p in store[h].files && c in store[h].files[p].chunks
        ensures c in remote + missing
      {
        assert c in ChunksOf(store, unsent);
      }
    }
  }

  lemma NextUpload(store: Store, known: set<Hash>, unsent: seq<Hash>)
    requires Uploadable(store, known, unsent) && unsent != []
    ensures Uploadable(store, known + {unsent[0]}, unsent[1..])
  {
    var rest := unsent[1..];
    forall i | 0 <= i < |rest|
      ensures rest[i] in store && (store[rest[i]].parent.Some? ==>
        store[rest[i]].parent.value in known + {unsent[0]} || store[rest[i]].parent.value in rest[..i])
    {
      assert rest[i] == unsent[i + 1];
      assert unsent[..i + 1] == [unsent[0]] + rest[..i];
    }
  }

  lemma PushKeeps(H: Hasher, d: Device, r: Remote, d': Device, r': Remote, e: nat, act: Action)
    requires CollisionFree(H) && e in d.engines && PushStep(H, d, r, d', r', e, act)
    requires RemoteInv(H, r) && DeviceInv(H, d, r) && EngineInv(H, d, r, d.engines[e])
    requires Gains(r, r') && EngineInv(H, d', r', d.engines[e])
    ensures e in d'.engines && EngineInv(H, d', r', d'.engines[e])
  {
    hide CollisionFree, Rooted, SnapshotHash, Chain, Unsent, Upto, ChunksOf, Covered, Empty, Uploadable, RemoteInv,
      DeviceInv;
    var me := d.engines[e];
    match act
    case Take =>
      if me.synced != Some(d.head) {
        TakeKeeps(H, d, r, me.synced);
      }
    case PutChunk(c) =>
      assert c in d.chunks;
      assert r.chunks + me.missing == r'.chunks + (me.missing - {c});
    case PutSnapshot =>
      NextUpload(d.store, r.store.Keys, me.unsent);
      assert r'.store.Keys == r.store.Keys + {me.unsent[0]};
      assert forall h :: h in me.unsent[1..] ==> h in me.unsent;
    case _ =>
  }

  lemma FetchKeeps(H: Hasher, d: Device, r: Remote, d': Device, e: nat, act: Action)
    requires CollisionFree(H) && e in d.engines
      && (FetchStep(H, d, r, d', r, e, act) || OtherStep(H, d, r, d', r, e, act))
    requires RemoteInv(H, r) && DeviceInv(H, d, r) && EngineInv(H, d, r, d.engines[e])
      && EngineInv(H, d', r, d.engines[e])
    ensures e in d'.engines && EngineInv(H, d', r, d'.engines[e])
  {
    hide CollisionFree, Rooted, SnapshotHash, Chain, Covered, Buildable, Empty, Uploadable, Refuses, Carried;
  }

  /** Every step of an engine keeps what it relies on; in particular a push always finds its chunks. */
  lemma ActorKeeps(H: Hasher, d: Device, r: Remote, d': Device, r': Remote, e: nat, act: Action)
    requires CollisionFree(H) && Act(H, d, r, d', r', e, act)
    requires RemoteInv(H, r) && DeviceInv(H, d, r) && EngineInv(H, d, r, d.engines[e])
    requires Gains(r, r') && DeviceInv(H, d', r') && Grows(d.store, d'.store) && d.chunks <= d'.chunks
    ensures e in d'.engines && EngineInv(H, d', r', d'.engines[e])
  {
    hide CollisionFree, Rooted, Chain, RemoteInv, EngineInv, Gains, FetchStep, RebaseStep, OtherStep, PushStep, Covered,
      Empty;
    OnlyPushesWrite(H, d, r, d', r', e, act);
    EngineStable(H, d, r, d', r', d.engines[e]);
    if PushStep(H, d, r, d', r', e, act) {
      PushKeeps(H, d, r, d', r', e, act);
    } else if RebaseStep(H, d, r, d', r', e, act) {
      StoreRebased(H, d, r, d', e, act);
    } else {
      FetchKeeps(H, d, r, d', e, act);
    }
  }

  /** A device nothing happened on keeps all it relies on while others push. */
  lemma BystanderKeeps(H: Hasher, d: Device, r: Remote, r': Remote)
    requires CollisionFree(H) && DeviceInv(H, d, r) && Gains(r, r')
    ensures DeviceInv(H, d, r')
    ensures forall e :: e in d.engines && EngineInv(H, d, r, d.engines[e]) ==> EngineInv(H, d, r', d.engines[e])
  {
    hide CollisionFree, SnapshotHash, Rooted, Chain, Covered, Empty, EngineInv;
    CoveredStill(d.store, d.chunks + r.chunks, d.chunks + r'.chunks);
    forall e | e in d.engines && EngineInv(H, d, r, d.engines[e])
      ensures EngineInv(H, d, r', d.engines[e])
    {
      EngineStable(H, d, r, d, r', d.engines[e]);
    }
  }
}
