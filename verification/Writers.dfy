/** Any number of writers on one store: recording checkpoints, taking snapshots, fetching and rebasing, interleaved
  at every access to the store. The compare-and-swap of the head is the only step that excludes others. */
module Writers {
  import opened Wrappers
  import opened Snapshots
  import opened Replay
  import opened Repo
  import opened FileHistory

  datatype Writer =
    | Idle
    /** The head was read; a snapshot is to be built on it, of the tree or of one recorded checkpoint. */
    | Building(on: Hash, note: Option<Checkpoint>)
    /** The object is written; the head is to be moved to it. */
    | Linking(expected: Hash, next: Hash, note: Option<Checkpoint>)
    /** Part of the chain of `from` is replayed on top of `remote`, up to `top`; `todo` is left. */
    | Replaying(from: Hash, remote: Hash, base: Option<Hash>, todo: seq<Hash>, top: Hash)
    /** The head was not `from` any more when the rebase tried to move it to `top`. */
    | Contended(from: Hash, remote: Hash, base: Option<Hash>, top: Hash)

  /** The shared store, its writers, and the checkpoints whose `record` has returned. */
  datatype World = World(store: Store, head: Option<Hash>, writers: map<nat, Writer>, recorded: set<Checkpoint>)

  datatype Action =
    | SeedObject
    | SeedHead
    | ReadHead(note: Option<Checkpoint>)
    | RecordUnchanged
    | WriteSnapshot(files: Files)
    | WriteCheckpoint(freshId: string)
    | Link
    | BeginRebase(local: Hash, onto: Hash)
    | ReplayOne
    | SwapRebase
    | Recheck
    | Fetch(parent: Option<Hash>, files: Files)
    | GiveUp

  /** A checkpoint is in a head's history: some snapshot of its chain has that content and identity at that path. */
  ghost predicate InHistory(store: Store, h: Hash, c: Checkpoint) {
    exists t :: t in Chain(store, h) && t in store && Holds(store[t].files, c)
  }

  /** Seeding the store, fetching an object into it, or giving up. */
  ghost predicate SupplyStep(H: Hasher, s: World, s': World, w: nat, act: Action)
    requires w in s.writers
  {
    var me := s.writers[w];
    match act
    case SeedObject =>
      var empty := Sealed(H, None, map[]);
      s' == s.(store := s.store[empty.hash := empty])
    case SeedHead =>
      var empty := Sealed(H, None, map[]).hash;
      empty in s.store && s' == if s.head.None? then s.(head := Some(empty)) else s
    case Fetch(parent, files) =>
      && (if parent.Some? then parent.value in s.store else files == map[])
      && var next := Sealed(H, parent, files);
         s' == s.(store := s.store[next.hash := next])
    case GiveUp =>
      s' == s.(writers := s.writers[w := Idle])
    case _ => false
  }

  /** Building a snapshot, of the tree or of a checkpoint, on the head that was read, and moving the head to it. */
  ghost predicate RecordStep(H: Hasher, s: World, s': World, w: nat, act: Action)
    requires w in s.writers
  {
    var me := s.writers[w];
    match act
    case ReadHead(note) =>
      me.Idle? && s.head.Some? && s' == s.(writers := s.writers[w := Building(s.head.value, note)])
    case RecordUnchanged =>
      && me.Building? && me.note.Some? && me.on in s.store && Holds(s.store[me.on].files, me.note.value)
      && s' == s.(writers := s.writers[w := Idle], recorded := s.recorded + {me.note.value})
    case WriteSnapshot(files) =>
      && me.Building? && me.note.None?
      && var next := Sealed(H, Some(me.on), files);
         s' == s.(store := s.store[next.hash := next], writers := s.writers[w := Linking(me.on, next.hash, None)])
    case WriteCheckpoint(freshId) =>
      && me.Building? && me.note.Some? && me.on in s.store && !Holds(s.store[me.on].files, me.note.value)
      && var next := Sealed(H, Some(me.on), CheckpointFiles(s.store[me.on].files, me.note.value, freshId));
         s' == s.(store := s.store[next.hash := next], writers := s.writers[w := Linking(me.on, next.hash, me.note)])
    case Link =>
      && me.Linking?
      && s' == if s.head != Some(me.expected) then s.(writers := s.writers[w := Idle])
               else s.(head := Some(me.next), writers := s.writers[w := Idle],
                       recorded := s.recorded + if me.note.Some? then {me.note.value} else {})
    case _ => false
  }

  /** Replaying a chain on top of another, and moving the head to what came of it. */
  ghost predicate RebaseStep(H: Hasher, s: World, s': World, w: nat, act: Action)
    requires w in s.writers
  {
    var me := s.writers[w];
    match act
    case BeginRebase(local, onto) =>
      && me.Idle? && local in s.store && onto in s.store
      && var base := FindBase(s.store, local, onto);
         s' == if base == Some(onto) then s
               else s.(writers := s.writers[w := Replaying(local, onto, base, Todo(s.store, local, base), onto)])
    case ReplayOne =>
      && me.Replaying? && me.todo != [] && me.todo[0] in s.store && s.store[me.todo[0]].parent.Some?
      && s.store[me.todo[0]].parent.value in s.store && me.top in s.store
      && var snapshot := s.store[me.todo[0]];
         var files := Replayed(s.store[snapshot.parent.value].files, snapshot.files, s.store[me.top].files);
         var next := Sealed(H, Some(me.top), files);
         s' == s.(store := s.store[next.hash := next],
                  writers := s.writers[w := me.(todo := me.todo[1..], top := next.hash)])
    case SwapRebase =>
      && me.Replaying? && me.todo == []
      && s' == if s.head == Some(me.from) then s.(head := Some(me.top), writers := s.writers[w := Idle])
               else s.(writers := s.writers[w := Contended(me.from, me.remote, me.base, me.top)])
    case Recheck =>
      && me.Contended? && s.head.Some?
      && var current := s.head.value;
         s' == if current == me.top || me.from !in Chain(s.store, current) then s.(writers := s.writers[w := Idle])
               else s.(writers := s.writers[w :=
                         Replaying(current, me.remote, me.base, Todo(s.store, current, me.base), me.remote)])
    case _ => false
  }

  /** What one writer does in one atomic step. */
  ghost predicate Act(H: Hasher, s: World, s': World, w: nat, act: Action) {
    && w in s.writers
    && (SupplyStep(H, s, s', w, act) || RecordStep(H, s, s', w, act) || RebaseStep(H, s, s', w, act))
  }

  /** Everything in the chain of `from` except `todo` is already in the history of `top`. */
  ghost predicate Carried(store: Store, from: Hash, todo: seq<Hash>, top: Hash) {
    forall t, c :: t in Chain(store, from) && t !in todo && t in store && Holds(store[t].files, c) ==>
      InHistory(store, top, c)
  }

  /** Each of `todo` hangs off a member of the chain of `from` that comes before it. */
  ghost predicate Ready(store: Store, from: Hash, todo: seq<Hash>) {
    forall i :: 0 <= i < |todo| ==>
      && todo[i] in store && todo[i] in Chain(store, from) && store[todo[i]].parent.Some?
      && store[todo[i]].parent.value in store && store[todo[i]].parent.value in Chain(store, from)
      && store[todo[i]].parent.value !in todo[i..]
  }

  ghost predicate WriterInv(store: Store, me: Writer) {
    match me
    case Idle => true
    case Building(on, _) => on in store
    case Linking(expected, next, note) =>
      && expected in store && next in store && store[next].parent == Some(expected)
      && (note.Some? ==> Holds(store[next].files, note.value))
    case Replaying(from, remote, base, todo, top) =>
      && from in store && remote in store && top in store
      && (base.Some? ==> base.value in Chain(store, remote))
      && Ready(store, from, todo) && Carried(store, from, todo, top)
    case Contended(from, remote, base, top) =>
      from in store && remote in store && (base.Some? ==> base.value in Chain(store, remote))
  }

  /** Whatever a snapshot that was once read as the head holds is still in the head's history. */
  ghost predicate Published(s: World, on: Hash) {
    on in s.store && forall c :: Holds(s.store[on].files, c) ==> HeadKnows(s, c)
  }

  ghost predicate HeadKnows(s: World, c: Checkpoint) {
    s.head.Some? && InHistory(s.store, s.head.value, c)
  }

  /** The store is whole, the head names a stored snapshot, and every recorded checkpoint is in its history. */
  ghost predicate Inv(H: Hasher, s: World) {
    && WellFormed(H, s.store)
    && (s.head.Some? ==> s.head.value in s.store)
    && (forall w :: w in s.writers ==> WriterInv(s.store, s.writers[w]))
    && (forall w :: w in s.writers && s.writers[w].Building? ==> Published(s, s.writers[w].on))
    && (forall c :: c in s.recorded ==> HeadKnows(s, c))
  }

  lemma HistoryGrows(small: Store, big: Store, h: Hash, c: Checkpoint)
    requires Rooted(small) && Rooted(big) && Grows(small, big) && h in small && InHistory(small, h, c)
    ensures InHistory(big, h, c)
  {
    ChainStable(small, big, h);
  }

  /** A snapshot's history is its own version and its parent's history. */
  lemma HistoryStep(store: Store, h: Hash, c: Checkpoint)
    requires Rooted(store) && h in store && store[h].parent.Some?
    ensures store[h].parent.value in store
    ensures InHistory(store, store[h].parent.value, c) || Holds(store[h].files, c) ==> InHistory(store, h, c)
  {
    ChainStep(store, h);
    var p := store[h].parent.value;
    if InHistory(store, p, c) {
      var t :| t in Chain(store, p) && t in store && Holds(store[t].files, c);
      assert t in Chain(store, h);
    }
    assert h in Chain(store, h);
  }

  lemma CarriedGrows(small: Store, big: Store, from: Hash, todo: seq<Hash>, top: Hash)
    requires Rooted(small) && Rooted(big) && Grows(small, big) && from in small && top in small
    requires Carried(small, from, todo, top)
    ensures Carried(big, from, todo, top)
  {
    hide Rooted;
    ChainStable(small, big, from);
    ChainIsAcyclic(small, from);
    forall t, c | t in Chain(big, from) && t !in todo && t in big && Holds(big[t].files, c)
      ensures InHistory(big, top, c)
    {
      assert t in small && Holds(small[t].files, c);
      HistoryGrows(small, big, top, c);
    }
  }

  /** Nothing a writer relies on is undone by another one's growth of the store. */
  lemma WriterStable(small: Store, big: Store, me: Writer)
    requires Rooted(small) && Rooted(big) && Grows(small, big) && WriterInv(small, me)
    ensures WriterInv(big, me)
  {
    hide Rooted, Carried, Chain;
    match me
    case Replaying(from, remote, base, todo, top) =>
      ChainStable(small, big, from);
      ChainStable(small, big, remote);
      CarriedGrows(small, big, from, todo, top);
    case Contended(from, remote, base, top) =>
      ChainStable(small, big, remote);
    case _ =>
  }

  lemma StoreKeeps(H: Hasher, s: World, s': World, w: nat, act: Action)
    requires CollisionFree(H) && Inv(H, s) && Act(H, s, s', w, act)
    ensures WellFormed(H, s'.store) && Grows(s.store, s'.store)
  {
    hide CollisionFree, Rooted, Chain, SnapshotHash, Carried, Ready, InHistory, CheckpointFiles, Replayed;
    var me := s.writers[w];
    match act
    case SeedObject => StoreSealed(H, s.store, None, map[]);
    case WriteSnapshot(files) => StoreSealed(H, s.store, Some(me.on), files);
    case WriteCheckpoint(freshId) =>
      StoreSealed(H, s.store, Some(me.on), CheckpointFiles(s.store[me.on].files, me.note.value, freshId));
    case ReplayOne =>
      var snapshot := s.store[me.todo[0]];
      StoreSealed(H, s.store, Some(me.top),
                  Replayed(s.store[snapshot.parent.value].files, snapshot.files, s.store[me.top].files));
    case Fetch(parent, files) => StoreSealed(H, s.store, parent, files);
    case _ =>
  }

  lemma TodoIsReady(store: Store, from: Hash, base: Option<Hash>)
    requires Rooted(store) && from in store
    ensures Ready(store, from, Todo(store, from, base))
  {
    hide Rooted, Chain, Unpublished;
    var c, todo := Chain(store, from), Todo(store, from, base);
    ChainIsAcyclic(store, from);
    TodoIsStretch(store, from, base);
    forall i | 0 <= i < |todo|
      ensures todo[i] in c && store[todo[i]].parent.value in c && store[todo[i]].parent.value !in todo[i..]
    {
      ParentLeads(store, from, base, i);
    }
  }

  lemma ParentLeads(store: Store, from: Hash, base: Option<Hash>, i: nat)
    requires Rooted(store) && from in store && i < |Todo(store, from, base)|
    ensures var todo := Todo(store, from, base);
            && todo[i] in Chain(store, from) && todo[i] in store && store[todo[i]].parent.Some?
            && store[todo[i]].parent.value in Chain(store, from) && store[todo[i]].parent.value !in todo[i..]
  {
    hide Rooted, Chain;
    var c, todo := Chain(store, from), Todo(store, from, base);
    var r := Unpublished(store, c, base);
    ChainIsAcyclic(store, from);
    var k := |r| - 1 - i;
    assert todo[i] == r[k] == c[k] && k + 1 < |c|;
    forall j | i <= j < |todo|
      ensures todo[j] != c[k + 1]
    {
      assert todo[j] == r[|r| - 1 - j] == c[|r| - 1 - j];
    }
  }

  lemma UnpublishedIsTodo(store: Store, from: Hash, base: Option<Hash>)
    ensures var r := Unpublished(store, Chain(store, from), base);
            forall k :: 0 <= k < |r| ==> Chain(store, from)[k] in Todo(store, from, base)
  {
    hide Chain;
    var r := Unpublished(store, Chain(store, from), base);
    forall k | 0 <= k < |r|
      ensures Chain(store, from)[k] in Todo(store, from, base)
    {
      assert Todo(store, from, base)[|r| - 1 - k] == r[k];
    }
  }

  /** A member of a chain that a rebase does not carry over is on the base's chain, or is the root. */
  lemma LeftBehind(store: Store, from: Hash, base: Option<Hash>, t: Hash)
    requires Rooted(store) && from in store && t in Chain(store, from) && t !in Todo(store, from, base)
    ensures t in store && ((base.Some? && t in Chain(store, base.value)) || store[t].parent.None?)
  {
    hide Rooted, Chain, Unpublished, Todo;
    var c := Chain(store, from);
    var r := Unpublished(store, c, base);
    ChainIsAcyclic(store, from);
    UnpublishedStops(store, c, base);
    var i :| 0 <= i < |c| && c[i] == t;
    assert |r| + 1 < |c| ==> store[c[|r|]].parent == Some(c[|r| + 1]);
    UnpublishedIsTodo(store, from, base);
    if Some(c[|r|]) == base {
      ChainSuffix(store, from, |r|);
      assert c[|r|..][i - |r|] == t;
    }
  }

  /** What a rebase does not carry over is underneath the new base already, or is the empty root. */
  lemma StartCarried(store: Store, from: Hash, remote: Hash, base: Option<Hash>)
    requires Rooted(store) && EmptyRoots(store) && from in store && remote in store
    requires base.Some? ==> base.value in Chain(store, remote)
    ensures Ready(store, from, Todo(store, from, base)) && Carried(store, from, Todo(store, from, base), remote)
  {
    hide Rooted, Chain, Todo;
    TodoIsReady(store, from, base);
    forall t, d | t in Chain(store, from) && t !in Todo(store, from, base) && t in store && Holds(store[t].files, d)
      ensures InHistory(store, remote, d)
    {
      LeftBehind(store, from, base, t);
      if base.Some? {
        ChainTransitive(store, remote, base.value);
      }
    }
  }

  lemma {:induction false} UnpublishedStops(store: Store, chain: seq<Hash>, base: Option<Hash>)
    requires forall h :: h in chain ==> h in store
    ensures var r := Unpublished(store, chain, base);
            |r| < |chain| ==> Some(chain[|r|]) == base || store[chain[|r|]].parent.None?
    decreases |chain|
  {
    if chain != [] {
      UnpublishedStops(store, chain[1..], base);
    }
  }

  /** Replaying one more checkpoint carries its version over: its parent had it already, or the replayed snapshot
    has it now. */
  lemma StepCarried(store: Store, big: Store, from: Hash, todo: seq<Hash>, top: Hash, next: Snapshot)
    requires Rooted(store) && Rooted(big) && Grows(store, big) && from in store && top in store
    requires todo != [] && Ready(store, from, todo) && Carried(store, from, todo, top)
    requires next.parent == Some(top) && next.hash in big && big[next.hash] == next
    requires var s := store[todo[0]];
             next.files == Replayed(store[s.parent.value].files, s.files, store[top].files)
    ensures Ready(big, from, todo[1..]) && Carried(big, from, todo[1..], next.hash)
  {
    hide Rooted, Replayed, Chain;
    ChainStable(store, big, from);
    CarriedGrows(store, big, from, todo, top);
    assert Ready(big, from, todo[1..]) by {
      assert forall i :: 0 <= i < |todo| - 1 ==> todo[1..][i] == todo[i + 1] && todo[1..][i..] == todo[i + 1..];
    }
    var s := store[todo[0]];
    var p := s.parent.value;
    forall t, c | t in Chain(big, from) && t !in todo[1..] && t in big && Holds(big[t].files, c)
      ensures InHistory(big, next.hash, c)
    {
      HistoryStep(big, next.hash, c);
      if t == todo[0] {
        assert todo[0..] == todo && p !in todo;
        ReplayedAt(store[p].files, s.files, store[top].files, c.path);
        assert Holds(store[p].files, c) || Holds(next.files, c);
      }
    }
  }

  lemma ActorKeeps(H: Hasher, s: World, s': World, w: nat, act: Action)
    requires CollisionFree(H) && Inv(H, s) && Act(H, s, s', w, act)
    requires WellFormed(H, s'.store) && Grows(s.store, s'.store)
    ensures w in s'.writers && WriterInv(s'.store, s'.writers[w])
  {
    hide CollisionFree, Rooted, Chain, WriterInv, SupplyStep, RecordStep, RebaseStep;
    assert WriterInv(s.store, s.writers[w]);
    WriterStable(s.store, s'.store, s.writers[w]);
    if RebaseStep(H, s, s', w, act) {
      ReplayerKeeps(H, s, s', w, act);
    } else {
      RecorderKeeps(H, s, s', w, act);
    }
  }

  lemma RecorderKeeps(H: Hasher, s: World, s': World, w: nat, act: Action)
    requires CollisionFree(H) && w in s.writers && (SupplyStep(H, s, s', w, act) || RecordStep(H, s, s', w, act))
    requires Inv(H, s) && WriterInv(s'.store, s.writers[w])
    ensures w in s'.writers && WriterInv(s'.store, s'.writers[w])
  {
    hide CollisionFree, Rooted, SnapshotHash, CheckpointFiles, Chain, Carried, Ready;
  }

  lemma ReplayerKeeps(H: Hasher, s: World, s': World, w: nat, act: Action)
    requires CollisionFree(H) && w in s.writers && RebaseStep(H, s, s', w, act)
    requires Inv(H, s) && WellFormed(H, s'.store) && Grows(s.store, s'.store)
    ensures w in s'.writers && WriterInv(s'.store, s'.writers[w])
  {
    hide CollisionFree, Rooted, SnapshotHash, Replayed, FindBase, Chain, Carried, Ready;
    var me := s.writers[w];
    assert WriterInv(s.store, me);
    WriterStable(s.store, s'.store, me);
    match act
    case BeginRebase(local, onto) =>
      BaseIsNearest(s.store, local, onto);
      if FindBase(s.store, local, onto) != Some(onto) {
        StartCarried(s.store, local, onto, FindBase(s.store, local, onto));
      }
    case ReplayOne =>
      var snapshot := s.store[me.todo[0]];
      var files := Replayed(s.store[snapshot.parent.value].files, snapshot.files, s.store[me.top].files);
      StepCarried(s.store, s'.store, me.from, me.todo, me.top, Sealed(H, Some(me.top), files));
    case Recheck =>
      if s'.writers[w].Replaying? {
        StartCarried(s.store, s.head.value, me.remote, me.base);
      }
    case _ =>
  }

  /** The head only ever moves to a snapshot whose history holds everything the old one's did. */
  lemma HistoryKeeps(H: Hasher, s: World, s': World, w: nat, act: Action, c: Checkpoint)
    requires CollisionFree(H) && Inv(H, s) && Act(H, s, s', w, act)
    requires WellFormed(H, s'.store) && Grows(s.store, s'.store)
    ensures HeadKnows(s, c) ==> HeadKnows(s', c)
  {
    hide CollisionFree, Rooted, SnapshotHash, CheckpointFiles, Replayed, FindBase, Chain, Carried, Ready, InHistory;
    var me := s.writers[w];
    assert WriterInv(s.store, me);
    if HeadKnows(s, c) {
      HistoryGrows(s.store, s'.store, s.head.value, c);
      match act
      case Link => HistoryStep(s.store, me.next, c);
      case SwapRebase => CarriedAll(s.store, me.from, me.top, c);
      case _ =>
    }
  }

  lemma CarriedAll(store: Store, from: Hash, top: Hash, c: Checkpoint)
    ensures Carried(store, from, [], top) && InHistory(store, from, c) ==> InHistory(store, top, c)
  {
  }

  /** A checkpoint whose `record` returns in this step is in the head's history. */
  lemma RecordKeeps(H: Hasher, s: World, s': World, w: nat, act: Action, c: Checkpoint)
    requires CollisionFree(H) && Inv(H, s) && Act(H, s, s', w, act)
    requires WellFormed(H, s'.store) && Grows(s.store, s'.store)
    requires c in s'.recorded && c !in s.recorded
    ensures HeadKnows(s', c)
  {
    hide CollisionFree, Rooted, SnapshotHash, CheckpointFiles, Replayed, FindBase, Chain, Carried, Ready, InHistory;
    var me := s.writers[w];
    assert WriterInv(s.store, me);
    match act
    case Link => HistoryStep(s.store, me.next, c);
    case RecordUnchanged =>
      assert Published(s, me.on);
      HistoryKeeps(H, s, s', w, act, c);
    case _ =>
  }

  lemma HeadStored(H: Hasher, s: World, s': World, w: nat, act: Action)
    requires CollisionFree(H) && Inv(H, s) && Act(H, s, s', w, act) && Grows(s.store, s'.store)
    ensures s'.head.Some? ==> s'.head.value in s'.store
    ensures s'.writers.Keys == s.writers.Keys && s.recorded <= s'.recorded
    ensures forall v :: v in s.writers && v != w ==> s'.writers[v] == s.writers[v]
    ensures w in s'.writers
    ensures s'.writers[w].Building? ==> s'.writers[w] == s.writers[w] || Some(s'.writers[w].on) == s'.head
  {
    hide CollisionFree, Inv, SupplyStep, RecordStep, RebaseStep;
    if SupplyStep(H, s, s', w, act) {
      SupplyLeavesHead(H, s, s', w, act);
    } else if RecordStep(H, s, s', w, act) {
      RecordLeavesHead(H, s, s', w, act);
    } else {
      RebaseLeavesHead(H, s, s', w, act);
    }
  }

  lemma SupplyLeavesHead(H: Hasher, s: World, s': World, w: nat, act: Action)
    requires CollisionFree(H) && Inv(H, s) && w in s.writers && SupplyStep(H, s, s', w, act) && Grows(s.store, s'.store)
    ensures s'.head.Some? ==> s'.head.value in s'.store
    ensures s'.writers.Keys == s.writers.Keys && s.recorded <= s'.recorded
    ensures forall v :: v in s.writers && v != w ==> s'.writers[v] == s.writers[v]
    ensures w in s'.writers
    ensures s'.writers[w].Building? ==> s'.writers[w] == s.writers[w] || Some(s'.writers[w].on) == s'.head
  {
    hide CollisionFree, Rooted, SnapshotHash, CheckpointFiles, Replayed, FindBase, Chain, Carried, Ready, InHistory,
      Published;
    assert WriterInv(s.store, s.writers[w]);
  }

  lemma RecordLeavesHead(H: Hasher, s: World, s': World, w: nat, act: Action)
    requires CollisionFree(H) && Inv(H, s) && w in s.writers && RecordStep(H, s, s', w, act) && Grows(s.store, s'.store)
    ensures s'.head.Some? ==> s'.head.value in s'.store
    ensures s'.writers.Keys == s.writers.Keys && s.recorded <= s'.recorded
    ensures forall v :: v in s.writers && v != w ==> s'.writers[v] == s.writers[v]
    ensures w in s'.writers
    ensures s'.writers[w].Building? ==> s'.writers[w] == s.writers[w] || Some(s'.writers[w].on) == s'.head
  {
    hide CollisionFree, Rooted, SnapshotHash, CheckpointFiles, Replayed, FindBase, Chain, Carried, Ready, InHistory,
      Published;
    assert WriterInv(s.store, s.writers[w]);
  }

  lemma RebaseLeavesHead(H: Hasher, s: World, s': World, w: nat, act: Action)
    requires CollisionFree(H) && Inv(H, s) && w in s.writers && RebaseStep(H, s, s', w, act) && Grows(s.store, s'.store)
    ensures s'.head.Some? ==> s'.head.value in s'.store
    ensures s'.writers.Keys == s.writers.Keys && s.recorded <= s'.recorded
    ensures forall v :: v in s.writers && v != w ==> s'.writers[v] == s.writers[v]
    ensures w in s'.writers
    ensures s'.writers[w].Building? ==> s'.writers[w] == s.writers[w] || Some(s'.writers[w].on) == s'.head
  {
    hide CollisionFree, Rooted, SnapshotHash, CheckpointFiles, Replayed, FindBase, Chain, Carried, Ready, InHistory,
      Published;
    assert WriterInv(s.store, s.writers[w]);
  }

  /** Every step of every writer keeps the invariant. */
  lemma StepKeeps(H: Hasher, s: World, s': World, w: nat, act: Action)
    requires CollisionFree(H) && Inv(H, s) && Act(H, s, s', w, act)
    ensures Inv(H, s') && Grows(s.store, s'.store) && s.recorded <= s'.recorded
    ensures forall c :: HeadKnows(s, c) ==> HeadKnows(s', c)
  {
    hide CollisionFree, Rooted, Act, WriterInv, Chain;
    StoreKeeps(H, s, s', w, act);
    HeadStored(H, s, s', w, act);
    ActorKeeps(H, s, s', w, act);
    forall c
      ensures HeadKnows(s, c) ==> HeadKnows(s', c)
    {
      HistoryKeeps(H, s, s', w, act, c);
    }
    forall v | v in s'.writers
      ensures WriterInv(s'.store, s'.writers[v])
      ensures s'.writers[v].Building? ==> Published(s', s'.writers[v].on)
    {
      if v != w {
        WriterStable(s.store, s'.store, s.writers[v]);
      }
      if s'.writers[v].Building? {
        StillPublished(s, s', s'.writers[v].on);
      }
    }
    forall c | c in s'.recorded
      ensures HeadKnows(s', c)
    {
      if c !in s.recorded {
        RecordKeeps(H, s, s', w, act, c);
      }
    }
  }

  lemma StillPublished(s: World, s': World, on: Hash)
    requires Grows(s.store, s'.store) && forall c :: HeadKnows(s, c) ==> HeadKnows(s', c)
    requires Published(s, on) || (Some(on) == s'.head && on in s'.store)
    ensures Published(s', on)
  {
    if Some(on) == s'.head && on in s'.store {
      assert Chain(s'.store, on)[0] == on;
    }
  }

  ghost predicate Moves(H: Hasher, s: World, s': World) {
    exists w, act :: Act(H, s, s', w, act)
  }

  /** A run: any sequence of steps by any of the writers. */
  ghost predicate Run(H: Hasher, states: seq<World>) {
    && states != []
    && forall i, j :: 0 <= i && j == i + 1 && j < |states| ==> Moves(H, states[i], states[j])
  }

  /** An empty store, no head, and every writer idle. */
  ghost predicate Init(s: World) {
    s.store == map[] && s.head.None? && s.recorded == {} && forall w :: w in s.writers ==> s.writers[w].Idle?
  }

  lemma InitHolds(H: Hasher, s: World)
    requires CollisionFree(H) && Init(s)
    ensures Inv(H, s)
  {
    assert Ranked(s.store, map[]);
  }

  lemma {:induction false} RunKeeps(H: Hasher, states: seq<World>, i: nat, j: nat)
    requires CollisionFree(H) && Run(H, states) && Inv(H, states[0]) && i <= j < |states|
    ensures Inv(H, states[j]) && states[i].recorded <= states[j].recorded
    ensures forall c :: HeadKnows(states[i], c) ==> HeadKnows(states[j], c)
    decreases j
  {
    hide CollisionFree, Inv, Act, HeadKnows;
    if j > 0 {
      var k := j - 1;
      RunKeeps(H, states, if i < j then i else k, k);
      assert Moves(H, states[k], states[j]);
      var w, act :| Act(H, states[k], states[j], w, act);
      StepKeeps(H, states[k], states[j], w, act);
    }
  }

  /** In every state of every run the head names a stored snapshot under its own address, and its whole parent chain
    is stored, addressed, free of repetition, and ends at the empty root. */
  lemma HeadChainIsWhole(H: Hasher, states: seq<World>, i: nat)
    requires CollisionFree(H) && Run(H, states) && Init(states[0]) && i < |states| && states[i].head.Some?
    ensures var st, c := states[i].store, Chain(states[i].store, states[i].head.value);
            && Linked(st, c) && c[0] == states[i].head.value
            && (forall k :: 0 <= k < |c| ==>
                st[c[k]].hash == c[k] && st[c[k]] == Sealed(H, st[c[k]].parent, st[c[k]].files))
            && (forall k, l :: 0 <= k < l < |c| ==> c[k] != c[l])
            && st[c[|c| - 1]].files == map[]
  {
    hide Run, Act, CollisionFree;
    InitHolds(H, states[0]);
    RunKeeps(H, states, 0, i);
    ChainIsAcyclic(states[i].store, states[i].head.value);
  }

  /** No checkpoint is lost: once a `record` has returned, in every later state some snapshot of the head's chain
    holds that content and identity at that path, whoever else wrote in between. */
  lemma NoCheckpointIsLost(H: Hasher, states: seq<World>, i: nat, j: nat, c: Checkpoint)
    requires CollisionFree(H) && Run(H, states) && Init(states[0]) && i <= j < |states| && c in states[i].recorded
    ensures states[j].head.Some? && InHistory(states[j].store, states[j].head.value, c)
  {
    hide Run, Act, CollisionFree;
    InitHolds(H, states[0]);
    RunKeeps(H, states, 0, i);
    RunKeeps(H, states, i, j);
  }
}
