/** Which snapshot keeps a recorded checkpoint through rebases. It need be neither the recorded one nor a replay of
  it. */
module CheckpointReplays {
  import opened Wrappers
  import opened Snapshots
  import opened Replay
  import opened Repo
  import opened FileHistory
  import opened Writers

  /** A replayed snapshot holds a version that the original held exactly when the original brought it in, its own parent
    not having had it, or the new parent has it anyway. */
  lemma ReplayHoldsIff(parent: Files, snapshot: Files, head: Files, c: Checkpoint)
    requires Holds(snapshot, c)
    ensures Holds(Replayed(parent, snapshot, head), c) <==> !Holds(parent, c) || Holds(head, c)
  {
    ReplayedAt(parent, snapshot, head, c.path);
  }

  /** And it brings the version in itself exactly when the original did and the new parent does not have it. */
  lemma ReplayTouchesIff(parent: Files, snapshot: Files, head: Files, c: Checkpoint)
    requires Holds(snapshot, c)
    ensures !SameEntry(Get(head, c.path), Get(Replayed(parent, snapshot, head), c.path)) <==>
      !Holds(parent, c) && !Holds(head, c)
  {
    ReplayedAt(parent, snapshot, head, c.path);
  }

  /** A recorded checkpoint's own snapshot brings its version in, so every replay of that snapshot holds it; only a
    replay of a replay can lose it. */
  lemma OwnReplayHolds(files: Files, c: Checkpoint, freshId: string, head: Files)
    requires !Holds(files, c)
    ensures Holds(Replayed(files, CheckpointFiles(files, c, freshId), head), c)
  {
    ReplayHoldsIff(files, CheckpointFiles(files, c, freshId), head, c);
  }

  /** By its content, `t` is `h` replayed on the parent it has. */
  ghost predicate IsReplay(store: Store, h: Hash, t: Hash) {
    && h in store && store[h].parent.Some? && store[h].parent.value in store
    && t in store && store[t].parent.Some? && store[t].parent.value in store
    && store[t].files
      == Replayed(store[store[h].parent.value].files, store[h].files, store[store[t].parent.value].files)
  }

  /** `t` comes of `h` by `n` replays. */
  ghost predicate Replays(store: Store, h: Hash, t: Hash, n: nat)
    decreases n
  {
    if n == 0 then t == h else exists m :: Replays(store, h, m, n - 1) && IsReplay(store, m, t)
  }

  function Saved(): Checkpoint {
    Checkpoint("a", "x", None, [])
  }

  function B(): Files {
    map["b" := Entry("y", None, None, [])]
  }

  /** The empty snapshot; two fetched ones, of which the first brings in the same version and the second deletes it;
    the recorded checkpoint, its replay on the first, and the replay of that on the second. */
  datatype Cast = Cast(e: Snapshot, m1: Snapshot, m2: Snapshot, s: Snapshot, s1: Snapshot, s2: Snapshot)

  function TheCast(H: Hasher): Cast {
    var e := Sealed(H, None, map[]);
    var m1 := Sealed(H, Some(e.hash), B()["a" := Entry("x", None, None, [])]);
    var m2 := Sealed(H, Some(m1.hash), B());
    Cast(e, m1, m2, Sealed(H, Some(e.hash), map["a" := Entry("x", None, Some("1"), [])]),
         Sealed(H, Some(m1.hash), B()["a" := Entry("x", None, Some("1"), [])]), Sealed(H, Some(m2.hash), B()))
  }

  function Fetched(c: Cast): Store {
    map[c.e.hash := c.e, c.m1.hash := c.m1, c.m2.hash := c.m2]
  }

  function Recorded(c: Cast): Store {
    Fetched(c)[c.s.hash := c.s]
  }

  function Once(c: Cast): Store {
    Recorded(c)[c.s1.hash := c.s1]
  }

  function TheEnd(c: Cast): Store {
    Once(c)[c.s2.hash := c.s2]
  }

  lemma Differ(H: Hasher, s: Snapshot, t: Snapshot)
    requires CollisionFree(H) && s == Sealed(H, s.parent, s.files) && t == Sealed(H, t.parent, t.files)
    requires s.parent != t.parent || s.files != t.files
    ensures s.hash != t.hash
  {
    if s.hash == t.hash {
      AddressCommits(H, s, t);
    }
  }

  lemma CastIsDistinct(H: Hasher)
    requires CollisionFree(H)
    ensures var c := TheCast(H);
            && c.e.hash != c.m1.hash && c.e.hash != c.m2.hash && c.e.hash != c.s.hash && c.e.hash != c.s1.hash
            && c.e.hash != c.s2.hash && c.m1.hash != c.m2.hash && c.m1.hash != c.s.hash && c.m1.hash != c.s1.hash
            && c.m1.hash != c.s2.hash && c.m2.hash != c.s.hash && c.m2.hash != c.s1.hash && c.m2.hash != c.s2.hash
            && c.s.hash != c.s1.hash && c.s.hash != c.s2.hash && c.s1.hash != c.s2.hash
  {
    hide CollisionFree, SnapshotHash;
    var c := TheCast(H);
    FilesDiffer(c.m1.files, c.m2.files, c.s.files, c.s1.files, H);
    Differ(H, c.e, c.m1);
    Differ(H, c.e, c.m2);
    Differ(H, c.e, c.s);
    Differ(H, c.e, c.s1);
    Differ(H, c.e, c.s2);
    Differ(H, c.m1, c.m2);
    Differ(H, c.m1, c.s);
    Differ(H, c.m1, c.s1);
    Differ(H, c.m1, c.s2);
    Differ(H, c.m2, c.s);
    Differ(H, c.m2, c.s1);
    Differ(H, c.m2, c.s2);
    Differ(H, c.s, c.s1);
    Differ(H, c.s, c.s2);
    Differ(H, c.s1, c.s2);
  }

  lemma FilesDiffer(m1: Files, m2: Files, s: Files, s1: Files, H: Hasher)
    requires var c := TheCast(H); m1 == c.m1.files && m2 == c.m2.files && s == c.s.files && s1 == c.s1.files
    ensures m1 != m2 && m1 != s && m2 != s1 && m2 != s && s != s1 && m1 != s1
    ensures m1 != map[] && m2 != map[] && s != map[] && s1 != map[]
  {
    assert "a" in m1 && "b" in m1 && "a" !in m2 && "b" in m2 && "a" in s && "b" !in s && "a" in s1 && "b" in s1;
    assert m1["a"].fileId != s1["a"].fileId;
  }

  lemma CastStores(H: Hasher)
    requires CollisionFree(H)
    ensures var c := TheCast(H);
            && WellFormed(H, Fetched(c)) && WellFormed(H, Recorded(c)) && WellFormed(H, Once(c))
              && WellFormed(H, TheEnd(c))
            && Grows(Fetched(c), TheEnd(c)) && Grows(Recorded(c), TheEnd(c)) && Grows(Once(c), TheEnd(c))
  {
    hide CollisionFree, SnapshotHash;
    var c := TheCast(H);
    CastIsDistinct(H);
    var none: map<Hash, nat> := map[];
    assert Ranked(map[], none);
    hide Rooted;
    StoreSealed(H, map[], None, map[]);
    StoreSealed(H, map[c.e.hash := c.e], Some(c.e.hash), c.m1.files);
    StoreSealed(H, map[c.e.hash := c.e, c.m1.hash := c.m1], Some(c.m1.hash), c.m2.files);
    StoreSealed(H, Fetched(c), Some(c.e.hash), c.s.files);
    StoreSealed(H, Recorded(c), Some(c.m1.hash), c.s1.files);
    StoreSealed(H, Once(c), Some(c.m2.hash), c.s2.files);
  }

  lemma CastChains(H: Hasher)
    requires CollisionFree(H)
    ensures var c := TheCast(H);
            && Chain(TheEnd(c), c.e.hash) == [c.e.hash]
            && Chain(TheEnd(c), c.m1.hash) == [c.m1.hash, c.e.hash]
            && Chain(TheEnd(c), c.m2.hash) == [c.m2.hash, c.m1.hash, c.e.hash]
            && Chain(TheEnd(c), c.s.hash) == [c.s.hash, c.e.hash]
            && Chain(TheEnd(c), c.s1.hash) == [c.s1.hash, c.m1.hash, c.e.hash]
            && Chain(TheEnd(c), c.s2.hash) == [c.s2.hash, c.m2.hash, c.m1.hash, c.e.hash]
  {
    hide CollisionFree, SnapshotHash, Chain, Rooted;
    var c := TheCast(H);
    CastIsDistinct(H);
    CastStores(H);
    ChainStep(TheEnd(c), c.e.hash);
    ChainStep(TheEnd(c), c.m1.hash);
    ChainStep(TheEnd(c), c.m2.hash);
    ChainStep(TheEnd(c), c.s.hash);
    ChainStep(TheEnd(c), c.s1.hash);
    ChainStep(TheEnd(c), c.s2.hash);
  }

  /** Replayed once it keeps its version, replayed twice it loses it. */
  lemma ReplayedTwice(H: Hasher)
    ensures var c := TheCast(H);
            && Replayed(c.e.files, c.s.files, c.m1.files) == c.s1.files
            && Replayed(c.m1.files, c.s1.files, c.m2.files) == c.s2.files
            && CheckpointFiles(c.e.files, Saved(), "1") == c.s.files
  {
  }

  /** Only the checkpoint and its two replays come of it. */
  lemma {:induction false} OnlyThese(H: Hasher, t: Hash, n: nat)
    requires CollisionFree(H)
    requires var c := TheCast(H); Replays(TheEnd(c), c.s.hash, t, n)
    ensures var c := TheCast(H); t == c.s.hash || t == c.s1.hash || t == c.s2.hash
    decreases n
  {
    hide CollisionFree, SnapshotHash, IsReplay;
    if n > 0 {
      var c := TheCast(H);
      var m :| Replays(TheEnd(c), c.s.hash, m, n - 1) && IsReplay(TheEnd(c), m, t);
      OnlyThese(H, m, n - 1);
      NotReplays(H, m, t);
    }
  }

  /** On the empty files none of the three brings in "b", and on those of the first fetched one each keeps "a". */
  lemma ByContent(H: Hasher, parent: Files, files: Files)
    requires var c := TheCast(H);
             || (parent == c.e.files && files == c.s.files)
             || (parent == c.m1.files && files == c.s1.files)
             || (parent == c.m2.files && files == c.s2.files)
    ensures var c := TheCast(H);
            Replayed(parent, files, c.e.files) != c.m1.files && Replayed(parent, files, c.m1.files) != c.m2.files
  {
    hide SnapshotHash, Replayed;
    var c := TheCast(H);
    ReplayedAt(parent, files, c.e.files, "b");
    ReplayedAt(parent, files, c.m1.files, "a");
    assert Get(c.m1.files, "b").Some? && Get(c.m2.files, "a").None?;
  }

  lemma NotReplays(H: Hasher, m: Hash, t: Hash)
    requires CollisionFree(H)
    requires var c := TheCast(H); m == c.s.hash || m == c.s1.hash || m == c.s2.hash
    requires IsReplay(TheEnd(TheCast(H)), m, t)
    ensures var c := TheCast(H); t == c.s.hash || t == c.s1.hash || t == c.s2.hash
  {
    hide CollisionFree, SnapshotHash, Replayed;
    var c := TheCast(H);
    CastIsDistinct(H);
    ByContent(H, TheEnd(c)[TheEnd(c)[m].parent.value].files, TheEnd(c)[m].files);
  }

  function At(store: Store, head: Option<Hash>, me: Writer, recorded: set<Checkpoint>): World {
    World(store, head, map[0 := me], recorded)
  }

  ghost predicate Leads(H: Hasher, states: seq<World>, s: World, t: World) {
    Run(H, states) && states[0] == s && states[|states| - 1] == t
  }

  ghost predicate Reaches(H: Hasher, s: World, t: World) {
    exists states :: Leads(H, states, s, t)
  }

  /** One step of the only writer. */
  lemma Do(H: Hasher, s: World, m: World, t: World, act: Action)
    requires Reaches(H, s, m) && Act(H, m, t, 0, act)
    ensures Reaches(H, s, t)
  {
    hide Act;
    var states :| Leads(H, states, s, m);
    var more := states + [t];
    assert Moves(H, m, t);
    forall k, l | 0 <= k && l == k + 1 && l < |more|
      ensures Moves(H, more[k], more[l])
    {
      assert more[k] == states[k];
      assert l < |states| ==> Moves(H, states[k], states[l]);
    }
    assert Leads(H, more, s, t);
  }

  /** The store is seeded, and both snapshots of another device are fetched. */
  lemma Begins(H: Hasher)
    requires CollisionFree(H)
    ensures var c := TheCast(H); Reaches(H, At(map[], None, Idle, {}), At(Fetched(c), Some(c.e.hash), Idle, {}))
  {
    hide CollisionFree, SnapshotHash, Reaches, RecordStep, RebaseStep;
    var c, none := TheCast(H), map[];
    CastIsDistinct(H);
    var start := At(none, None, Idle, {});
    Nowhere(H, start);
    var one, two := map[c.e.hash := c.e], map[c.e.hash := c.e, c.m1.hash := c.m1];
    Do(H, start, start, At(one, None, Idle, {}), SeedObject);
    Do(H, start, At(one, None, Idle, {}), At(one, Some(c.e.hash), Idle, {}), SeedHead);
    Do(H, start, At(one, Some(c.e.hash), Idle, {}), At(two, Some(c.e.hash), Idle, {}),
       Fetch(Some(c.e.hash), c.m1.files));
    Do(H, start, At(two, Some(c.e.hash), Idle, {}), At(Fetched(c), Some(c.e.hash), Idle, {}),
       Fetch(Some(c.m1.hash), c.m2.files));
  }

  lemma Nowhere(H: Hasher, s: World)
    ensures Reaches(H, s, s)
  {
    hide Moves;
    assert Leads(H, [s], s, s);
  }

  lemma Records(H: Hasher, start: World)
    requires CollisionFree(H)
    requires var c := TheCast(H); Reaches(H, start, At(Fetched(c), Some(c.e.hash), Idle, {}))
    ensures var c := TheCast(H); Reaches(H, start, At(Recorded(c), Some(c.s.hash), Idle, {Saved()}))
  {
    hide CollisionFree, SnapshotHash, Reaches, SupplyStep, RebaseStep, CheckpointFiles, Fetched, TheCast;
    var c, note := TheCast(H), Some(Saved());
    var e := Some(c.e.hash);
    Do(H, start, At(Fetched(c), e, Idle, {}), At(Fetched(c), e, Building(c.e.hash, note), {}), ReadHead(note));
    Writing(H);
    Do(H, start, At(Fetched(c), e, Building(c.e.hash, note), {}),
       At(Recorded(c), e, Linking(c.e.hash, c.s.hash, note), {}),
       WriteCheckpoint("1"));
    assert {} + {Saved()} == {Saved()};
    Do(H, start, At(Recorded(c), e, Linking(c.e.hash, c.s.hash, note), {}),
       At(Recorded(c), Some(c.s.hash), Idle, {Saved()}), Link);
  }

  lemma Writing(H: Hasher)
    requires CollisionFree(H)
    ensures var c, note := TheCast(H), Some(Saved());
            Act(H, At(Fetched(c), Some(c.e.hash), Building(c.e.hash, note), {}),
                At(Recorded(c), Some(c.e.hash), Linking(c.e.hash, c.s.hash, note), {}), 0, WriteCheckpoint("1"))
  {
    hide CollisionFree, SnapshotHash, SupplyStep, RebaseStep, CheckpointFiles;
    CastIsDistinct(H);
    ReplayedTwice(H);
  }

  /** One snapshot is to be carried over, from `base` on top of `onto`. */
  ghost predicate Movable(H: Hasher, store: Store, from: Snapshot, base: Snapshot, onto: Snapshot) {
    && WellFormed(H, store)
    && from.hash in store && store[from.hash] == from && base.hash in store && store[base.hash] == base
    && onto.hash in store && store[onto.hash] == onto
    && from.parent == Some(base.hash) && from.hash != base.hash && base.hash != onto.hash
    && FindBase(store, from.hash, onto.hash) == Some(base.hash)
  }

  function Begun(from: Snapshot, base: Snapshot, onto: Snapshot): Writer {
    Replaying(from.hash, onto.hash, Some(base.hash), [from.hash], onto.hash)
  }

  lemma Beginning(H: Hasher, store: Store, from: Snapshot, base: Snapshot, onto: Snapshot)
    requires CollisionFree(H) && Movable(H, store, from, base, onto)
    ensures Act(H, At(store, Some(from.hash), Idle, {Saved()}),
                At(store, Some(from.hash), Begun(from, base, onto), {Saved()}), 0,
                BeginRebase(from.hash, onto.hash))
  {
    hide CollisionFree, SnapshotHash, SupplyStep, RecordStep, Rooted, FindBase, Todo, Addressed;
    OneToReplay(store, from.hash, base.hash);
  }

  lemma Carrying(H: Hasher, store: Store, from: Snapshot, base: Snapshot, onto: Snapshot, top: Snapshot)
    requires CollisionFree(H) && Movable(H, store, from, base, onto)
    requires top == Sealed(H, Some(onto.hash), Replayed(base.files, from.files, onto.files))
    ensures Act(H, At(store, Some(from.hash), Begun(from, base, onto), {Saved()}),
                At(store[top.hash := top], Some(from.hash), Begun(from, base, onto).(todo := [], top := top.hash),
                   {Saved()}), 0,
                ReplayOne)
  {
    hide CollisionFree, SnapshotHash, SupplyStep, RecordStep, Rooted, FindBase, Todo, Addressed, Replayed;
    assert [from.hash][1..] == [];
  }

  /** Such a rebase, run. */
  lemma Rebases(H: Hasher, start: World, store: Store, from: Snapshot, base: Snapshot, onto: Snapshot, top: Snapshot)
    requires CollisionFree(H) && Movable(H, store, from, base, onto)
    requires top == Sealed(H, Some(onto.hash), Replayed(base.files, from.files, onto.files))
    requires Reaches(H, start, At(store, Some(from.hash), Idle, {Saved()}))
    ensures Reaches(H, start, At(store[top.hash := top], Some(top.hash), Idle, {Saved()}))
  {
    hide CollisionFree, SnapshotHash, Reaches, SupplyStep, RecordStep, Rooted, Replayed, FindBase, Todo, Addressed,
      Movable;
    var h, recorded, big := Some(from.hash), {Saved()}, store[top.hash := top];
    var begun := Begun(from, base, onto);
    var done := begun.(todo := [], top := top.hash);
    Beginning(H, store, from, base, onto);
    Do(H, start, At(store, h, Idle, recorded), At(store, h, begun, recorded), BeginRebase(from.hash, onto.hash));
    Carrying(H, store, from, base, onto, top);
    Do(H, start, At(store, h, begun, recorded), At(big, h, done, recorded), ReplayOne);
    Do(H, start, At(big, h, done, recorded), At(big, Some(top.hash), Idle, recorded), SwapRebase);
  }

  lemma OneToReplay(store: Store, from: Hash, base: Hash)
    requires Rooted(store) && from in store && store[from].parent == Some(base) && from != base
    ensures Todo(store, from, Some(base)) == [from]
  {
    hide Rooted, Chain;
    ChainStep(store, from);
    ChainStep(store, base);
    var c := Chain(store, from);
    assert c[1..][0] == base;
    assert Unpublished(store, c[1..], Some(base)) == [];
    assert Unpublished(store, c, Some(base)) == [from];
  }

  lemma Bases(H: Hasher)
    requires CollisionFree(H)
    ensures var c := TheCast(H);
            && FindBase(Recorded(c), c.s.hash, c.m1.hash) == Some(c.e.hash)
            && FindBase(Once(c), c.s1.hash, c.m2.hash) == Some(c.m1.hash)
  {
    hide CollisionFree, SnapshotHash, Chain, Rooted;
    var c := TheCast(H);
    CastIsDistinct(H);
    CastStores(H);
    CastChains(H);
    ChainStable(Recorded(c), TheEnd(c), c.s.hash);
    ChainStable(Recorded(c), TheEnd(c), c.m1.hash);
    ChainStable(Once(c), TheEnd(c), c.s1.hash);
    ChainStable(Once(c), TheEnd(c), c.m2.hash);
    NextIn(c.m1.hash, [c.e.hash], set h | h in Chain(Recorded(c), c.s.hash));
    NextIn(c.m2.hash, [c.m1.hash, c.e.hash], set h | h in Chain(Once(c), c.s1.hash));
  }

  lemma NextIn(h: Hash, rest: seq<Hash>, known: set<Hash>)
    ensures h !in known && rest != [] && rest[0] in known ==> FirstIn([h] + rest, known) == Some(rest[0])
  {
    assert ([h] + rest)[1..] == rest;
  }

  /** A run of one writer: the checkpoint was recorded and is in the head's history, yet the head's chain has neither
    its snapshot nor, however often replayed, a replay of it that holds the version. */
  lemma AnotherSnapshotKeepsIt(H: Hasher) returns (states: seq<World>, s: Hash)
    requires CollisionFree(H)
    ensures Run(H, states) && Init(states[0])
    ensures exists k :: 0 <= k < |states| && states[k].head == Some(s) && Saved() in states[k].recorded
                        && s in states[k].store && Holds(states[k].store[s].files, Saved())
    ensures var last := states[|states| - 1];
            && last.head.Some? && InHistory(last.store, last.head.value, Saved())
            && s !in Chain(last.store, last.head.value)
            && forall t, n: nat ::
                 t in Chain(last.store, last.head.value) && t in last.store && Replays(last.store, s, t, n) ==>
                   !Holds(last.store[t].files, Saved())
  {
    hide CollisionFree, SnapshotHash, Chain, Rooted, Reaches, Run, Replays, Replayed, FindBase;
    var c := TheCast(H);
    s := c.s.hash;
    CastIsDistinct(H);
    CastStores(H);
    CastChains(H);
    ReplayedTwice(H);
    Bases(H);
    Begins(H);
    var start, mid := At(map[], None, Idle, {}), At(Recorded(c), Some(c.s.hash), Idle, {Saved()});
    Records(H, start);
    Nowhere(H, mid);
    Rebases(H, mid, Recorded(c), c.s, c.e, c.m1, c.s1);
    Rebases(H, mid, Once(c), c.s1, c.m1, c.m2, c.s2);
    var end := At(TheEnd(c), Some(c.s2.hash), Idle, {Saved()});
    var k: nat;
    states, k := Through(H, start, mid, end);
    assert c.m1.hash in Chain(TheEnd(c), c.s2.hash) && Holds(c.m1.files, Saved());
    forall t, n: nat | t in Chain(TheEnd(c), c.s2.hash) && t in TheEnd(c) && Replays(TheEnd(c), s, t, n)
      ensures !Holds(TheEnd(c)[t].files, Saved())
    {
      OnlyThese(H, t, n);
    }
  }

  /** A run that passes through a state. */
  lemma Through(H: Hasher, s: World, m: World, t: World) returns (states: seq<World>, k: nat)
    requires Reaches(H, s, m) && Reaches(H, m, t)
    ensures Run(H, states) && k < |states| && states[0] == s && states[k] == m && states[|states| - 1] == t
  {
    hide Moves;
    var one :| Leads(H, one, s, m);
    var two :| Leads(H, two, m, t);
    states, k := one + two[1..], |one| - 1;
    forall i, j | 0 <= i && j == i + 1 && j < |states|
      ensures Moves(H, states[i], states[j])
    {
      if j < |one| {
        assert Moves(H, one[i], one[j]);
      } else {
        assert states[i] == two[i - k] && states[j] == two[j - k];
        assert Moves(H, two[i - k], two[j - k]);
      }
    }
  }
}
