/** What two engines on one repository, say in two tabs, can do: two runs from freshly prepared repositories.

  In the first, both fetched while the other was away, one against an older remote head than the other. The one with
  the newer head rebases first. The other loses the race for the local head, finds that the new head merely grew, and
  replays it, which holds the newer remote snapshots, on top of the older one it was served. What the first engine then
  pushes no longer descends from the head it swaps against, and the device that pushed that head refuses the new one.

  In the second, an engine asks for the remote head before the other has pushed anything, and reads the anchor after. */
module TwoEngines {
  import opened Wrappers
  import opened Snapshots
  import opened Replay
  import opened Repo
  import opened SyncProtocol
  import opened SyncDescent
  import opened SyncRuns

  function First(): Files {
    map["a" := Entry("x", None, None, [])]
  }

  function Second(): Files {
    map["a" := Entry("x", None, None, []), "b" := Entry("x", None, None, [])]
  }

  /** The empty snapshot, the older and the newer remote head, and their replays on top of the older one. */
  datatype Cast = Cast(e: Snapshot, r1: Snapshot, r2: Snapshot, q1: Snapshot, q2: Snapshot)

  function TheCast(H: Hasher): Cast {
    var e := Empty(H);
    var r1 := Sealed(H, Some(e.hash), First());
    var q1 := Sealed(H, Some(r1.hash), First());
    Cast(e, r1, Sealed(H, Some(r1.hash), Second()), q1, Sealed(H, Some(q1.hash), Second()))
  }

  function Prepare(c: Cast): Store {
    map[c.e.hash := c.e]
  }

  function Older(c: Cast): Store {
    map[c.e.hash := c.e, c.r1.hash := c.r1]
  }

  function Before(c: Cast): Store {
    map[c.e.hash := c.e, c.r1.hash := c.r1, c.r2.hash := c.r2]
  }

  function After(c: Cast): Store {
    Before(c)[c.q1.hash := c.q1][c.q2.hash := c.q2]
  }

  lemma Distinct(H: Hasher, s: Snapshot, t: Snapshot)
    requires CollisionFree(H) && s == Sealed(H, s.parent, s.files) && t == Sealed(H, t.parent, t.files)
    requires s.parent != t.parent || s.files != t.files
    ensures s.hash != t.hash
  {
    if s.hash == t.hash {
      AddressCommits(H, s, t);
    }
  }

  lemma CastIsDistinct(H: Hasher)
    requires CollisionFree(H)
    ensures var c := TheCast(H);
            && c.e.hash != c.r1.hash && c.e.hash != c.r2.hash && c.e.hash != c.q1.hash && c.e.hash != c.q2.hash
            && c.r1.hash != c.r2.hash && c.r1.hash != c.q1.hash && c.r1.hash != c.q2.hash
            && c.r2.hash != c.q1.hash && c.r2.hash != c.q2.hash && c.q1.hash != c.q2.hash
  {
    hide CollisionFree, SnapshotHash;
    var c := TheCast(H);
    assert "b" in Second() && "b" !in First() && "a" in First();
    Distinct(H, c.e, c.r1);
    Distinct(H, c.e, c.r2);
    Distinct(H, c.e, c.q1);
    Distinct(H, c.e, c.q2);
    Distinct(H, c.r1, c.r2);
    Distinct(H, c.r1, c.q1);
    Distinct(H, c.r1, c.q2);
    Distinct(H, c.r2, c.q1);
    Distinct(H, c.q1, c.q2);
    Distinct(H, c.r2, c.q2);
  }

  lemma CastStores(H: Hasher)
    requires CollisionFree(H)
    ensures var c := TheCast(H);
            && WellFormed(H, Prepare(c)) && WellFormed(H, Older(c)) && WellFormed(H, Before(c))
              && WellFormed(H, After(c)) && Grows(Before(c), After(c))
            && c.q1.hash !in Before(c) && c.q2.hash !in Before(c)
  {
    hide CollisionFree, SnapshotHash;
    var c := TheCast(H);
    CastIsDistinct(H);
    var none: map<Hash, nat> := map[];
    assert Ranked(map[], none);
    hide Rooted;
    StoreSealed(H, map[], None, map[]);
    StoreSealed(H, map[c.e.hash := c.e], Some(c.e.hash), First());
    StoreSealed(H, map[c.e.hash := c.e, c.r1.hash := c.r1], Some(c.r1.hash), Second());
    StoreSealed(H, Before(c), Some(c.r1.hash), First());
    StoreSealed(H, Before(c)[c.q1.hash := c.q1], Some(c.q1.hash), Second());
  }

  lemma CastChains(H: Hasher)
    requires CollisionFree(H)
    ensures var c := TheCast(H);
            && Chain(Older(c), c.e.hash) == [c.e.hash] && Chain(Older(c), c.r1.hash) == [c.r1.hash, c.e.hash]
            && Chain(Before(c), c.e.hash) == [c.e.hash]
            && Chain(Before(c), c.r1.hash) == [c.r1.hash, c.e.hash]
            && Chain(Before(c), c.r2.hash) == [c.r2.hash, c.r1.hash, c.e.hash]
            && Chain(After(c), c.q2.hash) == [c.q2.hash, c.q1.hash, c.r1.hash, c.e.hash]
  {
    hide CollisionFree, SnapshotHash, Chain, Rooted;
    var c := TheCast(H);
    CastIsDistinct(H);
    CastStores(H);
    ChainStep(Older(c), c.e.hash);
    ChainStep(Older(c), c.r1.hash);
    ChainStep(Before(c), c.e.hash);
    ChainStep(Before(c), c.r1.hash);
    ChainStep(Before(c), c.r2.hash);
    ChainStep(After(c), c.e.hash);
    ChainStep(After(c), c.r1.hash);
    ChainStep(After(c), c.q1.hash);
    ChainStep(After(c), c.q2.hash);
  }

  /** The scene after `k` steps. Engine 0 was served the newer head, engine 1 the older one. */
  function NewEngine(c: Cast, k: nat): Engine {
    var e, r2, q1, q2 := c.e.hash, c.r2.hash, c.q1.hash, c.q2.hash;
    if k < 1 then Merged(Some(r2), e)
    else if k < 3 then Rebasing(Some(r2), Some(e), e, r2)
    else if k < 7 then Rebased(Some(r2))
    else if k < 8 then Pushing(Some(r2), q2, {}, [q1, q2])
    else if k < 9 then Pushing(Some(r2), q2, {}, [q2])
    else if k < 10 then Pushing(Some(r2), q2, {}, [])
    else Committed(q2)
  }

  function OldEngine(c: Cast, k: nat): Engine {
    var e, r1, r2, q2 := c.e.hash, c.r1.hash, c.r2.hash, c.q2.hash;
    if k < 2 then Merged(Some(r1), e)
    else if k < 4 then Rebasing(Some(r1), Some(e), e, r1)
    else if k < 5 then Contended(Some(r1), Some(e), e, r1)
    else if k < 6 then Rebasing(Some(r1), Some(e), r2, q2)
    else Rebased(Some(r1))
  }

  function TheDevice(c: Cast, k: nat): Device {
    Device(if k < 5 then Before(c) else After(c), {},
           if k < 3 then c.e.hash else if k < 6 then c.r2.hash else c.q2.hash, None,
           map[0 := NewEngine(c, k), 1 := OldEngine(c, k)])
  }

  function TheRemote(c: Cast, k: nat): Remote {
    Remote(if k < 8 then Before(c) else if k < 9 then Before(c)[c.q1.hash := c.q1] else After(c), {},
           Some(if k < 10 then c.r2.hash else c.q2.hash))
  }

  function Mover(k: nat): nat {
    if k == 1 || k == 3 || k == 4 || k == 5 then 1 else 0
  }

  function Move(k: nat): Action {
    if k < 2 then Plan
    else if k < 4 then Swap
    else if k < 5 then Recheck
    else if k < 6 then Swap
    else if k < 7 then Take
    else if k < 9 then PutSnapshot
    else Commit
  }

  lemma FoundBase(H: Hasher)
    requires CollisionFree(H)
    ensures var c := TheCast(H);
            && FindBase(Before(c), c.e.hash, c.r1.hash) == Some(c.e.hash)
            && FindBase(Before(c), c.e.hash, c.r2.hash) == Some(c.e.hash)
  {
    hide CollisionFree, SnapshotHash, Chain;
    var c := TheCast(H);
    CastIsDistinct(H);
    CastChains(H);
    var known := set h | h in Chain(Before(c), c.e.hash);
    assert known == {c.e.hash};
    assert [c.r2.hash, c.r1.hash, c.e.hash][1..] == [c.r1.hash, c.e.hash];
    assert [c.r1.hash, c.e.hash][1..] == [c.e.hash];
  }

  /** Nothing is to be replayed when the base is the local head itself. */
  lemma PlanStep(H: Hasher, k: nat)
    requires CollisionFree(H) && k < 2
    ensures var c := TheCast(H);
            Act(H, TheDevice(c, k), TheRemote(c, k), TheDevice(c, k + 1), TheRemote(c, k + 1), k, Plan)
  {
    hide CollisionFree, SnapshotHash, Chain, Rooted, Todo, FindBase, Replays;
    var c := TheCast(H);
    CastIsDistinct(H);
    FoundBase(H);
    PlanReplays(H, k);
  }

  lemma PlanReplays(H: Hasher, k: nat)
    requires CollisionFree(H) && k < 2
    ensures var c := TheCast(H);
            var onto := if k == 0 then c.r2.hash else c.r1.hash;
            Replays(H, TheDevice(c, k), c.e.hash, onto, Some(c.e.hash), Before(c), onto)
  {
    hide CollisionFree, SnapshotHash, Chain, Rooted;
    var c := TheCast(H);
    CastIsDistinct(H);
    CastChains(H);
    assert Todo(Before(c), c.e.hash, Some(c.e.hash)) == [];
  }

  /** The retry carries over [R1, R2], the whole of the newer remote chain. */
  lemma RetryTodo(H: Hasher)
    requires CollisionFree(H)
    ensures var c := TheCast(H); Todo(Before(c), c.r2.hash, Some(c.e.hash)) == [c.r1.hash, c.r2.hash]
  {
    hide CollisionFree, SnapshotHash, Chain, Rooted;
    var c := TheCast(H);
    var store, base := Before(c), Some(c.e.hash);
    CastIsDistinct(H);
    CastChains(H);
    assert [c.r2.hash, c.r1.hash, c.e.hash][1..] == [c.r1.hash, c.e.hash];
    assert [c.r1.hash, c.e.hash][1..] == [c.e.hash];
    assert Unpublished(store, [c.e.hash], base) == [];
    assert Unpublished(store, [c.r1.hash, c.e.hash], base) == [c.r1.hash];
    assert Unpublished(store, Chain(store, c.r2.hash), base) == [c.r2.hash, c.r1.hash];
  }

  /** The retry replays the newer remote snapshots as if they were local ones. */
  lemma RetryReplays(H: Hasher)
    requires CollisionFree(H)
    ensures var c := TheCast(H);
            Replays(H, TheDevice(c, 4), c.r2.hash, c.r1.hash, Some(c.e.hash), After(c), c.q2.hash)
  {
    hide CollisionFree, SnapshotHash, Chain, Rooted, Todo;
    var c := TheCast(H);
    var store := Before(c);
    CastIsDistinct(H);
    RetryTodo(H);
    var todo := [c.r1.hash, c.r2.hash];
    assert Replayed(map[], First(), First()) == First();
    assert Replayed(First(), Second(), First()) == Second();
    assert todo[1..] == [c.r2.hash] && todo[1..][1..] == [];
    assert ReplayChain(H, store, [c.r2.hash], c.q1) == [c.q2];
    var r := ReplayChain(H, store, todo, c.r1);
    assert r == [c.q1, c.q2];
    assert r[1..] == [c.q2] && r[1..][1..] == [];
    assert Written(store[c.q1.hash := c.q1], [c.q2]) == After(c);
    assert Written(store, r) == After(c);
    assert Top(c.r1, r) == c.q2;
  }

  lemma RecheckStep(H: Hasher)
    requires CollisionFree(H)
    ensures var c := TheCast(H); Act(H, TheDevice(c, 4), TheRemote(c, 4), TheDevice(c, 5), TheRemote(c, 5), 1, Recheck)
  {
    hide CollisionFree, SnapshotHash, Chain, Rooted, Replays, Todo, Before, After;
    var c := TheCast(H);
    CastIsDistinct(H);
    CastChains(H);
    RetryReplays(H);
    var d, d' := TheDevice(c, 4), TheDevice(c, 5);
    assert [c.r2.hash, c.r1.hash, c.e.hash][2] == c.e.hash;
    var next := d.engines[1 := Rebasing(Some(c.r1.hash), Some(c.e.hash), c.r2.hash, c.q2.hash)];
    assert d'.engines == next;
    assert TheRemote(c, 5) == TheRemote(c, 4);
    assert c.e.hash in Chain(d.store, d.head);
    assert d.engines[1] == Contended(Some(c.r1.hash), Some(c.e.hash), c.e.hash, c.r1.hash);
    assert Target(H, Some(c.r1.hash)) == c.r1.hash;
    assert d' == d.(store := After(c), engines := next);
  }

  /** What the push sends: the two replayed snapshots. */
  lemma TakeUnsent(H: Hasher)
    requires CollisionFree(H)
    ensures var c := TheCast(H);
            Unsent(Upto(Chain(After(c), c.q2.hash), Some(c.r2.hash)), Before(c).Keys) == [c.q1.hash, c.q2.hash]
  {
    hide CollisionFree, SnapshotHash, Chain, Rooted;
    var c := TheCast(H);
    CastIsDistinct(H);
    CastChains(H);
    var stop, known := Some(c.r2.hash), Before(c).Keys;
    var w4, w3, w2, w1 := [c.q2.hash, c.q1.hash, c.r1.hash, c.e.hash], [c.q1.hash, c.r1.hash, c.e.hash],
                          [c.r1.hash, c.e.hash], [c.e.hash];
    assert w4[1..] == w3 && w3[1..] == w2 && w2[1..] == w1 && w1[1..] == [];
    assert Upto(w1, stop) == w1;
    assert Upto(w2, stop) == w2;
    assert Upto(w3, stop) == w3;
    assert Upto(w4, stop) == w4;
    assert Unsent(w1, known) == [] by {
      assert Unsent(w1[1..], known) == [] && w1[0] in known;
    }
    assert Unsent(w2, known) == [] by {
      assert w2[0] in known;
    }
    assert Unsent(w3, known) == [c.q1.hash];
    assert Unsent(w4, known) == [c.q1.hash, c.q2.hash];
  }

  lemma TakeStep(H: Hasher)
    requires CollisionFree(H)
    ensures var c := TheCast(H); Act(H, TheDevice(c, 6), TheRemote(c, 6), TheDevice(c, 7), TheRemote(c, 7), 0, Take)
  {
    hide CollisionFree, SnapshotHash, Chain, Rooted, Unsent, Upto;
    var c := TheCast(H);
    CastIsDistinct(H);
    TakeUnsent(H);
    assert ChunksOf(After(c), [c.q1.hash, c.q2.hash]) == {};
    var d, d', none := TheDevice(c, 6), TheDevice(c, 7), TheRemote(c, 6).chunks;
    assert none - none == {};
    assert d'.engines == d.engines[0 := Pushing(Some(c.r2.hash), c.q2.hash, {}, [c.q1.hash, c.q2.hash])];
  }

  lemma SwapStep(H: Hasher, k: nat)
    requires CollisionFree(H) && (k == 2 || k == 3 || k == 5)
    ensures var c := TheCast(H);
            Act(H, TheDevice(c, k), TheRemote(c, k), TheDevice(c, k + 1), TheRemote(c, k + 1), Mover(k), Swap)
  {
    hide CollisionFree, SnapshotHash, Chain, Rooted, FetchStep, OtherStep, PushStep;
    CastIsDistinct(H);
  }

  lemma PutStep(H: Hasher, k: nat)
    requires CollisionFree(H) && (k == 7 || k == 8)
    ensures var c := TheCast(H);
            Act(H, TheDevice(c, k), TheRemote(c, k), TheDevice(c, k + 1), TheRemote(c, k + 1), 0, PutSnapshot)
  {
    hide CollisionFree, SnapshotHash, Chain, Rooted, FetchStep, OtherStep, RebaseStep;
    var c := TheCast(H);
    CastIsDistinct(H);
    assert [c.q1.hash, c.q2.hash][1..] == [c.q2.hash] && [c.q2.hash][1..] == [];
  }

  /** Each move is one the protocol allows. */
  lemma EveryMove(H: Hasher, k: nat)
    requires CollisionFree(H) && k < 10
    ensures var c := TheCast(H);
            Act(H, TheDevice(c, k), TheRemote(c, k), TheDevice(c, k + 1), TheRemote(c, k + 1), Mover(k), Move(k))
  {
    hide CollisionFree, SnapshotHash, Chain, Rooted, Unsent, Upto, Replays, Todo, Before, After, FetchStep, OtherStep,
      RebaseStep;
    var c := TheCast(H);
    CastIsDistinct(H);
    if k < 2 {
      PlanStep(H, k);
    } else if k == 4 {
      RecheckStep(H);
    } else if k == 6 {
      TakeStep(H);
    } else if k == 7 || k == 8 {
      PutStep(H, k);
    } else if k < 9 {
      SwapStep(H, k);
    }
  }

  /** A run leads from one state to another; a sane one, if so asked. */
  ghost predicate Reaches(H: Hasher, sane: bool, s: System, t: System) {
    exists states :: Leads(H, sane, states, s, t)
  }

  ghost predicate Leads(H: Hasher, sane: bool, states: seq<System>, s: System, t: System) {
    Run(H, states) && (sane ==> Sane(H, states, false)) && states[0] == s && states[|states| - 1] == t
  }

  function With(s: System, i: nat, d: Device, r: Remote): System {
    System(s.devices[i := d], r)
  }

  lemma OneMore(H: Hasher, sane: bool, s: System, m: System, t: System)
    requires Reaches(H, sane, s, m) && Moves(H, m, t) && (sane ==> SaneMove(H, m, t, false))
    ensures Reaches(H, sane, s, t)
  {
    hide Moves, SaneMove;
    var states :| Leads(H, sane, states, s, m);
    var more := states + [t];
    forall k, l | 0 <= k && l == k + 1 && l < |more|
      ensures Moves(H, more[k], more[l]) && (sane ==> SaneMove(H, more[k], more[l], false))
    {
      assert more[k] == states[k];
      assert l < |states| ==> Moves(H, states[k], states[l]) && (sane ==> SaneMove(H, states[k], states[l], false));
    }
    assert Leads(H, sane, more, s, t);
  }

  lemma Join(H: Hasher, one: seq<System>, s: System, m: System, two: seq<System>, t: System)
    requires Leads(H, false, one, s, m) && Leads(H, false, two, m, t)
    ensures var all := one + two[1..];
            Leads(H, false, all, s, t) && all[|one| - 1] == m
  {
    hide Moves;
    var all := one + two[1..];
    forall k, l | 0 <= k && l == k + 1 && l < |all|
      ensures Moves(H, all[k], all[l])
    {
      if l < |one| {
        assert Moves(H, one[k], one[l]);
      } else {
        var j := k - (|one| - 1);
        assert all[k] == two[j] && all[l] == two[j + 1];
        assert Moves(H, two[j], two[l - (|one| - 1)]);
      }
    }
  }

  /** One step of a device. */
  lemma Do(H: Hasher, sane: bool, start: System, s: System, i: nat, d: Device, r: Remote, d': Device, r': Remote,
           e: nat, act: Action)
    requires Reaches(H, sane, start, With(s, i, d, r)) && Act(H, d, r, d', r', e, act) && (sane ==> act != Swap)
    ensures Reaches(H, sane, start, With(s, i, d', r'))
  {
    hide Act, Reaches;
    var m, t := With(s, i, d, r), With(s, i, d', r');
    assert t.devices == m.devices[i := t.devices[i]];
    assert StepBy(H, m, t, i, e, act);
    OneMore(H, sane, start, m, t);
  }

  function At(d: Device, e: nat, me: Engine): Device {
    d.(engines := d.engines[e := me])
  }

  lemma Twice(d: Device, e: nat, one: Engine, two: Engine)
    ensures At(At(d, e, one), e, two) == At(d, e, two)
  {
    assert d.engines[e := one][e := two] == d.engines[e := two];
  }

  /** An engine asks for the head and the anchor. */
  lemma Ask(H: Hasher, sane: bool, start: System, s: System, i: nat, d: Device, r: Remote, e: nat)
    requires e in d.engines && d.engines[e].Idle? && Reaches(H, sane, start, With(s, i, d, r))
    ensures Reaches(H, sane, start, With(s, i, At(d, e, Asked(r.head)), r))
    ensures Reaches(H, sane, start, With(s, i, At(d, e, Fetching(r.head, d.last)), r))
  {
    hide Reaches, RebaseStep, PushStep, OtherStep;
    Do(H, sane, start, s, i, d, r, At(d, e, Asked(r.head)), r, e, Begin);
    Read(H, sane, start, s, i, At(d, e, Asked(r.head)), r, e);
    Twice(d, e, Asked(r.head), Fetching(r.head, d.last));
  }

  lemma Read(H: Hasher, sane: bool, start: System, s: System, i: nat, d: Device, r: Remote, e: nat)
    requires e in d.engines && d.engines[e].Asked? && Reaches(H, sane, start, With(s, i, d, r))
    ensures Reaches(H, sane, start, With(s, i, At(d, e, Fetching(d.engines[e].synced, d.last)), r))
  {
    hide Reaches, RebaseStep, PushStep, OtherStep;
    Do(H, sane, start, s, i, d, r, At(d, e, Fetching(d.engines[e].synced, d.last)), r, e, ReadAnchor);
  }

  lemma Fetch(H: Hasher, sane: bool, start: System, s: System, i: nat, d: Device, r: Remote, e: nat, h: Hash)
    requires e in d.engines && d.engines[e].Fetching? && Reaches(H, sane, start, With(s, i, d, r))
    requires d.engines[e].synced.Some? && h in r.store && h in Chain(r.store, d.engines[e].synced.value)
    requires r.store[h] == Sealed(H, r.store[h].parent, r.store[h].files) && r.store[h].hash == h
    requires r.store[h].parent.Some? ==> r.store[h].parent.value in d.store
    ensures Reaches(H, sane, start, With(s, i, d.(store := d.store[h := r.store[h]]), r))
  {
    hide Reaches, Chain, SnapshotHash, RebaseStep, PushStep, OtherStep;
    Do(H, sane, start, s, i, d, r, d.(store := d.store[h := r.store[h]]), r, e, FetchSnapshot(h));
  }

  /** The served head passes or fails the check of the anchor; having passed, the round takes the local head. */
  lemma Pass(H: Hasher, sane: bool, start: System, s: System, i: nat, d: Device, r: Remote, e: nat)
    requires e in d.engines && d.engines[e].Fetching? && Reaches(H, sane, start, With(s, i, d, r))
    requires d.engines[e].synced.Some? ==> d.engines[e].synced.value in d.store
    ensures var me := d.engines[e];
            Reaches(H, sane, start, With(s, i, At(d, e, if Refuses(d.store, me.anchor, me.synced) then Refused
                                                   else Merged(me.synced, d.head)), r))
  {
    hide Reaches, Refuses, PushStep, OtherStep;
    var me := d.engines[e];
    if Refuses(d.store, me.anchor, me.synced) {
      Do(H, sane, start, s, i, d, r, At(d, e, Refused), r, e, Check);
    } else {
      Do(H, sane, start, s, i, d, r, At(d, e, Checked(me.synced)), r, e, Check);
      Do(H, sane, start, s, i, At(d, e, Checked(me.synced)), r,
         At(At(d, e, Checked(me.synced)), e, Merged(me.synced, d.head)), r, e, Snap);
      Twice(d, e, Checked(me.synced), Merged(me.synced, d.head));
    }
  }

  /** A round that finds the served head under the local one has nothing to replay, and takes what is to be sent. */
  lemma TakeUp(H: Hasher, sane: bool, start: System, s: System, i: nat, d: Device, r: Remote, e: nat, unsent: seq<Hash>)
    requires CollisionFree(H) && WellFormed(H, d.store) && d.head in d.store
    requires e in d.engines && d.engines[e].Merged? && d.engines[e].local == d.head
      && d.engines[e].synced != Some(d.head)
    requires Target(H, d.engines[e].synced) in Chain(d.store, d.head) && Target(H, d.engines[e].synced) in d.store
    requires unsent == Unsent(Upto(Chain(d.store, d.head), d.engines[e].synced), r.store.Keys)
    requires forall h :: h in unsent ==> h in d.store && forall p :: p in d.store[h].files ==>
      d.store[h].files[p].chunks == []
    requires Reaches(H, sane, start, With(s, i, d, r))
    ensures Reaches(H, sane, start, With(s, i, At(d, e, Pushing(d.engines[e].synced, d.head, {}, unsent)), r))
  {
    hide CollisionFree, Reaches, Chain, Rooted, SnapshotHash, FetchStep, OtherStep, Unsent, Upto, FindBase;
    var synced := d.engines[e].synced;
    BaseIsNearest(d.store, d.head, Target(H, synced));
    BaseIsOnto(d.store, d.head, Target(H, synced));
    var mid, end := At(d, e, Rebased(synced)), At(d, e, Pushing(synced, d.head, {}, unsent));
    Do(H, sane, start, s, i, d, r, mid, r, e, Plan);
    Twice(d, e, Rebased(synced), Pushing(synced, d.head, {}, unsent));
    assert ChunksOf(d.store, unsent) - r.chunks == {};
    Do(H, sane, start, s, i, mid, r, end, r, e, Take);
  }

  lemma BaseIsOnto(store: Store, local: Hash, onto: Hash)
    requires Rooted(store) && local in store && onto in Chain(store, local)
    ensures FindBase(store, local, onto) == Some(onto)
  {
    ChainTransitive(store, local, onto);
    ChainStep(store, onto);
  }

  function Sent(store: Store, known: Store, unsent: seq<Hash>): Store
    requires forall h :: h in unsent ==> h in store
    decreases |unsent|
  {
    if unsent == [] then known else Sent(store, known[unsent[0] := store[unsent[0]]], unsent[1..])
  }

  /** All of it is sent, and where nobody else did the head is swapped. */
  lemma {:induction false} Send(H: Hasher, sane: bool, start: System, s: System, i: nat, d: Device, r: Remote, e: nat)
    requires CollisionFree(H) && e in d.engines && d.engines[e].Pushing? && d.engines[e].missing == {}
    requires forall h :: h in d.engines[e].unsent ==> h in d.store
    requires Reaches(H, sane, start, With(s, i, d, r)) && r.head == d.engines[e].synced
    ensures var me := d.engines[e];
            Reaches(H, sane, start, With(s, i, At(d, e, Committed(me.latest)),
                                   r.(store := Sent(d.store, r.store, me.unsent), head := Some(me.latest))))
    decreases |d.engines[e].unsent|
  {
    hide CollisionFree, Reaches, Chain, SnapshotHash, FetchStep, OtherStep, RebaseStep;
    var me := d.engines[e];
    if me.unsent == [] {
      Do(H, sane, start, s, i, d, r, At(d, e, Committed(me.latest)), r.(head := Some(me.latest)), e, Commit);
    } else {
      var next := me.(unsent := me.unsent[1..]);
      var r' := r.(store := r.store[me.unsent[0] := d.store[me.unsent[0]]]);
      Do(H, sane, start, s, i, d, r, At(d, e, next), r', e, PutSnapshot);
      Send(H, sane, start, s, i, At(d, e, next), r', e);
      Twice(d, e, next, Committed(me.latest));
    }
  }

  /** Chunks go up in any order. */
  lemma {:induction false} Upload(H: Hasher, sane: bool, start: System, s: System, i: nat, d: Device, r: Remote, e: nat)
    requires CollisionFree(H) && e in d.engines && d.engines[e].Pushing? && d.engines[e].missing <= d.chunks
    requires Reaches(H, sane, start, With(s, i, d, r))
    ensures var me := d.engines[e];
            Reaches(H, sane, start, With(s, i, At(d, e, me.(missing := {})), r.(chunks := r.chunks + me.missing)))
    decreases |d.engines[e].missing|
  {
    hide CollisionFree, Reaches, Chain, SnapshotHash, FetchStep, OtherStep, RebaseStep;
    var me := d.engines[e];
    if me.missing == {} {
      assert At(d, e, me.(missing := {})).engines == d.engines && r.chunks + me.missing == r.chunks;
    } else {
      var c :| c in me.missing;
      var next, r' := me.(missing := me.missing - {c}), r.(chunks := r.chunks + {c});
      Do(H, sane, start, s, i, d, r, At(d, e, next), r', e, PutChunk(c));
      Upload(H, sane, start, s, i, At(d, e, next), r', e);
      Twice(d, e, next, me.(missing := {}));
      assert r'.chunks + next.missing == r.chunks + me.missing;
    }
  }

  /** An engine that is done rebasing, was served the head the remote still has, and is not interrupted publishes the
    local head; that one descends from the head it replaces exactly when it has it underneath. */
  lemma PushDescendsIff(H: Hasher, s: System, i: nat, e: nat) returns (t: System)
    requires CollisionFree(H) && Inv(H, s) && i in s.devices && e in s.devices[i].engines
    requires s.remote.head.Some? && s.devices[i].engines[e] == Rebased(s.remote.head)
    requires s.devices[i].head != s.remote.head.value
    ensures Reaches(H, true, s, t) && t.remote.head == Some(s.devices[i].head)
    ensures s.remote.head.value in Chain(t.remote.store, t.remote.head.value) <==>
      Stands(H, s.devices[i], s.devices[i].engines[e])
  {
    hide CollisionFree, Reaches, Chain, Rooted, SnapshotHash, FetchStep, OtherStep, RebaseStep, Unsent, Upto, DeviceInv,
      RemoteInv, Uploadable, Covered, Sent;
    var d, r := s.devices[i], s.remote;
    assert With(s, i, d, r) == s by {
      assert s.devices[i := d] == s.devices;
    }
    Nowhere(H, true, s);
    var unsent := Unsent(Upto(Chain(d.store, d.head), r.head), r.store.Keys);
    TakeKeeps(H, d, r, r.head);
    var me := Pushing(r.head, d.head, ChunksOf(d.store, unsent) - r.chunks, unsent);
    Do(H, true, s, s, i, d, r, At(d, e, me), r, e, Take);
    Upload(H, true, s, s, i, At(d, e, me), r, e);
    Twice(d, e, me, me.(missing := {}));
    UploadableStored(d.store, r.store.Keys, unsent);
    var r' := r.(chunks := r.chunks + me.missing);
    Send(H, true, s, s, i, At(d, e, me.(missing := {})), r', e);
    t := With(s, i, At(At(d, e, me.(missing := {})), e, Committed(d.head)),
              r'.(store := Sent(d.store, r.store, unsent), head := Some(d.head)));
    StillHolds(H, s, t);
    AgreeOn(H, d, r, t.remote, d.head);
  }

  lemma StillHolds(H: Hasher, s: System, t: System)
    requires CollisionFree(H) && Inv(H, s) && Reaches(H, true, s, t)
    ensures RemoteInv(H, t.remote)
  {
    hide CollisionFree, Run, Sane, RemoteInv;
    var states :| Leads(H, true, states, s, t);
    NotEmpty(H, states);
    RunKeeps(H, states, 0, |states| - 1);
  }

  lemma AgreeOn(H: Hasher, d: Device, r: Remote, r': Remote, h: Hash)
    requires CollisionFree(H) && DeviceInv(H, d, r) && RemoteInv(H, r') && h in d.store && r'.head == Some(h)
    ensures Chain(r'.store, h) == Chain(d.store, h)
  {
    hide CollisionFree, SnapshotHash, Chain, Rooted, Covered;
    ChainsAgree(H, d.store, r'.store, h);
  }

  lemma Settle(H: Hasher, sane: bool, start: System, s: System, i: nat, d: Device, r: Remote, e: nat)
    requires e in d.engines && d.engines[e].Committed? && Reaches(H, sane, start, With(s, i, d, r))
    ensures Reaches(H, sane, start, With(s, i, At(d, e, Idle).(last := Some(d.engines[e].latest)), r))
  {
    hide Reaches, FetchStep, OtherStep, RebaseStep;
    Do(H, sane, start, s, i, d, r, At(d, e, Idle).(last := Some(d.engines[e].latest)), r, e, Anchor);
  }

  lemma Write(H: Hasher, sane: bool, start: System, s: System, i: nat, d: Device, r: Remote, e: nat, files: Files)
    requires e in d.engines && d.head in d.store && Reaches(H, sane, start, With(s, i, d, r))
    requires forall p :: p in files ==> files[p].chunks == []
    ensures var next := Sealed(H, Some(d.head), files);
            Reaches(H, sane, start, With(s, i, d.(store := d.store[next.hash := next], head := next.hash), r))
  {
    hide Reaches, SnapshotHash, FetchStep, PushStep, RebaseStep;
    var next := Sealed(H, Some(d.head), files);
    assert d.chunks + {} == d.chunks;
    Do(H, sane, start, s, i, d, r, d.(store := d.store[next.hash := next], head := next.hash), r, e,
       Append(files, {}, true));
  }

  lemma FirstUnsent(H: Hasher)
    requires CollisionFree(H)
    ensures var c := TheCast(H);
            && Unsent(Upto(Chain(Older(c), c.r1.hash), None), {}) == [c.e.hash, c.r1.hash]
            && Sent(Older(c), map[], [c.e.hash, c.r1.hash]) == Older(c)
  {
    hide CollisionFree, SnapshotHash, Chain, Rooted;
    var c := TheCast(H);
    CastIsDistinct(H);
    CastChains(H);
    var w2, w1 := [c.r1.hash, c.e.hash], [c.e.hash];
    assert w2[1..] == w1 && w1[1..] == [];
    assert Upto(w1, None) == w1 && Upto(w2, None) == w2;
    assert Unsent(w1, {}) == [c.e.hash];
    assert Unsent(w2, {}) == [c.e.hash, c.r1.hash];
    assert [c.e.hash, c.r1.hash][1..] == [c.r1.hash] && [c.r1.hash][1..] == [];
    assert Sent(Older(c), Prepare(c), [c.r1.hash]) == Older(c);
  }

  lemma SecondUnsent(H: Hasher)
    requires CollisionFree(H)
    ensures var c := TheCast(H);
            && Unsent(Upto(Chain(Before(c), c.r2.hash), Some(c.r1.hash)), Older(c).Keys) == [c.r2.hash]
            && Sent(Before(c), Older(c), [c.r2.hash]) == Before(c)
  {
    hide CollisionFree, SnapshotHash, Chain, Rooted;
    var c := TheCast(H);
    CastIsDistinct(H);
    CastChains(H);
    var stop := Some(c.r1.hash);
    var w3, w2 := [c.r2.hash, c.r1.hash, c.e.hash], [c.r1.hash, c.e.hash];
    assert w3[1..] == w2;
    assert Upto(w2, stop) == [];
    assert Upto(w3, stop) == [c.r2.hash];
    assert Unsent([c.r2.hash], Older(c).Keys) == [c.r2.hash] by {
      assert [c.r2.hash][1..] == [];
    }
    assert [c.r2.hash][1..] == [];
  }

  /** A device that was just prepared, and whose engine `e` synced its first checkpoint to a new remote. */
  function Fresh(c: Cast, engines: map<nat, Engine>): Device {
    Device(Prepare(c), {}, c.e.hash, None, engines)
  }

  function Synced(c: Cast, engines: map<nat, Engine>): Device {
    Device(Older(c), {}, c.r1.hash, Some(c.r1.hash), engines)
  }

  lemma FirstRound(H: Hasher, sane: bool, start: System, s: System, i: nat, engines: map<nat, Engine>, e: nat)
    requires CollisionFree(H) && e in engines && engines[e].Idle?
    requires Reaches(H, sane, start, With(s, i, Fresh(TheCast(H), engines), Remote(map[], {}, None)))
    ensures var c := TheCast(H);
            Reaches(H, sane, start, With(s, i, Synced(c, engines), Remote(Older(c), {}, Some(c.r1.hash))))
  {
    hide CollisionFree, Reaches, SnapshotHash, Chain, Rooted, Unsent, Upto, Sent;
    var c, r := TheCast(H), Remote(map[], {}, None);
    CastIsDistinct(H);
    CastStores(H);
    CastChains(H);
    FirstUnsent(H);
    Write(H, sane, start, s, i, Fresh(c, engines), r, e, First());
    var d := Device(Older(c), {}, c.r1.hash, None, engines);
    assert d == Fresh(c, engines).(store := Prepare(c)[c.r1.hash := c.r1], head := c.r1.hash);
    Ask(H, sane, start, s, i, d, r, e);
    Pass(H, sane, start, s, i, At(d, e, Fetching(None, None)), r, e);
    Twice(d, e, Fetching(None, None), Merged(None, c.r1.hash));
    var unsent := [c.e.hash, c.r1.hash];
    assert r.store.Keys == {};
    var pushing := Pushing(None, c.r1.hash, {}, unsent);
    TakeUp(H, sane, start, s, i, At(d, e, Merged(None, c.r1.hash)), r, e, unsent);
    Twice(d, e, Merged(None, c.r1.hash), pushing);
    Send(H, sane, start, s, i, At(d, e, pushing), r, e);
    Twice(d, e, pushing, Committed(c.r1.hash));
    Settle(H, sane, start, s, i, At(d, e, Committed(c.r1.hash)), Remote(Older(c), {}, Some(c.r1.hash)), e);
    Twice(d, e, Committed(c.r1.hash), Idle);
    assert engines[e := Idle] == engines;
  }

  lemma SecondRound(H: Hasher, sane: bool, start: System, s: System, i: nat, engines: map<nat, Engine>, e: nat)
    requires CollisionFree(H) && e in engines && engines[e].Idle?
    requires var c := TheCast(H);
             Reaches(H, sane, start, With(s, i, Synced(c, engines), Remote(Older(c), {}, Some(c.r1.hash))))
    ensures var c := TheCast(H);
            Reaches(H, sane, start, With(s, i, Device(Before(c), {}, c.r2.hash, Some(c.r2.hash), engines),
                                   Remote(Before(c), {}, Some(c.r2.hash))))
  {
    hide CollisionFree, Reaches, SnapshotHash, Chain, Rooted, Unsent, Upto, Sent;
    var c := TheCast(H);
    var r, synced := Remote(Older(c), {}, Some(c.r1.hash)), Some(c.r1.hash);
    CastIsDistinct(H);
    CastStores(H);
    CastChains(H);
    SecondUnsent(H);
    Write(H, sane, start, s, i, Synced(c, engines), r, e, Second());
    var d := Device(Before(c), {}, c.r2.hash, synced, engines);
    assert d == Synced(c, engines).(store := Older(c)[c.r2.hash := c.r2], head := c.r2.hash);
    Ask(H, sane, start, s, i, d, r, e);
    Pass(H, sane, start, s, i, At(d, e, Fetching(synced, synced)), r, e);
    Twice(d, e, Fetching(synced, synced), Merged(synced, c.r2.hash));
    var pushing := Pushing(synced, c.r2.hash, {}, [c.r2.hash]);
    TakeUp(H, sane, start, s, i, At(d, e, Merged(synced, c.r2.hash)), r, e, [c.r2.hash]);
    Twice(d, e, Merged(synced, c.r2.hash), pushing);
    Send(H, sane, start, s, i, At(d, e, pushing), r, e);
    Twice(d, e, pushing, Committed(c.r2.hash));
    Settle(H, sane, start, s, i, At(d, e, Committed(c.r2.hash)), Remote(Before(c), {}, Some(c.r2.hash)), e);
    Twice(d, e, Committed(c.r2.hash), Idle);
    assert engines[e := Idle] == engines;
  }

  /** Engine `e` of the second device, which has nothing of its own, fetches a head one snapshot ahead of its store. */
  lemma Serve(H: Hasher, sane: bool, start: System, s: System, i: nat, d: Device, r: Remote, e: nat)
    requires CollisionFree(H) && e in d.engines && d.engines[e].Idle? && d.last.None? && r.head.Some?
      && r.head.value in r.store
    requires WellFormed(H, r.store) && r.head.value in Chain(r.store, r.head.value)
    requires r.store[r.head.value].parent.Some? ==> r.store[r.head.value].parent.value in d.store
    requires Reaches(H, sane, start, With(s, i, d, r))
    ensures var h := r.head.value;
            Reaches(H, sane, start,
                    With(s, i, At(d.(store := d.store[h := r.store[h]]), e, Merged(Some(h), d.head)), r))
  {
    hide CollisionFree, Reaches, SnapshotHash, Chain, Rooted;
    var h := r.head.value;
    Ask(H, sane, start, s, i, d, r, e);
    var asked := At(d, e, Fetching(r.head, None));
    Fetch(H, sane, start, s, i, asked, r, e, h);
    var fetched := asked.(store := d.store[h := r.store[h]]);
    Pass(H, sane, start, s, i, fetched, r, e);
    Twice(d.(store := d.store[h := r.store[h]]), e, Fetching(r.head, None), Merged(Some(h), d.head));
  }

  /** The first device pushes twice; the second device's engines are served one head each. */
  function Start(c: Cast): System {
    System(map[0 := Fresh(c, map[0 := Idle, 1 := Idle]), 1 := Fresh(c, map[0 := Idle])], Remote(map[], {}, None))
  }

  function Pair(one: Device, other: Device, r: Remote): System {
    System(map[0 := one, 1 := other], r)
  }

  lemma PairWith(s: System, one: Device, other: Device, r: Remote)
    requires s.devices.Keys == {0, 1}
    ensures s.devices[1] == other ==> With(s, 0, one, r) == Pair(one, other, r)
    ensures s.devices[0] == one ==> With(s, 1, other, r) == Pair(one, other, r)
    ensures Pair(one, other, r).devices.Keys == {0, 1} && Pair(one, other, r).remote == r
    ensures Pair(one, other, r).devices[0] == one && Pair(one, other, r).devices[1] == other
  {
  }

  function Author(c: Cast): Device {
    Device(Before(c), {}, c.r2.hash, Some(c.r2.hash), map[0 := Idle])
  }

  /** The second device once its older engine was served the older head. */
  function Late(c: Cast): Device {
    Device(Older(c), {}, c.e.hash, None, map[0 := Idle, 1 := Merged(Some(c.r1.hash), c.e.hash)])
  }

  lemma ServeOlder(H: Hasher, start: System, s: System)
    requires CollisionFree(H)
    requires var c := TheCast(H);
             Reaches(H, false, start,
                     With(s, 0, Fresh(c, map[0 := Idle, 1 := Idle]), Remote(Older(c), {}, Some(c.r1.hash))))
    ensures var c := TheCast(H); Reaches(H, false, start, With(s, 0, Late(c), Remote(Older(c), {}, Some(c.r1.hash))))
  {
    hide CollisionFree, Reaches, SnapshotHash, Chain, Rooted;
    var c := TheCast(H);
    CastIsDistinct(H);
    CastStores(H);
    CastChains(H);
    var one, r := Fresh(c, map[0 := Idle, 1 := Idle]), Remote(Older(c), {}, Some(c.r1.hash));
    Serve(H, false, start, s, 0, one, r, 1);
    assert Prepare(c)[c.r1.hash := c.r1] == Older(c);
    assert map[0 := Idle, 1 := Idle][1 := Merged(Some(c.r1.hash), c.e.hash)] == Late(c).engines;
  }

  lemma ServeNewer(H: Hasher, start: System, s: System)
    requires CollisionFree(H)
    requires var c := TheCast(H); Reaches(H, false, start, With(s, 0, Late(c), TheRemote(c, 0)))
    ensures var c := TheCast(H); Reaches(H, false, start, With(s, 0, TheDevice(c, 0), TheRemote(c, 0)))
  {
    hide CollisionFree, Reaches, SnapshotHash, Chain, Rooted;
    var c := TheCast(H);
    CastIsDistinct(H);
    CastStores(H);
    CastChains(H);
    var r := TheRemote(c, 0);
    Serve(H, false, start, s, 0, Late(c), r, 0);
    assert Older(c)[c.r2.hash := c.r2] == Before(c);
    assert Late(c).engines[0 := Merged(Some(c.r2.hash), c.e.hash)] == TheDevice(c, 0).engines;
  }

  /** Two prepared repositories get to where the two engines stand on different heads. */
  lemma SceneIsReached(H: Hasher)
    requires CollisionFree(H)
    ensures var c := TheCast(H); Reaches(H, false, Start(c), Pair(TheDevice(c, 0), Author(c), TheRemote(c, 0)))
  {
    hide CollisionFree, Reaches, SnapshotHash, Chain, Rooted, TheDevice, With, Late, Pair, Older, Before;
    var c := TheCast(H);
    var s, quiet := Start(c), map[0 := Idle];
    var one, other := Fresh(c, map[0 := Idle, 1 := Idle]), Fresh(c, quiet);
    var r1 := Remote(Older(c), {}, Some(c.r1.hash));
    Nowhere(H, false, s);
    PairWith(s, one, other, s.remote);
    StartIsPair(c);
    FirstRound(H, false, s, s, 1, quiet, 0);
    PairWith(s, one, Synced(c, quiet), r1);
    var p := Pair(one, Synced(c, quiet), r1);
    PairWith(p, one, Synced(c, quiet), r1);
    ServeOlder(H, s, p);
    PairWith(p, Late(c), Synced(c, quiet), r1);
    p := Pair(Late(c), Synced(c, quiet), r1);
    PairWith(p, Late(c), Synced(c, quiet), r1);
    SecondRound(H, false, s, p, 1, quiet, 0);
    PairWith(p, Late(c), Author(c), TheRemote(c, 0));
    p := Pair(Late(c), Author(c), TheRemote(c, 0));
    PairWith(p, Late(c), Author(c), TheRemote(c, 0));
    ServeNewer(H, s, p);
    PairWith(p, TheDevice(c, 0), Author(c), TheRemote(c, 0));
  }

  lemma StartIsPair(c: Cast)
    ensures Start(c) == Pair(Fresh(c, map[0 := Idle, 1 := Idle]), Fresh(c, map[0 := Idle]), Start(c).remote)
  {
  }

  lemma Nowhere(H: Hasher, sane: bool, s: System)
    ensures Reaches(H, sane, s, s)
  {
    hide Moves;
    assert Leads(H, sane, [s], s, s);
  }

  /** From there on, the moves of the two engines. */
  lemma {:induction false} MovesAreMade(H: Hasher, k: nat)
    requires CollisionFree(H) && k <= 10
    ensures var c := TheCast(H);
            Reaches(H, false, Pair(TheDevice(c, 0), Author(c), TheRemote(c, 0)),
                    Pair(TheDevice(c, k), Author(c), TheRemote(c, k)))
  {
    hide CollisionFree, Reaches, SnapshotHash, Chain, Rooted, Act, TheDevice, TheRemote, Mover, Move, Author;
    var c := TheCast(H);
    var start := Pair(TheDevice(c, 0), Author(c), TheRemote(c, 0));
    if k == 0 {
      Nowhere(H, false, start);
    } else {
      MovesAreMade(H, k - 1);
      EveryMove(H, k - 1);
      PairWith(start, TheDevice(c, k - 1), Author(c), TheRemote(c, k - 1));
      PairWith(start, TheDevice(c, k), Author(c), TheRemote(c, k));
      Do(H, false, start, start, 0, TheDevice(c, k - 1), TheRemote(c, k - 1), TheDevice(c, k), TheRemote(c, k),
         Mover(k - 1), Move(k - 1));
    }
  }

  /** The device that pushed the lost head meets the new one. */
  function Refusing(c: Cast): Device {
    Device(After(c), {}, c.r2.hash, Some(c.r2.hash), map[0 := Refused])
  }

  lemma AuthorFetches(H: Hasher, start: System)
    requires CollisionFree(H)
    requires var c := TheCast(H);
             Reaches(H, false, start, With(start, 1, Author(c), Remote(After(c), {}, Some(c.q2.hash))))
    ensures var c := TheCast(H);
            var asked := Fetching(Some(c.q2.hash), Some(c.r2.hash));
            Reaches(H, false, start,
                    With(start, 1, Refusing(c).(engines := map[0 := asked]), Remote(After(c), {}, Some(c.q2.hash))))
  {
    hide CollisionFree, Reaches, SnapshotHash, Chain, Rooted, Before;
    var c := TheCast(H);
    var d, r := Author(c), Remote(After(c), {}, Some(c.q2.hash));
    CastIsDistinct(H);
    CastChains(H);
    assert c.r1.hash in Before(c) by {
      InBefore(c);
    }
    Ask(H, false, start, start, 1, d, r, 0);
    var asked := At(d, 0, Fetching(r.head, d.last));
    assert asked.engines == map[0 := Fetching(Some(c.q2.hash), Some(c.r2.hash))];
    Fetch(H, false, start, start, 1, asked, r, 0, c.q1.hash);
    Fetch(H, false, start, start, 1, asked.(store := Before(c)[c.q1.hash := c.q1]), r, 0, c.q2.hash);
  }

  lemma InBefore(c: Cast)
    ensures c.r1.hash in Before(c)
  {
  }

  lemma AuthorRefuses(H: Hasher, one: Device)
    requires CollisionFree(H)
    ensures var c := TheCast(H);
            var r := Remote(After(c), {}, Some(c.q2.hash));
            Reaches(H, false, Pair(one, Author(c), r), Pair(one, Refusing(c), r))
  {
    hide CollisionFree, Reaches, SnapshotHash, Chain, Rooted, Descends, Before, After;
    var c := TheCast(H);
    var r := Remote(After(c), {}, Some(c.q2.hash));
    var start := Pair(one, Author(c), r);
    CastIsDistinct(H);
    CastStores(H);
    CastChains(H);
    Nowhere(H, false, start);
    PairWith(start, one, Author(c), r);
    AuthorFetches(H, start);
    var fetched := Refusing(c).(engines := map[0 := Fetching(Some(c.q2.hash), Some(c.r2.hash))]);
    InAfter(c);
    DescendsIsChain(H, After(c), c.r2.hash, c.q2.hash);
    Pass(H, false, start, start, 1, fetched, r, 0);
    assert fetched.engines[0 := Refused] == Refusing(c).engines;
    PairWith(start, one, Refusing(c), r);
  }

  lemma InAfter(c: Cast)
    ensures c.q2.hash in After(c)
  {
  }

  lemma Lost(H: Hasher)
    requires CollisionFree(H)
    ensures var c := TheCast(H);
            var r, r' := TheRemote(c, 0), TheRemote(c, 10);
            && Init(H, Start(c)) && r' == Remote(After(c), {}, Some(c.q2.hash))
            && r.head.Some? && r.head.value !in Chain(r'.store, c.q2.hash)
  {
    hide CollisionFree, SnapshotHash, Rooted, Chain;
    CastIsDistinct(H);
    CastChains(H);
  }

  /** A run that passes through three states. */
  lemma Through(H: Hasher, s: System, m: System, n: System, t: System) returns (states: seq<System>, k: nat, l: nat)
    requires Reaches(H, false, s, m) && Reaches(H, false, m, n) && Reaches(H, false, n, t)
    ensures Leads(H, false, states, s, t) && states != [] && k <= l < |states| && states[k] == m && states[l] == n
  {
    hide Run;
    var one :| Leads(H, false, one, s, m);
    var two :| Leads(H, false, two, m, n);
    var three :| Leads(H, false, three, n, t);
    NotEmpty(H, one);
    NotEmpty(H, two);
    NotEmpty(H, three);
    Join(H, one, s, m, two, n);
    var both := one + two[1..];
    Join(H, both, s, n, three, t);
    states, k, l := both + three[1..], |one| - 1, |both| - 1;
    assert states[k] == both[k];
  }

  /** A run from prepared repositories, two engines on the first and one on the second, in which the remote head no
    longer has a head it replaced on its chain, and after which the device that pushed that head is refused. */
  lemma TwoEnginesLoseDescent(H: Hasher) returns (states: seq<System>, k: nat, l: nat)
    requires CollisionFree(H)
    ensures Run(H, states) && Init(H, states[0]) && k <= l < |states|
    ensures var r, r' := states[k].remote, states[l].remote;
            r.head.Some? && r'.head.Some? && r.head.value !in Chain(r'.store, r'.head.value)
    ensures var last := states[|states| - 1];
            1 in last.devices && 0 in last.devices[1].engines && last.devices[1].engines[0].Refused?
  {
    hide CollisionFree, SnapshotHash, Rooted, Chain, Run, Reaches, TheDevice, TheRemote, Before, After, Start, Init;
    var c := TheCast(H);
    SceneIsReached(H);
    MovesAreMade(H, 10);
    Lost(H);
    AuthorRefuses(H, TheDevice(c, 10));
    var m, n := Pair(TheDevice(c, 0), Author(c), TheRemote(c, 0)), Pair(TheDevice(c, 10), Author(c), TheRemote(c, 10));
    states, k, l := Through(H, Start(c), m, n, Pair(TheDevice(c, 10), Refusing(c), TheRemote(c, 10)));
  }

  lemma NotEmpty(H: Hasher, states: seq<System>)
    requires Run(H, states)
    ensures states != []
  {
    hide Moves;
  }

  /** Two engines on one new repository, no swap that breaks either and no head moved back: one asks for the head, the
    other pushes the first snapshot and writes the anchor, and the first then takes the remote for wiped. */
  lemma FalseAlarm(H: Hasher) returns (states: seq<System>)
    requires CollisionFree(H)
    ensures Run(H, states) && Init(H, states[0]) && Sane(H, states, false)
    ensures var last := states[|states| - 1];
            0 in last.devices && 0 in last.devices[0].engines && last.devices[0].engines[0].Refused?
  {
    hide CollisionFree, SnapshotHash, Rooted, Chain, Run, Sane, Reaches;
    var c, none := TheCast(H), Remote(map[], {}, None);
    CastIsDistinct(H);
    var engines, asked := map[0 := Idle, 1 := Idle], map[0 := Asked(None), 1 := Idle];
    var d, r1 := Fresh(c, engines), Remote(Older(c), {}, Some(c.r1.hash));
    var s := System(map[0 := d], none);
    assert With(s, 0, d, none) == s;
    Nowhere(H, true, s);
    Ask(H, true, s, s, 0, d, none, 0);
    assert At(d, 0, Asked(None)) == Fresh(c, asked);
    FirstRound(H, true, s, s, 0, asked, 1);
    Read(H, true, s, s, 0, Synced(c, asked), r1, 0);
    var reading := At(Synced(c, asked), 0, Fetching(None, Some(c.r1.hash)));
    Pass(H, true, s, s, 0, reading, r1, 0);
    var end := With(s, 0, At(reading, 0, Refused), r1);
    assert Reaches(H, true, s, end);
    states := Witness(H, s, end);
  }

  lemma Witness(H: Hasher, s: System, t: System) returns (states: seq<System>)
    requires Reaches(H, true, s, t)
    ensures Leads(H, true, states, s, t) && Run(H, states) && states != [] && Sane(H, states, false)
    ensures states[0] == s && states[|states| - 1] == t
  {
    hide Moves, SaneMove;
    states :| Leads(H, true, states, s, t);
  }
}
