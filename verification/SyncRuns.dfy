/** What holds over every run of devices and remote. */
module SyncRuns {
  import opened Wrappers
  import opened Snapshots
  import opened Repo
  import opened SyncProtocol
  import opened SyncDescent

  ghost predicate StepBy(H: Hasher, s: System, s': System, i: nat, e: nat, act: Action) {
    && i in s.devices && i in s'.devices && s'.devices == s.devices[i := s'.devices[i]]
    && Act(H, s.devices[i], s.remote, s'.devices[i], s'.remote, e, act)
  }

  ghost predicate Moves(H: Hasher, s: System, s': System) {
    exists i, e, act :: StepBy(H, s, s', i, e, act)
  }

  /** A run: any interleaving of steps of any engine of any device. */
  ghost predicate Run(H: Hasher, states: seq<System>) {
    && states != []
    && forall k, l :: 0 <= k && l == k + 1 && l < |states| ==> Moves(H, states[k], states[l])
  }

  /** Freshly prepared devices, each with any number of engines, and a remote nothing was ever pushed to. */
  ghost predicate Init(H: Hasher, s: System) {
    s.remote == Remote(map[], {}, None) && forall i :: i in s.devices ==> Prepared(H, s.devices[i])
  }

  ghost predicate Prepared(H: Hasher, d: Device) {
    && d.store == map[Empty(H).hash := Empty(H)] && d.head == Empty(H).hash && d.last.None?
    && forall e :: e in d.engines ==> d.engines[e].Idle?
  }

  /** No two engines share a repository. */
  ghost predicate OneEngineEach(s: System) {
    forall i, e, f :: i in s.devices && e in s.devices[i].engines && f in s.devices[i].engines ==> e == f
  }

  /** A swap of a local head that takes the served head from under another engine of the repository. */
  ghost predicate Breaking(H: Hasher, s: System, i: nat, e: nat, act: Action) {
    act == Swap && i in s.devices && exists f :: Breaks(H, s.devices[i], e, f)
  }

  /** An anchor written between another engine's reading of the remote head and of the anchor. */
  ghost predicate Overtaking(s: System, i: nat, e: nat, act: Action) {
    act == Anchor && i in s.devices && exists f :: Overtakes(s.devices[i], s.remote, e, f)
  }

  /** A run in which no swap breaks an engine and, when `calm`, no anchor overtakes one. */
  ghost predicate Sane(H: Hasher, states: seq<System>, calm: bool) {
    forall k, l :: 0 <= k && l == k + 1 && l < |states| ==> SaneMove(H, states[k], states[l], calm)
  }

  ghost predicate SaneMove(H: Hasher, s: System, s': System, calm: bool) {
    exists i, e, act :: StepBy(H, s, s', i, e, act) && !Breaking(H, s, i, e, act)
      && (calm ==> !Overtaking(s, i, e, act))
  }

  /** Every engine stands on what it was served. */
  ghost predicate Line(H: Hasher, s: System) {
    forall i :: i in s.devices ==> DeviceLine(H, s.devices[i], s.remote)
  }

  /** No engine was refused, or is going to be. */
  ghost predicate Calm(s: System) {
    forall i, e :: i in s.devices && e in s.devices[i].engines ==>
      Unalarmed(s.devices[i], s.remote, s.devices[i].engines[e])
  }

  lemma InitHolds(H: Hasher, s: System)
    requires CollisionFree(H) && Init(H, s)
    ensures Inv(H, s) && Line(H, s) && Calm(s)
  {
    hide CollisionFree, SnapshotHash;
    var none: map<Hash, nat> := map[];
    assert Ranked(s.remote.store, none);
    StoreSealed(H, s.remote.store, None, map[]);
  }

  /** Every step of every engine keeps the invariant, whoever shares its repository. */
  lemma StepKeeps(H: Hasher, s: System, s': System, i: nat, e: nat, act: Action)
    requires CollisionFree(H) && Inv(H, s) && StepBy(H, s, s', i, e, act)
    ensures Inv(H, s') && Gains(s.remote, s'.remote)
    ensures Grows(s.devices[i].store, s'.devices[i].store)
    ensures s'.devices.Keys == s.devices.Keys
    ensures forall j :: j in s.devices ==> s'.devices[j].engines.Keys == s.devices[j].engines.Keys
  {
    hide CollisionFree, Act, DeviceInv, RemoteInv, EngineInv, Gains, Chain;
    var d, d' := s.devices[i], s'.devices[i];
    OnlyPushesWrite(H, d, s.remote, d', s'.remote, e, act);
    RemoteKeeps(H, d, s.remote, d', s'.remote, e, act);
    DeviceKeeps(H, d, s.remote, d', s'.remote, e, act);
    ActorKeeps(H, d, s.remote, d', s'.remote, e, act);
    forall j | j in s'.devices
      ensures DeviceInv(H, s'.devices[j], s'.remote)
      ensures forall f :: f in s'.devices[j].engines ==>
        EngineInv(H, s'.devices[j], s'.remote, s'.devices[j].engines[f])
    {
      if j != i {
        BystanderKeeps(H, s.devices[j], s.remote, s'.remote);
      } else {
        OtherEnginesKeep(H, d, s.remote, d', s'.remote, e, act);
      }
    }
  }

  lemma OtherEnginesKeep(H: Hasher, d: Device, r: Remote, d': Device, r': Remote, e: nat, act: Action)
    requires CollisionFree(H) && Act(H, d, r, d', r', e, act) && DeviceInv(H, d, r) && DeviceInv(H, d', r')
    requires Grows(d.store, d'.store) && d.chunks <= d'.chunks && Gains(r, r')
    requires forall f :: f in d.engines ==> EngineInv(H, d, r, d.engines[f])
    ensures forall f :: f in d.engines && f != e ==> f in d'.engines && EngineInv(H, d', r', d'.engines[f])
  {
    hide CollisionFree, Act, EngineInv, Gains, Chain, Covered, Rooted, Empty;
    forall f | f in d.engines && f != e
      ensures f in d'.engines && EngineInv(H, d', r', d'.engines[f])
    {
      OthersStay(H, d, r, d', r', e, act, f);
      EngineStable(H, d, r, d', r', d.engines[f]);
    }
  }

  /** A step taken where every engine stands on what it was served moves the remote head to a descendant, and leaves
    every engine standing exactly when it is not a breaking swap. */
  lemma StepKeepsLineIff(H: Hasher, s: System, s': System, i: nat, e: nat, act: Action)
    requires CollisionFree(H) && Inv(H, s) && Line(H, s) && StepBy(H, s, s', i, e, act)
    ensures Extends(s.remote, s'.remote)
    ensures Line(H, s') <==> !Breaking(H, s, i, e, act)
  {
    hide CollisionFree, Act, DeviceInv, RemoteInv, EngineInv, Extends, Chain, DeviceLine, Breaks;
    var d, d' := s.devices[i], s'.devices[i];
    StepKeeps(H, s, s', i, e, act);
    HonestEngine(H, d, s.remote, d', s'.remote, e, act);
    RemoteMovesForward(H, d, s.remote, d', s'.remote, e, act);
    LineKeptIff(H, d, s.remote, d', s'.remote, e, act);
    forall j | j in s.devices && j != i
      ensures DeviceLine(H, s'.devices[j], s'.remote)
    {
      BystanderLine(H, s.devices[j], s.remote, s'.remote);
    }
  }

  lemma HonestEngine(H: Hasher, d: Device, r: Remote, d': Device, r': Remote, e: nat, act: Action)
    requires Act(H, d, r, d', r', e, act) && DeviceLine(H, d, r)
    ensures e in d.engines && Honest(H, d, r, d.engines[e])
  {
    hide Honest, Stands, FetchStep, RebaseStep, OtherStep, PushStep;
  }

  /** A step taken where no engine is refused leaves it so exactly when it is not an overtaking anchor. */
  lemma StepKeepsCalmIff(H: Hasher, s: System, s': System, i: nat, e: nat, act: Action)
    requires CollisionFree(H) && Inv(H, s) && Line(H, s) && Calm(s) && StepBy(H, s, s', i, e, act)
    ensures Calm(s') <==> !Overtaking(s, i, e, act)
  {
    hide CollisionFree, Act, DeviceInv, RemoteInv, EngineInv, Gains, Chain, DeviceLine, Overtakes, Unalarmed;
    var d, d' := s.devices[i], s'.devices[i];
    StepKeeps(H, s, s', i, e, act);
    UnalarmedKeptIff(H, d, s.remote, d', s'.remote, e, act);
    forall j, f | j in s.devices && j != i && f in s.devices[j].engines
      ensures Unalarmed(s'.devices[j], s'.remote, s'.devices[j].engines[f])
    {
      UnalarmedStable(H, s.devices[j], s.remote, s'.remote, s.devices[j].engines[f]);
    }
  }

  lemma {:induction false} RunKeeps(H: Hasher, states: seq<System>, k: nat, l: nat)
    requires CollisionFree(H) && Run(H, states) && Inv(H, states[0]) && k <= l < |states|
    ensures Inv(H, states[l]) && Gains(states[k].remote, states[l].remote)
    decreases l
  {
    hide CollisionFree, StepBy, DeviceInv, EngineInv, RemoteInv;
    if l > 0 {
      RunKeeps(H, states, if k < l then k else l - 1, l - 1);
      assert Moves(H, states[l - 1], states[l]);
      var i, e, act :| StepBy(H, states[l - 1], states[l], i, e, act);
      StepKeeps(H, states[l - 1], states[l], i, e, act);
    }
  }

  lemma ExtendsTransitive(H: Hasher, r0: Remote, r1: Remote, r2: Remote)
    requires CollisionFree(H) && RemoteInv(H, r1) && RemoteInv(H, r2) && Extends(r0, r1) && Extends(r1, r2)
    ensures Extends(r0, r2)
  {
    hide CollisionFree, SnapshotHash, Addressed, Covered;
    if r0.head.Some? {
      ChainStable(r1.store, r2.store, r1.head.value);
      ChainTransitive(r2.store, r2.head.value, r1.head.value);
    }
  }

  lemma {:induction false} SaneRunKeeps(H: Hasher, states: seq<System>, calm: bool, k: nat, l: nat)
    requires CollisionFree(H) && Run(H, states) && Init(H, states[0]) && Sane(H, states, calm) && k <= l < |states|
    ensures Inv(H, states[l]) && Line(H, states[l]) && (calm ==> Calm(states[l]))
    ensures Extends(states[k].remote, states[l].remote)
    decreases l, k
  {
    hide CollisionFree, StepBy, Init, DeviceInv, EngineInv, RemoteInv, DeviceLine, Unalarmed, Breaking, Overtaking,
      Extends;
    InitHolds(H, states[0]);
    RunKeeps(H, states, l, l);
    if k == l {
      HeadOnItself(H, states[l].remote);
      SelfExtends(states[l].remote);
    }
    if l == 0 {
      InitHolds(H, states[0]);
    } else {
      SaneRunKeeps(H, states, calm, if k < l then k else l - 1, l - 1);
      assert SaneMove(H, states[l - 1], states[l], calm);
      var i, e, act :| StepBy(H, states[l - 1], states[l], i, e, act)
        && !Breaking(H, states[l - 1], i, e, act) && (calm ==> !Overtaking(states[l - 1], i, e, act));
      StepKeepsLineIff(H, states[l - 1], states[l], i, e, act);
      if calm {
        StepKeepsCalmIff(H, states[l - 1], states[l], i, e, act);
      }
      if k < l {
        ExtendsTransitive(H, states[k].remote, states[l - 1].remote, states[l].remote);
      }
    }
  }

  lemma SelfExtends(r: Remote)
    requires OnRemote(r, r.head)
    ensures Extends(r, r)
  {
  }

  /** However devices and the engines on them interleave: every snapshot on the remote has its parent and every chunk it
    references there, what was pushed stays, and no push misses a chunk it is to upload. */
  lemma RemoteIsWhole(H: Hasher, states: seq<System>, k: nat, l: nat)
    requires CollisionFree(H) && Run(H, states) && Init(H, states[0]) && k <= l < |states|
    ensures var r, r' := states[k].remote, states[l].remote;
            && Grows(r.store, r'.store) && r.chunks <= r'.chunks
            && (r'.head.Some? ==> r'.head.value in r'.store)
            && forall h :: h in r'.store ==>
                 && r'.store[h] == Sealed(H, r'.store[h].parent, r'.store[h].files) && r'.store[h].hash == h
                 && (r'.store[h].parent.Some? ==> r'.store[h].parent.value in r'.store)
                 && forall p, c :: p in r'.store[h].files && c in r'.store[h].files[p].chunks ==> c in r'.chunks
    ensures forall i, e :: i in states[l].devices && e in states[l].devices[i].engines ==>
      !states[l].devices[i].engines[e].ChunkLost?
  {
    hide CollisionFree, SnapshotHash, Run, Init, Chain, DeviceInv;
    InitHolds(H, states[0]);
    RunKeeps(H, states, k, l);
    var r' := states[l].remote;
    forall h | h in r'.store
      ensures r'.store[h].parent.Some? ==> r'.store[h].parent.value in r'.store
    {
      ChainStep(r'.store, h);
    }
    forall i, e | i in states[l].devices && e in states[l].devices[i].engines
      ensures !states[l].devices[i].engines[e].ChunkLost?
    {
      assert EngineInv(H, states[l].devices[i], states[l].remote, states[l].devices[i].engines[e]);
    }
  }

  /** With any number of engines to a repository, as long as no swap breaks one of them, the remote's head only moves to
    descendants; and as long as no anchor overtakes one either, no round is refused. */
  lemma RemoteOnlyMovesForward(H: Hasher, states: seq<System>, calm: bool, k: nat, l: nat)
    requires CollisionFree(H) && Run(H, states) && Init(H, states[0]) && Sane(H, states, calm) && k <= l < |states|
    ensures var r, r' := states[k].remote, states[l].remote;
            r.head.Some? ==> r'.head.Some? && r.head.value in Chain(r'.store, r'.head.value)
    ensures calm ==> forall i, e :: i in states[l].devices && e in states[l].devices[i].engines ==>
      !states[l].devices[i].engines[e].Refused?
  {
    hide CollisionFree, Run, Init, Chain, DeviceInv, EngineInv, RemoteInv, Sane;
    SaneRunKeeps(H, states, calm, k, l);
    if calm {
      forall i, e | i in states[l].devices && e in states[l].devices[i].engines
        ensures !states[l].devices[i].engines[e].Refused?
      {
        assert Unalarmed(states[l].devices[i], states[l].remote, states[l].devices[i].engines[e]);
      }
    }
  }

  lemma {:induction false} StillOneEngineEach(H: Hasher, states: seq<System>, k: nat)
    requires CollisionFree(H) && Run(H, states) && Init(H, states[0]) && OneEngineEach(states[0]) && k < |states|
    ensures OneEngineEach(states[k])
  {
    hide CollisionFree, StepBy, Init, Inv;
    if k > 0 {
      StillOneEngineEach(H, states, k - 1);
      InitHolds(H, states[0]);
      RunKeeps(H, states, k - 1, k - 1);
      assert Moves(H, states[k - 1], states[k]);
      var i, e, act :| StepBy(H, states[k - 1], states[k], i, e, act);
      StepKeeps(H, states[k - 1], states[k], i, e, act);
      assert forall j, f :: j in states[k].devices && f in states[k].devices[j].engines ==>
        f in states[k - 1].devices[j].engines;
    }
  }

  /** With one engine to a repository no step breaks or overtakes another. */
  lemma OneEngineIsSane(H: Hasher, states: seq<System>)
    requires CollisionFree(H) && Run(H, states) && Init(H, states[0]) && OneEngineEach(states[0])
    ensures Sane(H, states, true)
  {
    hide CollisionFree, StepBy, Init, Inv, Breaks, Overtakes;
    forall k, l | 0 <= k && l == k + 1 && l < |states|
      ensures SaneMove(H, states[k], states[l], true)
    {
      StillOneEngineEach(H, states, k);
      assert Moves(H, states[k], states[l]);
      var i, e, act :| StepBy(H, states[k], states[l], i, e, act);
      forall f | i in states[k].devices
        ensures !Breaks(H, states[k].devices[i], e, f) && !Overtakes(states[k].devices[i], states[k].remote, e, f)
      {
        NoOther(H, states[k], i, e, f);
      }
    }
  }

  lemma NoOther(H: Hasher, s: System, i: nat, e: nat, f: nat)
    requires OneEngineEach(s) && i in s.devices
    ensures !Breaks(H, s.devices[i], e, f) && !Overtakes(s.devices[i], s.remote, e, f)
  {
  }

  /** With one engine to a repository, in every run the remote's head only moves to descendants and no round against an
    honest remote is refused as a rollback. */
  lemma NoFalseAlarm(H: Hasher, states: seq<System>, k: nat, l: nat)
    requires CollisionFree(H) && Run(H, states) && Init(H, states[0]) && OneEngineEach(states[0]) && k <= l < |states|
    ensures var r, r' := states[k].remote, states[l].remote;
            r.head.Some? ==> r'.head.Some? && r.head.value in Chain(r'.store, r'.head.value)
    ensures forall i, e :: i in states[l].devices && e in states[l].devices[i].engines ==>
      !states[l].devices[i].engines[e].Refused?
  {
    hide CollisionFree, Run, Init, Chain, Sane;
    OneEngineIsSane(H, states);
    RemoteOnlyMovesForward(H, states, true, k, l);
  }

  /** A served head is accepted exactly when it is the anchor or descends from it: a strict ancestor of the anchor and
    a fork beside it are both refused, whoever serves them. */
  lemma RollbackIsRefused(H: Hasher, store: Store, last: Hash, served: Hash)
    requires CollisionFree(H) && WellFormed(H, store) && last in store && served in store
    ensures Refuses(store, Some(last), Some(served)) <==> last !in Chain(store, served)
    ensures served != last && served in Chain(store, last) ==> Refuses(store, Some(last), Some(served))
    ensures Refuses(store, Some(last), None)
  {
    hide CollisionFree, SnapshotHash, Chain;
    DescendsIsChain(H, store, last, served);
    if served in Chain(store, last) && last in Chain(store, served) {
      ChainStep(store, last);
      ChainLinear(store, last, served, last);
    }
  }
}
