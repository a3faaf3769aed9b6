/** When the remote head only moves to descendants, and when a round is refused as a rollback.

  Neither is certain once several engines work on one repository. Each property fails at one step, and this module says
  exactly at which: a swap of the local head that takes the served head of another engine out from under it, and an
  anchor written while another engine has read the remote head but not yet the anchor. */
module SyncDescent {
  import opened Wrappers
  import opened Snapshots
  import opened Replay
  import opened Repo
  import opened SyncProtocol

  /** A hash on the remote head's own chain. */
  ghost predicate OnRemote(r: Remote, h: Option<Hash>) {
    h.Some? ==> r.head.Some? && h.value in Chain(r.store, r.head.value)
  }

  /** The remote only gains objects, and its head only moves to a descendant. */
  ghost predicate Extends(r: Remote, r': Remote) {
    Gains(r, r') && (r.head.Some? ==> r'.head.Some? && r.head.value in Chain(r'.store, r'.head.value))
  }

  /** What an engine was served is in the remote head's history, and what it is about to publish hangs off it. */
  ghost predicate Honest(H: Hasher, d: Device, r: Remote, me: Engine) {
    match me
    case Idle => true
    case Refused => true
    case ChunkLost => true
    case Fetching(synced, anchor) => OnRemote(r, synced) && OnRemote(r, anchor)
    case Pushing(synced, latest, _, _) => OnRemote(r, synced) && Target(H, synced) in Chain(d.store, latest)
    case Committed(latest) => OnRemote(r, Some(latest))
    case _ => OnRemote(r, me.synced)
  }

  /** The engine counts on the local head having the served one underneath: it rebased, or found that it need not. */
  ghost predicate Relies(H: Hasher, d: Device, me: Engine) {
    me.Rebased? || (me.Merged? && Target(H, me.synced) in Chain(d.store, me.local))
  }

  ghost predicate Stands(H: Hasher, d: Device, me: Engine) {
    Relies(H, d, me) ==> Target(H, me.synced) in Chain(d.store, d.head)
  }

  ghost predicate DeviceLine(H: Hasher, d: Device, r: Remote) {
    OnRemote(r, d.last) && forall e :: e in d.engines ==> Honest(H, d, r, d.engines[e]) && Stands(H, d, d.engines[e])
  }

  /** The snapshots a rebase of `from` writes. */
  ghost function Carries(H: Hasher, store: Store, from: Hash, onto: Hash, base: Option<Hash>): seq<Snapshot> {
    if onto in store && Replayable(store, Todo(store, from, base))
    then ReplayChain(H, store, Todo(store, from, base), store[onto])
    else []
  }

  /** Engine `e` is about to move the local head to a rebase onto a head that lacks the one engine `f` was served, and
    the replay does not bring that back. */
  ghost predicate Breaks(H: Hasher, d: Device, e: nat, f: nat) {
    && e in d.engines && f in d.engines && f != e
    && d.engines[e].Rebasing? && d.head == d.engines[e].from && Relies(H, d, d.engines[f])
    && var me, lost := d.engines[e], Target(H, d.engines[f].synced);
       var onto := Target(H, me.synced);
       && lost !in Chain(d.store, onto)
       && forall s :: s in Carries(H, d.store, me.from, onto, me.base) ==> s.hash != lost
  }

  /** Engine `e` is about to write an anchor above the head engine `f` was served, which has yet to read its own. */
  ghost predicate Overtakes(d: Device, r: Remote, e: nat, f: nat) {
    && e in d.engines && f in d.engines && f != e && d.engines[e].Committed? && d.engines[f].Asked?
    && var latest, synced := d.engines[e].latest, d.engines[f].synced;
       synced.None? || (synced.value != latest && synced.value in Chain(r.store, latest))
  }

  /** The anchor is in the history of the served head. */
  ghost predicate Above(r: Remote, synced: Option<Hash>, anchor: Option<Hash>) {
    anchor.Some? ==> synced.Some? && anchor.value in Chain(r.store, synced.value)
  }

  ghost predicate Unalarmed(d: Device, r: Remote, me: Engine) {
    match me
    case Asked(synced) => Above(r, synced, d.last)
    case Fetching(synced, anchor) => Above(r, synced, anchor)
    case Refused => false
    case _ => true
  }

  /** Each snapshot's parent is the one before it, and the first one's is `head`. */
  ghost predicate Follows(head: Snapshot, replayed: seq<Snapshot>) {
    && (replayed != [] ==> replayed[0].parent == Some(head.hash))
    && forall i, j :: 0 <= i && j == i + 1 && j < |replayed| ==> replayed[j].parent == Some(replayed[i].hash)
  }

  lemma FollowsBefore(head: Snapshot, replayed: seq<Snapshot>)
    requires Follows(head, replayed) && replayed != []
    ensures var rest := replayed[..|replayed| - 1];
            Follows(head, rest) && replayed[|rest|].parent == Some(Top(head, rest).hash)
  {
    var rest := replayed[..|replayed| - 1];
    assert rest != [] ==> replayed[|rest|].parent == Some(replayed[|rest| - 1].hash);
  }

  /** Every replayed snapshot is stored on the one before, so the chain of the rebased top is the replay on top of the
    chain it was rebased onto. */
  lemma {:induction false} OnTop(store: Store, replayed: seq<Snapshot>, head: Snapshot)
    requires Rooted(store) && head.hash in store && store[head.hash] == head
    requires forall s :: s in replayed ==> s.hash in store && store[s.hash] == s
    requires Follows(head, replayed)
    ensures forall h :: h in Chain(store, Top(head, replayed).hash) <==>
      h in Chain(store, head.hash) || exists s :: s in replayed && s.hash == h
    decreases |replayed|
  {
    hide Rooted, Chain, Follows;
    if replayed != [] {
      var rest, last := replayed[..|replayed| - 1], replayed[|replayed| - 1];
      assert forall s :: s in replayed <==> s in rest || s == last;
      FollowsBefore(head, replayed);
      OnTop(store, rest, head);
      ChainStep(store, last.hash);
    }
  }

  lemma RebasedChain(H: Hasher, store: Store, from: Hash, onto: Hash, base: Option<Hash>, top: Hash)
    requires CollisionFree(H) && WellFormed(H, store) && Carried(H, store, from, onto, base, top)
    ensures top in store && onto in Chain(store, top)
    ensures forall h :: h in Chain(store, top) <==>
      h in Chain(store, onto) || exists s :: s in Carries(H, store, from, onto, base) && s.hash == h
  {
    hide CollisionFree, SnapshotHash, Rooted, Chain, Todo;
    var todo := Todo(store, from, base);
    ReplayLinks(H, store, todo, store[onto]);
    var replayed := ReplayChain(H, store, todo, store[onto]);
    assert forall i, j :: 0 <= i && j == i + 1 && j < |replayed| ==> replayed[j].parent == Some(replayed[i].hash);
    OnTop(store, replayed, store[onto]);
    TopIsStored(H, store, from, onto, base, top);
    ChainStep(store, onto);
  }

  /** A swap of the local head takes the served head from under another engine exactly when the new base does not have
    it in its history and it is not among the replayed snapshots either. */
  lemma SwapBreaksIff(H: Hasher, d: Device, r: Remote, d': Device, e: nat, f: nat)
    requires CollisionFree(H) && e in d.engines && f in d.engines && f != e && RebaseStep(H, d, r, d', r, e, Swap)
    requires DeviceInv(H, d, r) && EngineInv(H, d, r, d.engines[e])
    requires Stands(H, d, d.engines[f])
    ensures Stands(H, d', d.engines[f]) <==> !Breaks(H, d, e, f)
  {
    hide CollisionFree, SnapshotHash, Rooted, Chain, Carried, Carries, Covered, Empty;
    var me := d.engines[e];
    RebasedChain(H, d.store, me.from, Target(H, me.synced), me.base, me.top);
  }

  /** What lies under the remote head stays there while the head only moves forward. */
  lemma StillOnRemote(H: Hasher, r: Remote, r': Remote, h: Option<Hash>)
    requires CollisionFree(H) && RemoteInv(H, r) && RemoteInv(H, r') && Extends(r, r') && OnRemote(r, h)
    ensures OnRemote(r', h)
  {
    hide CollisionFree, Addressed, Covered;
    if h.Some? {
      ChainStable(r.store, r'.store, r.head.value);
      ChainTransitive(r'.store, r'.head.value, r.head.value);
    }
  }

  lemma HonestStable(H: Hasher, d: Device, r: Remote, d': Device, r': Remote, me: Engine)
    requires CollisionFree(H) && RemoteInv(H, r) && RemoteInv(H, r') && Extends(r, r')
    requires Rooted(d.store) && Rooted(d'.store) && Grows(d.store, d'.store)
    requires EngineInv(H, d, r, me) && Honest(H, d, r, me)
    ensures Honest(H, d', r', me)
  {
    hide CollisionFree, Rooted, Chain, Covered, Empty, Uploadable, RemoteInv, Extends, Carried, OnRemote;
    match me
    case Idle =>
    case Refused =>
    case ChunkLost =>
    case Fetching(synced, anchor) =>
      StillOnRemote(H, r, r', synced);
      StillOnRemote(H, r, r', anchor);
    case Pushing(synced, latest, _, _) =>
      StillOnRemote(H, r, r', synced);
      ChainStable(d.store, d'.store, latest);
    case Committed(latest) => StillOnRemote(H, r, r', Some(latest));
    case _ => StillOnRemote(H, r, r', me.synced);
  }

  /** A local head that moves forward takes nothing from under an engine. */
  lemma StandsStable(H: Hasher, d: Device, r: Remote, d': Device, me: Engine)
    requires CollisionFree(H) && Rooted(d.store) && Rooted(d'.store) && Grows(d.store, d'.store)
    requires d.head in d.store && d'.head in d'.store && d.head in Chain(d'.store, d'.head)
    requires EngineInv(H, d, r, me) && Stands(H, d, me)
    ensures Stands(H, d', me)
  {
    hide CollisionFree, Rooted, Chain, Covered, Empty, Uploadable, Carried;
    ChainStable(d.store, d'.store, d.head);
    ChainTransitive(d'.store, d'.head, d.head);
    if me.Merged? {
      ChainStable(d.store, d'.store, me.local);
    }
  }

  /** Where a step leaves the local head and the anchor. */
  lemma HeadAfter(H: Hasher, d: Device, r: Remote, d': Device, r': Remote, e: nat, act: Action)
    requires CollisionFree(H) && Act(H, d, r, d', r', e, act)
    ensures match act
            case Append(files, _, _) => d'.last == d.last && r' == r &&
              var next := Sealed(H, Some(d.head), files);
              (d'.head == d.head || d'.head == next.hash) && next.hash in d'.store && d'.store[next.hash] == next
            case Swap => d'.last == d.last && d'.store == d.store && r' == r && RebaseStep(H, d, r, d', r, e, Swap)
            case Anchor => d'.head == d.head && r' == r && d.engines[e].Committed?
              && d'.last == Some(d.engines[e].latest)
            case _ => d'.head == d.head && d'.last == d.last
  {
    hide CollisionFree, SnapshotHash, Chain, Unsent, Upto, ChunksOf, Replays, Buildable, FindBase, Refuses;
    if FetchStep(H, d, r, d', r', e, act) || OtherStep(H, d, r, d', r', e, act) {
      hide RebaseStep, PushStep;
    } else if RebaseStep(H, d, r, d', r', e, act) {
      hide PushStep;
    }
  }

  /** A device's own head moves forward at every step but a swap. */
  lemma HeadMovesForward(H: Hasher, d: Device, r: Remote, d': Device, r': Remote, e: nat, act: Action)
    requires CollisionFree(H) && Act(H, d, r, d', r', e, act) && act != Swap
    requires Rooted(d.store) && d.head in d.store && Rooted(d'.store) && Grows(d.store, d'.store)
    ensures d'.head in d'.store && d.head in Chain(d'.store, d'.head)
  {
    hide CollisionFree, SnapshotHash, Rooted, Chain, Act;
    HeadAfter(H, d, r, d', r', e, act);
    ChainStep(d'.store, d.head);
    if act.Append? {
      ChainStep(d'.store, Sealed(H, Some(d.head), act.files).hash);
    }
  }

  lemma HeadOnItself(H: Hasher, r: Remote)
    requires CollisionFree(H) && RemoteInv(H, r)
    ensures OnRemote(r, r.head)
  {
    hide CollisionFree, SnapshotHash, Covered;
    if r.head.Some? {
      ChainStep(r.store, r.head.value);
    }
  }

  /** A push whose snapshot hangs off the head it was served moves the remote head to a descendant. */
  lemma RemoteMovesForward(H: Hasher, d: Device, r: Remote, d': Device, r': Remote, e: nat, act: Action)
    requires CollisionFree(H) && Act(H, d, r, d', r', e, act)
    requires RemoteInv(H, r) && DeviceInv(H, d, r) && EngineInv(H, d, r, d.engines[e]) && Honest(H, d, r, d.engines[e])
    requires RemoteInv(H, r') && Gains(r, r')
    ensures Extends(r, r')
  {
    hide CollisionFree, SnapshotHash, Rooted, Chain, Covered, Empty, Uploadable, RemoteInv, DeviceInv, EngineInv, Act,
      PushStep;
    OnlyPushesWrite(H, d, r, d', r', e, act);
    HeadOnItself(H, r);
    if PushStep(H, d, r, d', r', e, act) && r.head.Some? {
      if act.Commit? {
        CommitDescendsIff(H, d, r, d', r', e);
        PushesOnto(H, d, r, d', r', e);
      } else {
        HeadStays(H, d, r, d', r', e, act);
        RemoteIsRooted(H, r);
        RemoteIsRooted(H, r');
        ChainStable(r.store, r'.store, r.head.value);
      }
    }
  }

  lemma RemoteIsRooted(H: Hasher, r: Remote)
    requires CollisionFree(H) && RemoteInv(H, r)
    ensures WellFormed(H, r.store) && Rooted(r.store) && (r.head.Some? ==> r.head.value in r.store)
  {
  }

  lemma HeadStays(H: Hasher, d: Device, r: Remote, d': Device, r': Remote, e: nat, act: Action)
    requires CollisionFree(H) && e in d.engines && PushStep(H, d, r, d', r', e, act) && act != Commit
    ensures r'.head == r.head
  {
    hide SnapshotHash, Chain, Unsent, Upto, ChunksOf;
  }

  /** A remote head that is swapped gets a descendant exactly when the pushed snapshot has it underneath on the
    device. */
  lemma CommitDescendsIff(H: Hasher, d: Device, r: Remote, d': Device, r': Remote, e: nat)
    requires CollisionFree(H) && e in d.engines && PushStep(H, d, r, d', r', e, Commit) && r.head.Some?
    requires RemoteInv(H, r) && DeviceInv(H, d, r) && EngineInv(H, d, r, d.engines[e])
    ensures r'.head.Some? && (r.head.value in Chain(r'.store, r'.head.value) <==>
      (r.head == d.engines[e].synced ==> r.head.value in Chain(d.store, d.engines[e].latest)))
  {
    hide CollisionFree, SnapshotHash, Rooted, Chain, Covered, Empty, Uploadable;
    HeadOnItself(H, r);
    if r.head == d.engines[e].synced {
      ChainsAgree(H, d.store, r.store, d.engines[e].latest);
    }
  }

  lemma PushesOnto(H: Hasher, d: Device, r: Remote, d': Device, r': Remote, e: nat)
    requires CollisionFree(H) && e in d.engines && PushStep(H, d, r, d', r', e, Commit) && Honest(H, d, r, d.engines[e])
    requires r.head.Some?
    ensures d.engines[e].Pushing?
    ensures r.head == d.engines[e].synced ==> r.head.value in Chain(d.store, d.engines[e].latest)
  {
    hide CollisionFree, SnapshotHash, Chain;
  }

  lemma PushHonest(H: Hasher, d: Device, r: Remote, d': Device, r': Remote, e: nat, act: Action)
    requires CollisionFree(H) && e in d.engines && PushStep(H, d, r, d', r', e, act)
    requires DeviceInv(H, d, r) && EngineInv(H, d, r, d.engines[e]) && RemoteInv(H, r')
    requires Honest(H, d, r', d.engines[e]) && Stands(H, d, d.engines[e])
    ensures e in d'.engines && Honest(H, d', r', d'.engines[e]) && Stands(H, d', d'.engines[e])
    ensures OnRemote(r', d.last) ==> OnRemote(r', d'.last)
  {
    hide CollisionFree, SnapshotHash, Rooted, Chain, Unsent, Upto, ChunksOf, Covered, Empty, Uploadable, RemoteInv,
      DeviceInv, OnRemote;
    if act.Commit? {
      HeadOnItself(H, r');
    }
  }

  lemma RebaseHonest(H: Hasher, d: Device, r: Remote, d': Device, e: nat, act: Action)
    requires CollisionFree(H) && e in d.engines && e in d'.engines && RebaseStep(H, d, r, d', r, e, act)
    requires DeviceInv(H, d, r) && EngineInv(H, d, r, d.engines[e])
    requires Honest(H, d, r, d.engines[e]) && Stands(H, d, d.engines[e])
    ensures Honest(H, d', r, d'.engines[e]) && Stands(H, d', d'.engines[e])
  {
    hide CollisionFree, SnapshotHash, Rooted, Chain, Replays, Covered, FindBase, Empty, Carried, Carries, OnRemote;
    var me := d.engines[e];
    match act
    case Plan =>
      var onto := Target(H, me.synced);
      if FindBase(d.store, me.local, onto) == Some(onto) {
        BaseIsNearest(d.store, me.local, onto);
      }
    case Swap =>
      RebasedChain(H, d.store, me.from, Target(H, me.synced), me.base, me.top);
    case Recheck =>
      RebasedChain(H, d.store, me.from, Target(H, me.synced), me.base, me.top);
    case _ =>
  }

  lemma FetchHonest(H: Hasher, d: Device, r: Remote, d': Device, e: nat, act: Action)
    requires CollisionFree(H) && e in d.engines
      && (FetchStep(H, d, r, d', r, e, act) || OtherStep(H, d, r, d', r, e, act))
    requires RemoteInv(H, r) && OnRemote(r, d.last)
    requires Honest(H, d, r, d.engines[e]) && Honest(H, d', r, d.engines[e]) && Stands(H, d', d.engines[e])
    ensures e in d'.engines && Honest(H, d', r, d'.engines[e]) && Stands(H, d', d'.engines[e])
  {
    hide CollisionFree, SnapshotHash, Rooted, Chain, Covered, Buildable, Empty, RemoteInv, Refuses, OnRemote;
    HeadOnItself(H, r);
  }

  /** What an engine's own step leaves it with. */
  lemma ActorHonest(H: Hasher, d: Device, r: Remote, d': Device, r': Remote, e: nat, act: Action)
    requires CollisionFree(H) && Act(H, d, r, d', r', e, act) && DeviceInv(H, d, r) && EngineInv(H, d, r, d.engines[e])
    requires RemoteInv(H, r) && RemoteInv(H, r') && Extends(r, r') && DeviceInv(H, d', r') && Grows(d.store, d'.store)
    requires DeviceLine(H, d, r)
    ensures e in d'.engines && Honest(H, d', r', d'.engines[e]) && Stands(H, d', d'.engines[e])
    ensures OnRemote(r', d'.last)
  {
    hide CollisionFree, SnapshotHash, Rooted, Chain, Covered, Empty, RemoteInv, EngineInv, Honest, Stands, Extends,
      OnRemote, FetchStep, RebaseStep, OtherStep, PushStep;
    var me := d.engines[e];
    OnlyPushesWrite(H, d, r, d', r', e, act);
    HeadAfter(H, d, r, d', r', e, act);
    StillOnRemote(H, r, r', d.last);
    HonestStable(H, d, r, d', r', me);
    if PushStep(H, d, r, d', r', e, act) {
      HonestStable(H, d, r, d, r', me);
      PushHonest(H, d, r, d', r', e, act);
    } else if RebaseStep(H, d, r, d', r', e, act) {
      RebaseHonest(H, d, r, d', e, act);
      NoAnchor(H, d, r, d', e, act);
    } else {
      NoAnchor(H, d, r, d', e, act);
      HeadMovesForward(H, d, r, d', r', e, act);
      StandsStable(H, d, r, d', me);
      FetchHonest(H, d, r, d', e, act);
    }
  }

  lemma NoAnchor(H: Hasher, d: Device, r: Remote, d': Device, e: nat, act: Action)
    requires CollisionFree(H) && e in d.engines
    requires FetchStep(H, d, r, d', r, e, act) || OtherStep(H, d, r, d', r, e, act)
      || RebaseStep(H, d, r, d', r, e, act)
    ensures d'.last == d.last
    ensures act == Swap ==> RebaseStep(H, d, r, d', r, e, act)
  {
    hide SnapshotHash, Chain, Replays, Buildable, FindBase, Refuses;
  }

  /** The step of one engine keeps every engine of the repository standing on what it was served, unless it is a swap
    that breaks one of them. */
  lemma LineKeptIff(H: Hasher, d: Device, r: Remote, d': Device, r': Remote, e: nat, act: Action)
    requires CollisionFree(H) && Act(H, d, r, d', r', e, act) && DeviceInv(H, d, r)
    requires forall f :: f in d.engines ==> EngineInv(H, d, r, d.engines[f])
    requires RemoteInv(H, r) && RemoteInv(H, r') && Extends(r, r') && DeviceInv(H, d', r') && Grows(d.store, d'.store)
    requires DeviceLine(H, d, r)
    ensures DeviceLine(H, d', r') <==> (act == Swap ==> forall f :: !Breaks(H, d, e, f))
  {
    hide CollisionFree, SnapshotHash, Rooted, Chain, Covered, Empty, RemoteInv, EngineInv, Honest, Stands, Extends,
      OnRemote, Act, Breaks, RebaseStep;
    OnlyPushesWrite(H, d, r, d', r', e, act);
    ActorHonest(H, d, r, d', r', e, act);
    HeadAfter(H, d, r, d', r', e, act);
    forall f | f in d.engines && f != e
      ensures f in d'.engines && Honest(H, d', r', d'.engines[f])
      ensures Stands(H, d', d'.engines[f]) <==> (act == Swap ==> !Breaks(H, d, e, f))
    {
      OthersStay(H, d, r, d', r', e, act, f);
      HonestStable(H, d, r, d', r', d.engines[f]);
      if act == Swap {
        SwapBreaksIff(H, d, r, d', e, f);
      } else {
        HeadMovesForward(H, d, r, d', r', e, act);
        StandsStable(H, d, r, d', d.engines[f]);
      }
    }
    forall f | Breaks(H, d, e, f)
      ensures f in d.engines && f != e
    {
      BreaksAnother(H, d, e, f);
    }
  }

  lemma BreaksAnother(H: Hasher, d: Device, e: nat, f: nat)
    requires Breaks(H, d, e, f)
    ensures f in d.engines && f != e
  {
  }

  /** A device on which nothing happened keeps standing. */
  lemma BystanderLine(H: Hasher, d: Device, r: Remote, r': Remote)
    requires CollisionFree(H) && RemoteInv(H, r) && RemoteInv(H, r') && Extends(r, r') && DeviceInv(H, d, r)
    requires forall f :: f in d.engines ==> EngineInv(H, d, r, d.engines[f])
    requires DeviceLine(H, d, r)
    ensures DeviceLine(H, d, r')
  {
    hide CollisionFree, SnapshotHash, Rooted, Chain, Covered, Empty, RemoteInv, EngineInv, Honest, Stands, Extends,
      OnRemote;
    StillOnRemote(H, r, r', d.last);
    forall f | f in d.engines
      ensures Honest(H, d, r', d.engines[f])
    {
      HonestStable(H, d, r, d, r', d.engines[f]);
    }
  }

  /** Of two members of the remote's history, one is above the other exactly when it is not strictly below it. */
  lemma AboveIff(H: Hasher, r: Remote, synced: Option<Hash>, anchor: Hash)
    requires CollisionFree(H) && RemoteInv(H, r) && OnRemote(r, synced) && OnRemote(r, Some(anchor))
    ensures Above(r, synced, Some(anchor))
        <==> !(synced.None? || (synced.value != anchor && synced.value in Chain(r.store, anchor)))
  {
    hide CollisionFree, SnapshotHash, Addressed, Covered;
    if synced.Some? {
      ChainLinear(r.store, r.head.value, synced.value, anchor);
      ChainStep(r.store, anchor);
    }
  }

  /** Having the anchor underneath outlasts any push. */
  lemma AboveStable(H: Hasher, r: Remote, r': Remote, synced: Option<Hash>, anchor: Option<Hash>)
    requires CollisionFree(H) && RemoteInv(H, r) && RemoteInv(H, r') && Gains(r, r') && Served(r, synced)
    ensures Above(r', synced, anchor) <==> Above(r, synced, anchor)
  {
    hide CollisionFree, SnapshotHash, Addressed, Covered;
    if synced.Some? {
      ChainStable(r.store, r'.store, synced.value);
    }
  }

  /** An anchor raises a false alarm in another engine exactly when that one was served an older head. */
  lemma AnchorOvertakesIff(H: Hasher, d: Device, r: Remote, d': Device, e: nat, f: nat)
    requires CollisionFree(H) && e in d.engines && f in d.engines && f != e && PushStep(H, d, r, d', r, e, Anchor)
    requires RemoteInv(H, r) && DeviceLine(H, d, r) && Unalarmed(d, r, d.engines[f])
    ensures Unalarmed(d', r, d.engines[f]) <==> !Overtakes(d, r, e, f)
  {
    hide CollisionFree, SnapshotHash, Chain, RemoteInv, OnRemote, Stands, Unsent, Upto, ChunksOf;
    assert Honest(H, d, r, d.engines[f]) && Honest(H, d, r, d.engines[e]);
    if d.engines[f].Asked? {
      AboveIff(H, r, d.engines[f].synced, d.engines[e].latest);
    }
  }

  /** A head honestly served is refused exactly when the anchor read is strictly above it. */
  lemma RefusesIff(H: Hasher, d: Device, r: Remote, synced: Option<Hash>, anchor: Option<Hash>)
    requires CollisionFree(H) && RemoteInv(H, r) && DeviceInv(H, d, r) && Honest(H, d, r, Fetching(synced, anchor))
    requires Served(r, synced) && (synced.Some? ==> synced.value in d.store)
    ensures Refuses(d.store, anchor, synced) <==> !Above(r, synced, anchor)
    ensures Refuses(d.store, anchor, synced) <==>
      anchor.Some? && (synced.None? || (synced.value != anchor.value && synced.value in Chain(r.store, anchor.value)))
  {
    hide CollisionFree, SnapshotHash, Rooted, Chain, Covered, Empty, Descends;
    if anchor.Some? {
      AboveIff(H, r, synced, anchor.value);
      if synced.Some? {
        ChainsAgree(H, d.store, r.store, synced.value);
        DescendsIsChain(H, d.store, anchor.value, synced.value);
      }
    }
  }

  lemma UnalarmedStable(H: Hasher, d: Device, r: Remote, r': Remote, me: Engine)
    requires CollisionFree(H) && RemoteInv(H, r) && RemoteInv(H, r') && Gains(r, r') && EngineInv(H, d, r, me)
    ensures Unalarmed(d, r', me) <==> Unalarmed(d, r, me)
  {
    hide CollisionFree, SnapshotHash, Chain, RemoteInv, Above, Carried, Uploadable, Covered, Empty;
    match me
    case Asked(synced) => AboveStable(H, r, r', synced, d.last);
    case Fetching(synced, anchor) => AboveStable(H, r, r', synced, anchor);
    case _ =>
  }

  lemma ActorUnalarmed(H: Hasher, d: Device, r: Remote, d': Device, r': Remote, e: nat, act: Action)
    requires CollisionFree(H) && Act(H, d, r, d', r', e, act) && DeviceInv(H, d, r) && EngineInv(H, d, r, d.engines[e])
    requires RemoteInv(H, r) && DeviceLine(H, d, r) && Unalarmed(d, r, d.engines[e])
    ensures e in d'.engines && Unalarmed(d', r', d'.engines[e])
  {
    hide CollisionFree, SnapshotHash, Rooted, Chain, Covered, Empty, RemoteInv, DeviceInv, Stands, OnRemote, EngineInv,
      FetchStep, RebaseStep, OtherStep, PushStep, Unalarmed;
    OnlyPushesWrite(H, d, r, d', r', e, act);
    assert Honest(H, d, r, d.engines[e]);
    if PushStep(H, d, r, d', r', e, act) {
      PushUnalarmed(H, d, r, d', r', e, act);
    } else if RebaseStep(H, d, r, d', r', e, act) {
      RebaseUnalarmed(H, d, r, d', e, act);
    } else {
      FetchUnalarmed(H, d, r, d', e, act);
    }
  }

  lemma PushUnalarmed(H: Hasher, d: Device, r: Remote, d': Device, r': Remote, e: nat, act: Action)
    requires CollisionFree(H) && e in d.engines && PushStep(H, d, r, d', r', e, act)
    ensures e in d'.engines && Unalarmed(d', r', d'.engines[e])
  {
    hide SnapshotHash, Chain, Unsent, Upto, ChunksOf;
  }

  lemma RebaseUnalarmed(H: Hasher, d: Device, r: Remote, d': Device, e: nat, act: Action)
    requires CollisionFree(H) && e in d.engines && RebaseStep(H, d, r, d', r, e, act)
    ensures e in d'.engines && Unalarmed(d', r, d'.engines[e])
  {
    hide SnapshotHash, Chain, Replays, FindBase;
  }

  lemma FetchUnalarmed(H: Hasher, d: Device, r: Remote, d': Device, e: nat, act: Action)
    requires CollisionFree(H) && e in d.engines
      && (FetchStep(H, d, r, d', r, e, act) || OtherStep(H, d, r, d', r, e, act))
    requires RemoteInv(H, r) && DeviceInv(H, d, r) && EngineInv(H, d, r, d.engines[e])
    requires OnRemote(r, d.last) && Honest(H, d, r, d.engines[e]) && Unalarmed(d, r, d.engines[e])
    ensures e in d'.engines && Unalarmed(d', r, d'.engines[e])
  {
    hide CollisionFree, SnapshotHash, Chain, Covered, Empty, RemoteInv, DeviceInv, Buildable, Refuses, Carried,
      Uploadable;
    if act.Check? {
      var me := d.engines[e];
      RefusesIff(H, d, r, me.synced, me.anchor);
    }
  }

  /** The step of one engine keeps the others of its repository from being refused, unless it is an anchor that
    overtakes one of them. */
  lemma UnalarmedKeptIff(H: Hasher, d: Device, r: Remote, d': Device, r': Remote, e: nat, act: Action)
    requires CollisionFree(H) && Act(H, d, r, d', r', e, act) && DeviceInv(H, d, r)
    requires forall f :: f in d.engines ==> EngineInv(H, d, r, d.engines[f]) && Unalarmed(d, r, d.engines[f])
    requires RemoteInv(H, r) && RemoteInv(H, r') && Gains(r, r') && DeviceLine(H, d, r)
    ensures (forall f :: f in d'.engines ==> Unalarmed(d', r', d'.engines[f]))
       <==> (act == Anchor ==> forall f :: !Overtakes(d, r, e, f))
  {
    hide CollisionFree, SnapshotHash, Rooted, Chain, Covered, Empty, RemoteInv, EngineInv, DeviceInv, Gains, OnRemote,
      Act, Overtakes, PushStep, Unalarmed, DeviceLine;
    OnlyPushesWrite(H, d, r, d', r', e, act);
    ActorUnalarmed(H, d, r, d', r', e, act);
    forall f | f in d.engines && f != e
      ensures f in d'.engines && (Unalarmed(d', r', d'.engines[f]) <==> (act == Anchor ==> !Overtakes(d, r, e, f)))
    {
      OthersStay(H, d, r, d', r', e, act, f);
      OtherUnalarmed(H, d, r, d', r', e, act, f);
    }
    forall f | Overtakes(d, r, e, f)
      ensures f in d.engines && f != e
    {
      OvertakesAnother(d, r, e, f);
    }
  }

  lemma OtherUnalarmed(H: Hasher, d: Device, r: Remote, d': Device, r': Remote, e: nat, act: Action, f: nat)
    requires CollisionFree(H) && Act(H, d, r, d', r', e, act) && f in d.engines && f != e
    requires EngineInv(H, d, r, d.engines[f]) && Unalarmed(d, r, d.engines[f])
    requires RemoteInv(H, r) && RemoteInv(H, r') && Gains(r, r') && DeviceLine(H, d, r)
    ensures Unalarmed(d', r', d.engines[f]) <==> (act == Anchor ==> !Overtakes(d, r, e, f))
  {
    hide CollisionFree, SnapshotHash, Rooted, Chain, Covered, Empty, RemoteInv, EngineInv, Gains, OnRemote, Act,
      Overtakes, PushStep, DeviceLine, Above;
    HeadAfter(H, d, r, d', r', e, act);
    if act == Anchor {
      AnchorIsPushed(H, d, r, d', r', e);
      AnchorOvertakesIff(H, d, r, d', e, f);
    } else {
      UnalarmedStable(H, d, r, r', d.engines[f]);
    }
  }

  lemma AnchorIsPushed(H: Hasher, d: Device, r: Remote, d': Device, r': Remote, e: nat)
    requires Act(H, d, r, d', r', e, Anchor)
    ensures e in d.engines && PushStep(H, d, r, d', r, e, Anchor) && r' == r
  {
    hide SnapshotHash, Chain, Unsent, Upto, ChunksOf, Replays, Buildable, FindBase, Refuses;
  }

  lemma OvertakesAnother(d: Device, r: Remote, e: nat, f: nat)
    requires Overtakes(d, r, e, f)
    ensures f in d.engines && f != e
  {
  }
}
