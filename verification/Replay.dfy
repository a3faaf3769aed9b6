/** Replaying local checkpoints on top of another head: what a rebase writes, and what it promises. */
module Replay {
  import opened Wrappers
  import opened Snapshots

  /** The local snapshots a rebase carries over: newest first, down to the base or the root, neither included. */
  function Unpublished(store: Store, chain: seq<Hash>, base: Option<Hash>): (r: seq<Hash>)
    ensures r <= chain
    ensures forall h :: h in r ==> h in store && store[h].parent.Some? && Some(h) != base
  {
    if chain == [] || Some(chain[0]) == base || chain[0] !in store || store[chain[0]].parent.None? then []
    else [chain[0]] + Unpublished(store, chain[1..], base)
  }

  /** A stretch of one chain, newest first. */
  ghost predicate Descending(store: Store, c: seq<Hash>) {
    && (forall i :: 0 <= i < |c| ==> c[i] in store && store[c[i]].parent.Some?)
    && (forall i, j :: 0 <= i && j == i + 1 && j < |c| ==> store[c[i]].parent == Some(c[j]))
  }

  lemma DescendsTo(store: Store, c: seq<Hash>, t: Hash)
    requires Descending(store, c) && t in store && store[t].parent.Some?
    requires c != [] ==> c[|c| - 1] in store && store[c[|c| - 1]].parent == Some(t)
    ensures Descending(store, c + [t])
  {
  }

  lemma UnpublishedWalk(store: Store, current: Option<Hash>, visited: set<Hash>, base: Option<Hash>)
    ensures var stops := || current.None? || current.value in visited || current.value !in store
                         || current == base || store[current.value].parent.None?;
            Unpublished(store, Ancestry(store, current, visited), base) ==
            if stops then []
            else
              var rest := Ancestry(store, store[current.value].parent, visited + {current.value});
              [current.value] + Unpublished(store, rest, base)
  {
  }

  function Reverse<T>(xs: seq<T>): (r: seq<T>)
    ensures |r| == |xs| && forall i :: 0 <= i < |xs| ==> r[i] == xs[|xs| - 1 - i]
  {
    if xs == [] then [] else Reverse(xs[1..]) + [xs[0]]
  }

  /** A snapshot's own change, applied to another manifest. */
  function Replayed(parent: Files, snapshot: Files, head: Files): Files {
    map p | p in parent.Keys + snapshot.Keys + head.Keys &&
            (if SameEntry(Get(parent, p), Get(snapshot, p)) then p in head else p in snapshot)
          :: if SameEntry(Get(parent, p), Get(snapshot, p)) then head[p] else snapshot[p]
  }

  lemma ReplayedAt(parent: Files, snapshot: Files, head: Files, p: Path)
    ensures Get(Replayed(parent, snapshot, head), p) ==
            if SameEntry(Get(parent, p), Get(snapshot, p)) then Get(head, p) else Get(snapshot, p)
  {
  }

  /** The checkpoints to replay have a stored parent to be compared with. */
  ghost predicate Replayable(store: Store, todo: seq<Hash>) {
    forall h :: h in todo ==> h in store && store[h].parent.Some? && store[h].parent.value in store
  }

  /** One replayed snapshot per checkpoint, oldest first, each re-addressed to the one before it. */
  function ReplayChain(H: Hasher, store: Store, todo: seq<Hash>, head: Snapshot): (r: seq<Snapshot>)
    requires Replayable(store, todo)
    ensures |r| == |todo|
  {
    if todo == [] then []
    else
      var s := store[todo[0]];
      var r := Sealed(H, Some(head.hash), Replayed(store[s.parent.value].files, s.files, head.files));
      [r] + ReplayChain(H, store, todo[1..], r)
  }

  function Top(head: Snapshot, replayed: seq<Snapshot>): Snapshot {
    if replayed == [] then head else replayed[|replayed| - 1]
  }

  function Written(store: Store, replayed: seq<Snapshot>): Store
    decreases |replayed|
  {
    if replayed == [] then store else Written(store[replayed[0].hash := replayed[0]], replayed[1..])
  }

  lemma {:induction false} ReplaySnoc(H: Hasher, store: Store, todo: seq<Hash>, h: Hash, head: Snapshot)
    requires CollisionFree(H) && Replayable(store, todo + [h])
    ensures Replayable(store, todo)
    ensures var r := ReplayChain(H, store, todo, head);
            var s, top := store[h], Top(head, r);
            ReplayChain(H, store, todo + [h], head) ==
              r + [Sealed(H, Some(top.hash), Replayed(store[s.parent.value].files, s.files, top.files))]
    decreases |todo|
  {
    hide CollisionFree, SnapshotHash, Replayed;
    assert forall t :: t in todo ==> t in todo + [h];
    assert h in todo + [h];
    if todo == [] {
      assert todo + [h] == [h];
    } else {
      var r := ReplayChain(H, store, todo, head);
      assert (todo + [h])[1..] == todo[1..] + [h];
      ReplaySnoc(H, store, todo[1..], h, r[0]);
    }
  }

  lemma {:induction false} WrittenSnoc(store: Store, replayed: seq<Snapshot>, s: Snapshot)
    ensures Written(store, replayed + [s]) == Written(store, replayed)[s.hash := s]
    decreases |replayed|
  {
    if replayed != [] {
      assert (replayed + [s])[1..] == replayed[1..] + [s];
      WrittenSnoc(store[replayed[0].hash := replayed[0]], replayed[1..], s);
    }
  }

  /** What a rebase of the chain of `from` carries over, oldest first. */
  function Todo(store: Store, from: Hash, base: Option<Hash>): seq<Hash> {
    Reverse(Unpublished(store, Chain(store, from), base))
  }

  /** On a store that holds its chains whole nothing a rebase needs is missing, and what it carries over is one
    stretch of the chain. */
  lemma TodoIsStretch(store: Store, from: Hash, base: Option<Hash>)
    requires Rooted(store) && from in store
    ensures Replayable(store, Todo(store, from, base)) && Stretch(store, Todo(store, from, base))
  {
    var c := Chain(store, from);
    ChainIsAcyclic(store, from);
    var r := Unpublished(store, c, base);
    forall i | 0 <= i < |r|
      ensures store[r[i]].parent.value in store
    {
      ChainStep(store, r[i]);
    }
    assert forall i :: 0 <= i < |r| ==> r[i] == c[i];
  }

  /** Where a rebase of `from` onto `remote` ends. */
  function RebasedTop(H: Hasher, store: Store, from: Hash, remote: Hash, base: Option<Hash>): Snapshot
    requires remote in store && Replayable(store, Todo(store, from, base))
  {
    Top(store[remote], ReplayChain(H, store, Todo(store, from, base), store[remote]))
  }

  lemma {:induction false} UnpublishedStable(small: Store, big: Store, chain: seq<Hash>, base: Option<Hash>)
    requires Grows(small, big) && forall h :: h in chain ==> h in small
    ensures Unpublished(big, chain, base) == Unpublished(small, chain, base)
    decreases |chain|
  {
    if chain != [] {
      UnpublishedStable(small, big, chain[1..], base);
    }
  }

  lemma {:induction false} ReplayStable(H: Hasher, small: Store, big: Store, todo: seq<Hash>, head: Snapshot)
    requires CollisionFree(H) && Grows(small, big) && Replayable(small, todo)
    ensures Replayable(big, todo) && ReplayChain(H, big, todo, head) == ReplayChain(H, small, todo, head)
    decreases |todo|
  {
    if todo != [] {
      var r := ReplayChain(H, small, todo, head);
      ReplayStable(H, small, big, todo[1..], r[0]);
    }
  }

  /** A rebase reads nothing that another writer's growth of the store could change. */
  lemma RebaseStable(H: Hasher, small: Store, big: Store, from: Hash, remote: Hash, base: Option<Hash>)
    requires CollisionFree(H) && Rooted(small) && Rooted(big) && Grows(small, big) && from in small && remote in small
    ensures Todo(big, from, base) == Todo(small, from, base)
    ensures Replayable(small, Todo(small, from, base)) && Replayable(big, Todo(big, from, base))
    ensures RebasedTop(H, big, from, remote, base) == RebasedTop(H, small, from, remote, base)
  {
    hide CollisionFree, Rooted;
    ChainStable(small, big, from);
    ChainIsAcyclic(small, from);
    UnpublishedStable(small, big, Chain(small, from), base);
    TodoIsStretch(small, from, base);
    ReplayStable(H, small, big, Todo(small, from, base), small[remote]);
  }

  /** Whether a checkpoint changed a path against its own parent. */
  ghost predicate Touches(store: Store, h: Hash, p: Path)
    requires h in store && store[h].parent.Some? && store[h].parent.value in store
  {
    !SameEntry(Get(store[store[h].parent.value].files, p), Get(store[h].files, p))
  }

  /** The checkpoints are a stretch of one chain, oldest first. */
  ghost predicate Stretch(store: Store, todo: seq<Hash>)
    requires Replayable(store, todo)
  {
    forall i, j :: 0 <= i && j == i + 1 && j < |todo| ==> store[todo[j]].parent == Some(todo[i])
  }

  lemma {:induction false} UntouchedAlong(store: Store, todo: seq<Hash>, p: Path)
    requires Replayable(store, todo) && Stretch(store, todo) && todo != []
    requires forall i :: 0 < i < |todo| ==> !Touches(store, todo[i], p)
    ensures SameEntry(Get(store[todo[0]].files, p), Get(store[todo[|todo| - 1]].files, p))
  {
    if |todo| > 1 {
      assert !Touches(store, todo[1], p);
      UntouchedAlong(store, todo[1..], p);
    }
  }

  /** Rebasing keeps both sides: a path no checkpoint touched is as the new base has it, a path some checkpoint
    touched is as the last checkpoint left it. */
  lemma {:induction false} ReplayKeepsBothSides(H: Hasher, store: Store, todo: seq<Hash>, head: Snapshot, p: Path)
    requires CollisionFree(H) && Replayable(store, todo) && Stretch(store, todo)
    ensures var top := Top(head, ReplayChain(H, store, todo, head));
            if exists h :: h in todo && Touches(store, h, p)
            then SameEntry(Get(top.files, p), Get(store[todo[|todo| - 1]].files, p))
            else Get(top.files, p) == Get(head.files, p)
    decreases |todo|
  {
    hide CollisionFree, SnapshotHash, ReplayChain, Replayed;
    if todo == [] {
      NoReplay(H, store, head);
    } else {
      var rest, s := todo[1..], store[todo[0]];
      var parent := store[s.parent.value];
      var r := Sealed(H, Some(head.hash), Replayed(parent.files, s.files, head.files));
      ReplayedAt(parent.files, s.files, head.files, p);
      ReplayKeepsBothSides(H, store, rest, r, p);
      FirstReplayed(H, store, todo, head);
      assert forall h :: h in todo <==> h == todo[0] || h in rest;
      if !(exists h :: h in rest && Touches(store, h, p)) {
        assert forall i :: 0 < i < |todo| ==> todo[i] in rest;
        UntouchedAlong(store, todo, p);
        assert todo[0] in todo;
        assert !Touches(store, todo[0], p) ==> Get(r.files, p) == Get(head.files, p);
      } else {
        var h :| h in rest && Touches(store, h, p);
        assert h in todo && Touches(store, h, p) && rest[|rest| - 1] == todo[|todo| - 1];
      }
    }
  }

  /** What a rebase carries over ends with the local tip. */
  lemma LastIsTip(store: Store, from: Hash, base: Option<Hash>)
    requires Rooted(store) && from in store
    ensures var todo := Todo(store, from, base); todo != [] ==> todo[|todo| - 1] == from
  {
    hide Rooted, Chain;
    ChainIsAcyclic(store, from);
    var r := Unpublished(store, Chain(store, from), base);
    assert r != [] ==> r[0] == from;
  }

  /** The rebase theorem, for every local chain, base and remote: the rebased head is as the local tip on every path
    that a local checkpoint since the base touched, and as the remote on every other. */
  lemma RebaseKeepsBothSides(H: Hasher, store: Store, from: Hash, remote: Hash, base: Option<Hash>, p: Path)
    requires CollisionFree(H) && Rooted(store) && from in store && remote in store
    ensures var todo := Todo(store, from, base);
            && Replayable(store, todo)
            && var top := RebasedTop(H, store, from, remote, base);
               if exists h :: h in todo && Touches(store, h, p)
               then SameEntry(Get(top.files, p), Get(store[from].files, p))
                    && (p in top.files <==> p in store[from].files)
                    && (p in top.files ==> top.files[p].hash == store[from].files[p].hash
                                           && top.files[p].identity == store[from].files[p].identity)
               else Get(top.files, p) == Get(store[remote].files, p)
  {
    hide CollisionFree, Rooted, SnapshotHash, Todo, ReplayChain;
    TodoIsStretch(store, from, base);
    LastIsTip(store, from, base);
    ReplayKeepsBothSides(H, store, Todo(store, from, base), store[remote], p);
  }

  lemma NoReplay(H: Hasher, store: Store, head: Snapshot)
    requires CollisionFree(H)
    ensures Top(head, ReplayChain(H, store, [], head)) == head
  {
  }

  lemma FirstReplayed(H: Hasher, store: Store, todo: seq<Hash>, head: Snapshot)
    requires CollisionFree(H) && Replayable(store, todo) && todo != []
    ensures var s := store[todo[0]];
            var r := Sealed(H, Some(head.hash), Replayed(store[s.parent.value].files, s.files, head.files));
            Top(head, ReplayChain(H, store, todo, head)) == Top(r, ReplayChain(H, store, todo[1..], r))
  {
    hide CollisionFree, SnapshotHash;
  }

  /** One replayed snapshot per checkpoint, in order, linked on top of the new base, each under its own address. */
  lemma {:induction false} ReplayLinks(H: Hasher, store: Store, todo: seq<Hash>, head: Snapshot)
    requires CollisionFree(H) && Replayable(store, todo)
    ensures var r := ReplayChain(H, store, todo, head);
            && |r| == |todo|
            && forall i :: 0 <= i < |r| ==>
                 && r[i] == Sealed(H, r[i].parent, r[i].files)
                 && r[i].parent == Some(if i == 0 then head.hash else r[i - 1].hash)
    decreases |todo|
  {
    if todo != [] {
      var r := ReplayChain(H, store, todo, head);
      ReplayLinks(H, store, todo[1..], r[0]);
      assert r[1..] == ReplayChain(H, store, todo[1..], r[0]);
      assert forall i :: 0 < i < |r| ==> r[i] == r[1..][i - 1];
    }
  }

  /** Writing the replayed snapshots keeps a store well formed, changes nothing already in it, and puts the old
    head's chain under the new one's. */
  lemma {:induction false} ReplayStored(H: Hasher, store: Store, todo: seq<Hash>, head: Snapshot, base: Store)
    requires CollisionFree(H) && Replayable(base, todo) && WellFormed(H, store)
    requires head.hash in store && store[head.hash] == head
    ensures var r := ReplayChain(H, base, todo, head);
            var big := Written(store, r);
            && WellFormed(H, big) && Grows(store, big)
            && Top(head, r).hash in big && big[Top(head, r).hash] == Top(head, r)
            && (forall i :: 0 <= i < |r| ==> r[i].hash in big && big[r[i].hash] == r[i])
            && forall t :: t in Chain(store, head.hash) ==> t in Chain(big, Top(head, r).hash)
    decreases |todo|
  {
    hide CollisionFree, Rooted, Chain;
    if todo != [] {
      var r := ReplayChain(H, base, todo, head);
      StoreSealed(H, store, r[0].parent, r[0].files);
      var next := store[r[0].hash := r[0]];
      ReplayStored(H, next, todo[1..], r[0], base);
      assert r[1..] == ReplayChain(H, base, todo[1..], r[0]);
      assert Top(head, r) == Top(r[0], r[1..]);
      assert forall i :: 0 < i < |r| ==> r[i] == r[1..][i - 1];
      ChainStep(next, r[0].hash);
      ChainStable(store, next, head.hash);
    }
  }
}
