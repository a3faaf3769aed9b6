/** The three-way merge into a device's working tree. A file on disk is the hash of its content. */
module Merge {
  import opened Wrappers
  import opened Snapshots
  import opened ConflictNames

  /** What a content merger was given: both sides' versions of a path. */
  datatype Offer = Offer(path: Path, local: Hash, remote: Hash)

  datatype Merged = Merged(content: Hash, conflicts: nat)

  /** What the registered content merger, if there is one, answers for a path, base, local and remote version. */
  datatype Merger = Merger(registered: bool, answers: map<(Path, Option<Hash>, Hash, Hash), Merged>)

  datatype MergeResult = MergeResult(conflicts: seq<Path>, unresolved: seq<(Path, nat)>, decisions: seq<Path>)

  /** A side's version of a path that differs from the base. */
  ghost predicate Edited(base: Files, side: Files, p: Path) {
    p in side && (p !in base || base[p].hash != side[p].hash)
  }

  /** The state of a working tree that a merge changes. */
  datatype Disk = Disk(tree: map<Path, Hash>, pending: map<Path, Hash>, offers: set<Offer>)

  /** Both sides list the path, the device changed it, and not to what the remote has. */
  predicate Clash(base: Files, local: Files, remote: Files, p: Path) {
    p in local && p in remote && local[p].hash != remote[p].hash && !(p in base && base[p].hash == local[p].hash)
  }

  /** A version is on disk at the path, or pending there. */
  ghost predicate AtPath(d: Disk, p: Path, h: Hash) {
    Get(d.tree, p) == Some(h) || Get(d.pending, p) == Some(h)
  }

  /** The local version of a path is still there, or was given to a content merger. */
  ghost predicate LocalSurvives(d: Disk, p: Path, h: Hash) {
    AtPath(d, p, h) || exists o :: o in d.offers && o.path == p && o.local == h
  }

  /** The remote version of a path is there, was given to a content merger, or is in a conflict copy. */
  ghost predicate RemoteSurvives(d: Disk, p: Path, h: Hash) {
    || AtPath(d, p, h)
    || (exists o :: o in d.offers && o.path == p && o.remote == h)
    || exists n: nat :: Get(d.tree, CopyName(p, h, n)) == Some(h)
  }

  /** Neither side's edit of a path is lost; unless both edited it, it is at the path itself. */
  ghost predicate NoEditLost(base: Files, local: Files, remote: Files, d: Disk, p: Path) {
    && (Edited(base, local, p) ==> LocalSurvives(d, p, local[p].hash))
    && (Edited(base, remote, p) ==>
          if Clash(base, local, remote, p) then RemoteSurvives(d, p, remote[p].hash) else AtPath(d, p, remote[p].hash))
  }

  /** Every path the merge looks at. */
  function Names(base: Files, local: Files, remote: Files): set<Path> {
    base.Keys + local.Keys + remote.Keys
  }

  /** No manifest lists a name that a conflict copy of this merge could take. */
  ghost predicate NoCopyListed(base: Files, local: Files, remote: Files) {
    forall p, n: nat :: Clash(base, local, remote, p) ==> CopyName(p, remote[p].hash, n) !in Names(base, local, remote)
  }

  /** The file is on disk as listed, or is not on disk and marked pending. */
  ghost predicate InSyncAt(d: Disk, files: Files, p: Path) {
    p in files ==> if p in d.tree then d.tree[p] == files[p].hash else Get(d.pending, p) == Some(files[p].hash)
  }

  /** Only `p` changed, and a conflict copy of it at most is new; nothing else was overwritten or dropped. */
  ghost predicate OnlyAt(was: Disk, now: Disk, p: Path, base: Files, local: Files, remote: Files) {
    && (forall q :: q in was.tree && q != p ==> Get(now.tree, q) == Some(was.tree[q]))
    && (forall q :: q in now.tree && q !in was.tree && q != p ==>
          Clash(base, local, remote, p) && exists n: nat :: q == CopyName(p, remote[p].hash, n))
    && (forall q :: q != p ==> Get(now.pending, q) == Get(was.pending, q))
    && was.offers <= now.offers
  }

  /** A version was put at the path: as content if it is all here, as a pending mark beside what was there if not. */
  ghost predicate Took(was: Disk, now: Disk, file: Entry, chunks: set<Hash>, p: Path) {
    if Stored(file, chunks) then Get(now.tree, p) == Some(file.hash) && p !in now.pending
    else Get(now.tree, p) == Get(was.tree, p) && Get(now.pending, p) == Some(file.hash)
  }

  ghost predicate Same(was: Disk, now: Disk, p: Path) {
    Get(now.tree, p) == Get(was.tree, p) && Get(now.pending, p) == Get(was.pending, p)
  }

  ghost predicate Gone(now: Disk, p: Path) {
    p !in now.tree && p !in now.pending
  }

  /** Deleted on both sides: the merge has no branch for it and fails. */
  ghost predicate DroppedByBoth(base: Files, local: Files, remote: Files, p: Path) {
    p in base && p !in local && p !in remote
  }

  /** One side deleted the path and the other changed it. */
  ghost predicate EditOverDelete(base: Files, local: Files, remote: Files, p: Path) {
    (p in local) != (p in remote) && p in base && (if p in local then local[p] else remote[p]).hash != base[p].hash
  }

  /** The device did not change the path since the base. */
  ghost predicate Untouched(base: Files, local: Files, p: Path) {
    if p in local then p in base && base[p].hash == local[p].hash else p !in base
  }

  predicate Stored(file: Entry, chunks: set<Hash>) {
    forall c :: c in file.chunks ==> c in chunks
  }

  /** What the content merger makes of a path; it is asked only when the remote's version is all here. */
  ghost function Answer(tree: map<Path, Hash>, base: Files, remote: Files, merger: Merger, chunks: set<Hash>, p: Path)
    : Option<Merged>
  {
    if !merger.registered || p !in tree || p !in remote || !Stored(remote[p], chunks) then None
    else
      var ancestor := if p in base && Stored(base[p], chunks) then Some(base[p].hash) else None;
      Get(merger.answers, (p, ancestor, tree[p], remote[p].hash))
  }

  /** Where a path ends that both sides have differently: at the content merger's answer, or as it was with a copy of
    the remote's version beside it. */
  ghost predicate ClashSettled(was: Disk, now: Disk, base: Files, remote: Files, merger: Merger, chunks: set<Hash>,
                               p: Path)
    requires p in remote
  {
    match Answer(was.tree, base, remote, merger, chunks, p)
    case Some(merged) => Get(now.tree, p) == Some(merged.content) && p !in now.pending
    case None =>
      && Same(was, now, p)
      && exists n: nat :: Get(now.tree, CopyName(p, remote[p].hash, n)) == Some(remote[p].hash)
  }

  /** Where any other path ends: an unchanged file follows the other side, also into its deletion, and an edit beats
    a deletion. */
  ghost predicate PlainSettled(was: Disk, now: Disk, base: Files, local: Files, remote: Files, chunks: set<Hash>,
                               p: Path) {
    if p in local && p in remote then
      if p in base && base[p].hash == local[p].hash then Took(was, now, remote[p], chunks, p) else Same(was, now, p)
    else
      p in local || p in remote ==>
        var file := if p in local then local[p] else remote[p];
        if p in base && file.hash == base[p].hash then Gone(now, p)
        else if p in base && p in local then Same(was, now, p)
        else Took(was, now, file, chunks, p)
  }

  ghost predicate Settled(was: Disk, now: Disk, base: Files, local: Files, remote: Files, merger: Merger,
                          chunks: set<Hash>, p: Path) {
    if Clash(base, local, remote, p) then ClashSettled(was, now, base, remote, merger, chunks, p)
    else PlainSettled(was, now, base, local, remote, chunks, p)
  }

  /** What a merge leaves of a path it took up. */
  ghost predicate DoneAt(was: Disk, now: Disk, base: Files, local: Files, remote: Files, merger: Merger,
                         chunks: set<Hash>, p: Path) {
    && NoEditLost(base, local, remote, now, p) && !DroppedByBoth(base, local, remote, p)
    && Settled(was, now, base, local, remote, merger, chunks, p)
  }

  /** What a merge has done once every path but those in `todo` was taken up. */
  ghost predicate MergedSoFar(was: Disk, now: Disk, base: Files, local: Files, remote: Files, merger: Merger,
                              chunks: set<Hash>, todo: set<Path>) {
    var names := Names(base, local, remote);
    && (forall p :: p in names && p !in todo ==> DoneAt(was, now, base, local, remote, merger, chunks, p))
    && (forall p :: p in todo ==> Get(now.tree, p) == Get(was.tree, p) && Get(now.pending, p) == Get(was.pending, p))
    && Kept(was.tree, now.tree, names)
  }

  /** The merge of another path does not disturb a conflict copy. */
  lemma CopyStays(now: Disk, after: Disk, base: Files, local: Files, remote: Files, p: Path, q: Path, n: nat)
    requires OnlyAt(now, after, p, base, local, remote) && NoCopyListed(base, local, remote)
    requires p in Names(base, local, remote) && Clash(base, local, remote, q)
    requires Get(now.tree, CopyName(q, remote[q].hash, n)) == Some(remote[q].hash)
    ensures Get(after.tree, CopyName(q, remote[q].hash, n)) == Some(remote[q].hash)
  {
    hide CopyName;
    assert CopyName(q, remote[q].hash, n) != p;
  }

  /** An outcome at one path is not disturbed by the merge of another. */
  lemma OutcomeStays(now: Disk, after: Disk, base: Files, local: Files, remote: Files, p: Path, q: Path)
    requires OnlyAt(now, after, p, base, local, remote) && q != p && NoEditLost(base, local, remote, now, q)
    requires p in base || p in local || p in remote
    requires q in base || q in local || q in remote
    requires NoCopyListed(base, local, remote)
    ensures NoEditLost(base, local, remote, after, q)
    ensures Get(after.tree, q) == Get(now.tree, q) && Get(after.pending, q) == Get(now.pending, q)
  {
    hide CopyName;
    assert q in Names(base, local, remote) && p in Names(base, local, remote);
    if Clash(base, local, remote, q)
      && exists n: nat :: Get(now.tree, CopyName(q, remote[q].hash, n)) == Some(remote[q].hash) {
      var n: nat :| Get(now.tree, CopyName(q, remote[q].hash, n)) == Some(remote[q].hash);
      CopyStays(now, after, base, local, remote, p, q, n);
    }
  }

  lemma MergedStep(was: Disk, now: Disk, after: Disk, base: Files, local: Files, remote: Files, merger: Merger,
                   chunks: set<Hash>, todo: set<Path>, p: Path)
    requires NoCopyListed(base, local, remote)
    requires p in todo && todo <= Names(base, local, remote)
    requires MergedSoFar(was, now, base, local, remote, merger, chunks, todo)
      && OnlyAt(now, after, p, base, local, remote)
    requires NoEditLost(base, local, remote, after, p) && !DroppedByBoth(base, local, remote, p)
    requires Settled(now, after, base, local, remote, merger, chunks, p)
    ensures MergedSoFar(was, after, base, local, remote, merger, chunks, todo - {p})
  {
    hide NoEditLost, CopyName, NoCopyListed, OnlyAt, Stored, DoneAt, DroppedByBoth, Settled;
    var names := Names(base, local, remote);
    forall q | q in names && q != p
      ensures q !in todo ==> DoneAt(was, after, base, local, remote, merger, chunks, q)
      ensures Get(after.tree, q) == Get(now.tree, q) && Get(after.pending, q) == Get(now.pending, q)
    {
      SamePath(now, after, base, local, remote, p, q);
      if q !in todo {
        DoneStays(was, now, after, base, local, remote, merger, chunks, p, q);
      }
    }
    assert DoneAt(was, after, base, local, remote, merger, chunks, p) by {
      DoneNow(was, now, after, base, local, remote, merger, chunks, p);
    }
    Unlisted(now, after, base, local, remote, p);
  }

  lemma DoneStays(was: Disk, now: Disk, after: Disk, base: Files, local: Files, remote: Files, merger: Merger,
                  chunks: set<Hash>, p: Path, q: Path)
    requires OnlyAt(now, after, p, base, local, remote) && q != p && NoCopyListed(base, local, remote)
    requires p in Names(base, local, remote) && q in Names(base, local, remote)
    requires DoneAt(was, now, base, local, remote, merger, chunks, q)
    ensures DoneAt(was, after, base, local, remote, merger, chunks, q)
  {
    hide NoEditLost, CopyName, NoCopyListed, OnlyAt, Stored, DroppedByBoth, Answer;
    OutcomeStays(now, after, base, local, remote, p, q);
    if Clash(base, local, remote, q) && Answer(was.tree, base, remote, merger, chunks, q).None? {
      var n: nat :| Get(now.tree, CopyName(q, remote[q].hash, n)) == Some(remote[q].hash);
      CopyStays(now, after, base, local, remote, p, q, n);
    }
  }

  lemma DoneNow(was: Disk, now: Disk, after: Disk, base: Files, local: Files, remote: Files, merger: Merger,
                chunks: set<Hash>, p: Path)
    requires Get(now.tree, p) == Get(was.tree, p) && Get(now.pending, p) == Get(was.pending, p)
    requires NoEditLost(base, local, remote, after, p) && !DroppedByBoth(base, local, remote, p)
    requires Settled(now, after, base, local, remote, merger, chunks, p)
    ensures DoneAt(was, after, base, local, remote, merger, chunks, p)
  {
    hide NoEditLost, Stored, DroppedByBoth, CopyName, Clash, Answer;
    AnswerSame(was.tree, now.tree, base, remote, merger, chunks, p);
  }

  lemma AnswerSame(was: map<Path, Hash>, now: map<Path, Hash>, base: Files, remote: Files, merger: Merger,
                   chunks: set<Hash>, p: Path)
    requires Get(now, p) == Get(was, p)
    ensures Answer(now, base, remote, merger, chunks, p) == Answer(was, base, remote, merger, chunks, p)
  {
    hide Stored;
  }

  lemma MergeStarts(was: Disk, base: Files, local: Files, remote: Files, merger: Merger, chunks: set<Hash>)
    ensures MergedSoFar(was, was, base, local, remote, merger, chunks, Names(base, local, remote))
  {
  }

  lemma MergedKnows(was: Disk, now: Disk, base: Files, local: Files, remote: Files, merger: Merger,
                    chunks: set<Hash>, todo: set<Path>, p: Path)
    requires MergedSoFar(was, now, base, local, remote, merger, chunks, todo) && p in todo
    ensures Get(now.tree, p) == Get(was.tree, p) && Get(now.pending, p) == Get(was.pending, p)
    ensures Kept(was.tree, now.tree, Names(base, local, remote))
  {
  }

  lemma MergeEnds(was: Disk, now: Disk, base: Files, local: Files, remote: Files, merger: Merger, chunks: set<Hash>)
    requires MergedSoFar(was, now, base, local, remote, merger, chunks, {})
    ensures forall p :: NoEditLost(base, local, remote, now, p) && !DroppedByBoth(base, local, remote, p)
    ensures forall p :: Settled(was, now, base, local, remote, merger, chunks, p)
    ensures Kept(was.tree, now.tree, Names(base, local, remote))
  {
    forall p
      ensures NoEditLost(base, local, remote, now, p) && !DroppedByBoth(base, local, remote, p)
    {
      if p in Names(base, local, remote) {
      }
    }
  }

  lemma SamePath(now: Disk, after: Disk, base: Files, local: Files, remote: Files, p: Path, q: Path)
    requires OnlyAt(now, after, p, base, local, remote) && q != p && q in Names(base, local, remote)
    requires NoCopyListed(base, local, remote)
    ensures Get(after.tree, q) == Get(now.tree, q) && Get(after.pending, q) == Get(now.pending, q)
  {
    hide CopyName;
  }

  lemma Unlisted(now: Disk, after: Disk, base: Files, local: Files, remote: Files, p: Path)
    requires OnlyAt(now, after, p, base, local, remote) && p in Names(base, local, remote)
    ensures Kept(now.tree, after.tree, Names(base, local, remote))
    ensures OnlyCopiesNew(now.tree, after.tree, base, local, remote)
  {
  }

  /** What the merge can rely on when it starts. */
  ghost predicate Mergeable(d: Disk, base: Files, local: Files, remote: Files) {
    NoCopyListed(base, local, remote) && forall p :: p in local ==> InSyncAt(d, local, p)
  }

  /** What is new at a path no manifest lists is a conflict copy of a file both sides changed. */
  ghost predicate OnlyCopiesNew(was: map<Path, Hash>, now: map<Path, Hash>, base: Files, local: Files, remote: Files) {
    forall q :: q in now && q !in was && q !in Names(base, local, remote) ==>
      exists p, n: nat :: Clash(base, local, remote, p) && q == CopyName(p, remote[p].hash, n)
  }

  ghost predicate Kept(was: map<Path, Hash>, now: map<Path, Hash>, names: set<Path>) {
    forall q :: q in was && q !in names ==> Get(now, q) == Some(was[q])
  }

  /** Why a merge fails at a path: both sides deleted it, or the content to merge or copy is not here. */
  ghost predicate Blocked(base: Files, local: Files, remote: Files, chunks: set<Hash>, tree: map<Path, Hash>, p: Path) {
    || DroppedByBoth(base, local, remote, p)
    || (Clash(base, local, remote, p) && (!Stored(remote[p], chunks) || p !in tree))
  }

  /** Every file written on the way is in the journal, so that a status finds it. */
  ghost predicate Journalled(was: map<Path, Hash>, now: map<Path, Hash>, before: set<Path>, after: set<Path>) {
    before <= after && forall q :: q in now && Get(was, q) != Some(now[q]) ==> q in after
  }

  lemma NothingWritten(tree: map<Path, Hash>, journal: set<Path>)
    ensures Journalled(tree, tree, journal, journal)
  {
  }

  lemma JournalledJoin(was: map<Path, Hash>, mid: map<Path, Hash>, now: map<Path, Hash>, a: set<Path>, b: set<Path>,
                       c: set<Path>)
    ensures Journalled(was, mid, a, b) && Journalled(mid, now, b, c) ==> Journalled(was, now, a, c)
  {
  }

  lemma KeptJoin(was: map<Path, Hash>, mid: map<Path, Hash>, now: map<Path, Hash>, names: set<Path>)
    ensures Kept(was, mid, names) && Kept(mid, now, names) ==> Kept(was, now, names)
  {
  }

  lemma NewJoin(was: map<Path, Hash>, mid: map<Path, Hash>, now: map<Path, Hash>, base: Files, local: Files,
                remote: Files)
    requires OnlyCopiesNew(was, mid, base, local, remote) && OnlyCopiesNew(mid, now, base, local, remote)
    ensures OnlyCopiesNew(was, now, base, local, remote)
  {
    hide CopyName;
  }

  lemma NothingNew(d: map<Path, Hash>, base: Files, local: Files, remote: Files)
    ensures OnlyCopiesNew(d, d, base, local, remote)
  {
  }

  lemma ListedIfDropped(base: Files, local: Files, remote: Files)
    ensures forall p :: DroppedByBoth(base, local, remote, p) ==> p in Names(base, local, remote)
  {
  }

  datatype Verdict = Quiet | Conflicted(copy: Path) | Unresolved(count: nat) | Decided

  /** What a merge says of one path. */
  ghost predicate VerdictFits(verdict: Verdict, tree: map<Path, Hash>, base: Files, local: Files, remote: Files,
                              merger: Merger, chunks: set<Hash>, p: Path) {
    if Clash(base, local, remote, p) then
      match Answer(tree, base, remote, merger, chunks, p)
      case Some(merged) => verdict == if merged.conflicts > 0 then Unresolved(merged.conflicts) else Quiet
      case None => verdict.Conflicted? && exists n: nat :: verdict.copy == CopyName(p, remote[p].hash, n)
    else verdict == if EditOverDelete(base, local, remote, p) then Decided else Quiet
  }

  function Noted(result: MergeResult, verdict: Verdict, p: Path): MergeResult {
    match verdict
    case Quiet => result
    case Conflicted(copy) => result.(conflicts := result.conflicts + [copy])
    case Unresolved(count) => result.(unresolved := result.unresolved + [(p, count)])
    case Decided => result.(decisions := result.decisions + [p])
  }

  ghost predicate CopyReported(conflicts: seq<Path>, tree: map<Path, Hash>, base: Files, local: Files, remote: Files,
                               merger: Merger, chunks: set<Hash>, p: Path) {
    exists copy :: copy in conflicts && VerdictFits(Conflicted(copy), tree, base, local, remote, merger, chunks, p)
  }

  /** The copies reported are those of the paths in `done`, and each of these that needs one has one. */
  ghost predicate CopiesReported(conflicts: seq<Path>, tree: map<Path, Hash>, base: Files, local: Files, remote: Files,
                                 merger: Merger, chunks: set<Hash>, done: set<Path>) {
    && (forall copy :: copy in conflicts ==>
          exists p :: p in done && VerdictFits(Conflicted(copy), tree, base, local, remote, merger, chunks, p))
    && forall p ::
         p in done && Clash(base, local, remote, p) && Answer(tree, base, remote, merger, chunks, p).None? ==>
           CopyReported(conflicts, tree, base, local, remote, merger, chunks, p)
  }

  /** What a merge reports of the paths in `done`: the copies it wrote, the markers the content merger left, and where
    an edit beat a deletion. */
  ghost predicate Reported(result: MergeResult, tree: map<Path, Hash>, base: Files, local: Files, remote: Files,
                           merger: Merger, chunks: set<Hash>, done: set<Path>) {
    && (forall p :: p in result.decisions <==> p in done && EditOverDelete(base, local, remote, p))
    && (forall p, count: nat :: (p, count) in result.unresolved <==>
          p in done && VerdictFits(Unresolved(count), tree, base, local, remote, merger, chunks, p))
    && CopiesReported(result.conflicts, tree, base, local, remote, merger, chunks, done)
  }

  /** Of one path there is one thing to say, up to where a copy went. */
  lemma OneVerdict(verdict: Verdict, tree: map<Path, Hash>, base: Files, local: Files, remote: Files, merger: Merger,
                   chunks: set<Hash>, p: Path)
    requires VerdictFits(verdict, tree, base, local, remote, merger, chunks, p)
    ensures verdict.Decided? <==> EditOverDelete(base, local, remote, p)
    ensures forall count: nat ::
              VerdictFits(Unresolved(count), tree, base, local, remote, merger, chunks, p)
              <==> verdict == Unresolved(count)
    ensures verdict.Conflicted? <==>
      Clash(base, local, remote, p) && Answer(tree, base, remote, merger, chunks, p).None?
  {
    hide CopyName, Answer;
  }

  lemma CopiesOne(conflicts: seq<Path>, verdict: Verdict, tree: map<Path, Hash>, base: Files, local: Files,
                  remote: Files, merger: Merger, chunks: set<Hash>, done: set<Path>, p: Path)
    requires CopiesReported(conflicts, tree, base, local, remote, merger, chunks, done)
    requires VerdictFits(verdict, tree, base, local, remote, merger, chunks, p)
    ensures CopiesReported(if verdict.Conflicted? then conflicts + [verdict.copy] else conflicts, tree, base, local,
                           remote, merger, chunks, done + {p})
  {
    hide VerdictFits, Clash, Answer;
    OneVerdict(verdict, tree, base, local, remote, merger, chunks, p);
    var noted := if verdict.Conflicted? then conflicts + [verdict.copy] else conflicts;
    forall q | q in done + {p} && Clash(base, local, remote, q) && Answer(tree, base, remote, merger, chunks, q).None?
      ensures CopyReported(noted, tree, base, local, remote, merger, chunks, q)
    {
      if q in done {
        var copy :|
          copy in conflicts && VerdictFits(Conflicted(copy), tree, base, local, remote, merger, chunks, q);
        assert copy in noted;
      } else {
        assert verdict.copy in noted;
      }
    }
  }

  lemma ReportedOne(result: MergeResult, verdict: Verdict, tree: map<Path, Hash>, base: Files, local: Files,
                    remote: Files, merger: Merger, chunks: set<Hash>, done: set<Path>, p: Path)
    requires Reported(result, tree, base, local, remote, merger, chunks, done) && p !in done
    requires VerdictFits(verdict, tree, base, local, remote, merger, chunks, p)
    ensures Reported(Noted(result, verdict, p), tree, base, local, remote, merger, chunks, done + {p})
  {
    hide VerdictFits, CopiesReported, EditOverDelete;
    OneVerdict(verdict, tree, base, local, remote, merger, chunks, p);
    CopiesOne(result.conflicts, verdict, tree, base, local, remote, merger, chunks, done, p);
  }

  lemma VerdictHolds(verdict: Verdict, was: map<Path, Hash>, now: map<Path, Hash>, base: Files, local: Files,
                     remote: Files, merger: Merger, chunks: set<Hash>, p: Path)
    requires VerdictFits(verdict, now, base, local, remote, merger, chunks, p) && Get(now, p) == Get(was, p)
    ensures VerdictFits(verdict, was, base, local, remote, merger, chunks, p)
  {
    hide CopyName, Clash;
  }

  lemma NothingReported(tree: map<Path, Hash>, base: Files, local: Files, remote: Files, merger: Merger,
                        chunks: set<Hash>)
    ensures Reported(MergeResult([], [], []), tree, base, local, remote, merger, chunks, {})
  {
  }

  /** A merge of paths the device did not change reports no conflict. */
  lemma QuietReport(result: MergeResult, tree: map<Path, Hash>, base: Files, local: Files, remote: Files,
                    merger: Merger, chunks: set<Hash>, done: set<Path>)
    requires Reported(result, tree, base, local, remote, merger, chunks, done)
    requires forall p :: Untouched(base, local, p)
    ensures result.conflicts == [] && result.unresolved == []
  {
    hide CopyName, Answer;
    SomeMember(result.conflicts, result.unresolved);
    forall p
      ensures !Clash(base, local, remote, p)
    {
      assert Untouched(base, local, p);
    }
  }

  /** What the content merger is asked about a path both sides have differently is the base's version, if there is one
    and it is all here, the device's and the remote's, in this order; and its answer is where the path ends, and what is
    reported of it. Without an answer the device's version stays and a copy of the remote's is written. */
  ghost predicate AnswerTaken(was: map<Path, Hash>, now: Disk, base: Files, local: Files, remote: Files, merger: Merger,
                              chunks: set<Hash>, result: MergeResult, p: Path) {
    Clash(base, local, remote, p) && p in was && merger.registered && Stored(remote[p], chunks) ==>
      if p in base && Stored(base[p], chunks)
      then AnsweredBy((p, Some(base[p].hash), local[p].hash, remote[p].hash), now, local, remote, merger, result, p)
      else AnsweredBy((p, None, local[p].hash, remote[p].hash), now, local, remote, merger, result, p)
  }

  ghost predicate AnsweredBy(key: (Path, Option<Hash>, Hash, Hash), now: Disk, local: Files, remote: Files,
                             merger: Merger, result: MergeResult, p: Path)
    requires p in local && p in remote
  {
    if key in merger.answers then
      && Get(now.tree, p) == Some(merger.answers[key].content) && p !in now.pending
      && forall count: nat :: (p, count) in result.unresolved <==> 0 < count == merger.answers[key].conflicts
    else
      && Get(now.tree, p) == Some(local[p].hash)
      && (forall count: nat :: (p, count) !in result.unresolved)
      && (exists n: nat :: Get(now.tree, CopyName(p, remote[p].hash, n)) == Some(remote[p].hash))
      && exists n: nat :: CopyName(p, remote[p].hash, n) in result.conflicts
  }

  lemma NotOurs(was: map<Path, Hash>, now: Disk, base: Files, local: Files, remote: Files, merger: Merger,
                chunks: set<Hash>, result: MergeResult, p: Path)
    requires p !in local
    ensures AnswerTaken(was, now, base, local, remote, merger, chunks, result, p)
  {
  }

  lemma AnswerIsTaken(was: Disk, now: Disk, base: Files, local: Files, remote: Files, merger: Merger,
                      chunks: set<Hash>, result: MergeResult, p: Path)
    requires Settled(was, now, base, local, remote, merger, chunks, p) && InSyncAt(was, local, p)
    requires Reported(result, was.tree, base, local, remote, merger, chunks, Names(base, local, remote))
    ensures AnswerTaken(was.tree, now, base, local, remote, merger, chunks, result, p)
  {
    hide CopyName, Stored;
    if Clash(base, local, remote, p) && p in was.tree && merger.registered && Stored(remote[p], chunks) {
      assert p in Names(base, local, remote) && was.tree[p] == local[p].hash;
      if Answer(was.tree, base, remote, merger, chunks, p).None? {
        assert CopyReported(result.conflicts, was.tree, base, local, remote, merger, chunks, p);
      }
    }
  }

  /** A merger that knows what changed: where one side still is the base, the other side's version is the answer. */
  ghost predicate KeepsTheEdit(merger: Merger) {
    && merger.registered
    && (forall p, b, edit :: (p, Some(b), edit, b) in merger.answers ==>
          merger.answers[(p, Some(b), edit, b)] == Merged(edit, 0))
    && (forall p, b, edit :: (p, Some(b), b, edit) in merger.answers ==>
          merger.answers[(p, Some(b), b, edit)] == Merged(edit, 0))
  }

  /** Only the device changed the path, what all three have is here, and the merger has an answer to it. */
  ghost predicate OnlyDeviceChanged(tree: map<Path, Hash>, base: Files, local: Files, remote: Files, merger: Merger,
                                    chunks: set<Hash>, p: Path) {
    && p in base && p in local && p in remote && p in tree && local[p].hash != base[p].hash
    && remote[p].hash == base[p].hash && Stored(base[p], chunks) && Stored(remote[p], chunks)
    && (p, Some(base[p].hash), local[p].hash, base[p].hash) in merger.answers
  }

  /** With such a merger a path only the device changed keeps its content, and nothing is reported of it: where no path
    was changed otherwise, the merge writes no copy and leaves nothing unresolved. */
  lemma DeviceEditsStay(was: Disk, now: Disk, base: Files, local: Files, remote: Files, merger: Merger,
                        chunks: set<Hash>, result: MergeResult)
    requires KeepsTheEdit(merger)
    requires forall p :: Settled(was, now, base, local, remote, merger, chunks, p)
    requires Reported(result, was.tree, base, local, remote, merger, chunks, Names(base, local, remote))
    requires forall p :: p in local ==> InSyncAt(was, local, p)
    ensures forall p :: OnlyDeviceChanged(was.tree, base, local, remote, merger, chunks, p) ==>
      Get(now.tree, p) == Some(local[p].hash) && p !in now.pending
    ensures forall p, count: nat :: OnlyDeviceChanged(was.tree, base, local, remote, merger, chunks, p) ==>
      (p, count) !in result.unresolved
    ensures
      (forall p ::
         Untouched(base, local, p) || OnlyDeviceChanged(was.tree, base, local, remote, merger, chunks, p)) ==>
        result.conflicts == [] && result.unresolved == []
  {
    hide CopyName, Stored, InSyncAt, Settled, Reported, VerdictFits, Answer;
    forall p | OnlyDeviceChanged(was.tree, base, local, remote, merger, chunks, p)
      ensures Get(now.tree, p) == Some(local[p].hash) && p !in now.pending
      ensures forall count: nat :: (p, count) !in result.unresolved
    {
      AnswerIsTaken(was, now, base, local, remote, merger, chunks, result, p);
    }
    if forall p :: Untouched(base, local, p) || OnlyDeviceChanged(was.tree, base, local, remote, merger, chunks, p) {
      forall p
        ensures Clash(base, local, remote, p) ==>
          Answer(was.tree, base, remote, merger, chunks, p) == Some(Merged(local[p].hash, 0))
      {
        assert Untouched(base, local, p) || OnlyDeviceChanged(was.tree, base, local, remote, merger, chunks, p);
        if Clash(base, local, remote, p) {
          EditIsAnswered(was, base, local, remote, merger, chunks, p);
        }
      }
      AllAnswered(result, was.tree, base, local, remote, merger, chunks, Names(base, local, remote));
    }
  }

  lemma EditIsAnswered(was: Disk, base: Files, local: Files, remote: Files, merger: Merger, chunks: set<Hash>, p: Path)
    requires KeepsTheEdit(merger) && OnlyDeviceChanged(was.tree, base, local, remote, merger, chunks, p)
    requires InSyncAt(was, local, p)
    ensures Answer(was.tree, base, remote, merger, chunks, p) == Some(Merged(local[p].hash, 0))
  {
    hide Stored;
  }

  lemma SomeMember(conflicts: seq<Path>, unresolved: seq<(Path, nat)>)
    ensures conflicts != [] ==> exists copy :: copy in conflicts
    ensures unresolved != [] ==> exists p, count: nat :: (p, count) in unresolved
  {
    assert conflicts != [] ==> conflicts[0] in conflicts;
    assert unresolved != [] ==> (unresolved[0].0, unresolved[0].1) in unresolved;
  }

  /** Where every clash is answered without a conflict there is no copy and nothing unresolved to report. */
  lemma AllAnswered(result: MergeResult, tree: map<Path, Hash>, base: Files, local: Files, remote: Files,
                    merger: Merger, chunks: set<Hash>, done: set<Path>)
    requires Reported(result, tree, base, local, remote, merger, chunks, done)
    requires forall p :: Clash(base, local, remote, p) ==>
      Answer(tree, base, remote, merger, chunks, p).Some?
        && Answer(tree, base, remote, merger, chunks, p).value.conflicts == 0
    ensures result.conflicts == [] && result.unresolved == []
  {
    hide CopyName, Answer;
    SomeMember(result.conflicts, result.unresolved);
  }

  /** What taking a version of a path leaves. */
  lemma AfterTake(was: Disk, now: Disk, base: Files, local: Files, remote: Files, p: Path, h: Hash, whole: bool)
    requires now.offers == was.offers
    requires if whole then now.tree == was.tree[p := h] && now.pending == was.pending - {p}
             else now.tree == was.tree && now.pending == was.pending[p := h]
    ensures OnlyAt(was, now, p, base, local, remote) && AtPath(now, p, h)
  {
  }

  lemma NothingChanged(d: Disk, p: Path, base: Files, local: Files, remote: Files)
    ensures OnlyAt(d, d, p, base, local, remote)
  {
  }

  lemma AfterDrop(was: Disk, now: Disk, base: Files, local: Files, remote: Files, p: Path)
    requires now.offers == was.offers && now.tree == was.tree - {p} && now.pending == was.pending - {p}
    ensures OnlyAt(was, now, p, base, local, remote)
  {
  }

  datatype Change = Created | Modified | Deleted

  function Under(prefix: Path, p: Path): bool {
    p == prefix || prefix + "/" <= p
  }

  /** A path that is a file has nothing below it. */
  ghost predicate FilesAreLeaves(tree: map<Path, Hash>) {
    forall p, q :: p in tree && q in tree && Under(p, q) ==> p == q
  }

  /** How one path differs from a manifest. */
  ghost function ChangeAt(d: Disk, files: Files, p: Path): Option<Change> {
    if p in d.tree then
      if p !in files then Some(Created) else if d.tree[p] != files[p].hash then Some(Modified) else None
    else if p in files && p !in d.pending then Some(Deleted)
    else None
  }

  /** The paths a status looks at. */
  ghost predicate Looked(d: Disk, journal: set<Path>, files: Files, p: Path) {
    p in files || (p in d.tree && exists j :: j in journal && j !in files && Under(j, p))
  }

  ghost function ChangesOf(d: Disk, journal: set<Path>, files: Files): map<Path, Change> {
    map p | p in d.tree.Keys + files.Keys && Looked(d, journal, files, p) && ChangeAt(d, files, p).Some?
          :: ChangeAt(d, files, p).value
  }

  /** What changes tell: a listed file that differs on disk is modified, one that is not there and was not left pending
    is deleted, a file on disk that is not listed is created if it or a path above it is in the journal; nothing else
    is said. */
  ghost predicate Tells(tree: map<Path, Hash>, pending: map<Path, Hash>, journal: set<Path>, files: Files,
                        changes: map<Path, Change>) {
    && (forall p :: p in files && p in tree && tree[p] != files[p].hash ==> Get(changes, p) == Some(Modified))
    && (forall p :: p in files && p !in tree && p !in pending ==> Get(changes, p) == Some(Deleted))
    && (forall p :: p in journal && p in tree && p !in files ==> Get(changes, p) == Some(Created))
    && (forall j, p :: j in journal && j !in files && p in tree && p !in files && j + "/" <= p ==>
          Get(changes, p) == Some(Created))
    && forall p :: p in changes ==>
         if p in files && p in tree then changes[p] == Modified && tree[p] != files[p].hash
         else if p in tree then changes[p] == Created
         else changes[p] == Deleted && p in files && p !in pending
  }

  lemma ChangesTell(d: Disk, journal: set<Path>, files: Files)
    ensures Tells(d.tree, d.pending, journal, files, ChangesOf(d, journal, files))
  {
    var changes := ChangesOf(d, journal, files);
    forall j, p | j in journal && j !in files && p in d.tree && p !in files && Under(j, p)
      ensures Get(changes, p) == Some(Created)
    {
      assert Looked(d, journal, files, p);
    }
    assert forall p :: Under(p, p);
  }

  /** What a status has found at the paths it has been to. */
  ghost predicate StatusSoFar(was: Disk, now: Disk, files: Files, processed: set<Path>, changes: map<Path, Change>) {
    && now.tree == was.tree
    && (forall q :: q !in processed || (q in files && q !in was.tree) ==> Get(now.pending, q) == Get(was.pending, q))
    && (forall q :: q in now.pending ==> q in was.pending)
    && (forall q :: Get(changes, q) == if q in processed then ChangeAt(was, files, q) else None)
  }

  /** A status only clears pending marks, and never that of a listed file that is not on disk. */
  ghost predicate PendingKept(was: Disk, now: Disk, files: Files) {
    && (forall q :: q in files && q !in was.tree ==> Get(now.pending, q) == Get(was.pending, q))
    && (forall q :: q in now.pending ==> q in was.pending)
  }

  lemma StatusAt(was: Disk, now: Disk, files: Files, processed: set<Path>, changes: map<Path, Change>, p: Path)
    requires StatusSoFar(was, now, files, processed, changes) && p !in processed
    ensures ChangeAt(now, files, p) == ChangeAt(was, files, p)
  {
    assert Get(now.pending, p) == Get(was.pending, p);
  }

  /** A journalled path that was skipped had already been visited, and being a file it has nothing below it. */
  lemma WalkedOne(tree: map<Path, Hash>, files: Files, journal: set<Path>, paths: set<Path>, path: Path,
                  before: set<Path>, after: set<Path>)
    requires FilesAreLeaves(tree) && path in journal && path !in paths && paths <= journal
    requires Visited(tree, files, journal - (paths + {path}), before)
    requires after == if path in before then before else before + (set q | q in tree && Under(path, q))
    ensures Visited(tree, files, journal - paths, after)
  {
    assert journal - paths == journal - (paths + {path}) + {path};
    if path in before && path !in files {
      assert path in tree;
      assert forall q :: q in tree && Under(path, q) ==> q == path;
    }
  }

  /** The paths a status has been to once it walked the journalled paths of `walked`. */
  ghost predicate Visited(tree: map<Path, Hash>, files: Files, walked: set<Path>, processed: set<Path>) {
    forall q :: q in processed <==> q in files || (q in tree && exists j :: j in walked && j !in files && Under(j, q))
  }

  lemma StatusStarts(d: Disk, files: Files)
    ensures StatusSoFar(d, d, files, {}, map[])
  {
  }

  lemma NothingWalked(tree: map<Path, Hash>, files: Files)
    ensures Visited(tree, files, {}, files.Keys)
  {
  }

  lemma StatusEnds(was: Disk, now: Disk, files: Files, journal: set<Path>, processed: set<Path>,
                   changes: map<Path, Change>)
    requires StatusSoFar(was, now, files, processed, changes)
    requires Visited(was.tree, files, journal, processed)
    ensures changes == ChangesOf(was, journal, files) && PendingKept(was, now, files)
  {
    hide Under, ChangeAt;
    var all := ChangesOf(was, journal, files);
    forall q
      ensures q in changes <==> q in all
      ensures q in changes ==> changes[q] == all[q]
    {
      assert Get(changes, q) == if q in processed then ChangeAt(was, files, q) else None;
    }
  }

  class WorkingTree {
    var tree: map<Path, Hash>
    /** The paths this device has established a hash for. */
    var entries: set<Path>
    /** The paths left unmaterialised, with the content their manifest had. */
    var pending: map<Path, Hash>
    var journal: set<Path>
    var chunks: set<Hash>
    /** Every pair of versions a content merger was given. */
    var offers: set<Offer>

    ghost function Now(): Disk
      reads this`tree, this`pending, this`offers
    {
      Disk(tree, pending, offers)
    }

    predicate HasChunks(file: Entry)
      reads this`chunks
    {
      Stored(file, chunks)
    }

    /** Puts a version on disk, and notes it in the checkout and in the journal. */
    method WriteFile(p: Path, h: Hash)
      modifies this`tree, this`entries, this`pending, this`journal
      ensures tree == old(tree)[p := h] && entries == old(entries) + {p} && pending == old(pending) - {p}
      ensures journal == old(journal) + {p}
    {
      tree := tree[p := h];
      entries := entries + {p};
      pending := pending - {p};
      journal := journal + {p};
    }

    /** The remote's version, as content when its chunks are here, as a pending mark when they are not. */
    method Take(p: Path, file: Entry)
      modifies this`tree, this`entries, this`pending, this`journal
      ensures if HasChunks(file) then
                && tree == old(tree)[p := file.hash] && pending == old(pending) - {p}
                && entries == old(entries) + {p} && journal == old(journal) + {p}
              else
                && tree == old(tree) && pending == old(pending)[p := file.hash] && journal == old(journal)
                && entries == if Get(old(pending), p) == Some(file.hash) then old(entries) else old(entries) - {p}
    {
      if HasChunks(file) {
        WriteFile(p, file.hash);
      } else if Get(pending, p) != Some(file.hash) {
        pending := pending[p := file.hash];
        entries := entries - {p};
      }
    }

    method Drop(p: Path)
      modifies this`tree, this`entries, this`pending
      ensures tree == old(tree) - {p} && entries == old(entries) - {p} && pending == old(pending) - {p}
    {
      tree := tree - {p};
      entries := entries - {p};
      pending := pending - {p};
    }

    /** A copy of the remote's version beside the file: at the first of its names that is free, or that already holds
      this very version. Fails when the chunks to copy are not here. */
    method WriteConflictFile(p: Path, file: Entry) returns (copy: Option<Path>)
      modifies this`tree, this`entries, this`journal
      ensures copy.Some? ==> exists n: nat :: copy.value == CopyName(p, file.hash, n)
      ensures copy.Some? ==> tree == old(tree)[copy.value := file.hash]
                             && (copy.value in old(tree) ==> old(tree)[copy.value] == file.hash)
      ensures copy.None? ==> !HasChunks(file) && tree == old(tree)
      ensures Journalled(old(tree), tree, old(journal), journal)
    {
      hide CopyName;
      var n := 1;
      var name := CopyName(p, file.hash, 1);
      while name in tree && tree[name] != file.hash
        invariant tree == old(tree) && journal == old(journal)
        invariant 1 <= n && name == CopyName(p, file.hash, n)
        invariant NamesBelow(p, file.hash, n) <= tree.Keys
        decreases |tree.Keys| + 1 - n
      {
        n := n + 1;
        NamesAreMany(p, file.hash, n);
        SubsetSize(NamesBelow(p, file.hash, n), tree.Keys);
        name := CopyName(p, file.hash, n);
      }
      if name in tree {
        assert tree == tree[name := file.hash];
        return Some(name);
      }
      if !HasChunks(file) {
        return None;
      }
      tree := tree[name := file.hash];
      entries := entries + {name};
      journal := journal + {name};
      return Some(name);
    }

    /** A format-aware merge of both versions, written over the file. The first result is false when nothing came of
      it; the second is false when the local file was not there to be read. */
    method TryContentMerge(p: Path, base: Files, remote: Files, merger: Merger)
      returns (merged: Option<nat>, readable: bool)
      requires p in remote
      modifies this
      ensures chunks == old(chunks) && old(offers) <= offers && Journalled(old(tree), tree, old(journal), journal)
      ensures !readable ==> merged.None? && p !in old(tree) && tree == old(tree) && pending == old(pending)
      ensures readable ==>
        var answer := Answer(old(tree), base, remote, merger, chunks, p);
        && merged == (if answer.Some? then Some(answer.value.conflicts) else None)
        && tree == (if answer.Some? then old(tree)[p := answer.value.content] else old(tree))
        && pending == (if answer.Some? then old(pending) - {p} else old(pending))
        && (answer.Some? ==> Offer(p, old(tree)[p], remote[p].hash) in offers)
    {
      if !merger.registered || !HasChunks(remote[p]) {
        return None, true;
      }
      var ancestor := if p in base && HasChunks(base[p]) then Some(base[p].hash) else None;
      if p !in tree {
        return None, false;
      }
      offers := offers + {Offer(p, tree[p], remote[p].hash)};
      var result := Get(merger.answers, (p, ancestor, tree[p], remote[p].hash));
      if result.None? {
        return None, true;
      }
      WriteFile(p, result.value.content);
      return Some(result.value.conflicts), true;
    }

    /** Both versions of a path differ and the device's is an edit: the content merger's result over the file, or a
      conflict copy beside it. */
    method MergeClash(p: Path, base: Files, local: Files, remote: Files, merger: Merger)
      returns (verdict: Option<Verdict>)
      requires Clash(base, local, remote, p)
      modifies this
      ensures chunks == old(chunks) && Journalled(old(tree), tree, old(journal), journal)
      ensures OnlyAt(old(Now()), Now(), p, base, local, remote)
      ensures verdict.Some? && old(InSyncAt(Now(), local, p)) ==> NoEditLost(base, local, remote, Now(), p)
      ensures verdict.Some? ==>
        && ClashSettled(old(Now()), Now(), base, remote, merger, chunks, p)
        && VerdictFits(verdict.value, old(tree), base, local, remote, merger, chunks, p)
      ensures verdict.None? ==> !HasChunks(remote[p]) || p !in old(tree)
    {
      hide CopyName;
      var merged, readable := TryContentMerge(p, base, remote, merger);
      if !readable {
        return None;
      }
      if merged.Some? {
        return Some(if merged.value > 0 then Unresolved(merged.value) else Quiet);
      }
      var copy := WriteConflictFile(p, remote[p]);
      if copy.None? {
        return None;
      }
      CopyIsElsewhere(p, remote[p].hash);
      return Some(Conflicted(copy.value));
    }

    /** Only one side lists the path: it is new there, or the other side deleted it. An edit beats a deletion. */
    method MergeOneSided(p: Path, base: Files, local: Files, remote: Files) returns (verdict: Verdict)
      requires (p in local) != (p in remote)
      modifies this
      ensures chunks == old(chunks) && Journalled(old(tree), tree, old(journal), journal)
      ensures OnlyAt(old(Now()), Now(), p, base, local, remote)
      ensures old(InSyncAt(Now(), local, p)) ==> NoEditLost(base, local, remote, Now(), p)
      ensures PlainSettled(old(Now()), Now(), base, local, remote, chunks, p)
      ensures verdict == if EditOverDelete(base, local, remote, p) then Decided else Quiet
    {
      hide CopyName, OnlyAt, Stored;
      ghost var was := Now();
      if p in local {
        if p !in base {
          Take(p, local[p]);
          AfterTake(was, Now(), base, local, remote, p, local[p].hash, HasChunks(local[p]));
        } else if local[p].hash == base[p].hash {
          Drop(p);
          AfterDrop(was, Now(), base, local, remote, p);
        } else {
          NothingChanged(was, p, base, local, remote);
          return Decided;
        }
      } else {
        if p in base && remote[p].hash == base[p].hash {
          Drop(p);
          AfterDrop(was, Now(), base, local, remote, p);
        } else {
          Take(p, remote[p]);
          AfterTake(was, Now(), base, local, remote, p, remote[p].hash, HasChunks(remote[p]));
          return if p in base then Decided else Quiet;
        }
      }
      return Quiet;
    }

    /** One path of the merge. Fails where the source's branches end in an exception. */
    method MergePath(p: Path, base: Files, local: Files, remote: Files, merger: Merger)
      returns (verdict: Option<Verdict>)
      requires p in base || p in local || p in remote
      modifies this
      ensures chunks == old(chunks) && Journalled(old(tree), tree, old(journal), journal)
      ensures OnlyAt(old(Now()), Now(), p, base, local, remote)
      ensures verdict.Some? && old(InSyncAt(Now(), local, p)) ==> NoEditLost(base, local, remote, Now(), p)
      ensures verdict.Some? ==> Settled(old(Now()), Now(), base, local, remote, merger, chunks, p)
      ensures verdict.Some? ==> VerdictFits(verdict.value, old(tree), base, local, remote, merger, chunks, p)
      ensures DroppedByBoth(base, local, remote, p) ==> verdict.None?
      ensures verdict.None? && !DroppedByBoth(base, local, remote, p) ==>
        Clash(base, local, remote, p) && (!HasChunks(remote[p]) || p !in old(tree))
    {
      hide CopyName;
      if (p in local) != (p in remote) {
        var decided := MergeOneSided(p, base, local, remote);
        return Some(decided);
      }
      if p in base && p in local && p in remote && base[p].hash == local[p].hash {
        Take(p, remote[p]);
        return Some(Quiet);
      }
      if p !in local {
        return None;
      }
      if local[p].hash != remote[p].hash {
        verdict := MergeClash(p, base, local, remote, merger);
        return;
      }
      return Some(Quiet);
    }

    /** The merge of every path either side or the base lists, in any order. What it promises of a tree that holds the
      local manifest's files, where no manifest lists a name it would copy to:
      no edit of either side is lost, and every path ends where the two sides' changes put it;
      a file no manifest lists is neither overwritten nor dropped;
      exactly the copies, the unresolved merges and the decisions made are reported;
      it fails on a path both sides deleted, and otherwise only for want of content to merge or copy. */
    method Merge(base: Files, local: Files, remote: Files, merger: Merger) returns (result: Option<MergeResult>)
      modifies this
      ensures chunks == old(chunks) && Journalled(old(tree), tree, old(journal), journal)
      ensures (exists p :: DroppedByBoth(base, local, remote, p)) ==> result.None?
      ensures OnlyCopiesNew(old(tree), tree, base, local, remote)
      ensures old(Mergeable(Now(), base, local, remote)) ==>
        && Kept(old(tree), tree, Names(base, local, remote))
        && (result.Some? ==>
             && (forall p :: NoEditLost(base, local, remote, Now(), p))
             && (forall p :: Settled(old(Now()), Now(), base, local, remote, merger, chunks, p))
             && Reported(result.value, old(tree), base, local, remote, merger, chunks, Names(base, local, remote))
             && (forall p :: AnswerTaken(old(tree), Now(), base, local, remote, merger, chunks, result.value, p)))
        && (result.None? ==> exists p :: Blocked(base, local, remote, chunks, old(tree), p))
        && ((forall p :: Clash(base, local, remote, p) ==> Stored(remote[p], chunks) && p in old(tree)) ==>
             (result.None? <==> exists p :: DroppedByBoth(base, local, remote, p)))
    {
      var todo := Names(base, local, remote);
      ghost var names := todo;
      var report := MergeResult([], [], []);
      hide NoEditLost, Settled, OnlyAt, NoCopyListed, Stored, MergedSoFar, Kept, OnlyCopiesNew, DroppedByBoth, Clash,
        Reported, VerdictFits, Answer, Noted, Journalled, AnswerTaken;
      ghost var was := Now();
      ghost var sane := Mergeable(was, base, local, remote);
      MergeStarts(was, base, local, remote, merger, chunks);
      NothingNew(was.tree, base, local, remote);
      assert names - todo == {};
      NothingWritten(tree, journal);
      NothingReported(was.tree, base, local, remote, merger, chunks);
      while todo != {}
        invariant todo <= names && chunks == old(chunks) && Journalled(was.tree, tree, old(journal), journal)
        invariant sane ==> MergedSoFar(was, Now(), base, local, remote, merger, chunks, todo)
        invariant sane ==> Reported(report, was.tree, base, local, remote, merger, chunks, names - todo)
        invariant OnlyCopiesNew(was.tree, tree, base, local, remote)
        invariant forall p :: p in names && p !in todo ==> !DroppedByBoth(base, local, remote, p)
      {
        var p :| p in todo;
        ghost var before, journalled := Now(), journal;
        if sane {
          MergedKnows(was, before, base, local, remote, merger, chunks, todo, p);
          assert InSyncAt(before, local, p);
        }
        var verdict := MergePath(p, base, local, remote, merger);
        Unlisted(before, Now(), base, local, remote, p);
        KeptJoin(was.tree, before.tree, tree, names);
        NewJoin(was.tree, before.tree, tree, base, local, remote);
        JournalledJoin(was.tree, before.tree, tree, old(journal), journalled, journal);
        if verdict.None? {
          if sane {
            assert Blocked(base, local, remote, chunks, was.tree, p);
          }
          return None;
        }
        if sane {
          VerdictHolds(verdict.value, was.tree, before.tree, base, local, remote, merger, chunks, p);
          ReportedOne(report, verdict.value, was.tree, base, local, remote, merger, chunks, names - todo, p);
          MergedStep(was, before, Now(), base, local, remote, merger, chunks, todo, p);
        }
        report := Noted(report, verdict.value, p);
        assert names - todo + {p} == names - (todo - {p});
        todo := todo - {p};
      }
      if sane {
        assert names - todo == names;
        MergeEnds(was, Now(), base, local, remote, merger, chunks);
        forall p
          ensures AnswerTaken(was.tree, Now(), base, local, remote, merger, chunks, report, p)
        {
          if p in local {
            AnswerIsTaken(was, Now(), base, local, remote, merger, chunks, report, p);
          } else {
            NotOurs(was.tree, Now(), base, local, remote, merger, chunks, report, p);
          }
        }
      }
      ListedIfDropped(base, local, remote);
      return Some(report);
    }

    /** What `FileStatus` says of one path, and the bookkeeping it does on the way. */
    method FileStatus(p: Path, files: Files) returns (change: Option<Change>)
      modifies this`entries, this`pending
      ensures change == ChangeAt(old(Now()), files, p)
      ensures pending == if p in tree || p !in files then old(pending) - {p} else old(pending)
      ensures entries == if p in tree then old(entries) + {p}
                         else if change == Some(Deleted) then old(entries) - {p} else old(entries)
    {
      if p !in tree {
        if p !in files {
          pending := pending - {p};
          return None;
        }
        if p in pending {
          return None;
        }
        entries := entries - {p};
        return Some(Deleted);
      }
      entries := entries + {p};
      pending := pending - {p};
      return if p !in files then Some(Created) else if tree[p] != files[p].hash then Some(Modified) else None;
    }

    /** One path not looked at yet. */
    method Visit(p: Path, files: Files, ghost d: Disk, ghost processed: set<Path>, changes: map<Path, Change>)
      returns (changes': map<Path, Change>)
      requires StatusSoFar(d, Now(), files, processed, changes) && p !in processed
      modifies this`entries, this`pending
      ensures StatusSoFar(d, Now(), files, processed + {p}, changes')
    {
      hide ChangeAt;
      StatusAt(d, Now(), files, processed, changes, p);
      var change := FileStatus(p, files);
      changes' := if change.Some? then changes[p := change.value] else changes;
    }

    /** Every file under a journalled path. */
    method WalkUnder(path: Path, files: Files, ghost d: Disk, processed: set<Path>, changes: map<Path, Change>)
      returns (processed': set<Path>, changes': map<Path, Change>)
      requires StatusSoFar(d, Now(), files, processed, changes)
      modifies this`entries, this`pending
      ensures StatusSoFar(d, Now(), files, processed', changes')
      ensures processed' == processed + (set q | q in tree && Under(path, q))
    {
      hide StatusSoFar, Under;
      processed', changes' := processed, changes;
      var all := set q | q in tree && Under(path, q);
      var walk := all;
      while walk != {}
        invariant walk <= all && processed' == processed + (all - walk)
        invariant StatusSoFar(d, Now(), files, processed', changes')
      {
        var q :| q in walk;
        if q !in processed' {
          changes' := Visit(q, files, d, processed', changes');
        }
        assert q in processed' ==> processed' + {q} == processed';
        processed' := processed' + {q};
        walk := walk - {q};
      }
    }

    /** How the tree differs from a manifest: at every path it lists, and at every file under a journalled path. */
    method Status(files: Files) returns (changes: map<Path, Change>)
      requires FilesAreLeaves(tree)
      modifies this`entries, this`pending
      ensures changes == ChangesOf(old(Now()), journal, files) && PendingKept(old(Now()), Now(), files)
      ensures Tells(old(tree), old(pending), journal, files, changes)
    {
      hide PendingKept, StatusSoFar, Under, ChangesOf, Visited, FilesAreLeaves;
      ghost var d := Now();
      changes := map[];
      var processed: set<Path> := {};
      StatusStarts(d, files);
      var todo := files.Keys;
      while todo != {}
        invariant todo + processed == files.Keys && todo !! processed
        invariant StatusSoFar(d, Now(), files, processed, changes)
      {
        var p :| p in todo;
        changes := Visit(p, files, d, processed, changes);
        todo := todo - {p};
        processed := processed + {p};
      }
      NothingWalked(tree, files);
      var paths := journal;
      assert journal - paths == {};
      while paths != {}
        invariant paths <= journal && Visited(tree, files, journal - paths, processed)
        invariant StatusSoFar(d, Now(), files, processed, changes)
      {
        var path :| path in paths;
        ghost var before, left := processed, paths;
        paths := paths - {path};
        assert paths + {path} == left;
        if path !in processed {
          processed, changes := WalkUnder(path, files, d, processed, changes);
        }
        WalkedOne(tree, files, journal, paths, path, before, processed);
      }
      assert journal - paths == journal;
      ChangesTell(d, journal, files);
      StatusEnds(d, Now(), files, journal, processed, changes);
    }
  }
}
