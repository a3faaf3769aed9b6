/** Fetching the chunks of a manifest, and what is reported on the way. */
module FetchProgress {
  import opened Wrappers
  import opened Snapshots

  const GET_BATCH := 32

  /** A chunk of a file; one from a manifest without sizes has size zero. */
  datatype Chunk = Chunk(hash: Hash, size: nat)

  /** A file of the manifest: whether it is the vault's own, whether this device wants its content, its size. */
  datatype File = File(counted: bool, wanted: bool, size: nat, chunks: seq<Chunk>)

  datatype Progress = Progress(filesDone: nat, filesTotal: nat, bytesDone: nat, bytesTotal: nat, cloudBytes: nat)

  datatype Fetched = AllStored | MissingOnRemote | IntegrityFailed

  // What the counters mean.

  function HashesOf(chunks: seq<Chunk>): (r: set<Hash>)
    ensures forall h :: h in r <==> exists i :: 0 <= i < |chunks| && chunks[i].hash == h
  {
    set i | 0 <= i < |chunks| :: chunks[i].hash
  }

  /** The chunks of a list with repetitions of an address left out, as first met. */
  function Firsts(known: seq<Chunk>, chunks: seq<Chunk>): seq<Chunk> {
    if chunks == [] then known
    else
      var front, last := Firsts(known, chunks[..|chunks| - 1]), chunks[|chunks| - 1];
      if last.hash in HashesOf(front) then front else front + [last]
  }

  /** Every chunk the wanted files need, once. */
  function Needed(files: seq<File>): seq<Chunk> {
    if files == [] then []
    else
      var front, last := Needed(files[..|files| - 1]), files[|files| - 1];
      if last.wanted then Firsts(front, last.chunks) else front
  }

  /** For each file that is counted, the addresses it needs. */
  function Demands(files: seq<File>): seq<set<Hash>> {
    if files == [] then []
    else
      var front, last := Demands(files[..|files| - 1]), files[|files| - 1];
      if last.wanted && last.counted then front + [HashesOf(last.chunks)] else front
  }

  function CloudBytes(files: seq<File>): nat {
    if files == [] then 0
    else
      var last := files[|files| - 1];
      CloudBytes(files[..|files| - 1]) + if !last.wanted && last.counted then last.size else 0
  }

  function DoneCount(demands: seq<set<Hash>>, have: set<Hash>): nat {
    if demands == [] then 0
    else DoneCount(demands[..|demands| - 1], have) + if demands[|demands| - 1] <= have then 1 else 0
  }

  function BytesIn(chunks: seq<Chunk>, have: set<Hash>): nat {
    if chunks == [] then 0
    else
      BytesIn(chunks[..|chunks| - 1], have)
      + if chunks[|chunks| - 1].hash in have then chunks[|chunks| - 1].size else 0
  }

  /** What there is to report of a manifest when the store has these chunks: a file is done when every chunk it needs is
    there, and every distinct chunk counts once. */
  function ProgressOf(files: seq<File>, have: set<Hash>): Progress {
    var needed, demands := Needed(files), Demands(files);
    Progress(DoneCount(demands, have), |demands|, BytesIn(needed, have), BytesIn(needed, HashesOf(needed)),
             CloudBytes(files))
  }

  lemma {:induction false} DoneGrows(demands: seq<set<Hash>>, have: set<Hash>, more: set<Hash>)
    requires have <= more
    ensures DoneCount(demands, have) <= DoneCount(demands, more) <= |demands|
    ensures (forall i :: 0 <= i < |demands| ==> demands[i] <= have) ==> DoneCount(demands, have) == |demands|
    decreases |demands|
  {
    if demands != [] {
      DoneGrows(demands[..|demands| - 1], have, more);
    }
  }

  lemma {:induction false} BytesGrow(chunks: seq<Chunk>, have: set<Hash>, more: set<Hash>)
    requires have <= more
    ensures BytesIn(chunks, have) <= BytesIn(chunks, more)
    decreases |chunks|
  {
    if chunks != [] {
      BytesGrow(chunks[..|chunks| - 1], have, more);
    }
  }

  lemma {:induction false} BytesOfAll(chunks: seq<Chunk>, one: set<Hash>, other: set<Hash>)
    requires forall i :: 0 <= i < |chunks| ==> (chunks[i].hash in one <==> chunks[i].hash in other)
    ensures BytesIn(chunks, one) == BytesIn(chunks, other)
    decreases |chunks|
  {
    if chunks != [] {
      BytesOfAll(chunks[..|chunks| - 1], one, other);
    }
  }

  lemma {:induction false} FirstsCover(known: seq<Chunk>, chunks: seq<Chunk>)
    ensures HashesOf(Firsts(known, chunks)) == HashesOf(known) + HashesOf(chunks)
    ensures known <= Firsts(known, chunks)
    decreases |chunks|
  {
    if chunks != [] {
      var short, last := chunks[..|chunks| - 1], chunks[|chunks| - 1];
      FirstsCover(known, short);
      HashesJoin(short, [last]);
      assert chunks == short + [last];
      HashesJoin(Firsts(known, short), [last]);
    } else {
      assert HashesOf(chunks) == {};
    }
  }

  lemma HashesJoin(xs: seq<Chunk>, ys: seq<Chunk>)
    ensures HashesOf(xs + ys) == HashesOf(xs) + HashesOf(ys)
  {
    var all := xs + ys;
    forall h | h in HashesOf(xs) + HashesOf(ys)
      ensures h in HashesOf(all)
    {
      if h in HashesOf(xs) {
        var i :| 0 <= i < |xs| && xs[i].hash == h;
        assert all[i].hash == h;
      } else {
        var i :| 0 <= i < |ys| && ys[i].hash == h;
        assert all[|xs| + i].hash == h;
      }
    }
  }

  lemma {:induction false} DemandsAreNeeded(files: seq<File>, i: nat)
    requires i < |Demands(files)|
    ensures Demands(files)[i] <= HashesOf(Needed(files))
    decreases |files|
  {
    hide Firsts;
    var front, last := files[..|files| - 1], files[|files| - 1];
    FirstsCover(Needed(front), last.chunks);
    if i < |Demands(front)| {
      DemandsAreNeeded(front, i);
    }
  }

  /** As chunks arrive nothing that was done is undone, nothing exceeds its total, and with all of them there
    everything is done. */
  lemma ProgressGrows(files: seq<File>, have: set<Hash>, more: set<Hash>)
    requires have <= more
    ensures var p, q := ProgressOf(files, have), ProgressOf(files, more);
            && p.filesDone <= q.filesDone <= q.filesTotal && p.bytesDone <= q.bytesDone <= q.bytesTotal
            && p.filesTotal == q.filesTotal && p.bytesTotal == q.bytesTotal && p.cloudBytes == q.cloudBytes
            && (HashesOf(Needed(files)) <= more ==> q.filesDone == q.filesTotal && q.bytesDone == q.bytesTotal)
  {
    hide Needed, Demands, DoneCount, BytesIn;
    var needed, demands := Needed(files), Demands(files);
    var all := HashesOf(needed);
    DoneGrows(demands, have, more);
    DoneGrows(demands, more, more);
    BytesGrow(needed, have, more);
    BytesGrow(needed, more * all, all);
    BytesOfAll(needed, more * all, more);
    if all <= more {
      assert more * all == all;
      forall i | 0 <= i < |demands|
        ensures demands[i] <= more
      {
        DemandsAreNeeded(files, i);
      }
    }
  }

  // The counters themselves.

  /** The bookkeeping of a fetch: the distinct chunks in the order they were met, which of them are here, which are to
    be fetched, which counted files wait for a chunk, and for how many each still waits. */
  datatype Plan = Plan(sizes: seq<Chunk>, local: set<Hash>, missing: seq<Hash>, waiting: map<Hash, seq<nat>>,
                       remaining: seq<nat>, cloudBytes: nat)

  function WaitList(waiting: map<Hash, seq<nat>>, h: Hash): seq<nat> {
    if h in waiting then waiting[h] else []
  }

  function MissingOf(chunks: seq<Chunk>, store: set<Hash>): seq<Hash> {
    if chunks == [] then []
    else MissingOf(chunks[..|chunks| - 1], store)
         + if chunks[|chunks| - 1].hash in store then [] else [chunks[|chunks| - 1].hash]
  }

  /** Who waits for what: exactly the files that need a chunk that is not here, each once. */
  ghost predicate Waits(waiting: map<Hash, seq<nat>>, demands: seq<set<Hash>>, store: set<Hash>) {
    && (forall h :: Distinct(WaitList(waiting, h)))
    && forall h, i: nat :: WaitsAt(waiting, demands, store, h, i)
  }

  ghost predicate WaitsAt(waiting: map<Hash, seq<nat>>, demands: seq<set<Hash>>, store: set<Hash>, h: Hash, i: nat) {
    i in WaitList(waiting, h) <==> i < |demands| && h in demands[i] && h !in store
  }

  ghost predicate Counts(remaining: seq<nat>, demands: seq<set<Hash>>, have: set<Hash>) {
    |remaining| == |demands| && forall i :: 0 <= i < |demands| ==> remaining[i] == |demands[i] - have|
  }

  ghost predicate Planned(p: Plan, files: seq<File>, store: set<Hash>) {
    && p.sizes == Needed(files) && p.local == HashesOf(p.sizes) * store && p.missing == MissingOf(p.sizes, store)
    && Counts(p.remaining, Demands(files), store) && Waits(p.waiting, Demands(files), store)
    && p.cloudBytes == CloudBytes(files)
  }

  ghost predicate Listed(p: Plan, store: set<Hash>) {
    p.local == HashesOf(p.sizes) * store && p.missing == MissingOf(p.sizes, store)
  }

  method AddChunks(p: Plan, chunks: seq<Chunk>, store: set<Hash>) returns (r: Plan)
    requires Listed(p, store)
    ensures Listed(r, store) && r == p.(sizes := Firsts(p.sizes, chunks), local := r.local, missing := r.missing)
  {
    r := p;
    for k := 0 to |chunks|
      invariant Listed(r, store)
        && r == p.(sizes := Firsts(p.sizes, chunks[..k]), local := r.local, missing := r.missing)
    {
      hide HashesOf, Firsts, MissingOf;
      var chunk := chunks[k];
      FirstsNext(p.sizes, chunks, k);
      if chunk.hash !in HashesOf(r.sizes) {
        ListedNext(r, chunk, store);
        r := r.(sizes := r.sizes + [chunk],
                local := if chunk.hash in store then r.local + {chunk.hash} else r.local,
                missing := if chunk.hash in store then r.missing else r.missing + [chunk.hash]);
      }
    }
    assert chunks[..|chunks|] == chunks;
  }

  lemma FirstsNext(known: seq<Chunk>, chunks: seq<Chunk>, k: nat)
    requires k < |chunks|
    ensures var front := Firsts(known, chunks[..k]);
            Firsts(known, chunks[..k + 1]) == if chunks[k].hash in HashesOf(front) then front else front + [chunks[k]]
  {
    assert chunks[..k + 1][..k] == chunks[..k];
  }

  lemma ListedNext(p: Plan, chunk: Chunk, store: set<Hash>)
    requires Listed(p, store)
    ensures HashesOf(p.sizes + [chunk]) * store == if chunk.hash in store then p.local + {chunk.hash} else p.local
    ensures MissingOf(p.sizes + [chunk], store) == if chunk.hash in store then p.missing else p.missing + [chunk.hash]
  {
    HashesJoin(p.sizes, [chunk]);
    assert [chunk][0].hash in HashesOf([chunk]);
    assert (p.sizes + [chunk])[..|p.sizes|] == p.sizes;
  }

  method AddWaits(p: Plan, demand: set<Hash>, ghost demands: seq<set<Hash>>, store: set<Hash>) returns (r: Plan)
    requires Counts(p.remaining, demands, store) && Waits(p.waiting, demands, store)
    requires demand * store <= p.local <= store
    ensures r == p.(remaining := r.remaining, waiting := r.waiting)
    ensures Counts(r.remaining, demands + [demand], store) && Waits(r.waiting, demands + [demand], store)
  {
    hide Waits, Counts;
    assert |p.remaining| == |demands| by {
      CountsNext(p.remaining, demands, {}, store, 0);
    }
    var index := |p.remaining|;
    var count: nat, waiting: map<Hash, seq<nat>> := 0, p.waiting;
    var todo := demand;
    assert demand - todo == {};
    WaitsStart(waiting, demands, store);
    while todo != {}
      invariant todo <= demand && count == |demand - todo - store|
      invariant Waits(waiting, demands + [demand - todo], store)
    {
      var hash :| hash in todo;
      ghost var done := demand - todo;
      WaitsNext(waiting, demands, done, hash, store, index);
      todo := todo - {hash};
      assert demand - todo == done + {hash};
      LackNext(done, hash, store);
      if hash !in p.local {
        count := count + 1;
        waiting := waiting[hash := WaitList(waiting, hash) + [index]];
      }
    }
    assert demand - todo == demand;
    CountsNext(p.remaining, demands, demand, store, count);
    r := p.(remaining := p.remaining + [count], waiting := waiting);
  }

  lemma LackNext(done: set<Hash>, hash: Hash, store: set<Hash>)
    requires hash !in done
    ensures |done + {hash} - store| == |done - store| + if hash in store then 0 else 1
  {
    if hash in store {
      assert done + {hash} - store == done - store;
    } else {
      assert done + {hash} - store == (done - store) + {hash};
    }
  }

  lemma WaitsStart(waiting: map<Hash, seq<nat>>, demands: seq<set<Hash>>, store: set<Hash>)
    requires Waits(waiting, demands, store)
    ensures Waits(waiting, demands + [{}], store)
  {
    forall h, i: nat
      ensures WaitsAt(waiting, demands + [{}], store, h, i)
    {
      assert WaitsAt(waiting, demands, store, h, i);
    }
  }

  lemma CountsNext(remaining: seq<nat>, demands: seq<set<Hash>>, demand: set<Hash>, store: set<Hash>, count: nat)
    requires Counts(remaining, demands, store)
    ensures |remaining| == |demands|
    ensures count == |demand - store| ==> Counts(remaining + [count], demands + [demand], store)
  {
  }

  lemma WaitsNext(waiting: map<Hash, seq<nat>>, demands: seq<set<Hash>>, done: set<Hash>, hash: Hash, store: set<Hash>,
                  index: nat)
    requires Waits(waiting, demands + [done], store) && hash !in done && index == |demands|
    ensures hash in store ==> Waits(waiting, demands + [done + {hash}], store)
    ensures hash !in store ==>
      Waits(waiting[hash := WaitList(waiting, hash) + [index]], demands + [done + {hash}], store)
  {
    hide Distinct;
    var was, now := demands + [done], demands + [done + {hash}];
    var next := if hash in store then waiting else waiting[hash := WaitList(waiting, hash) + [index]];
    assert index !in WaitList(waiting, hash) by {
      assert WaitsAt(waiting, was, store, hash, index) && was[index] == done;
    }
    forall h
      ensures Distinct(WaitList(next, h))
    {
      assert Distinct(WaitList(waiting, h));
      if h == hash {
        DistinctSnoc(WaitList(waiting, hash), index);
      }
    }
    forall h, i: nat
      ensures WaitsAt(next, now, store, h, i)
    {
      assert WaitsAt(waiting, was, store, h, i);
    }
  }

  lemma DistinctSnoc(s: seq<nat>, x: nat)
    requires Distinct(s) && x !in s
    ensures Distinct(s + [x])
  {
  }

  method MakePlan(files: seq<File>, store: set<Hash>) returns (p: Plan)
    ensures Planned(p, files, store)
  {
    p := Plan([], {}, [], map[], [], 0);
    for k := 0 to |files|
      invariant Planned(p, files[..k], store)
    {
      hide Needed, Demands, CloudBytes, Firsts, MissingOf, Waits, Counts, HashesOf;
      var file := files[k];
      PlanNext(files, k);
      if !file.wanted {
        p := p.(cloudBytes := p.cloudBytes + if file.counted then file.size else 0);
      } else {
        FirstsCover(p.sizes, file.chunks);
        p := AddChunks(p, file.chunks, store);
        if file.counted {
          p := AddWaits(p, HashesOf(file.chunks), Demands(files[..k]), store);
        }
      }
    }
    assert files[..|files|] == files;
  }

  lemma PlanNext(files: seq<File>, k: nat)
    requires k < |files|
    ensures var front, next, file := files[..k], files[..k + 1], files[k];
            && Needed(next) == (if file.wanted then Firsts(Needed(front), file.chunks) else Needed(front))
            && Demands(next)
              == (if file.wanted && file.counted then Demands(front) + [HashesOf(file.chunks)] else Demands(front))
            && CloudBytes(next) == CloudBytes(front) + if !file.wanted && file.counted then file.size else 0
  {
    assert files[..k + 1][..k] == files[..k];
  }

  // Storing.

  function ZeroCount(remaining: seq<nat>): nat {
    if remaining == [] then 0
    else ZeroCount(remaining[..|remaining| - 1]) + if remaining[|remaining| - 1] == 0 then 1 else 0
  }

  lemma {:induction false} ZeroIsDone(remaining: seq<nat>, demands: seq<set<Hash>>, have: set<Hash>)
    requires Counts(remaining, demands, have)
    ensures ZeroCount(remaining) == DoneCount(demands, have)
    decreases |demands|
  {
    if demands != [] {
      var n := |demands| - 1;
      ZeroIsDone(remaining[..n], demands[..n], have);
      var lacking := demands[n] - have;
      assert demands[n] <= have ==> lacking == {};
      assert demands[n] == lacking + demands[n] * have;
    }
  }

  lemma {:induction false} ZeroNext(remaining: seq<nat>, i: nat, v: nat)
    requires i < |remaining|
    ensures ZeroCount(remaining[i := v])
         == ZeroCount(remaining) + (if v == 0 then 1 else 0) - (if remaining[i] == 0 then 1 else 0)
    decreases |remaining|
  {
    var n := |remaining| - 1;
    var next := remaining[i := v];
    if i < n {
      ZeroNext(remaining[..n], i, v);
      assert next[..n] == remaining[..n][i := v];
    } else {
      assert next[..n] == remaining[..n];
    }
  }

  /** The counters while `h` is being told to the first `j` files that wait for it. */
  ghost predicate Telling(remaining: seq<nat>, demands: seq<set<Hash>>, have: set<Hash>, list: seq<nat>, j: nat)
    requires j <= |list|
  {
    && |remaining| == |demands|
    && forall i :: 0 <= i < |demands| ==> remaining[i] == |demands[i] - have| - if i in list[..j] then 1 else 0
  }

  method Tell(list: seq<nat>, before: seq<nat>, done: nat, ghost demands: seq<set<Hash>>, ghost have: set<Hash>,
              ghost h: Hash)
    returns (remaining: seq<nat>, filesDone: nat)
    requires Counts(before, demands, have) && done == ZeroCount(before) && h !in have && Distinct(list)
    requires forall i: nat :: i in list <==> i < |demands| && h in demands[i]
    ensures Counts(remaining, demands, have + {h}) && filesDone == ZeroCount(remaining)
  {
    hide ZeroCount;
    remaining, filesDone := before, done;
    for j := 0 to |list|
      invariant Telling(remaining, demands, have, list, j) && filesDone == ZeroCount(remaining)
    {
      var index := list[j];
      TellNext(remaining, demands, have, list, j, h);
      ZeroNext(remaining, index, remaining[index] - 1);
      remaining := remaining[index := remaining[index] - 1];
      if remaining[index] == 0 {
        filesDone := filesDone + 1;
      }
    }
    Told(remaining, demands, have, list, h);
  }

  lemma TellNext(remaining: seq<nat>, demands: seq<set<Hash>>, have: set<Hash>, list: seq<nat>, j: nat, h: Hash)
    requires j < |list| && Distinct(list) && h !in have && Telling(remaining, demands, have, list, j)
    requires forall i: nat :: i in list <==> i < |demands| && h in demands[i]
    ensures list[j] < |remaining| && remaining[list[j]] > 0
    ensures Telling(remaining[list[j] := remaining[list[j]] - 1], demands, have, list, j + 1)
  {
    assert list[j] in list;
    assert list[..j + 1] == list[..j] + [list[j]];
    assert list[j] !in list[..j];
    assert h in demands[list[j]] - have;
  }

  lemma Told(remaining: seq<nat>, demands: seq<set<Hash>>, have: set<Hash>, list: seq<nat>, h: Hash)
    requires Telling(remaining, demands, have, list, |list|) && h !in have
    requires forall i: nat :: i in list <==> i < |demands| && h in demands[i]
    ensures Counts(remaining, demands, have + {h})
  {
    assert list[..|list|] == list;
    forall i | 0 <= i < |demands|
      ensures remaining[i] == |demands[i] - (have + {h})|
    {
      if h in demands[i] {
        assert demands[i] - have == (demands[i] - (have + {h})) + {h};
      } else {
        assert demands[i] - have == demands[i] - (have + {h});
      }
    }
  }

  ghost predicate OncePer(chunks: seq<Chunk>) {
    forall i, j :: 0 <= i < j < |chunks| ==> chunks[i].hash != chunks[j].hash
  }

  lemma {:induction false} FirstsOnce(known: seq<Chunk>, chunks: seq<Chunk>)
    requires OncePer(known)
    ensures OncePer(Firsts(known, chunks))
    decreases |chunks|
  {
    if chunks != [] {
      FirstsOnce(known, chunks[..|chunks| - 1]);
    }
  }

  lemma {:induction false} NeededOnce(files: seq<File>)
    ensures OncePer(Needed(files))
    decreases |files|
  {
    if files != [] {
      var front := files[..|files| - 1];
      NeededOnce(front);
      FirstsOnce(Needed(front), files[|files| - 1].chunks);
    }
  }

  lemma {:induction false} MissingAre(chunks: seq<Chunk>, store: set<Hash>)
    requires OncePer(chunks)
    ensures Distinct(MissingOf(chunks, store))
    ensures forall h :: h in MissingOf(chunks, store) <==> h in HashesOf(chunks) && h !in store
    decreases |chunks|
  {
    if chunks != [] {
      var front, last := chunks[..|chunks| - 1], chunks[|chunks| - 1];
      MissingAre(front, store);
      HashesJoin(front, [last]);
      assert chunks == front + [last];
      assert last.hash !in HashesOf(front);
    } else {
      assert HashesOf(chunks) == {};
    }
  }

  function SizeOf(chunks: seq<Chunk>, h: Hash): nat {
    if chunks == [] then 0
    else if chunks[|chunks| - 1].hash == h then chunks[|chunks| - 1].size else SizeOf(chunks[..|chunks| - 1], h)
  }

  lemma {:induction false} BytesNext(chunks: seq<Chunk>, have: set<Hash>, h: Hash)
    requires OncePer(chunks) && h !in have
    ensures BytesIn(chunks, have + {h}) == BytesIn(chunks, have) + SizeOf(chunks, h)
    decreases |chunks|
  {
    if chunks != [] {
      var front, last := chunks[..|chunks| - 1], chunks[|chunks| - 1];
      if last.hash == h {
        BytesOfAll(front, have + {h}, have);
      } else {
        BytesNext(front, have, h);
      }
    }
  }

  method InitialBytes(sizes: seq<Chunk>, local: set<Hash>) returns (bytesTotal: nat, bytesDone: nat)
    ensures bytesTotal == BytesIn(sizes, HashesOf(sizes)) && bytesDone == BytesIn(sizes, local)
  {
    bytesTotal, bytesDone := 0, 0;
    for k := 0 to |sizes|
      invariant bytesTotal == BytesIn(sizes[..k], HashesOf(sizes)) && bytesDone == BytesIn(sizes[..k], local)
    {
      assert sizes[..k + 1][..k] == sizes[..k];
      assert sizes[k].hash in HashesOf(sizes);
      bytesTotal := bytesTotal + sizes[k].size;
      if sizes[k].hash in local {
        bytesDone := bytesDone + sizes[k].size;
      }
    }
    assert sizes[..|sizes|] == sizes;
  }

  /** What the store has when the first `n` of the missing chunks were stored. */
  function After(store: set<Hash>, missing: seq<Hash>, n: nat): set<Hash>
    requires n <= |missing|
  {
    store + set h | h in missing[..n]
  }

  /** How many of `n` chunks were asked for when `k` batches were. */
  function Batched(k: nat, n: nat): nat {
    if k * GET_BATCH < n then k * GET_BATCH else n
  }

  ghost predicate Counters(p: Plan, files: seq<File>, store: set<Hash>, have: set<Hash>, remaining: seq<nat>,
                           filesDone: nat, bytesDone: nat) {
    && Counts(remaining, Demands(files), have) && filesDone == ZeroCount(remaining)
      && bytesDone == BytesIn(p.sizes, have)
  }

  lemma CountersRead(p: Plan, files: seq<File>, store: set<Hash>, have: set<Hash>, remaining: seq<nat>, filesDone: nat,
                     bytesDone: nat, bytesTotal: nat)
    requires Planned(p, files, store) && Counters(p, files, store, have, remaining, filesDone, bytesDone)
    requires bytesTotal == BytesIn(p.sizes, HashesOf(p.sizes))
    ensures Progress(filesDone, |remaining|, bytesDone, bytesTotal, p.cloudBytes) == ProgressOf(files, have)
  {
    hide Needed, Demands, CloudBytes, BytesIn, ZeroCount, DoneCount;
    ZeroIsDone(remaining, Demands(files), have);
  }

  lemma WaitersOf(waiting: map<Hash, seq<nat>>, demands: seq<set<Hash>>, store: set<Hash>, h: Hash)
    requires Waits(waiting, demands, store) && h !in store
    ensures Distinct(WaitList(waiting, h))
    ensures forall i: nat :: i in WaitList(waiting, h) <==> i < |demands| && h in demands[i]
  {
    forall i: nat
      ensures i in WaitList(waiting, h) <==> i < |demands| && h in demands[i]
    {
      assert WaitsAt(waiting, demands, store, h, i);
    }
  }

  /** One more chunk of the batch just stored. */
  method CountOne(p: Plan, ghost files: seq<File>, ghost store: set<Hash>, ghost n: nat, h: Hash, before: seq<nat>,
                  done: nat, bytes: nat)
    returns (remaining: seq<nat>, filesDone: nat, bytesDone: nat)
    requires Planned(p, files, store) && n < |p.missing| && h == p.missing[n]
    requires Counters(p, files, store, After(store, p.missing, n), before, done, bytes)
    ensures Counters(p, files, store, After(store, p.missing, n + 1), remaining, filesDone, bytesDone)
  {
    hide Needed, Demands, CloudBytes, BytesIn, ZeroCount, Counts, MissingOf, HashesOf;
    NeededOnce(files);
    MissingAre(p.sizes, store);
    assert p.missing[..n + 1] == p.missing[..n] + [h];
    ghost var have := After(store, p.missing, n);
    assert have + {h} == After(store, p.missing, n + 1);
    assert h in p.missing && h !in store;
    WaitersOf(p.waiting, Demands(files), store, h);
    BytesNext(p.sizes, have, h);
    bytesDone := bytes + SizeOf(p.sizes, h);
    remaining, filesDone := Tell(WaitList(p.waiting, h), before, done, Demands(files), have, h);
  }

  lemma StartCounters(p: Plan, files: seq<File>, store: set<Hash>)
    requires Planned(p, files, store)
    ensures Counters(p, files, store, After(store, p.missing, 0), p.remaining, ZeroCount(p.remaining),
                     BytesIn(p.sizes, p.local))
  {
    hide Needed, Demands, CloudBytes, BytesIn, ZeroCount, MissingOf;
    assert After(store, p.missing, 0) == store;
    BytesOfAll(p.sizes, p.local, store);
  }

  /** Whether the remote has a chunk, and has under its address what hashes to it. */
  predicate Served(remote: map<Hash, Hash>, h: Hash) {
    h in remote && remote[h] == h
  }

  /** The store after a fetch, and what was reported: after each batch, what there is to report of the chunks then
    here. */
  ghost predicate Reported(files: seq<File>, store: set<Hash>, reports: seq<Progress>) {
    var missing := MissingOf(Needed(files), store);
    forall k :: 0 <= k < |reports| ==> reports[k] == ProgressOf(files, After(store, missing, Batched(k, |missing|)))
  }

  method FetchChunks(files: seq<File>, store: set<Hash>, remote: map<Hash, Hash>)
    returns (result: Fetched, after: set<Hash>, reports: seq<Progress>)
    ensures reports != [] && Reported(files, store, reports)
    ensures store <= after <= store + HashesOf(Needed(files))
    ensures result.AllStored? <==> forall h :: h in HashesOf(Needed(files)) && h !in store ==> Served(remote, h)
    ensures result.AllStored? ==>
      after == store + HashesOf(Needed(files)) && reports[|reports| - 1] == ProgressOf(files, after)
    ensures !result.AllStored? ==>
      exists n :: StoppedAt(MissingOf(Needed(files), store), store, remote, after, result, n)
  {
    hide Needed, Demands, CloudBytes, BytesIn, ZeroCount, Counts, MissingOf, HashesOf, Waits, Counters, ProgressOf,
      Planned;
    var p := MakePlan(files, store);
    PlanFacts(p, files, store);
    var bytesTotal, bytesDone := InitialBytes(p.sizes, p.local);
    var remaining, filesDone := p.remaining, ZeroCount(p.remaining);
    StartCounters(p, files, store);
    CountersRead(p, files, store, After(store, p.missing, 0), remaining, filesDone, bytesDone, bytesTotal);
    reports := [Progress(filesDone, |remaining|, bytesDone, bytesTotal, p.cloudBytes)];
    after := store;
    var i := 0;
    assert p.missing[..0] == [];
    while i < |p.missing|
      invariant |reports| > 0 && 0 <= i <= |p.missing| && i == Batched(|reports| - 1, |p.missing|)
      invariant after == After(store, p.missing, i)
      invariant Counters(p, files, store, after, remaining, filesDone, bytesDone)
      invariant forall n :: 0 <= n < i ==> Served(remote, p.missing[n])
      invariant Reported(files, store, reports)
      invariant reports[|reports| - 1] == ProgressOf(files, after)
    {
      var end := if i + GET_BATCH < |p.missing| then i + GET_BATCH else |p.missing|;
      var stored, now := StoreBatch(p.missing, i, end, store, after, remote);
      after := now;
      if !stored.AllStored? {
        ghost var n :| i <= n < end && StoppedAt(p.missing, store, remote, after, stored, n);
        return stored, after, reports;
      }
      for n := i to end
        invariant Counters(p, files, store, After(store, p.missing, n), remaining, filesDone, bytesDone)
      {
        remaining, filesDone, bytesDone := CountOne(p, files, store, n, p.missing[n], remaining, filesDone, bytesDone);
      }
      CountersRead(p, files, store, after, remaining, filesDone, bytesDone, bytesTotal);
      reports := reports + [Progress(filesDone, |remaining|, bytesDone, bytesTotal, p.cloudBytes)];
      i := end;
    }
    result := AllStored;
    assert p.missing[..i] == p.missing;
  }

  /** A fetch that failed at the `n`th missing chunk, which is not served or does not hash to its address, and kept all
    that came before. */
  ghost predicate StoppedAt(missing: seq<Hash>, store: set<Hash>, remote: map<Hash, Hash>, after: set<Hash>,
                            result: Fetched, n: int) {
    && 0 <= n < |missing|
    && (forall k :: 0 <= k < n ==> missing[k] in remote && remote[missing[k]] == missing[k])
    && (forall h :: h in after <==> h in store || exists k :: 0 <= k < n && missing[k] == h)
    && result == (if missing[n] in remote then IntegrityFailed else MissingOnRemote)
    && (missing[n] in remote ==> remote[missing[n]] != missing[n])
  }

  /** Verifies and stores one batch, up to the first chunk that is not there or not what its address says. */
  method StoreBatch(missing: seq<Hash>, i: nat, end: nat, ghost store: set<Hash>, before: set<Hash>,
                    remote: map<Hash, Hash>)
    returns (result: Fetched, after: set<Hash>)
    requires i <= end <= |missing| && before == After(store, missing, i)
    requires forall n :: 0 <= n < i ==> Served(remote, missing[n])
    ensures !result.AllStored? ==> exists n :: i <= n < end && StoppedAt(missing, store, remote, after, result, n)
    ensures result.AllStored? <==> forall n :: i <= n < end ==> Served(remote, missing[n])
    ensures result.AllStored? ==> after == After(store, missing, end)
    ensures before <= after <= After(store, missing, end)
  {
    after := before;
    for n := i to end
      invariant after == After(store, missing, n) && before <= after
      invariant forall m :: i <= m < n ==> Served(remote, missing[m])
    {
      var hash := missing[n];
      assert missing[..n + 1] == missing[..n] + [hash];
      if hash !in remote {
        assert StoppedAt(missing, store, remote, after, MissingOnRemote, n);
        return MissingOnRemote, after;
      }
      if remote[hash] != hash {
        assert StoppedAt(missing, store, remote, after, IntegrityFailed, n);
        return IntegrityFailed, after;
      }
      after := after + {hash};
    }
    return AllStored, after;
  }

  lemma PlanFacts(p: Plan, files: seq<File>, store: set<Hash>)
    requires Planned(p, files, store)
    ensures p.sizes == Needed(files) && p.missing == MissingOf(Needed(files), store)
    ensures forall h :: h in p.missing <==> h in HashesOf(Needed(files)) && h !in store
  {
    hide Needed, MissingOf, Demands, CloudBytes;
    NeededOnce(files);
    MissingAre(p.sizes, store);
  }

  // What the numbers are.

  /** What is needed is what wanted files list, with the sizes they list. */
  lemma {:induction false} NeededIsListed(files: seq<File>, c: Chunk)
    requires c in Needed(files)
    ensures exists i :: 0 <= i < |files| && files[i].wanted && c in files[i].chunks
    decreases |files|
  {
    hide Firsts;
    var front, last := files[..|files| - 1], files[|files| - 1];
    if c in Needed(front) {
      NeededIsListed(front, c);
      var i :| 0 <= i < |front| && front[i].wanted && c in front[i].chunks;
      assert files[i] == front[i];
    } else {
      FirstsAreListed(Needed(front), last.chunks, c);
      assert files[|files| - 1] == last;
    }
  }

  lemma {:induction false} FirstsAreListed(known: seq<Chunk>, chunks: seq<Chunk>, c: Chunk)
    requires c in Firsts(known, chunks)
    ensures c in known || c in chunks
    decreases |chunks|
  {
    if chunks != [] {
      var front, last := chunks[..|chunks| - 1], chunks[|chunks| - 1];
      if c in Firsts(known, front) {
        FirstsAreListed(known, front, c);
      }
    }
  }

  /** Bytes start at none, and every needed chunk that comes adds its size, once; all together they are the total. */
  lemma ChunkCounts(files: seq<File>, have: set<Hash>, c: Chunk)
    requires c in Needed(files) && c.hash !in have
    ensures ProgressOf(files, {}).bytesDone == 0
    ensures ProgressOf(files, have + {c.hash}).bytesDone == ProgressOf(files, have).bytesDone + c.size
    ensures HashesOf(Needed(files)) <= have ==> ProgressOf(files, have).bytesDone == ProgressOf(files, have).bytesTotal
  {
    hide Needed, Demands, DoneCount, CloudBytes;
    NeededOnce(files);
    NoBytes(Needed(files));
    BytesNext(Needed(files), have, c.hash);
    SizeIs(Needed(files), c);
  }

  lemma {:induction false} NoBytes(chunks: seq<Chunk>)
    ensures BytesIn(chunks, {}) == 0
    decreases |chunks|
  {
    if chunks != [] {
      NoBytes(chunks[..|chunks| - 1]);
    }
  }

  lemma {:induction false} SizeIs(chunks: seq<Chunk>, c: Chunk)
    requires OncePer(chunks) && c in chunks
    ensures SizeOf(chunks, c.hash) == c.size
    decreases |chunks|
  {
    var front, last := chunks[..|chunks| - 1], chunks[|chunks| - 1];
    if last.hash == c.hash {
      var i :| 0 <= i < |chunks| && chunks[i] == c;
    } else {
      SizeIs(front, c);
    }
  }

  /** The files that are counted and wanted. */
  ghost function Wanted(files: seq<File>): (r: set<int>)
    ensures forall i :: i in r <==> 0 <= i < |files| && files[i].wanted && files[i].counted
  {
    set i | 0 <= i < |files| && files[i].wanted && files[i].counted
  }

  /** Those of them of which every chunk is there. */
  ghost function Complete(files: seq<File>, have: set<Hash>): (r: set<int>)
    ensures forall i :: i in r <==> i in Wanted(files) && forall c :: c in files[i].chunks ==> c.hash in have
  {
    set i | i in Wanted(files) && forall c :: c in files[i].chunks ==> c.hash in have
  }

  /** Files are counted by what they need: the total is the vault's files this device wants, and those are done whose
    every chunk is there. */
  lemma {:induction false} FilesCounted(files: seq<File>, have: set<Hash>)
    ensures ProgressOf(files, have).filesTotal == |Wanted(files)|
    ensures ProgressOf(files, have).filesDone == |Complete(files, have)|
    decreases |files|
  {
    hide Needed, BytesIn, CloudBytes;
    if files == [] {
      assert Wanted(files) == {} && Complete(files, have) == {};
    } else {
      var n := |files| - 1;
      var front, last := files[..n], files[n];
      FilesCounted(front, have);
      OneFileMore(files, have);
      HashesHad(last.chunks, have);
      DemandsNext(files);
    }
  }

  lemma DemandsNext(files: seq<File>)
    requires files != []
    ensures var front, last := Demands(files[..|files| - 1]), files[|files| - 1];
            && Demands(files) == (if last.wanted && last.counted then front + [HashesOf(last.chunks)] else front)
            && forall have :: DoneCount(Demands(files), have) == DoneCount(front, have)
                 + if last.wanted && last.counted && HashesOf(last.chunks) <= have then 1 else 0
  {
    hide HashesOf;
    var front, last := Demands(files[..|files| - 1]), files[|files| - 1];
    assert (front + [HashesOf(last.chunks)])[..|front|] == front;
  }

  lemma HashesHad(chunks: seq<Chunk>, have: set<Hash>)
    ensures HashesOf(chunks) <= have <==> forall c :: c in chunks ==> c.hash in have
  {
    if HashesOf(chunks) <= have {
      forall c | c in chunks
        ensures c.hash in have
      {
        assert c.hash in HashesOf(chunks);
      }
    }
  }

  lemma OneFileMore(files: seq<File>, have: set<Hash>)
    requires files != []
    ensures var front, last := files[..|files| - 1], files[|files| - 1];
            && |Wanted(files)| == |Wanted(front)| + (if last.wanted && last.counted then 1 else 0)
            && |Complete(files, have)| == |Complete(front, have)|
                 + if last.wanted && last.counted && forall c :: c in last.chunks ==> c.hash in have then 1 else 0
  {
    hide Wanted, Complete;
    var n := |files| - 1;
    var front, last := files[..n], files[n];
    forall i
      ensures i in Wanted(files) <==> i in Wanted(front) || (i == n && last.wanted && last.counted)
    {
      assert 0 <= i < n ==> front[i] == files[i];
    }
    forall i
      ensures i in Complete(files, have) <==>
        i in Complete(front, have) || (i == n && n in Wanted(files) && forall c :: c in last.chunks ==> c.hash in have)
    {
      assert 0 <= i < n ==> front[i] == files[i];
    }
    OneIn(Wanted(files), Wanted(front), n, last.wanted && last.counted);
    OneIn(Complete(files, have), Complete(front, have), n,
          n in Wanted(files) && forall c :: c in last.chunks ==> c.hash in have);
  }

  lemma OneIn(all: set<int>, front: set<int>, n: int, yes: bool)
    requires n !in front && forall i :: i in all <==> i in front || (i == n && yes)
    ensures |all| == |front| + if yes then 1 else 0
  {
    var same := if yes then front + {n} else front;
    assert forall i :: i in all ==> i in same;
    assert forall i :: i in same ==> i in all;
    assert all <= same <= all;
    assert all == same;
  }

  /** Reports never go back and never exceed their totals, and a report made with every needed chunk here is full. */
  lemma ReportsRise(files: seq<File>, store: set<Hash>, reports: seq<Progress>, i: nat, j: nat)
    requires Reported(files, store, reports) && i <= j < |reports|
    ensures reports[i].filesDone <= reports[j].filesDone <= reports[j].filesTotal
    ensures reports[i].bytesDone <= reports[j].bytesDone <= reports[j].bytesTotal
    ensures reports[i].filesTotal == reports[j].filesTotal && reports[i].bytesTotal == reports[j].bytesTotal
    ensures Batched(j, |MissingOf(Needed(files), store)|) == |MissingOf(Needed(files), store)| ==>
      reports[j].filesDone == reports[j].filesTotal && reports[j].bytesDone == reports[j].bytesTotal
  {
    hide Needed, MissingOf, ProgressOf, HashesOf;
    var missing := MissingOf(Needed(files), store);
    var n, m := Batched(i, |missing|), Batched(j, |missing|);
    ProgressGrows(files, After(store, missing, n), After(store, missing, m));
    NeededOnce(files);
    MissingAre(Needed(files), store);
    if m == |missing| {
      assert missing[..m] == missing;
      assert HashesOf(Needed(files)) <= After(store, missing, m);
    }
  }
}
