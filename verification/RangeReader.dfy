/** Reading a slice of a file that is stored in chunks. */
module RangeReader {
  import opened Wrappers
  import opened Snapshots

  newtype Byte = x: int | 0 <= x < 256

  type Bytes = seq<Byte>

  datatype Chunk = Chunk(hash: Hash, size: Option<int>)

  datatype File = File(hash: Hash, size: Option<int>, chunks: seq<Chunk>)

  datatype Span = Span(chunk: Chunk, start: nat, end: nat)

  datatype Layout = Spans(spans: seq<Span>) | Legacy | Refused

  datatype Result<T> = Ok(value: T) | BadRange | Unavailable | SizeMismatch | ShortRead | BadHash

  /** The addresses' contents, one after the other. */
  function Whole(chunks: seq<Chunk>, content: map<Hash, Bytes>): Bytes
    requires forall i :: 0 <= i < |chunks| ==> chunks[i].hash in content
  {
    if chunks == [] then [] else Whole(chunks[..|chunks| - 1], content) + content[chunks[|chunks| - 1].hash]
  }

  /** Where chunk `k` begins, by the declared sizes. */
  function Offset(chunks: seq<Chunk>, k: nat): int
    requires k <= |chunks|
  {
    if k == 0 then 0 else Offset(chunks, k - 1) + if chunks[k - 1].size.Some? then chunks[k - 1].size.value else 0
  }

  /** Sizes a manifest may declare: all there, all non-negative, small enough, and adding up to the file's. */
  predicate Declared(file: File) {
    && (forall i :: 0 <= i < |file.chunks| ==> file.chunks[i].size.Some? && 0 <= file.chunks[i].size.value)
    && Offset(file.chunks, |file.chunks|) <= MAX_SAFE
    && (file.size.Some? ==> file.size.value == Offset(file.chunks, |file.chunks|))
  }

  lemma {:induction false} OffsetsGrow(file: File, j: nat, k: nat)
    requires j <= k <= |file.chunks|
    requires forall i :: 0 <= i < k ==> file.chunks[i].size.Some? && 0 <= file.chunks[i].size.value
    ensures 0 <= Offset(file.chunks, j) <= Offset(file.chunks, k)
    decreases k
  {
    if k > j {
      OffsetsGrow(file, j, k - 1);
    } else if k > 0 {
      OffsetsGrow(file, j - 1, k - 1);
    }
  }

  /** The spans of a file whose sizes are all declared; `Legacy` when some are not; `Refused` when they make no
    sense. */
  method BuildSpans(file: File) returns (layout: Layout)
    ensures layout.Legacy? <==> exists i :: 0 <= i < |file.chunks| && file.chunks[i].size.None?
    ensures layout.Spans? <==> Declared(file)
    ensures layout.Spans? ==> Laid(layout.spans, file, |file.chunks|)
  {
    hide Declared, Offset;
    if exists i :: 0 <= i < |file.chunks| && file.chunks[i].size.None? {
      NotDeclared(file);
      return Legacy;
    }
    if file.size.Some? && !(0 <= file.size.value <= MAX_SAFE) {
      NotDeclared(file);
      return Refused;
    }
    var running: nat, spans: seq<Span> := 0, [];
    NoOffset(file.chunks);
    for k := 0 to |file.chunks|
      invariant running == Offset(file.chunks, k) <= MAX_SAFE && |spans| == k
      invariant forall i :: 0 <= i < k ==> 0 <= file.chunks[i].size.value
      invariant Laid(spans, file, k)
    {
      var size := file.chunks[k].size.value;
      DeclaredUpTo(file, k);
      if !(0 <= size <= MAX_SAFE) || running + size > MAX_SAFE {
        return Refused;
      }
      spans := spans + [Span(file.chunks[k], running, running + size)];
      running := running + size;
    }
    DeclaredIff(file);
    return if file.size.Some? && running != file.size.value then Refused else Spans(spans);
  }

  lemma NoOffset(chunks: seq<Chunk>)
    ensures Offset(chunks, 0) == 0
  {
  }

  lemma NotDeclared(file: File)
    requires || (exists i :: 0 <= i < |file.chunks| && file.chunks[i].size.None?)
             || (file.size.Some? && !(0 <= file.size.value <= MAX_SAFE))
    ensures !Declared(file)
  {
    if Declared(file) {
      OffsetsGrow(file, 0, |file.chunks|);
    }
  }

  lemma DeclaredUpTo(file: File, k: nat)
    requires k < |file.chunks| && file.chunks[k].size.Some?
    ensures Offset(file.chunks, k + 1) == Offset(file.chunks, k) + file.chunks[k].size.value
    ensures Declared(file) ==>
      0 <= file.chunks[k].size.value && 0 <= Offset(file.chunks, k) <= Offset(file.chunks, k + 1) <= MAX_SAFE
  {
    if Declared(file) {
      OffsetsGrow(file, 0, k);
      OffsetsGrow(file, k, k + 1);
      OffsetsGrow(file, k + 1, |file.chunks|);
    }
  }

  lemma DeclaredIff(file: File)
    requires forall i :: 0 <= i < |file.chunks| ==> file.chunks[i].size.Some? && 0 <= file.chunks[i].size.value
    requires Offset(file.chunks, |file.chunks|) <= MAX_SAFE
    ensures Declared(file) <==> (file.size.Some? ==> file.size.value == Offset(file.chunks, |file.chunks|))
  {
  }

  /** The first `n` chunks have their spans. */
  ghost predicate Laid(spans: seq<Span>, file: File, n: nat) {
    n <= |file.chunks| && |spans| == n && forall i :: 0 <= i < n ==>
      && spans[i].chunk == file.chunks[i]
      && spans[i].start == Offset(file.chunks, i) && spans[i].end == Offset(file.chunks, i + 1)
  }

  /** The range grammar: a negative offset counts from the end, and nothing reaches past it. */
  function ResolveRange(size: nat, offset: int, length: Option<int>): (r: Option<(nat, nat)>)
    ensures r.Some? <==> (length.Some? ==> 0 <= length.value && 0 <= offset)
    ensures r.Some? ==> r.value.0 <= size && r.value.1 <= size
    ensures r.Some? && offset < 0 ==>
      r.value.1 == size && (r.value.0 == size + offset || (r.value.0 == 0 && size + offset < 0))
    ensures r.Some? && 0 <= offset <= size ==> r.value.0 == offset <= r.value.1
    ensures r.Some? && 0 <= offset && offset > size ==> r.value == (size, size)
    ensures r.Some? && 0 <= offset && length.Some? && offset + length.value <= size ==>
      r.value.1 == offset + length.value
    ensures r.Some? && 0 <= offset && (length.None? || offset + length.value > size) ==> r.value.1 == size
  {
    if length.Some? && length.value < 0 then None
    else if offset < 0 then
      if length.Some? then None else Some((if size + offset < 0 then 0 else size + offset, size))
    else
      var start := if offset < size then offset else size;
      var end := if length.None? || start + length.value > size then size else start + length.value;
      Some((start, end))
  }

  /** Whether a span has bytes to give to a range, or is empty and strictly inside it. */
  predicate Meets(span: Span, start: nat, end: nat) {
    span.end > start && span.start < end
  }

  ghost predicate Within(k: int, start: nat, end: nat) {
    start <= k < end
  }

  /** A chunk that has bytes is met exactly when one of them is in the range. */
  lemma MeetsABytes(span: Span, start: nat, end: nat)
    requires span.start < span.end && start < end
    ensures Meets(span, start, end) <==> exists k :: Within(k, start, end) && Within(k, span.start, span.end)
  {
    var first := if span.start < start then start else span.start;
    if Meets(span, start, end) {
      assert Within(first, start, end) && Within(first, span.start, span.end);
    }
  }

  ghost predicate SizesMatch(file: File, content: map<Hash, Bytes>)
    requires forall i :: 0 <= i < |file.chunks| ==> file.chunks[i].hash in content
  {
    forall i :: 0 <= i < |file.chunks| ==> file.chunks[i].size == Some(|content[file.chunks[i].hash]|)
  }

  function Clamp(x: int, lo: int, hi: int): int {
    if x < lo then lo else if x > hi then hi else x
  }

  lemma {:induction false} WholeParts(file: File, content: map<Hash, Bytes>, k: nat)
    requires forall i :: 0 <= i < |file.chunks| ==> file.chunks[i].hash in content
    requires SizesMatch(file, content) && k <= |file.chunks|
    ensures |Whole(file.chunks[..k], content)| == Offset(file.chunks, k)
    ensures k < |file.chunks| ==>
      && Whole(file.chunks[..k + 1], content) == Whole(file.chunks[..k], content) + content[file.chunks[k].hash]
      && |Whole(file.chunks[..k + 1], content)| == Offset(file.chunks, k + 1)
    decreases k
  {
    if k > 0 {
      WholeParts(file, content, k - 1);
    }
    if k < |file.chunks| {
      assert file.chunks[..k + 1][..k] == file.chunks[..k];
    }
  }

  lemma {:induction false} WholeStarts(file: File, content: map<Hash, Bytes>, k: nat, n: nat)
    requires forall i :: 0 <= i < |file.chunks| ==> file.chunks[i].hash in content
    requires SizesMatch(file, content) && k <= n <= |file.chunks|
    ensures Whole(file.chunks[..k], content) <= Whole(file.chunks[..n], content)
    decreases n
  {
    if k < n {
      WholeStarts(file, content, k, n - 1);
      WholeParts(file, content, n - 1);
    }
  }

  lemma WholeNext(chunks: seq<Chunk>, content: map<Hash, Bytes>, k: nat)
    requires (forall i :: 0 <= i < |chunks| ==> chunks[i].hash in content) && k < |chunks|
    ensures Whole(chunks[..k + 1], content) == Whole(chunks[..k], content) + content[chunks[k].hash]
  {
    assert chunks[..k + 1][..k] == chunks[..k];
  }

  /** Chunk `k` stands at its offset. */
  lemma ChunkAt(file: File, content: map<Hash, Bytes>, k: nat)
    requires forall i :: 0 <= i < |file.chunks| ==> file.chunks[i].hash in content
    requires SizesMatch(file, content) && k < |file.chunks|
    ensures var all := Whole(file.chunks, content);
            0 <= Offset(file.chunks, k) <= Offset(file.chunks, k + 1) <= |all|
            && all[Offset(file.chunks, k)..Offset(file.chunks, k + 1)] == content[file.chunks[k].hash]
  {
    hide Whole, Offset;
    var n := |file.chunks|;
    assert file.chunks[..n] == file.chunks;
    WholeParts(file, content, k);
    WholeStarts(file, content, k + 1, n);
    var here, there := Whole(file.chunks[..k], content), Whole(file.chunks[..k + 1], content);
    assert there[|here|..|there|] == content[file.chunks[k].hash];
  }

  /** A reader of one manifest entry, over a store that holds what its addresses say. */
  class SnapshotRangeReader {
    const file: File
    const layout: Layout
    /** Whether there is a server to fetch from, and what it has. */
    const online: bool
    const remote: map<Hash, Bytes>
    const sha256: Bytes -> Hash
    /** The content each address of the file stands for. */
    ghost const content: map<Hash, Bytes>
    var store: map<Hash, Bytes>
    /** What became of the one read of all the chunks, for a file without declared sizes; a failure is kept too. */
    var fullContent: Option<Result<Bytes>>

    ghost predicate Valid()
      reads this
    {
      && (forall i :: 0 <= i < |file.chunks| ==> file.chunks[i].hash in content)
      && (forall h :: h in store && h in content ==> store[h] == content[h])
      && (forall h :: h in remote && h in content ==> remote[h] == content[h])
      && (layout.Legacy? <==> exists i :: 0 <= i < |file.chunks| && file.chunks[i].size.None?)
      && (layout.Spans? <==> Declared(file))
      && (layout.Spans? ==> Laid(layout.spans, file, |file.chunks|))
      && (fullContent.Some? ==> fullContent.value.Ok? || fullContent.value.Unavailable? || fullContent.value.BadHash?)
      && (fullContent.Some? && fullContent.value.Ok? ==>
            fullContent.value.value == Whole(file.chunks, content) && sha256(fullContent.value.value) == file.hash)
    }

    constructor (file: File, layout: Layout, online: bool, remote: map<Hash, Bytes>, sha256: Bytes -> Hash,
                 ghost content: map<Hash, Bytes>, store: map<Hash, Bytes>)
      requires forall i :: 0 <= i < |file.chunks| ==> file.chunks[i].hash in content
      requires forall h :: h in store && h in content ==> store[h] == content[h]
      requires forall h :: h in remote && h in content ==> remote[h] == content[h]
      requires layout.Legacy? <==> exists i :: 0 <= i < |file.chunks| && file.chunks[i].size.None?
      requires layout.Spans? <==> Declared(file)
      requires layout.Spans? ==> Laid(layout.spans, file, |file.chunks|)
      ensures Valid() && this.file == file && this.layout == layout && this.store == store && fullContent == None
      ensures this.online == online && this.remote == remote && this.content == content
    {
      this.file, this.layout, this.online, this.remote, this.sha256 := file, layout, online, remote, sha256;
      this.content, this.store, this.fullContent := content, store, None;
    }

    /** The size of a file with declared sizes. */
    function Size(): nat
      requires layout.Spans?
      reads this
    {
      if |layout.spans| == 0 then 0 else layout.spans[|layout.spans| - 1].end
    }

    ghost predicate Obtainable(h: Hash)
      reads this
    {
      h in store || (online && h in remote)
    }

    /** The chunks of the file a range has to do with. */
    ghost predicate Touched(h: Hash, start: nat, end: nat) {
      && layout.Spans?
      && exists i :: 0 <= i < |layout.spans| && Meets(layout.spans[i], start, end) && layout.spans[i].chunk.hash == h
    }

    /** Makes sure the chunks are in the store. Of those that are not, it asks the server; a fetch may stop half-way. */
    method EnsureChunks(hashes: seq<Hash>) returns (ok: bool)
      requires Valid() && forall h :: h in hashes ==> h in content
      modifies this`store
      ensures Valid() && (ok <==> forall h :: h in hashes ==> old(Obtainable(h)))
      ensures ok ==> forall h :: h in hashes ==> h in store
      ensures forall h :: h in old(store) ==> h in store && store[h] == old(store)[h]
      ensures forall h :: h in store ==> h in old(store) || h in hashes
    {
      var missing := {};
      for k := 0 to |hashes|
        invariant missing == set h | h in hashes[..k] && h !in store
      {
        assert hashes[..k + 1] == hashes[..k] + [hashes[k]];
        if hashes[k] !in store {
          missing := missing + {hashes[k]};
        }
      }
      assert hashes[..|hashes|] == hashes;
      assert forall h :: h in hashes && h !in store ==> h in missing;
      if missing == {} {
        return true;
      }
      if !online {
        return false;
      }
      ghost var wanted := missing;
      while missing != {}
        invariant Valid() && missing <= wanted
        invariant forall h :: h in old(store) ==> h in store && store[h] == old(store)[h]
        invariant forall h :: h in wanted && h !in missing ==> h in store && h in remote
        invariant forall h :: h in store ==> h in old(store) || h in wanted
      {
        var h :| h in missing;
        if h !in remote {
          return false;
        }
        store := store[h := remote[h]];
        missing := missing - {h};
      }
      return true;
    }

    /** The addresses of the chunks a range has to do with, in order. */
    method Intersecting(start: nat, end: nat) returns (hashes: seq<Hash>)
      requires Valid() && layout.Spans?
      ensures forall h :: h in hashes <==> Touched(h, start, end)
    {
      hashes := [];
      for k := 0 to |layout.spans|
        invariant forall h :: h in hashes <==>
          exists i :: 0 <= i < k && Meets(layout.spans[i], start, end) && layout.spans[i].chunk.hash == h
      {
        if Meets(layout.spans[k], start, end) {
          hashes := hashes + [layout.spans[k].chunk.hash];
        }
      }
    }

    /** The bytes of a range of a file with declared sizes. */
    method ReadSized(start: nat, end: nat) returns (r: Result<Bytes>)
      requires Valid() && layout.Spans? && start < end <= Offset(file.chunks, |file.chunks|)
      modifies this`store
      ensures Valid() && !r.ShortRead? && !r.BadRange? && !r.BadHash?
      ensures r.Unavailable? <==> exists h :: Touched(h, start, end) && !old(Obtainable(h))
      ensures r.Ok? <==> !r.Unavailable? && AllFit(|layout.spans|, start, end)
      ensures SizesMatch(file, content) && !r.Unavailable? ==> r.Ok?
      ensures SizesMatch(file, content) && r.Ok? ==>
        |Whole(file.chunks, content)| >= end && r.value == Whole(file.chunks, content)[start..end]
      ensures forall h :: h in store ==> h in old(store) || Touched(h, start, end)
    {
      hide Whole, Offset, SizesMatch, Declared, AllFit;
      var hashes := Intersecting(start, end);
      var here := EnsureChunks(hashes);
      if !here {
        return Unavailable;
      }
      r := Assemble(start, end);
    }

    /** Of the first `k` spans, those the range has to do with are as long as declared. */
    ghost predicate AllFit(k: nat, start: nat, end: nat)
      requires layout.Spans? && k <= |layout.spans|
    {
      forall i :: 0 <= i < k && Meets(layout.spans[i], start, end) ==>
        layout.spans[i].chunk.hash in content
          && |content[layout.spans[i].chunk.hash]| == layout.spans[i].end - layout.spans[i].start
    }

    lemma NoneToFit(start: nat, end: nat)
      requires layout.Spans?
      ensures AllFit(0, start, end)
    {
    }

    lemma FitNext(k: nat, start: nat, end: nat)
      requires layout.Spans? && k < |layout.spans| && layout.spans[k].chunk.hash in content
      ensures AllFit(k, start, end) &&
        (Meets(layout.spans[k], start, end) ==>
         |content[layout.spans[k].chunk.hash]| == layout.spans[k].end - layout.spans[k].start)
        ==> AllFit(k + 1, start, end)
      ensures Meets(layout.spans[k], start, end)
        && |content[layout.spans[k].chunk.hash]| != layout.spans[k].end - layout.spans[k].start
        ==> !AllFit(|layout.spans|, start, end)
    {
    }

    /** Puts a range together from the chunks, all of which are here. */
    method Assemble(start: nat, end: nat) returns (r: Result<Bytes>)
      requires Valid() && layout.Spans? && start < end <= Offset(file.chunks, |file.chunks|)
      requires forall h :: Touched(h, start, end) ==> h in store
      ensures r.Ok? || r.SizeMismatch?
      ensures r.Ok? <==> AllFit(|layout.spans|, start, end)
      ensures SizesMatch(file, content) ==>
        r.Ok? && |Whole(file.chunks, content)| >= end && r.value == Whole(file.chunks, content)[start..end]
    {
      hide Whole, Offset, SizesMatch, Declared, Valid, Laid, AllFit;
      var result := new Byte[end - start];
      var written: nat := 0;
      SpansCover();
      ghost var all := Whole(file.chunks, content);
      ghost var sized := SizesMatch(file, content);
      NoneToFit(start, end);
      for k := 0 to |layout.spans|
        invariant fresh(result) && result.Length == end - start
        invariant written == Clamp(Offset(file.chunks, k), start, end) - start
        invariant sized ==> start + written <= |all| && result[..written] == all[start..start + written]
        invariant AllFit(k, start, end)
      {
        SpanFacts(k);
        FitNext(k, start, end);
        var span := layout.spans[k];
        if Meets(span, start, end) {
          assert Touched(span.chunk.hash, start, end);
          var bytes := store[span.chunk.hash];
          var declaredSize := span.end - span.start;
          if |bytes| != declaredSize {
            return SizeMismatch;
          }
          written := CopySpan(result, written, span, bytes, start, end, all, sized);
        }
      }
      if written != end - start {
        return ShortRead;
      }
      assert result[..] == result[..written];
      return Ok(result[..]);
    }

    method EnsureAll() returns (ok: bool)
      requires Valid()
      modifies this`store
      ensures Valid() && (ok <==> forall i :: 0 <= i < |file.chunks| ==> old(Obtainable(file.chunks[i].hash)))
      ensures ok ==> forall i :: 0 <= i < |file.chunks| ==> file.chunks[i].hash in store
    {
      hide Whole, Offset, Declared, Laid;
      var hashes := seq(|file.chunks|, i requires 0 <= i < |file.chunks| => file.chunks[i].hash);
      assert forall h :: h in hashes ==> exists i :: 0 <= i < |file.chunks| && file.chunks[i].hash == h;
      assert forall i :: 0 <= i < |file.chunks| ==> hashes[i] in hashes && hashes[i] == file.chunks[i].hash;
      ok := EnsureChunks(hashes);
    }

    method JoinChunks() returns (joined: Bytes)
      requires Valid() && forall i :: 0 <= i < |file.chunks| ==> file.chunks[i].hash in store
      ensures joined == Whole(file.chunks, content)
    {
      hide Whole;
      joined := [];
      NothingWhole();
      for k := 0 to |file.chunks|
        invariant joined == Whole(file.chunks[..k], content)
      {
        WholeNext(file.chunks, content, k);
        joined := joined + store[file.chunks[k].hash];
      }
      assert file.chunks[..|file.chunks|] == file.chunks;
    }

    /** All the chunks, one after the other, checked against the file's own hash; done once, whatever comes of it. */
    method LoadLegacyContent() returns (r: Result<Bytes>)
      requires Valid() && layout.Legacy?
      modifies this`store, this`fullContent
      ensures Valid() && fullContent == Some(r)
      ensures old(fullContent).Some? ==> r == old(fullContent).value && store == old(store)
      ensures r.Ok? ==> r.value == Whole(file.chunks, content)
      ensures r.Ok? || r.Unavailable? || r.BadHash?
      ensures old(fullContent).None? ==>
        && (r.Unavailable? <==> exists i :: 0 <= i < |file.chunks| && !old(Obtainable(file.chunks[i].hash)))
        && (r.Ok? <==> !r.Unavailable? && sha256(Whole(file.chunks, content)) == file.hash)
    {
      hide Whole;
      if fullContent.Some? {
        return fullContent.value;
      }
      var here := EnsureAll();
      if !here {
        fullContent := Some(Unavailable);
        return Unavailable;
      }
      var joined := JoinChunks();
      r := if sha256(joined) != file.hash then BadHash else Ok(joined);
      fullContent := Some(r);
    }

    lemma NothingWhole()
      ensures Whole(file.chunks[..0], content) == []
    {
    }

    /** A range read is a slice of the file's content: of all chunks, though only those it meets need to be here. */
    method ReadRange(offset: int, length: Option<int>) returns (r: Result<Bytes>)
      requires Valid() && !layout.Refused?
      modifies this`store, this`fullContent
      ensures Valid() && !r.ShortRead?
      ensures r.BadRange? <==> ResolveRange(0, offset, length).None?
      ensures r.Ok? && (layout.Spans? ==> SizesMatch(file, content)) ==>
        var all := Whole(file.chunks, content);
        var range := ResolveRange(|all|, offset, length);
        range.Some? && r.value == if range.value.0 < range.value.1 then all[range.value.0..range.value.1] else []
      ensures layout.Spans? ==>
        var range := ResolveRange(Size(), offset, length);
        && (r.Unavailable? <==>
              && range.Some? && range.value.0 < range.value.1
              && exists h :: Touched(h, range.value.0, range.value.1) && !old(Obtainable(h)))
        && (range.Some? && !r.Unavailable? && SizesMatch(file, content) ==> r.Ok?)
        && forall h :: h in store ==> h in old(store) || (range.Some? && Touched(h, range.value.0, range.value.1))
    {
      hide Whole, Offset, AllFit;
      if layout.Legacy? {
        if ResolveRange(0, offset, length).None? {
          return BadRange;
        }
        var loaded := LoadLegacyContent();
        if !loaded.Ok? {
          return loaded;
        }
        var bytes := loaded.value;
        var range := ResolveRange(|bytes|, offset, length);
        var (start, end) := range.value;
        return Ok(if start < end then bytes[start..end] else []);
      }
      SpansCover();
      var range := ResolveRange(Size(), offset, length);
      if range.None? {
        return BadRange;
      }
      var (start, end) := range.value;
      if start >= end {
        return Ok([]);
      }
      r := ReadSized(start, end);
    }

    /** Span `k` is chunk `k` at its offset. */
    lemma SpanFacts(k: nat)
      requires Valid() && layout.Spans? && k < |layout.spans|
      ensures |layout.spans| == |file.chunks| && layout.spans[k].chunk == file.chunks[k]
        && file.chunks[k].hash in content
      ensures layout.spans[k].start == Offset(file.chunks, k) <= layout.spans[k].end == Offset(file.chunks, k + 1)
      ensures layout.spans[k].end <= Offset(file.chunks, |file.chunks|)
      ensures file.chunks[k].hash in store ==> store[file.chunks[k].hash] == content[file.chunks[k].hash]
      ensures SizesMatch(file, content) ==>
        && layout.spans[k].end <= |Whole(file.chunks, content)|
        && Whole(file.chunks, content)[layout.spans[k].start..layout.spans[k].end] == content[file.chunks[k].hash]
    {
      hide Whole;
      OffsetsGrow(file, k, k + 1);
      OffsetsGrow(file, k + 1, |file.chunks|);
      if SizesMatch(file, content) {
        ChunkAt(file, content, k);
      }
    }

    lemma SpansCover()
      requires Valid() && layout.Spans?
      ensures |layout.spans| == |file.chunks| && Offset(file.chunks, 0) == 0
      ensures forall i :: 0 <= i < |file.chunks| ==> file.chunks[i].hash in content
      ensures SizesMatch(file, content) ==> |Whole(file.chunks, content)| == Offset(file.chunks, |file.chunks|)
    {
      hide Whole;
      if SizesMatch(file, content) {
        WholeParts(file, content, |file.chunks|);
        assert file.chunks[..|file.chunks|] == file.chunks;
      }
    }
  }

  /** Copies what a range has of a span behind what was copied before. */
  method CopySpan(result: array<Byte>, before: nat, span: Span, bytes: Bytes, start: nat, end: nat, ghost all: Bytes,
                  ghost sized: bool)
    returns (written: nat)
    requires span.start <= span.end && |bytes| == span.end - span.start && Meets(span, start, end)
    requires result.Length == end - start && before == Clamp(span.start, start, end) - start
    requires sized ==> span.end <= |all| && bytes == all[span.start..span.end]
    requires sized ==> start + before <= |all| && result[..before] == all[start..start + before]
    modifies result
    ensures written == Clamp(span.end, start, end) - start
    ensures sized ==> start + written <= |all| && result[..written] == all[start..start + written]
  {
    var from := if start > span.start then start - span.start else 0;
    var to := if end - span.start < |bytes| then end - span.start else |bytes|;
    ghost var was := result[..before];
    Copy(result, before, bytes[from..to]);
    written := before + (to - from);
    if sized {
      CopiedIs(all, was, result[..written], start, before, bytes, span.start, span.end, from, to);
    }
  }

  method Copy(target: array<Byte>, at: nat, bytes: Bytes)
    requires at + |bytes| <= target.Length
    modifies target
    ensures target[..at + |bytes|] == old(target[..at]) + bytes
  {
    for i := 0 to |bytes|
      invariant target[..at] == old(target[..at]) && target[at..at + i] == bytes[..i]
    {
      target[at + i] := bytes[i];
      assert target[at..at + i + 1] == target[at..at + i] + [bytes[i]];
    }
    assert target[..at + |bytes|] == target[..at] + target[at..at + |bytes|];
  }

  lemma CopiedIs(all: Bytes, before: Bytes, now: Bytes, start: nat, written: nat, bytes: Bytes, lo: nat, hi: nat,
                 from: nat, to: nat)
    requires start + written <= |all| && before == all[start..start + written]
    requires lo <= hi <= |all| && bytes == all[lo..hi] && from <= to <= |bytes| && lo + from == start + written
    requires now == before + bytes[from..to]
    ensures start + written + (to - from) <= |all| && now == all[start..start + written + (to - from)]
  {
    var more := all[lo + from..lo + to];
    forall i | 0 <= i < to - from
      ensures bytes[from..to][i] == more[i]
    {
      assert bytes[from + i] == all[lo + (from + i)];
    }
    assert bytes[from..to] == more;
  }
}
