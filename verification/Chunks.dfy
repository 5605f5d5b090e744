/** Splitting a file into chunk messages and putting it together again, in both directions. */
module Chunks {
  import opened Bytes
  import opened Paths

  type Data = seq<byte>

  const CHUNK_SZ: nat := 65536

  datatype Chunk = Chunk(seqNo: nat, offset: nat, data: Data, isLast: bool)
  datatype FileChunk = FileChunk(session: SessionId, filename: Path, chunk: Chunk)

  function Min(a: nat, b: nat): nat { if a <= b then a else b }

  /** The chunks cut from `offset` on, the first one numbered `seqNo`. */
  function SplitFrom(data: Data, seqNo: nat, offset: nat): (chunks: seq<Chunk>)
    requires offset <= |data|
    decreases |data| - offset
  {
    if offset == |data| then []
    else
      var end := Min(offset + CHUNK_SZ, |data|);
      [Chunk(seqNo, offset, data[offset..end], end - offset < CHUNK_SZ)] + SplitFrom(data, seqNo + 1, end)
  }

  /** What the client sends for a file: an empty file has one chunk. */
  function Split(data: Data): seq<Chunk>
  {
    if data == [] then [Chunk(1, 0, [], true)] else SplitFrom(data, 1, 0)
  }

  /** The bytes of the chunks, in order. */
  function Concat(chunks: seq<Chunk>): Data
  {
    if chunks == [] then [] else Concat(chunks[..|chunks| - 1]) + chunks[|chunks| - 1].data
  }

  lemma ConcatOne(chunks: seq<Chunk>, c: Chunk)
    ensures Concat(chunks + [c]) == Concat(chunks) + c.data
  {
    assert (chunks + [c])[..|chunks|] == chunks;
  }

  lemma ConcatPrefix(chunks: seq<Chunk>, i: nat)
    requires i < |chunks|
    ensures chunks[..i + 1] == chunks[..i] + [chunks[i]]
    ensures Concat(chunks[..i + 1]) == Concat(chunks[..i]) + chunks[i].data
  {
    assert chunks[..i + 1] == chunks[..i] + [chunks[i]];
    ConcatOne(chunks[..i], chunks[i]);
  }

  /** The last chunk of a file of this length is flagged. */
  predicate Flagged(n: nat) { n == 0 || n % CHUNK_SZ != 0 }

  /** Where the `i`-th chunk after `offset` starts. */
  function StartOf(data: Data, offset: nat, i: nat): (r: nat)
    ensures r <= |data|
  {
    Min(offset + i * CHUNK_SZ, |data|)
  }

  /** The `i`-th chunk, without recursion. */
  function ChunkAt(data: Data, seqNo: nat, offset: nat, i: nat): Chunk
  {
    var from, to := StartOf(data, offset, i), StartOf(data, offset, i + 1);
    Chunk(seqNo + i, from, data[from..to], to - from < CHUNK_SZ)
  }

  lemma StartGrows(data: Data, offset: nat, i: nat)
    requires offset <= |data|
    ensures offset <= StartOf(data, offset, i) <= StartOf(data, offset, i + 1)
    ensures StartOf(data, offset, 0) == offset
  {
  }

  lemma StartShifts(data: Data, offset: nat, i: nat)
    requires offset + CHUNK_SZ <= |data|
    ensures StartOf(data, offset + CHUNK_SZ, i) == StartOf(data, offset, i + 1)
  {
  }

  lemma SliceJoins(data: Data, a: nat, b: nat, c: nat)
    requires a <= b <= c <= |data|
    ensures data[a..b] + data[b..c] == data[a..c]
  {
  }

  /** One block read at `offset` is the first of the chunks still to be cut. */
  lemma CutBlock(data: Data, seqNo: nat, offset: nat, block: Data)
    requires offset < |data| && block == data[offset..Min(offset + CHUNK_SZ, |data|)]
    ensures SplitFrom(data, seqNo, offset)
         == [Chunk(seqNo, offset, block, |block| < CHUNK_SZ)] + SplitFrom(data, seqNo + 1, offset + |block|)
  {
  }

  lemma CutEnd(data: Data, seqNo: nat)
    ensures SplitFrom(data, seqNo, |data|) == []
  {
  }

  lemma {:induction false} SplitFromAt(data: Data, seqNo: nat, offset: nat, i: nat)
    requires offset <= |data| && i < |SplitFrom(data, seqNo, offset)|
    ensures SplitFrom(data, seqNo, offset)[i] == ChunkAt(data, seqNo, offset, i)
    decreases i
  {
    hide SplitFrom, StartOf;
    if offset == |data| {
      CutEnd(data, seqNo);
    } else {
      var block := data[offset..Min(offset + CHUNK_SZ, |data|)];
      CutBlock(data, seqNo, offset, block);
      if i == 0 {
        FirstChunk(data, seqNo, offset);
      } else {
        var end := offset + |block|;
        if end == |data| { CutEnd(data, seqNo + 1); }
        SplitFromAt(data, seqNo + 1, end, i - 1);
        StartShifts(data, offset, i - 1);
        StartShifts(data, offset, i);
      }
    }
  }

  lemma FirstChunk(data: Data, seqNo: nat, offset: nat)
    requires offset < |data|
    ensures ChunkAt(data, seqNo, offset, 0)
         == (var end := Min(offset + CHUNK_SZ, |data|); Chunk(seqNo, offset, data[offset..end], end - offset < CHUNK_SZ))
  {
  }

  lemma {:induction false} SplitFromCount(data: Data, seqNo: nat, offset: nat)
    requires offset <= |data|
    ensures |SplitFrom(data, seqNo, offset)| == (|data| - offset + CHUNK_SZ - 1) / CHUNK_SZ
    decreases |data| - offset
  {
    if offset < |data| { SplitFromCount(data, seqNo + 1, Min(offset + CHUNK_SZ, |data|)); }
  }

  lemma {:induction false} SplitFromPrefix(data: Data, seqNo: nat, offset: nat, i: nat)
    requires offset <= |data| && i <= |SplitFrom(data, seqNo, offset)|
    ensures Concat(SplitFrom(data, seqNo, offset)[..i]) == data[offset..StartOf(data, offset, i)]
    decreases i
  {
    hide SplitFrom, StartOf, Concat;
    var s := SplitFrom(data, seqNo, offset);
    StartGrows(data, offset, 0);
    if i == 0 {
      NothingCut(s);
    } else {
      SplitFromPrefix(data, seqNo, offset, i - 1);
      SplitFromAt(data, seqNo, offset, i - 1);
      ConcatPrefix(s, i - 1);
      StartGrows(data, offset, i - 1);
      SliceJoins(data, offset, StartOf(data, offset, i - 1), StartOf(data, offset, i));
    }
  }

  lemma NothingCut(chunks: seq<Chunk>)
    ensures Concat(chunks[..0]) == []
  {
  }

  /**
   The chunks are numbered from 1, carry the prefix sums as offsets, never exceed the chunk size and
   concatenate to the file.
   */
  lemma SplitReassembles(data: Data)
    ensures Split(data) != [] && Concat(Split(data)) == data
    ensures forall i | 0 <= i < |Split(data)| :: Split(data)[i].seqNo == i + 1
    ensures forall i | 0 <= i < |Split(data)| :: Split(data)[i].offset == |Concat(Split(data)[..i])|
    ensures forall i | 0 <= i < |Split(data)| :: |Split(data)[i].data| <= CHUNK_SZ
  {
    hide SplitFrom, Concat, ChunkAt, Min;
    if data == [] {
      EmptyReassembles(data);
    } else {
      forall i | 0 <= i < |Split(data)|
        ensures Split(data)[i].seqNo == i + 1
             && Split(data)[i].offset == |Concat(Split(data)[..i])|
             && |Split(data)[i].data| <= CHUNK_SZ
      {
        SplitAt(data, i);
      }
      ConcatSplit(data);
    }
  }

  lemma EmptyReassembles(data: Data)
    requires data == []
    ensures Split(data) == [Chunk(1, 0, [], true)] && Concat(Split(data)) == [] && Concat(Split(data)[..0]) == []
  {
    hide SplitFrom;
    var c := Chunk(1, 0, data, true);
    ConcatOne([], c);
    assert [] + [c] == [c];
  }

  /** As many chunks as there are reach the end of the file. */
  lemma StartsCover(data: Data)
    ensures StartOf(data, 0, |SplitFrom(data, 1, 0)|) == |data|
  {
    SplitFromCount(data, 1, 0);
  }

  lemma ConcatSplit(data: Data)
    requires data != []
    ensures Split(data) != [] && Concat(Split(data)) == data
  {
    hide Concat, StartOf;
    var s := Split(data);
    SplitFromPrefix(data, 1, 0, |s|);
    StartsCover(data);
    assert s[..|s|] == s && data[0..|data|] == data;
  }

  lemma SplitAt(data: Data, i: nat)
    requires data != [] && i < |Split(data)|
    ensures Split(data)[i] == ChunkAt(data, 1, 0, i)
    ensures Split(data)[i].seqNo == i + 1 && |Split(data)[i].data| <= CHUNK_SZ
    ensures Split(data)[i].offset == |Concat(Split(data)[..i])|
  {
    hide SplitFrom, Concat;
    SplitFromAt(data, 1, 0, i);
    SplitFromPrefix(data, 1, 0, i);
  }

  /** Exactly the final chunk is flagged last, and only for lengths satisfying `Flagged`. */
  lemma OnlyFinalIsFlagged(data: Data, i: nat)
    requires i < |Split(data)|
    ensures Split(data)[i].isLast <==> i == |Split(data)| - 1 && Flagged(|data|)
  {
    if data != [] {
      SplitFromAt(data, 1, 0, i);
      SplitFromCount(data, 1, 0);
    }
  }

  lemma StartInside(data: Data, i: nat)
    requires i < |SplitFrom(data, 1, 0)|
    ensures StartOf(data, 0, i) == i * CHUNK_SZ < |data|
  {
    SplitFromCount(data, 1, 0);
    hide SplitFrom;
  }

  /** Every chunk but the final one has 65536 octets, and the final one has some unless the file is empty. */
  lemma {:induction false} ChunksAreFull(data: Data, i: nat)
    requires i < |Split(data)|
    ensures |Split(data)[i].data| == if i < |Split(data)| - 1 then 65536 else |data| - 65536 * i
    ensures data != [] ==> Split(data)[i].data != []
  {
    hide SplitFrom, StartOf;
    if data != [] {
      SplitFromAt(data, 1, 0, i);
      StartInside(data, i);
      StartGrows(data, 0, i);
      if i + 1 < |Split(data)| { StartInside(data, i + 1); } else { StartsCover(data); }
    }
  }

  /** The object file's chunks: as the client's, but an empty object has none. */
  function SplitObject(data: Data): seq<Chunk> { SplitFrom(data, 1, 0) }

  lemma ObjectReassembles(data: Data)
    ensures Concat(SplitObject(data)) == data
    ensures forall i | 0 <= i < |SplitObject(data)| ::
      SplitObject(data)[i].isLast <==> i == |SplitObject(data)| - 1 && |data| % CHUNK_SZ != 0
  {
    if data != [] {
      SplitReassembles(data);
      forall i | 0 <= i < |SplitObject(data)|
        ensures SplitObject(data)[i].isLast <==> i == |SplitObject(data)| - 1 && |data| % CHUNK_SZ != 0
      {
        OnlyFinalIsFlagged(data, i);
      }
    }
  }

  // ---- Reading a file in blocks -----------------------------------------------------------------------------

  /** A binary input stream over a file's bytes. */
  class InStream {
    const contents: Data
    var pos: nat
    var failed: bool

    predicate Valid() reads this { pos <= |contents| }

    constructor (bytes: Data)
      ensures Valid() && contents == bytes && pos == 0 && !failed
    {
      contents, pos, failed := bytes, 0, false;
    }

    /** `read` followed by `gcount`: a short read delivers what is left and fails the stream. */
    method Read(n: nat) returns (ok: bool, block: Data)
      requires Valid()
      modifies this
      ensures Valid()
      ensures old(failed) ==> !ok && block == [] && pos == old(pos) && failed
      ensures !old(failed) ==> pos == Min(old(pos) + n, |contents|) && block == contents[old(pos)..pos]
      ensures !old(failed) ==> ok == !failed == (|block| == n)
    {
      if failed {
        return false, [];
      }
      var end := Min(pos + n, |contents|);
      block := contents[pos..end];
      failed := end - pos < n;
      pos, ok := end, !failed;
    }
  }

  function Addressed(id: SessionId, filename: Path, chunks: seq<Chunk>): (r: seq<FileChunk>)
    ensures |r| == |chunks|
    ensures forall i | 0 <= i < |r| :: r[i] == FileChunk(id, filename, chunks[i])
  {
    if chunks == [] then []
    else Addressed(id, filename, chunks[..|chunks| - 1]) + [FileChunk(id, filename, chunks[|chunks| - 1])]
  }

  /** What one call of `SendRequiredFile` sends, and the index it leaves. */
  function NextUpload(id: SessionId, required: seq<Path>, sendIdx: nat, files: map<Path, Data>): (r: (seq<FileChunk>, nat))
  {
    if sendIdx >= |required| || required[sendIdx] !in files then ([], sendIdx)
    else (Addressed(id, required[sendIdx], Split(files[required[sendIdx]])), sendIdx + 1)
  }

  class ClientSession {
    const id: SessionId
    const requiredFiles: seq<Path>
    var sendIdx: nat

    constructor (id: SessionId, requiredFiles: seq<Path>)
      ensures this.id == id && this.requiredFiles == requiredFiles && sendIdx == 0
    {
      this.id, this.requiredFiles, sendIdx := id, requiredFiles, 0;
    }

    method SendRequiredFile(files: map<Path, Data>) returns (sent: seq<FileChunk>)
      modifies this
      ensures (sent, sendIdx) == NextUpload(id, requiredFiles, old(sendIdx), files)
    {
      sent := [];
      if sendIdx >= |requiredFiles| { return; }
      var name := requiredFiles[sendIdx];
      if name !in files { return; }
      if |files[name]| == 0 {
        sent := [FileChunk(id, name, Chunk(1, 0, [], true))];
        assert sent == Addressed(id, name, Split([]));
      } else {
        sent := SendBlocks(id, name, files[name]);
      }
      sendIdx := sendIdx + 1;
    }
  }

  /** The read loop of the client; the condition reads a block even when the previous one was short. */
  method SendBlocks(id: SessionId, name: Path, data: Data) returns (sent: seq<FileChunk>)
    ensures sent == Addressed(id, name, SplitFrom(data, 1, 0))
  {
    hide SplitFrom, Addressed;
    var stream := new InStream(data);
    var seqNo, offset: nat := 1, 0;
    ghost var chunks: seq<Chunk> := [];
    sent := [];
    var ok, block := stream.Read(CHUNK_SZ);
    while ok || |block| > 0
      invariant stream.Valid() && stream.contents == data && fresh(stream)
      invariant offset + |block| == stream.pos && block == data[offset..stream.pos]
      invariant SplitFrom(data, 1, 0) == chunks + SplitFrom(data, seqNo, offset)
      invariant sent == Addressed(id, name, chunks)
      invariant stream.pos < |data| ==> ok
      invariant stream.failed == !ok == (|block| < CHUNK_SZ) && |block| <= CHUNK_SZ
      decreases |data| - offset
    {
      var c := Chunk(seqNo, offset, block, |block| < CHUNK_SZ);
      if |block| > 0 { CutBlock(data, seqNo, offset, block); }
      Associate(chunks, [c], SplitFrom(data, seqNo + 1, offset + |block|));
      chunks := chunks + [c];
      sent := sent + [FileChunk(id, name, c)];
      seqNo, offset := seqNo + 1, offset + |block|;
      ok, block := stream.Read(CHUNK_SZ);
    }
    CutEnd(data, seqNo);
    assert chunks + [] == chunks;
  }
}
