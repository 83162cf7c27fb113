/** Packing appends into blobs (step 3e of `build_git_commit`): next-fit, one open blob at a time. */
module AvcPack {
  import opened Optional
  import opened AvcCore
  import opened AvcSplit

  /** The appends packed into one blob, the latest outermost. */
  datatype Bin = Empty | Put(rest: Bin, last: Staged)

  /** The blobs of one commit, the latest outermost. */
  datatype Bins = NoBin | Bins(closed: Bins, open: Bin)

  function Items(bin: Bin): seq<Staged> {
    if bin.Empty? then [] else Items(bin.rest) + [bin.last]
  }

  function Size(bin: Bin): int {
    if bin.Empty? then 0 else Size(bin.rest) + bin.last.span.num
  }

  function SourcesOf(bin: Bin): seq<Source> {
    if bin.Empty? then [] else SourcesOf(bin.rest) + [SourceOf(bin.last)]
  }

  function Count(bins: Bins): nat {
    if bins.NoBin? then 0 else Count(bins.closed) + 1
  }

  function Flatten(bins: Bins): seq<Staged> {
    if bins.NoBin? then [] else Flatten(bins.closed) + Items(bins.open)
  }

  /** The rows of one blob: consecutive batches, and offsets that are the sizes written before. */
  function BinRows(bin: Bin, batch: nat, blob: BlobName): seq<Row> {
    if bin.Empty? then [] else
      BinRows(bin.rest, batch, blob) + [Row(batch + |Items(bin.rest)|, bin.last.span, blob, Size(bin.rest))]
  }

  function AllRows(bins: Bins, id: CommitId, batch: nat, blob: nat): seq<Row> {
    if bins.NoBin? then [] else
      AllRows(bins.closed, id, batch, blob)
      + BinRows(bins.open, batch + |Flatten(bins.closed)|, BlobName(id, blob + Count(bins.closed)))
  }

  function AllOps(bins: Bins, id: CommitId, blob: nat): seq<Op> {
    if bins.NoBin? then [] else
      AllOps(bins.closed, id, blob)
      + [ConcatenatingAdd(BlobName(id, blob + Count(bins.closed)), SourcesOf(bins.open))]
  }

  function First(bin: Bin): Staged
    requires bin.Put?
  {
    if bin.rest.Empty? then bin.last else First(bin.rest)
  }

  /** What makes a packing next-fit: each blob is non-empty and within the limit, and it was
      opened only because its first append did not fit into the blob before it. */
  predicate NextFit(bins: Bins, maxSize: nat) {
    bins.Bins? ==>
      && NextFit(bins.closed, maxSize)
      && bins.open.Put? && Size(bins.open) <= maxSize
      && (bins.closed.Bins? ==> Size(bins.closed.open) + First(bins.open).span.num > maxSize)
  }

  /** Where the next append goes. */
  function Place(bins: Bins, s: Staged, maxSize: nat): Bins {
    if bins.Bins? && Size(bins.open) + s.span.num <= maxSize
    then Bins(bins.closed, Put(bins.open, s))
    else Bins(bins, Put(Empty, s))
  }

  /** The packing of the first `n` appends. */
  function PackFirst(q: seq<Staged>, n: nat, maxSize: nat): Bins
    requires n <= |q|
  {
    if n == 0 then NoBin else Place(PackFirst(q, n - 1, maxSize), q[n - 1], maxSize)
  }

  function Pack(q: seq<Staged>, maxSize: nat): Bins {
    PackFirst(q, |q|, maxSize)
  }

  lemma PlaceRow(bins: Bins, s: Staged, id: CommitId, batch: nat, blob: nat, maxSize: nat)
    ensures Flatten(Place(bins, s, maxSize)) == Flatten(bins) + [s]
    ensures AllRows(Place(bins, s, maxSize), id, batch, blob)
      == AllRows(bins, id, batch, blob)
         + [Row(batch + |Flatten(bins)|, s.span, BlobName(id, blob + Count(Place(bins, s, maxSize)) - 1),
                Size(Place(bins, s, maxSize).open) - s.span.num)]
  {
    if bins.Bins? && Size(bins.open) + s.span.num <= maxSize {
      assert Items(Put(bins.open, s)) == Items(bins.open) + [s];
    } else {
      assert Items(Put(Empty, s)) == [s];
      var n, name := batch + |Flatten(bins)|, BlobName(id, blob + Count(bins));
      assert BinRows(Empty, n, name) == [];
      assert BinRows(Put(Empty, s), n, name) == [Row(n, s.span, name, 0)];
    }
  }

  lemma PlaceFits(bins: Bins, s: Staged, maxSize: nat)
    requires NextFit(bins, maxSize) && s.span.num <= maxSize
    ensures NextFit(Place(bins, s, maxSize), maxSize)
  {
  }

  /** The packing is next-fit and loses nothing. */
  lemma {:induction false} PackIsNextFit(q: seq<Staged>, n: nat, maxSize: nat)
    requires n <= |q| && forall e :: e in q ==> e.span.num <= maxSize
    ensures Flatten(PackFirst(q, n, maxSize)) == q[..n] && NextFit(PackFirst(q, n, maxSize), maxSize)
  {
    if n > 0 {
      PackIsNextFit(q, n - 1, maxSize);
      assert q[n - 1] in q;
      PlaceRow(PackFirst(q, n - 1, maxSize), q[n - 1], 0, 0, 0, maxSize);
      PlaceFits(PackFirst(q, n - 1, maxSize), q[n - 1], maxSize);
      assert q[..n] == q[..n - 1] + [q[n - 1]];
    }
  }

  /** Only the appends themselves matter, not what follows them. */
  lemma {:induction false} PackPrefix(q: seq<Staged>, p: seq<Staged>, n: nat, maxSize: nat)
    requires n <= |q| && n <= |p| && q[..n] == p[..n]
    ensures PackFirst(q, n, maxSize) == PackFirst(p, n, maxSize)
  {
    if n > 0 {
      assert q[..n][n - 1] == p[..n][n - 1];
      assert q[..n - 1] == q[..n][..n - 1] && p[..n - 1] == p[..n][..n - 1];
      PackPrefix(q, p, n - 1, maxSize);
    }
  }

  /** The packing without its last append. */
  function Shorter(bins: Bins): Bins
    requires bins.Bins? && bins.open.Put?
  {
    if bins.open.rest.Empty? then bins.closed else Bins(bins.closed, bins.open.rest)
  }

  lemma PlaceLast(bins: Bins, maxSize: nat)
    requires NextFit(bins, maxSize) && bins.Bins? && bins.open.last.span.num >= 0
    ensures bins == Place(Shorter(bins), bins.open.last, maxSize) && NextFit(Shorter(bins), maxSize)
  {
  }

  lemma PackSnoc(q: seq<Staged>, p: seq<Staged>, s: Staged, maxSize: nat)
    requires q == p + [s]
    ensures Pack(q, maxSize) == Place(Pack(p, maxSize), s, maxSize)
    ensures AllNonNegative(q) ==> AllNonNegative(p) && s.span.num >= 0
    ensures |p| < |q|
  {
    assert q[..|p|] == p[..|p|] && s in q && forall e :: e in p ==> e in q;
    PackPrefix(q, p, |p|, maxSize);
  }

  /** There is only one next-fit packing of given appends, and it is the one that is built. */
  lemma {:induction false} NextFitIsPack(bins: Bins, q: seq<Staged>, maxSize: nat)
    requires NextFit(bins, maxSize) && Flatten(bins) == q && AllNonNegative(q)
    ensures bins == Pack(q, maxSize)
    decreases |q|
  {
    if bins.Bins? {
      var p := Flatten(Shorter(bins));
      FlattenLast(bins);
      PackSnoc(q, p, bins.open.last, maxSize);
      PlaceLast(bins, maxSize);
      NextFitIsPack(Shorter(bins), p, maxSize);
    }
  }

  lemma FlattenLast(bins: Bins)
    requires bins.Bins? && bins.open.Put?
    ensures Flatten(bins) == Flatten(Shorter(bins)) + [bins.open.last]
  {
    var s, rest := bins.open.last, bins.open.rest;
    assert Items(bins.open) == Items(rest) + [s];
    if rest.Put? {
      assert Flatten(bins.closed) + (Items(rest) + [s]) == Flatten(bins.closed) + Items(rest) + [s];
    } else {
      assert Items(rest) == [];
    }
  }

  method PackAppends(appends: seq<Staged>, id: CommitId, batch: nat, blob: nat, maxSize: nat)
    returns (rows: seq<Row>, ops: seq<Op>)
    requires forall e :: e in appends ==> e.span.num <= maxSize
    ensures rows == AllRows(Pack(appends, maxSize), id, batch, blob)
    ensures ops == AllOps(Pack(appends, maxSize), id, blob)
  {
    rows, ops := [], [];
    ghost var bins := NoBin;
    var blobId, batchId := blob, batch;
    var current: Option<BlobName> := None;
    var size, sources := 0, [];
    var i := 0;
    while i < |appends|
      invariant 0 <= i <= |appends| && batchId == batch + i == batch + |Flatten(bins)|
      invariant current.Some? <==> bins.Bins?
      invariant bins == PackFirst(appends, i, maxSize)
      invariant rows == AllRows(bins, id, batch, blob)
      invariant blobId == blob + Count(bins)
      invariant bins.NoBin? ==> ops == []
      invariant bins.Bins? ==>
        && bins.open.Put?
        && ops == AllOps(bins.closed, id, blob)
        && current.value == BlobName(id, blobId - 1)
        && size == Size(bins.open) && sources == SourcesOf(bins.open)
    {
      var s := appends[i];
      PlaceRow(bins, s, id, batch, blob, maxSize);
      assert s in appends;
      if current.None? || size + s.span.num > maxSize {
        if current.Some? {
          // the assertion of the code: a blob that is closed is not empty
          assert size > 0 && |sources| > 0;
          ops := ops + [ConcatenatingAdd(current.value, sources)];
        }
        current, size, sources := Some(BlobName(id, blobId)), 0, [];
        blobId := blobId + 1;
      }
      bins := Place(bins, s, maxSize);
      rows := rows + [Row(batchId, s.span, current.value, size)];
      sources := sources + [SourceOf(s)];
      size := size + s.span.num;
      batchId := batchId + 1;
      i := i + 1;
    }
    if current.Some? && |sources| > 0 {
      ops := ops + [ConcatenatingAdd(current.value, sources)];
    }
  }

  // ---------- The rows ----------

  /** Rows keep the order of the appends, have consecutive batches, and name blobs of this commit only. */
  lemma {:induction false} RowsInOrder(bins: Bins, id: CommitId, batch: nat, blob: nat)
    ensures |AllRows(bins, id, batch, blob)| == |Flatten(bins)|
    ensures forall i :: 0 <= i < |Flatten(bins)| ==>
      var r := AllRows(bins, id, batch, blob)[i];
      && r.span == Flatten(bins)[i].span && r.batch == batch + i
      && r.blob.commit == id && blob <= r.blob.index < blob + Count(bins)
  {
    if bins.Bins? {
      RowsInOrder(bins.closed, id, batch, blob);
      BinRowsInOrder(bins.open, batch + |Flatten(bins.closed)|, BlobName(id, blob + Count(bins.closed)));
    }
  }

  lemma {:induction false} BinRowsInOrder(bin: Bin, batch: nat, blob: BlobName)
    ensures |BinRows(bin, batch, blob)| == |Items(bin)|
    ensures forall i :: 0 <= i < |Items(bin)| ==>
      var r := BinRows(bin, batch, blob)[i];
      r.span == Items(bin)[i].span && r.batch == batch + i && r.blob == blob
  {
    if bin.Put? {
      BinRowsInOrder(bin.rest, batch, blob);
    }
  }

  // ---------- The bytes that are published ----------

  /** The bytes of a source, when its file has them. */
  function Slice(s: Source, files: Files): Bytes {
    if s.path in files && 0 <= s.offset && 0 <= s.num && s.offset + s.num <= |files[s.path]|
    then files[s.path][s.offset..s.offset + s.num] else []
  }

  function Content(sources: seq<Source>, files: Files): Bytes {
    if sources == [] then []
    else Content(sources[..|sources| - 1], files) + Slice(sources[|sources| - 1], files)
  }

  function UploadOne(op: Op, done: Blobs, files: Files): Blobs {
    match op
    case ConcatenatingAdd(blob, sources) => done[blob := Content(sources, files)]
    case DatabaseAdd => done
  }

  /** The blobs that exist once the operations are carried out on these files. */
  function Upload(ops: seq<Op>, files: Files): Blobs {
    if ops == [] then map[] else UploadOne(ops[|ops| - 1], Upload(ops[..|ops| - 1], files), files)
  }

  lemma UploadSnoc(ops: seq<Op>, op: Op, files: Files)
    ensures Upload(ops + [op], files) == UploadOne(op, Upload(ops, files), files)
  {
    assert (ops + [op])[..|ops|] == ops;
  }

  function BinContent(bin: Bin, files: Files): Bytes {
    if bin.Empty? then [] else BinContent(bin.rest, files) + Slice(SourceOf(bin.last), files)
  }

  lemma {:induction false} BinContentIsContent(bin: Bin, files: Files)
    ensures Content(SourcesOf(bin), files) == BinContent(bin, files)
  {
    if bin.Put? {
      BinContentIsContent(bin.rest, files);
      assert SourcesOf(bin)[..|SourcesOf(bin)| - 1] == SourcesOf(bin.rest);
    }
  }

  /** The row's part of its blob holds exactly the row's part of its file. */
  predicate RowMatches(r: Row, blob: Bytes, files: Files) {
    && r.span.path in files
    && 0 <= r.span.start && 0 <= r.span.num && r.span.start + r.span.num <= |files[r.span.path]|
    && 0 <= r.blobOffset && r.blobOffset + r.span.num <= |blob|
    && blob[r.blobOffset..r.blobOffset + r.span.num] == files[r.span.path][r.span.start..r.span.start + r.span.num]
  }

  ghost predicate InOneBlob(rows: seq<Row>, name: BlobName, content: Bytes, files: Files) {
    forall r :: r in rows ==> r.blob == name && RowMatches(r, content, files)
  }

  predicate Readable(q: seq<Staged>, files: Files) {
    forall e :: e in q ==> Backed(e, files) && e.span.num >= 0
  }

  lemma RowStillMatches(r: Row, blob: Bytes, more: Bytes, files: Files)
    requires RowMatches(r, blob, files)
    ensures RowMatches(r, blob + more, files)
  {
    assert (blob + more)[r.blobOffset..r.blobOffset + r.span.num] == blob[r.blobOffset..r.blobOffset + r.span.num];
  }

  lemma LastRowMatches(e: Staged, batch: nat, blob: BlobName, before: Bytes, files: Files)
    requires Backed(e, files) && e.span.num >= 0
    ensures RowMatches(Row(batch, e.span, blob, |before|), before + Slice(SourceOf(e), files), files)
    ensures |Slice(SourceOf(e), files)| == e.span.num
  {
    var d := Slice(SourceOf(e), files);
    assert (before + d)[|before|..|before| + |d|] == d;
  }

  lemma {:induction false} BinMatches(bin: Bin, batch: nat, blob: BlobName, files: Files)
    requires Readable(Items(bin), files)
    ensures |BinContent(bin, files)| == Size(bin)
    ensures InOneBlob(BinRows(bin, batch, blob), blob, BinContent(bin, files), files)
  {
    hide RowMatches, Backed, Slice;
    if bin.Put? {
      assert bin.last in Items(bin);
      BinMatches(bin.rest, batch, blob, files);
      var c, d := BinContent(bin.rest, files), Slice(SourceOf(bin.last), files);
      LastRowMatches(bin.last, batch + |Items(bin.rest)|, blob, c, files);
      forall r | r in BinRows(bin, batch, blob) ensures r.blob == blob && RowMatches(r, c + d, files) {
        if r in BinRows(bin.rest, batch, blob) {
          RowStillMatches(r, c, d, files);
        }
      }
    }
  }

  /** The blobs after the packed ones are written over `older`. */
  function Packed(bins: Bins, id: CommitId, blob: nat, older: Blobs, files: Files): Blobs {
    if bins.NoBin? then older else
      var name := BlobName(id, blob + Count(bins.closed));
      Packed(bins.closed, id, blob, older, files)[name := BinContent(bins.open, files)]
  }

  lemma {:induction false} UploadIsPacked(before: seq<Op>, bins: Bins, id: CommitId, blob: nat, files: Files)
    ensures Upload(before + AllOps(bins, id, blob), files) == Packed(bins, id, blob, Upload(before, files), files)
  {
    if bins.NoBin? {
      assert before + AllOps(bins, id, blob) == before;
    } else {
      var older, op := AllOps(bins.closed, id, blob),
                       ConcatenatingAdd(BlobName(id, blob + Count(bins.closed)), SourcesOf(bins.open));
      UploadIsPacked(before, bins.closed, id, blob, files);
      assert before + (older + [op]) == before + older + [op];
      UploadSnoc(before + older, op, files);
      BinContentIsContent(bins.open, files);
    }
  }

  lemma RowsStep(bins: Bins, id: CommitId, batch: nat, blob: nat)
    requires bins.Bins?
    ensures AllRows(bins, id, batch, blob) == AllRows(bins.closed, id, batch, blob)
      + BinRows(bins.open, batch + |Flatten(bins.closed)|, BlobName(id, blob + Count(bins.closed)))
  {
  }

  /** Every row finds its bytes. */
  ghost predicate Published(rows: seq<Row>, blobs: Blobs, files: Files) {
    forall r :: r in rows ==> r.blob in blobs && RowMatches(r, blobs[r.blob], files)
  }

  /** Only the numbered blobs of this commit are new. */
  ghost predicate AddsBlobs(older: Blobs, blobs: Blobs, id: CommitId, lo: nat, hi: nat) {
    && (forall b :: b in blobs <==> b in older || (b.commit == id && lo <= b.index < hi))
    && (forall b :: b in older && !(b.commit == id && lo <= b.index < hi) ==> blobs[b] == older[b])
  }

  lemma {:induction false} RowNames(bins: Bins, id: CommitId, batch: nat, blob: nat)
    ensures forall r :: r in AllRows(bins, id, batch, blob) ==>
      r.blob.commit == id && blob <= r.blob.index < blob + Count(bins)
  {
    RowsInOrder(bins, id, batch, blob);
  }

  lemma PublishOne(closed: seq<Row>, open: seq<Row>, older: Blobs, name: BlobName, content: Bytes, files: Files)
    requires Published(closed, older, files)
    requires forall r :: r in closed ==> r.blob != name
    requires InOneBlob(open, name, content, files)
    ensures Published(closed + open, older[name := content], files)
  {
    forall r | r in closed + open
      ensures r.blob in older[name := content] && RowMatches(r, older[name := content][r.blob], files)
    {
      if r !in open {
        assert r in closed;
      }
    }
  }

  lemma {:induction false} PackedPublished(bins: Bins, id: CommitId, batch: nat, blob: nat, older: Blobs, files: Files)
    requires Readable(Flatten(bins), files)
    ensures Published(AllRows(bins, id, batch, blob), Packed(bins, id, blob, older, files), files)
  {
    if bins.Bins? {
      var name, n := BlobName(id, blob + Count(bins.closed)), batch + |Flatten(bins.closed)|;
      var closed, open := AllRows(bins.closed, id, batch, blob), BinRows(bins.open, n, name);
      var blobs, content := Packed(bins.closed, id, blob, older, files), BinContent(bins.open, files);
      ReadableParts(bins, files);
      PackedPublished(bins.closed, id, batch, blob, older, files);
      RowNames(bins.closed, id, batch, blob);
      BinMatches(bins.open, n, name, files);
      PublishOne(closed, open, blobs, name, content, files);
      assert AllRows(bins, id, batch, blob) == closed + open;
      assert Packed(bins, id, blob, older, files) == blobs[name := content];
    }
  }

  lemma {:induction false} PackedAdds(bins: Bins, id: CommitId, blob: nat, older: Blobs, files: Files)
    ensures AddsBlobs(older, Packed(bins, id, blob, older, files), id, blob, blob + Count(bins))
  {
    if bins.Bins? {
      PackedAdds(bins.closed, id, blob, older, files);
      AddBlob(older, Packed(bins.closed, id, blob, older, files), id, blob, blob + Count(bins.closed),
              BinContent(bins.open, files));
    }
  }

  /** Publishing the packed blobs gives every row the bytes of its file; no other blob is touched. */
  lemma PackMatches(bins: Bins, id: CommitId, batch: nat, blob: nat, before: seq<Op>, files: Files)
    requires Readable(Flatten(bins), files)
    ensures Published(AllRows(bins, id, batch, blob), Upload(before + AllOps(bins, id, blob), files), files)
    ensures AddsBlobs(Upload(before, files), Upload(before + AllOps(bins, id, blob), files),
                      id, blob, blob + Count(bins))
  {
    UploadIsPacked(before, bins, id, blob, files);
    PackedPublished(bins, id, batch, blob, Upload(before, files), files);
    PackedAdds(bins, id, blob, Upload(before, files), files);
  }

  lemma AddBlob(oldest: Blobs, older: Blobs, id: CommitId, lo: nat, hi: nat, content: Bytes)
    requires AddsBlobs(oldest, older, id, lo, hi) && lo <= hi
    ensures AddsBlobs(oldest, older[BlobName(id, hi) := content], id, lo, hi + 1)
  {
  }

  lemma ReadableParts(bins: Bins, files: Files)
    requires bins.Bins? && Readable(Flatten(bins), files)
    ensures Readable(Flatten(bins.closed), files) && Readable(Items(bins.open), files)
  {
    assert forall e :: e in Flatten(bins.closed) ==> e in Flatten(bins);
    assert forall e :: e in Items(bins.open) ==> e in Flatten(bins);
  }

  // ---------- Tiling and the number of blobs ----------

  predicate Covers(r: Row, x: int) {
    r.blobOffset <= x < r.blobOffset + r.span.num
  }

  /** How many of the rows contain byte `x` of the blob. */
  function CoverCount(rows: seq<Row>, x: int): nat {
    if rows == [] then 0
    else CoverCount(rows[..|rows| - 1], x) + if Covers(rows[|rows| - 1], x) then 1 else 0
  }

  /** The rows of a blob tile it: exactly one row covers each byte of the blob, and no row leaves it. */
  lemma {:induction false} RowsTile(bin: Bin, batch: nat, blob: BlobName, x: int)
    requires AllNonNegative(Items(bin))
    ensures Size(bin) >= 0
    ensures CoverCount(BinRows(bin, batch, blob), x) == if 0 <= x < Size(bin) then 1 else 0
  {
    if bin.Put? {
      assert bin.last in Items(bin);
      assert forall e :: e in Items(bin.rest) ==> e in Items(bin);
      RowsTile(bin.rest, batch, blob, x);
      var rows := BinRows(bin, batch, blob);
      assert rows[..|rows| - 1] == BinRows(bin.rest, batch, blob);
    }
  }

  function TotalSize(bins: Bins): int {
    if bins.NoBin? then 0 else TotalSize(bins.closed) + Size(bins.open)
  }

  lemma {:induction false} FirstFits(bin: Bin)
    requires bin.Put? && AllNonNegative(Items(bin))
    ensures First(bin) in Items(bin) && 0 <= First(bin).span.num <= Size(bin)
  {
    assert bin.last in Items(bin);
    if bin.rest.Put? {
      assert forall e :: e in Items(bin.rest) ==> e in Items(bin);
      FirstFits(bin.rest);
    }
  }

  lemma OneMore(k: nat, m: nat)
    ensures (k + 1) * m == k * m + m && 0 * m == 0
  {
  }

  /** Two neighbouring blobs together exceed the limit, so k blobs need more than floor(k/2) times the limit. */
  lemma {:induction false} FewBlobs(bins: Bins, maxSize: nat)
    requires NextFit(bins, maxSize) && AllNonNegative(Flatten(bins))
    ensures Count(bins) >= 2 ==> Count(bins) / 2 * maxSize < TotalSize(bins)
    ensures TotalSize(bins) >= 0
    ensures bins.Bins? ==> Size(bins.open) >= 0
  {
    if bins.Bins? {
      assert forall e :: e in Flatten(bins.closed) ==> e in Flatten(bins);
      assert forall e :: e in Items(bins.open) ==> e in Flatten(bins);
      FirstFits(bins.open);
      FewBlobs(bins.closed, maxSize);
      if bins.closed.Bins? {
        var older := bins.closed.closed;
        assert forall e :: e in Flatten(older) ==> e in Flatten(bins.closed);
        FewBlobs(older, maxSize);
        OneMore(Count(older) / 2, maxSize);
        assert Count(bins) / 2 == Count(older) / 2 + 1;
      }
    }
  }

  lemma {:induction false} TotalIsStaged(bins: Bins)
    ensures TotalSize(bins) == SumOf(Flatten(bins))
  {
    if bins.Bins? {
      TotalIsStaged(bins.closed);
      SizeIsSum(bins.open, Flatten(bins.closed));
    }
  }

  function SumOf(q: seq<Staged>): int {
    if q == [] then 0 else SumOf(q[..|q| - 1]) + q[|q| - 1].span.num
  }

  lemma {:induction false} SizeIsSum(bin: Bin, before: seq<Staged>)
    ensures SumOf(before + Items(bin)) == SumOf(before) + Size(bin)
  {
    if bin.Empty? {
      assert before + Items(bin) == before;
    } else {
      SizeIsSum(bin.rest, before);
      var q := before + Items(bin);
      assert q[..|q| - 1] == before + Items(bin.rest);
    }
  }
}
