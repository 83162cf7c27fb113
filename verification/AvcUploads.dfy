/** Which uploads of a commit the reader can read (`build_git_commit`, database_exporting/avc_hf.py), and a commit
    with a negative size. */
module AvcUploads {
  import opened Optional
  import opened AvcCore
  import opened AvcSplit
  import opened AvcPack
  import opened AvcCommit
  import opened AvcBuildTheorem
  import opened AvcHistory
  import opened AvcRuns
  import opened SlicedReader

  // ---------- Reading what is uploaded ----------

  /** The reader reads the operation's sources to their content: `ReadUpload` succeeds. */
  predicate OpReads(op: Op, files: Files) {
    op.ConcatenatingAdd? ==>
      SourcesFit(op.sources, files) && (op.sources[0].num > 0 || Content(op.sources, files) == [])
  }

  ghost predicate OpsRead(ops: seq<Op>, files: Files) {
    forall op :: op in ops ==> OpReads(op, files)
  }

  /** The blob starts with bytes, or has none at all. */
  predicate BinReads(bin: Bin) {
    bin.Put? && (First(bin).span.num > 0 || Size(bin) == 0)
  }

  lemma {:induction false} SourcesOfItems(bin: Bin, files: Files)
    requires Readable(Items(bin), files)
    ensures |SourcesOf(bin)| == |Items(bin)|
    ensures forall i :: 0 <= i < |Items(bin)| ==> SourcesOf(bin)[i] == SourceOf(Items(bin)[i])
    ensures bin.Put? ==> SourcesFit(SourcesOf(bin), files) && Items(bin)[0] == First(bin)
  {
    if bin.Put? {
      assert bin.last in Items(bin);
      SourcesOfItems(bin.rest, files);
      assert SourceFits(SourceOf(bin.last), files);
    }
  }

  lemma BinOpReads(bin: Bin, blob: BlobName, files: Files)
    requires bin.Put? && Readable(Items(bin), files)
    ensures OpReads(ConcatenatingAdd(blob, SourcesOf(bin)), files) <==> BinReads(bin)
  {
    SourcesOfItems(bin, files);
    BinContentIsContent(bin, files);
    BinMatches(bin, 0, blob, files);
  }

  predicate AllZero(q: seq<Staged>) {
    forall e :: e in q ==> e.span.num == 0
  }

  lemma {:induction false} ZeroSize(bin: Bin)
    requires forall e :: e in Items(bin) ==> e.span.num >= 0
    ensures Size(bin) >= 0 && (Size(bin) == 0 <==> AllZero(Items(bin)))
    ensures bin.Put? ==> First(bin) in Items(bin)
  {
    if bin.Put? {
      ZeroSize(bin.rest);
      assert bin.last in Items(bin);
      assert forall e :: e in Items(bin) <==> e in Items(bin.rest) || e == bin.last;
    }
  }

  predicate BinsRead(bins: Bins) {
    bins.Bins? ==> BinsRead(bins.closed) && BinReads(bins.open)
  }

  lemma {:induction false} AllOpsRead(bins: Bins, id: CommitId, blob: nat, maxSize: nat, files: Files)
    requires NextFit(bins, maxSize) && Readable(Flatten(bins), files)
    ensures (forall op :: op in AllOps(bins, id, blob) ==> OpReads(op, files)) <==> BinsRead(bins)
  {
    hide OpReads, BinReads;
    if bins.Bins? {
      assert Readable(Flatten(bins.closed), files) && Readable(Items(bins.open), files);
      AllOpsRead(bins.closed, id, blob, maxSize, files);
      var op := ConcatenatingAdd(BlobName(id, blob + Count(bins.closed)), SourcesOf(bins.open));
      BinOpReads(bins.open, op.blob, files);
      assert op in AllOps(bins, id, blob);
      assert forall x :: x in AllOps(bins, id, blob) <==> x in AllOps(bins.closed, id, blob) || x == op;
    }
  }

  /** Only the first blob of a commit can start without bytes and yet have some. */
  lemma {:induction false} NextFitReads(bins: Bins, maxSize: nat)
    requires NextFit(bins, maxSize) && AllNonNegative(Flatten(bins))
    requires forall e :: e in Flatten(bins) ==> e.span.num <= maxSize
    ensures BinsRead(bins) <==> Flatten(bins) == [] || Flatten(bins)[0].span.num > 0 || AllZero(Flatten(bins))
    ensures bins.Bins? ==> Flatten(bins) != [] && Flatten(bins)[0] in Flatten(bins)
  {
    if bins.Bins? {
      var q, items := Flatten(bins.closed), Items(bins.open);
      assert forall e :: e in Flatten(bins) <==> e in q || e in items;
      NextFitReads(bins.closed, maxSize);
      ZeroSize(bins.open);
      FirstItem(bins.open);
      if bins.closed.Bins? {
        ZeroSize(bins.closed.open);
        assert First(bins.open).span.num > 0;
      } else {
        assert Flatten(bins) == items;
      }
    }
  }

  lemma {:induction false} FirstItem(bin: Bin)
    requires bin.Put?
    ensures Items(bin) != [] && Items(bin)[0] == First(bin)
  {
    if bin.rest.Put? {
      FirstItem(bin.rest);
    }
  }

  /** Splitting keeps a queue of zero sizes, and no other, at zero. */
  lemma {:induction false} ScanZero(q: seq<Staged>, maxSize: nat)
    requires maxSize > 0
    ensures AllZero(Scan(q, maxSize)) <==> AllZero(q)
    ensures Scan(q, maxSize) == [] <==> q == []
    ensures q != [] ==> (Scan(q, maxSize)[0].span.num > 0 <==> q[0].span.num > 0)
    decreases Mass(q)
  {
    if q != [] {
      var rest, head := q[1..] + Spills(q[0], maxSize), q[0];
      MassDecreases(q, maxSize);
      ScanZero(rest, maxSize);
      assert Trim(head, maxSize) in Scan(q, maxSize) && head in q;
      assert forall e :: e in Scan(q, maxSize) <==> e == Trim(head, maxSize) || e in Scan(rest, maxSize);
      assert q == [head] + q[1..];
      assert forall e :: e in rest <==> e in q[1..] || e in Spills(head, maxSize);
    }
  }

  lemma {:induction false} SpillAllPositive(creates: seq<Staged>, maxSize: nat)
    ensures forall e :: e in SpillAll(creates, maxSize) ==> e.span.num > 0
    ensures SpillAll(creates, maxSize) != [] <==> exists c :: c in creates && c.span.num > maxSize
    ensures SpillAll(creates, maxSize) != [] ==> SpillAll(creates, maxSize)[0] in SpillAll(creates, maxSize)
  {
    if creates != [] {
      SpillAllPositive(creates[1..], maxSize);
      assert creates == [creates[0]] + creates[1..];
    }
  }

  /** The first staged append adds nothing, but another change leaves bytes to append. */
  predicate StartsEmpty(staged: seq<Staged>, maxSize: nat) {
    var appends, creates := OfKind(staged, Append), OfKind(staged, Create);
    && appends != [] && appends[0].span.num == 0
    && ((exists e :: e in appends && e.span.num > 0) || exists c :: c in creates && c.span.num > maxSize)
  }

  lemma ChunksRead(staged: seq<Staged>, maxSize: nat)
    requires AllNonNegative(staged) && maxSize > 0
    ensures var q := Chunks(staged, maxSize);
      q == [] || q[0].span.num > 0 || AllZero(q) <==> !StartsEmpty(staged, maxSize)
  {
    var appends, creates := OfKind(staged, Append), OfKind(staged, Create);
    var queue := appends + SpillAll(creates, maxSize);
    OfKindIn(staged, Append);
    SpillAllPositive(creates, maxSize);
    ScanZero(queue, maxSize);
    if appends != [] {
      assert queue[0] == appends[0] && appends[0] in appends;
    } else {
      assert queue == SpillAll(creates, maxSize);
    }
    assert forall e :: e in queue <==> e in appends || e in SpillAll(creates, maxSize);
  }

  lemma CreateOpsRead(creates: seq<Staged>, id: CommitId, files: Files)
    requires Readable(creates, files)
    ensures forall op :: op in CreateOps(creates, id) ==> OpReads(op, files)
  {
    forall op | op in CreateOps(creates, id) ensures OpReads(op, files) {
      var i :| 0 <= i < |creates| && CreateOps(creates, id)[i] == op;
      assert creates[i] in creates;
      OneSourceReads(SourceOf(creates[i]), op.blob, files);
    }
  }

  lemma OneSourceReads(s: Source, blob: BlobName, files: Files)
    requires SourceFits(s, files)
    ensures OpReads(ConcatenatingAdd(blob, [s]), files)
  {
    assert [s][..0] == [];
    assert Content([s], files) == Content([], files) + Slice(s, files);
  }

  /** All uploads of a commit can be read if and only if it does not start with an empty append while it has bytes to
      append. */
  lemma UploadsRead(staged: seq<Staged>, sizes: Sizes, files: Files, id: CommitId, maxSize: nat)
    requires StagedOk(staged, sizes, files) && AllNonNegative(staged) && maxSize > 0
    ensures OpsRead(CommitOps(staged, id, maxSize), files) <==> !StartsEmpty(staged, maxSize)
  {
    hide OpReads, StagedOk, StartsEmpty;
    var creates, q := TrimmedCreates(staged, maxSize), Chunks(staged, maxSize);
    var bins := Pack(q, maxSize);
    PartsReadable(staged, sizes, files, maxSize);
    CreateOpsRead(creates, id, files);
    ScanChunks(OfKind(staged, Append) + SpillAll(OfKind(staged, Create), maxSize), maxSize);
    PackIsNextFit(q, |q|, maxSize);
    assert q[..|q|] == q;
    AllOpsRead(bins, id, |creates|, maxSize, files);
    NextFitReads(bins, maxSize);
    ChunksRead(staged, maxSize);
    var ops := AllOps(bins, id, |creates|);
    assert forall op :: op in CommitOps(staged, id, maxSize) <==> op in CreateOps(creates, id) || op in ops;
  }

  /** In every history: the uploads of its next commit can be read if and only if what is staged does not start
      empty. */
  lemma HistoryUploadsRead(events: seq<Event>, id: CommitId, maxSize: nat)
    requires maxSize > 0 && LegalRun(EMPTY, events, maxSize)
    ensures var w := Run(EMPTY, events, maxSize);
      NonNegativeUpTo(w, |w.chain|) && AllNonNegative(w.staged) ==>
        (OpsRead(CommitOps(w.staged, id, maxSize), w.files) <==> !StartsEmpty(w.staged, maxSize))
  {
    hide OpReads, StartsEmpty, StagedOk;
    var w := Run(EMPTY, events, maxSize);
    EmptySound();
    RunSound(EMPTY, events, maxSize);
    if NonNegativeUpTo(w, |w.chain|) && AllNonNegative(w.staged) {
      UploadsRead(w.staged, SizesAt(w, |w.chain|), w.files, id, maxSize);
    }
  }

  lemma EmptySound()
    ensures Sound(EMPTY)
  {
  }

  lemma TwoInOneBlob(a: Staged, b: Staged, id: CommitId, maxSize: nat)
    requires a.span.num + b.span.num <= maxSize
    ensures AllOps(Pack([a, b], maxSize), id, 0) == [ConcatenatingAdd(BlobName(id, 0), [SourceOf(a), SourceOf(b)])]
  {
    var q, one := [a, b], Put(Empty, a);
    assert PackFirst(q, 0, maxSize) == NoBin;
    assert PackFirst(q, 1, maxSize) == Bins(NoBin, one);
    assert Size(one) == Size(Empty) + a.span.num && Size(Empty) == 0;
    assert PackFirst(q, 2, maxSize) == Bins(NoBin, Put(one, b));
    assert SourcesOf(one) == [SourceOf(a)] by {
      assert SourcesOf(Empty) == [];
    }
    assert SourcesOf(Put(one, b)) == SourcesOf(one) + [SourceOf(b)];
    assert SourcesOf(Put(one, b)) == [SourceOf(a), SourceOf(b)];
    OneBinOps(Put(one, b), id);
  }

  lemma OneBinOps(bin: Bin, id: CommitId)
    ensures AllOps(Bins(NoBin, bin), id, 0) == [ConcatenatingAdd(BlobName(id, 0), SourcesOf(bin))]
  {
    assert AllOps(NoBin, id, 0) == [] && Count(NoBin) == 0;
  }

  lemma AppendsOnly(a: Staged, b: Staged)
    requires a.span.kind == Append && b.span.kind == Append
    ensures OfKind([a, b], Append) == [a, b] && OfKind([a, b], Create) == []
  {
    assert [a, b][1..] == [b] && [b][1..] == [];
    forall kind: Kind ensures OfKind([b], kind) == (if kind == Append then [b] else []) + OfKind([], kind) {
    }
    assert OfKind([], Append) == [] && OfKind([], Create) == [];
    assert OfKind([a, b], Append) == [a] + OfKind([b], Append) && OfKind([a, b], Create) == [] + OfKind([b], Create);
  }

  /** An append of nothing before one of some bytes: one upload, which the reader cannot read. */
  lemma EmptyAppendFirst(a: Staged, b: Staged, id: CommitId, maxSize: nat, files: Files)
    requires a.span.kind == Append && b.span.kind == Append && a.span.num == 0 < b.span.num <= maxSize
    requires Backed(a, files) && Backed(b, files)
    ensures CommitOps([a, b], id, maxSize) == [ConcatenatingAdd(BlobName(id, 0), [SourceOf(a), SourceOf(b)])]
    ensures !OpReads(CommitOps([a, b], id, maxSize)[0], files)
  {
    var staged := [a, b];
    AppendsOnly(a, b);
    assert Scan([b], maxSize) == [b] by {
      assert [b][1..] + Spills(b, maxSize) == [];
    }
    assert Scan([a, b], maxSize) == [a, b] by {
      assert [a, b][1..] + Spills(a, maxSize) == [b];
    }
    assert Chunks(staged, maxSize) == [a, b] by {
      assert [a, b] + SpillAll([], maxSize) == [a, b];
    }
    TwoInOneBlob(a, b, id, maxSize);
    var op := ConcatenatingAdd(BlobName(id, 0), [SourceOf(a), SourceOf(b)]);
    assert op.sources[..1] == [SourceOf(a)];
    assert |Slice(SourceOf(b), files)| > 0;
  }

  // ---------- A negative size ----------

  lemma RunCons(w: World, e: Event, rest: seq<Event>, maxSize: nat)
    requires maxSize > 0
    ensures LegalRun(w, [e] + rest, maxSize) <==> Legal(w, e) && LegalRun(Step(w, e, maxSize), rest, maxSize)
    ensures Run(w, [e] + rest, maxSize) == Run(Step(w, e, maxSize), rest, maxSize)
  {
    assert ([e] + rest)[1..] == rest;
  }

  /** Adding fewer bytes of a file than are committed is legal, and commits a negative size. */
  lemma NegativeCommit(w: World, p: Path, n: nat, m: int, id: CommitId, maxSize: nat)
    requires maxSize > 0 && w.staged == [] && id !in w.changes
    requires LookupSize(w.changes, w.chain, |w.chain|, p) == Some(n) && p in w.files && m < n <= |w.files[p]|
    ensures var events := [Add(p, Some(m)), Commit(id)];
      LegalRun(w, events, maxSize) && var next := Run(w, events, maxSize);
      |next.chain| == |w.chain| + 1 && !RowsNonNegative(RowsAt(next, |w.chain|))
  {
    var events := [Add(p, Some(m)), Commit(id)];
    var a := Step(w, events[0], maxSize);
    assert a.staged == [Staged(Span(p, Append, n, m - n), p, n)];
    RunCons(a, Commit(id), [], maxSize);
    RunCons(w, events[0], [Commit(id)], maxSize);
    assert events == [events[0]] + [Commit(id)] && [Commit(id)] == [Commit(id)] + [];
    assert a.staged[0] in a.staged && !AllNonNegative(a.staged);
    SignsSurvive(a.staged, id, maxSize);
  }

  /** Such a state is reached: a file of two bytes is committed, and then one byte of it. */
  lemma NegativeCommitReached(p: Path, maxSize: nat)
    requires maxSize > 1
    ensures LegalRun(EMPTY, [Grow(p, [0, 0]), Add(p, None), Commit(0)], maxSize)
    ensures var w := Run(EMPTY, [Grow(p, [0, 0]), Add(p, None), Commit(0)], maxSize);
      && w.staged == [] && 1 !in w.changes && p in w.files && |w.files[p]| == 2
      && LookupSize(w.changes, w.chain, |w.chain|, p) == Some(2)
  {
    var events := [Grow(p, [0, 0]), Add(p, None), Commit(0)];
    var a := Step(EMPTY, events[0], maxSize);
    var b := Step(a, events[1], maxSize);
    var s := Staged(Span(p, Create, 0, 2), p, 0);
    assert b.staged == [s];
    assert OfKind([s], Create) == [s] && OfKind([s], Append) == [] by {
      assert [s][1..] == [];
    }
    assert Chunks([s], maxSize) == [] by {
      assert [s][1..] == [];
      assert SpillAll([s], maxSize) == [];
    }
    assert CommitRows([s], 0, maxSize) == [Row(0, s.span, BlobName(0, 0), 0)];
    RunCons(b, Commit(0), [], maxSize);
    RunCons(a, events[1], [Commit(0)], maxSize);
    RunCons(EMPTY, events[0], [events[1], Commit(0)], maxSize);
    assert [Commit(0)] == [Commit(0)] + [] && [events[1], Commit(0)] == [events[1]] + [Commit(0)];
    assert events == [events[0]] + [events[1], Commit(0)];
  }
}
