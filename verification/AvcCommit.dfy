/** Turning staged changes into the rows and the upload operations of one commit (`build_git_commit`). */
module AvcCommit {
  import opened AvcCore
  import opened AvcSplit
  import opened AvcPack
  import opened AvcApply

  function OfKind(staged: seq<Staged>, kind: Kind): seq<Staged> {
    if staged == [] then []
    else (if staged[0].span.kind == kind then [staged[0]] else []) + OfKind(staged[1..], kind)
  }

  function CreateRows(creates: seq<Staged>, id: CommitId): (r: seq<Row>)
    ensures |r| == |creates|
  {
    seq(|creates|, i requires 0 <= i < |creates| =>
      Row(0, Span(creates[i].span.path, Create, 0, creates[i].span.num), BlobName(id, i), 0))
  }

  function CreateOps(creates: seq<Staged>, id: CommitId): (r: seq<Op>)
    ensures |r| == |creates|
  {
    seq(|creates|, i requires 0 <= i < |creates| => ConcatenatingAdd(BlobName(id, i), [SourceOf(creates[i])]))
  }

  // ---------- The commit as a function of what was staged ----------

  function FirstAppendBatch(staged: seq<Staged>): nat {
    if OfKind(staged, Create) == [] then 0 else 1
  }

  function TrimmedCreates(staged: seq<Staged>, maxSize: nat): seq<Staged> {
    TrimAll(OfKind(staged, Create), maxSize)
  }

  ghost function Chunks(staged: seq<Staged>, maxSize: nat): seq<Staged>
    requires maxSize > 0
  {
    Scan(OfKind(staged, Append) + SpillAll(OfKind(staged, Create), maxSize), maxSize)
  }

  ghost function CommitRows(staged: seq<Staged>, id: CommitId, maxSize: nat): seq<Row>
    requires maxSize > 0
  {
    var creates := TrimmedCreates(staged, maxSize);
    CreateRows(creates, id)
    + AllRows(Pack(Chunks(staged, maxSize), maxSize), id, FirstAppendBatch(staged), |creates|)
  }

  ghost function CommitOps(staged: seq<Staged>, id: CommitId, maxSize: nat): seq<Op>
    requires maxSize > 0
  {
    var creates := TrimmedCreates(staged, maxSize);
    CreateOps(creates, id) + AllOps(Pack(Chunks(staged, maxSize), maxSize), id, |creates|)
  }

  method FilterKind(staged: seq<Staged>, kind: Kind) returns (r: seq<Staged>)
    ensures r == OfKind(staged, kind)
  {
    r := [];
    var i := 0;
    while i < |staged|
      invariant 0 <= i <= |staged|
      invariant r + OfKind(staged[i..], kind) == OfKind(staged, kind)
    {
      assert staged[i..][1..] == staged[i + 1..];
      if staged[i].span.kind == kind {
        r := r + [staged[i]];
      }
      i := i + 1;
    }
  }

  method BuildCreates(creates: seq<Staged>, id: CommitId, ghost maxSize: nat) returns (rows: seq<Row>, ops: seq<Op>)
    requires forall e :: e in creates ==> e.span.num <= maxSize
    ensures rows == CreateRows(creates, id)
    ensures ops == CreateOps(creates, id)
  {
    rows, ops := [], [];
    var blobId := 0;
    while blobId < |creates|
      invariant 0 <= blobId <= |creates|
      invariant rows == CreateRows(creates[..blobId], id)
      invariant ops == CreateOps(creates[..blobId], id)
    {
      var s := creates[blobId];
      assert s in creates && s.span.num <= maxSize;
      rows := rows + [Row(0, Span(s.span.path, Create, 0, s.span.num), BlobName(id, blobId), 0)];
      ops := ops + [ConcatenatingAdd(BlobName(id, blobId), [SourceOf(s)])];
      blobId := blobId + 1;
    }
    assert creates[..blobId] == creates;
  }

  /** Step 3 of `build_git_commit`, with the size limit as a parameter. */
  method BuildChanges(staged: seq<Staged>, id: CommitId, maxSize: nat) returns (rows: seq<Row>, ops: seq<Op>)
    requires maxSize > 0
    requires forall e :: e in staged && e.span.kind == Create ==> e.span.start == 0
    ensures rows == CommitRows(staged, id, maxSize)
    ensures ops == CommitOps(staged, id, maxSize) + [DatabaseAdd]
  {
    var creates := FilterKind(staged, Create);
    var appends := FilterKind(staged, Append);
    creates, appends := SplitCreates(creates, appends, maxSize);
    appends := SplitAppends(appends, maxSize);
    ScanChunks(OfKind(staged, Append) + SpillAll(OfKind(staged, Create), maxSize), maxSize);
    rows, ops := BuildCreates(creates, id, maxSize);
    var appendRows, appendOps := PackAppends(appends, id, if |creates| > 0 then 1 else 0, |creates|, maxSize);
    rows, ops := rows + appendRows, ops + appendOps + [DatabaseAdd];
  }

  // ---------- What may be staged ----------

  /** What `add` leaves in `staged_changes`: one change for a path, at the committed end of its file. */
  predicate StagedOk(staged: seq<Staged>, sizes: Sizes, files: Files) {
    && DistinctStaged(staged)
    && forall e :: e in staged ==>
      && Backed(e, files)
      && match e.span.kind
         case Create => e.span.path !in sizes && e.span.start == 0
         case Append => e.span.path in sizes && e.span.start == sizes[e.span.path]
  }

  lemma {:induction false} OfKindIn(staged: seq<Staged>, kind: Kind)
    ensures forall e :: e in OfKind(staged, kind) <==> e in staged && e.span.kind == kind
  {
    if staged != [] {
      OfKindIn(staged[1..], kind);
      assert staged == [staged[0]] + staged[1..];
    }
  }

  lemma DistinctTail(staged: seq<Staged>)
    requires staged != [] && DistinctStaged(staged)
    ensures DistinctStaged(staged[1..])
    ensures forall e :: e in staged[1..] ==> e.span.path != staged[0].span.path
  {
    forall e | e in staged[1..] ensures e.span.path != staged[0].span.path {
      var j :| 0 <= j < |staged[1..]| && staged[1..][j] == e;
      assert staged[j + 1] == e;
    }
    assert forall j :: 0 <= j < |staged[1..]| ==> staged[1..][j] == staged[j + 1];
  }

  lemma DistinctCons(s: Staged, rest: seq<Staged>)
    requires DistinctStaged(rest) && forall e :: e in rest ==> e.span.path != s.span.path
    ensures DistinctStaged([s] + rest)
  {
    var q := [s] + rest;
    forall i, j | 0 <= i < j < |q| ensures q[i].span.path != q[j].span.path {
      assert q[j] == rest[j - 1] && rest[j - 1] in rest;
    }
  }

  lemma {:induction false} OfKindDistinct(staged: seq<Staged>, kind: Kind)
    requires DistinctStaged(staged)
    ensures DistinctStaged(OfKind(staged, kind))
  {
    if staged != [] {
      DistinctTail(staged);
      OfKindDistinct(staged[1..], kind);
      OfKindIn(staged[1..], kind);
      DistinctCons(staged[0], OfKind(staged[1..], kind));
    }
  }

  ghost predicate IsSpill(e: Staged, creates: seq<Staged>, maxSize: nat) {
    exists c :: c in creates && c.span.num > maxSize && e == Spill(c, maxSize)
  }

  lemma {:induction false} SpillAllIn(creates: seq<Staged>, maxSize: nat)
    ensures forall e :: e in SpillAll(creates, maxSize) <==> IsSpill(e, creates, maxSize)
  {
    if creates != [] {
      var rest := creates[1..];
      SpillAllIn(rest, maxSize);
      assert creates == [creates[0]] + rest;
      forall e ensures IsSpill(e, creates, maxSize) <==> e in Spills(creates[0], maxSize) || IsSpill(e, rest, maxSize) {
      }
    }
  }

  lemma {:induction false} SpillAllDistinct(creates: seq<Staged>, maxSize: nat)
    requires DistinctStaged(creates)
    ensures DistinctStaged(SpillAll(creates, maxSize))
  {
    if creates != [] {
      DistinctTail(creates);
      SpillAllDistinct(creates[1..], maxSize);
      SpillAllIn(creates[1..], maxSize);
      DistinctCons(Spill(creates[0], maxSize), SpillAll(creates[1..], maxSize));
    }
  }
}
