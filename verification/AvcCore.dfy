/** The tables, files and blobs of the append-only version store, and what a commit's
    rows mean for the sizes of the versioned files (database_exporting/avc.py). */
module AvcCore {
  import opened Optional

  newtype Byte = x: int | 0 <= x < 256
  type Bytes = seq<Byte>
  type Path = string
  type Files = map<Path, Bytes>

  /** A commit's SHA-256 digest. Digests of distinct commits are distinct. */
  type CommitId = nat

  /** `{id[:2]}/{id}-blob-{n}`: one name for each commit and blob number. */
  datatype BlobName = BlobName(commit: CommitId, index: nat)
  type Blobs = map<BlobName, Bytes>

  datatype Kind = Create | Append

  /** The part of a file that a staged change or a commit row covers. */
  datatype Span = Span(path: Path, kind: Kind, start: int, num: int)

  /** A row of `staged_changes`. */
  datatype Staged = Staged(span: Span, backing: Path, backingOffset: int)

  /** A row of `commit_changes` of one commit. */
  datatype Row = Row(batch: nat, span: Span, blob: BlobName, blobOffset: int)

  /** A slice of a local file (`ReadSource`). */
  datatype Source = Source(path: Path, offset: int, num: int)

  /** What must be pushed to the remote to publish a commit. */
  datatype Op = ConcatenatingAdd(blob: BlobName, sources: seq<Source>) | DatabaseAdd

  type Sizes = map<Path, int>

  function SourceOf(s: Staged): Source {
    Source(s.backing, s.backingOffset, s.span.num)
  }

  function SpansOf(rows: seq<Row>): (r: seq<Span>)
    ensures |r| == |rows|
  {
    seq(|rows|, i requires 0 <= i < |rows| => rows[i].span)
  }

  function StagedSpans(q: seq<Staged>): (r: seq<Span>)
    ensures |r| == |q|
  {
    seq(|q|, i requires 0 <= i < |q| => q[i].span)
  }

  // ---------- What a list of spans does to the committed sizes ----------

  function AfterOne(s: Span, sizes: Sizes): Sizes {
    sizes[s.path := s.start + s.num]
  }

  function After(spans: seq<Span>, sizes: Sizes): Sizes {
    if spans == [] then sizes else After(spans[1..], AfterOne(spans[0], sizes))
  }

  /** A create introduces a new path at offset 0; an append starts where the file ends. */
  predicate FitsOne(s: Span, sizes: Sizes) {
    && s.num >= 0
    && match s.kind
       case Create => s.path !in sizes && s.start == 0
       case Append => s.path in sizes && s.start == sizes[s.path]
  }

  /** Replaying the spans in this order, every span fits when its turn comes. */
  predicate Fits(spans: seq<Span>, sizes: Sizes) {
    spans == [] || (FitsOne(spans[0], sizes) && Fits(spans[1..], AfterOne(spans[0], sizes)))
  }

  lemma {:induction false} FitsConcat(a: seq<Span>, b: seq<Span>, sizes: Sizes)
    ensures After(a + b, sizes) == After(b, After(a, sizes))
    ensures Fits(a + b, sizes) <==> Fits(a, sizes) && Fits(b, After(a, sizes))
  {
    if a == [] {
      assert a + b == b;
    } else {
      assert (a + b)[1..] == a[1..] + b;
      FitsConcat(a[1..], b, AfterOne(a[0], sizes));
    }
  }

  predicate HasPath(spans: seq<Span>, p: Path) {
    exists i :: 0 <= i < |spans| && spans[i].path == p
  }

  /** Paths that no span mentions keep their size. */
  lemma {:induction false} AfterFrame(spans: seq<Span>, sizes: Sizes, p: Path)
    requires !HasPath(spans, p)
    ensures (p in After(spans, sizes)) == (p in sizes)
    ensures p in sizes ==> After(spans, sizes)[p] == sizes[p]
  {
    if spans != [] {
      assert spans[0].path != p;
      forall i | 0 <= i < |spans[1..]| ensures spans[1..][i].path != p {
        assert spans[1..][i] == spans[i + 1];
      }
      AfterFrame(spans[1..], AfterOne(spans[0], sizes), p);
    }
  }

  lemma {:induction false} AfterKeys(spans: seq<Span>, sizes: Sizes, p: Path)
    ensures p in After(spans, sizes) <==> p in sizes || HasPath(spans, p)
  {
    if spans != [] {
      AfterKeys(spans[1..], AfterOne(spans[0], sizes), p);
      if HasPath(spans[1..], p) {
        var i :| 0 <= i < |spans[1..]| && spans[1..][i].path == p;
        assert spans[i + 1].path == p;
      }
    }
  }

  /** The size of a path is the end of the last span that mentions it. */
  lemma {:induction false} AfterLast(spans: seq<Span>, sizes: Sizes, i: nat)
    requires i < |spans|
    requires forall j :: i < j < |spans| ==> spans[j].path != spans[i].path
    ensures spans[i].path in After(spans, sizes)
    ensures After(spans, sizes)[spans[i].path] == spans[i].start + spans[i].num
  {
    var a, b := spans[..i + 1], spans[i + 1..];
    assert spans == a + b && a == spans[..i] + [spans[i]];
    FitsConcat(a, b, sizes);
    FitsConcat(spans[..i], [spans[i]], sizes);
    assert After([spans[i]], After(spans[..i], sizes)) == AfterOne(spans[i], After(spans[..i], sizes));
    AfterFrame(b, After(a, sizes), spans[i].path);
  }
}
