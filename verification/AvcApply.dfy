/** Replaying a commit on a clone (`apply_commit`): a plan made by a reversed scan, then executed. */
module AvcApply {
  import opened Optional
  import opened AvcCore
  import opened AvcPack

  datatype Io =
    | Move(blob: BlobName, dst: Path)
    | Delete(blob: BlobName)
    | AppendBytes(blob: BlobName, offset: int, num: int, dst: Path, dstOffset: int)

  /** The clone's data directory and its `.avc/blobs` directory. */
  datatype Fs = Fs(files: Files, blobs: Blobs)

  // ---------- Planning ----------

  function AppendBlobs(rows: seq<Row>): set<BlobName> {
    if rows == [] then {} else
      AppendBlobs(rows[1..]) + if rows[0].span.kind == Append then {rows[0].blob} else {}
  }

  /** The operations of one row; a blob is deleted after the last append that reads it. */
  function PlanOne(r: Row, later: set<BlobName>): seq<Io> {
    match r.span.kind
    case Create => [Move(r.blob, r.span.path)]
    case Append =>
      [AppendBytes(r.blob, r.blobOffset, r.span.num, r.span.path, r.span.start)]
      + if r.blob in later then [] else [Delete(r.blob)]
  }

  function Plan(rows: seq<Row>): seq<Io> {
    if rows == [] then [] else PlanOne(rows[0], AppendBlobs(rows[1..])) + Plan(rows[1..])
  }

  /** The assertions on create rows, made while planning. */
  predicate CreateOk(r: Row, blobs: Blobs) {
    r.span.kind == Create ==>
      r.blobOffset == 0 && r.span.start == 0 && r.blob in blobs && r.span.num == |blobs[r.blob]|
  }

  predicate CreatesOk(rows: seq<Row>, blobs: Blobs) {
    rows == [] || (CreateOk(rows[0], blobs) && CreatesOk(rows[1..], blobs))
  }

  function Reverse<T>(s: seq<T>): (r: seq<T>)
    ensures |r| == |s|
  {
    if s == [] then [] else [s[|s| - 1]] + Reverse(s[..|s| - 1])
  }

  lemma ReverseSnoc<T>(s: seq<T>, x: T)
    ensures Reverse(s + [x]) == [x] + Reverse(s)
  {
    assert (s + [x])[..|s|] == s;
  }

  lemma ReverseTwo<T>(s: seq<T>, x: T, y: T)
    ensures Reverse(s + [x]) == [x] + Reverse(s)
    ensures Reverse(s + [x] + [y]) == [y] + [x] + Reverse(s)
  {
    ReverseSnoc(s, x);
    ReverseSnoc(s + [x], y);
    assert [y] + ([x] + Reverse(s)) == [y] + [x] + Reverse(s);
  }

  lemma PlanStep(rows: seq<Row>, i: nat, blobs: Blobs)
    requires i < |rows|
    ensures Plan(rows[i..]) == PlanOne(rows[i], AppendBlobs(rows[i + 1..])) + Plan(rows[i + 1..])
    ensures AppendBlobs(rows[i..])
      == AppendBlobs(rows[i + 1..]) + if rows[i].span.kind == Append then {rows[i].blob} else {}
    ensures CreatesOk(rows[i..], blobs) <==> CreateOk(rows[i], blobs) && CreatesOk(rows[i + 1..], blobs)
    ensures rows[i].span.kind == Append ==> CreateOk(rows[i], blobs)
  {
    assert rows[i..][0] == rows[i] && rows[i..][1..] == rows[i + 1..];
  }

  lemma CreateTurn(planRev: seq<Io>, r: Row, later: set<BlobName>)
    requires r.span.kind == Create
    ensures Reverse(planRev + [Move(r.blob, r.span.path)]) == PlanOne(r, later) + Reverse(planRev)
  {
    ReverseSnoc(planRev, Move(r.blob, r.span.path));
  }

  lemma AppendTurn(planRev: seq<Io>, r: Row, later: set<BlobName>)
    requires r.span.kind == Append
    ensures var op := AppendBytes(r.blob, r.blobOffset, r.span.num, r.span.path, r.span.start);
      Reverse((if r.blob in later then planRev else planRev + [Delete(r.blob)]) + [op])
        == PlanOne(r, later) + Reverse(planRev)
  {
    var op := AppendBytes(r.blob, r.blobOffset, r.span.num, r.span.path, r.span.start);
    ReverseSnoc(planRev, op);
    ReverseTwo(planRev, Delete(r.blob), op);
  }

  method PlanChanges(rows: seq<Row>, blobs: Blobs) returns (ok: bool, plan: seq<Io>)
    ensures ok <==> CreatesOk(rows, blobs)
    ensures ok ==> plan == Plan(rows)
  {
    hide CreateOk, PlanOne;
    var planRev, deleted := [], {};
    plan := [];
    var i := |rows|;
    while i > 0
      invariant 0 <= i <= |rows|
      invariant Reverse(planRev) == Plan(rows[i..])
      invariant deleted == AppendBlobs(rows[i..])
      invariant CreatesOk(rows[i..], blobs)
    {
      i := i - 1;
      var r := rows[i];
      PlanStep(rows, i, blobs);
      if r.span.kind == Create {
        if !CreateOk(r, blobs) {
          CreatesFail(rows, i, blobs);
          return false, [];
        }
        CreateTurn(planRev, r, deleted);
        planRev := planRev + [Move(r.blob, r.span.path)];
      } else {
        var op := AppendBytes(r.blob, r.blobOffset, r.span.num, r.span.path, r.span.start);
        AppendTurn(planRev, r, deleted);
        if r.blob !in deleted {
          deleted := deleted + {r.blob};
          planRev := planRev + [Delete(r.blob)];
        }
        planRev := planRev + [op];
      }
    }
    assert rows[0..] == rows;
    return true, Reverse(planRev);
  }

  lemma {:induction false} CreatesFail(rows: seq<Row>, i: nat, blobs: Blobs)
    requires i < |rows| && !CreateOk(rows[i], blobs)
    ensures !CreatesOk(rows, blobs)
  {
    if i > 0 {
      CreatesFail(rows[1..], i - 1, blobs);
    }
  }

  lemma {:induction false} CreatesOkAll(rows: seq<Row>, blobs: Blobs)
    requires forall r :: r in rows ==> CreateOk(r, blobs)
    ensures CreatesOk(rows, blobs)
  {
    if rows != [] {
      CreatesOkAll(rows[1..], blobs);
    }
  }

  // ---------- Executing ----------

  /** `seek(offset)` and `read(num)` on a blob: reads stop at the end, a negative count reads to the end. */
  function ReadAt(blob: Bytes, offset: nat, num: int): Bytes {
    if offset > |blob| then []
    else if num < 0 || offset + num > |blob| then blob[offset..]
    else blob[offset..offset + num]
  }

  /** One operation; `None` when it raises. */
  function Exec1(op: Io, fs: Fs): Option<Fs> {
    match op
    case Move(blob, dst) =>
      if blob in fs.blobs then Some(Fs(fs.files[dst := fs.blobs[blob]], fs.blobs - {blob})) else None
    case Delete(blob) =>
      if blob in fs.blobs then Some(fs.(blobs := fs.blobs - {blob})) else None
    case AppendBytes(blob, offset, num, dst, dstOffset) =>
      if dst !in fs.files || dstOffset != |fs.files[dst]| || blob !in fs.blobs || offset < 0 then None else
        var data := ReadAt(fs.blobs[blob], offset, num);
        if |data| != num then None else Some(fs.(files := fs.files[dst := fs.files[dst] + data]))
  }

  function Exec(ops: seq<Io>, fs: Fs): Option<Fs> {
    if ops == [] then Some(fs) else
      var next := Exec1(ops[0], fs);
      if next.None? then None else Exec(ops[1..], next.value)
  }

  lemma {:induction false} ExecConcat(a: seq<Io>, b: seq<Io>, fs: Fs)
    ensures Exec(a + b, fs) == if Exec(a, fs).None? then None else Exec(b, Exec(a, fs).value)
  {
    if a == [] {
      assert a + b == b;
    } else {
      assert (a + b)[0] == a[0] && (a + b)[1..] == a[1..] + b;
      if Exec1(a[0], fs).Some? {
        ExecConcat(a[1..], b, Exec1(a[0], fs).value);
      }
    }
  }

  /** All of `apply_commit` on the file system, for the rows in the order the query returned them. */
  function Apply(rows: seq<Row>, fs: Fs): Option<Fs> {
    if rows == [] || !CreatesOk(rows, fs.blobs) then None else Exec(Plan(rows), fs)
  }

  // ---------- What replaying means ----------

  /** The clone's files are the first `sizes[p]` bytes of the original files. */
  ghost predicate Holds(files: Files, sizes: Sizes, original: Files) {
    && files.Keys == sizes.Keys
    && forall p :: p in sizes ==>
      p in original && 0 <= sizes[p] <= |original[p]| && files[p] == original[p][..sizes[p]]
  }

  function BlobNames(rows: seq<Row>): set<BlobName> {
    if rows == [] then {} else BlobNames(rows[1..]) + {rows[0].blob}
  }

  lemma {:induction false} BlobNamesIn(rows: seq<Row>)
    ensures forall b :: b in BlobNames(rows) <==> exists r :: r in rows && r.blob == b
    ensures forall b :: b in AppendBlobs(rows) <==> exists r :: r in rows && r.span.kind == Append && r.blob == b
  {
    if rows != [] {
      BlobNamesIn(rows[1..]);
      assert rows == [rows[0]] + rows[1..];
    }
  }

  predicate NoDuplicates<T(==)>(s: seq<T>) {
    forall i, j :: 0 <= i < j < |s| ==> s[i] != s[j]
  }

  /** A created file is one whole blob that no other row uses. */
  ghost predicate CreatesOwnBlob(rows: seq<Row>, blobs: Blobs) {
    && NoDuplicates(rows)
    && (forall r :: r in rows ==> CreateOk(r, blobs))
    && forall r, x :: r in rows && x in rows && r.span.kind == Create && r.blob == x.blob ==> r == x
  }

  /** One row, planned and executed, does to the files what its span says. */
  lemma ReplayOne(r: Row, rest: seq<Row>, sizes: Sizes, fs: Fs, original: Files)
    requires FitsOne(r.span, sizes) && Holds(fs.files, sizes, original)
    requires r.blob in fs.blobs && RowMatches(r, fs.blobs[r.blob], original) && CreateOk(r, fs.blobs)
    ensures Exec(PlanOne(r, AppendBlobs(rest)), fs).Some?
    ensures var next := Exec(PlanOne(r, AppendBlobs(rest)), fs).value;
      && Holds(next.files, AfterOne(r.span, sizes), original)
      && next.blobs == if r.span.kind == Append && r.blob in AppendBlobs(rest) then fs.blobs else fs.blobs - {r.blob}
  {
    var ops := PlanOne(r, AppendBlobs(rest));
    if r.span.kind == Append {
      var p := r.span.path;
      var next := Exec1(ops[0], fs);
      assert next.Some? && next.value.blobs == fs.blobs;
      assert next.value.files[p] == original[p][..sizes[p] + r.span.num];
      if |ops| > 1 {
        assert ops[1..] == [Delete(r.blob)];
        assert Exec(ops[1..], next.value) == Exec1(Delete(r.blob), next.value);
      } else {
        assert ops[1..] == [];
      }
    } else {
      assert ops[1..] == [];
    }
  }

  /** Consuming the first row's blob leaves the other rows' blobs usable. */
  lemma OthersKeepBlobs(rows: seq<Row>, blobs: Blobs, next: Blobs, original: Files)
    requires rows != [] && Published(rows, blobs, original) && CreatesOwnBlob(rows, blobs)
    requires next == if rows[0].span.kind == Append && rows[0].blob in AppendBlobs(rows[1..])
                     then blobs else blobs - {rows[0].blob}
    ensures Published(rows[1..], next, original) && CreatesOwnBlob(rows[1..], next)
  {
    hide RowMatches;
    var rest := rows[1..];
    forall x | x in rest ensures x in rows && x.blob in next && next[x.blob] == blobs[x.blob] {
      OtherBlobKept(rows, blobs, next, x);
    }
    RestDistinct(rows);
  }

  lemma OtherBlobKept(rows: seq<Row>, blobs: Blobs, next: Blobs, x: Row)
    requires rows != [] && x in rows[1..] && x.blob in blobs && CreatesOwnBlob(rows, blobs)
    requires next == if rows[0].span.kind == Append && rows[0].blob in AppendBlobs(rows[1..])
                     then blobs else blobs - {rows[0].blob}
    ensures x in rows && x.blob in next && next[x.blob] == blobs[x.blob]
  {
    hide CreateOk;
    BlobNamesIn(rows[1..]);
    var i :| 0 <= i < |rows[1..]| && rows[1..][i] == x;
    assert rows[i + 1] == x && rows[i + 1] != rows[0];
    assert rows[0] in rows;
  }

  lemma OthersConsumed(rows: seq<Row>, blobs: Blobs, next: Blobs)
    requires rows != []
    requires next == if rows[0].span.kind == Append && rows[0].blob in AppendBlobs(rows[1..])
                     then blobs else blobs - {rows[0].blob}
    ensures blobs - BlobNames(rows) == next - BlobNames(rows[1..])
  {
    BlobNamesIn(rows[1..]);
  }

  lemma RestDistinct(rows: seq<Row>)
    requires rows != [] && NoDuplicates(rows)
    ensures NoDuplicates(rows[1..])
  {
    var rest := rows[1..];
    assert forall i, j :: 0 <= i < j < |rest| ==> rest[i] == rows[i + 1] && rest[j] == rows[j + 1];
  }

  /** Replaying rows that fit, from blobs that hold their bytes, succeeds: every assertion passes,
      the files end at the new sizes with the original bytes, and exactly the blobs of the rows are consumed. */
  lemma {:induction false} Replay(rows: seq<Row>, sizes: Sizes, fs: Fs, original: Files)
    requires Fits(SpansOf(rows), sizes) && Holds(fs.files, sizes, original)
    requires Published(rows, fs.blobs, original) && CreatesOwnBlob(rows, fs.blobs)
    ensures Exec(Plan(rows), fs).Some?
    ensures Holds(Exec(Plan(rows), fs).value.files, After(SpansOf(rows), sizes), original)
    ensures Exec(Plan(rows), fs).value.blobs == fs.blobs - BlobNames(rows)
  {
    if rows != [] {
      var r, rest := rows[0], rows[1..];
      var plan := PlanOne(r, AppendBlobs(rest));
      assert SpansOf(rows)[0] == r.span && SpansOf(rows)[1..] == SpansOf(rest);
      ReplayOne(r, rest, sizes, fs, original);
      var next := Exec(plan, fs).value;
      OthersKeepBlobs(rows, fs.blobs, next.blobs, original);
      OthersConsumed(rows, fs.blobs, next.blobs);
      Replay(rest, AfterOne(r.span, sizes), next, original);
      ExecConcat(plan, Plan(rest), fs);
    }
  }

  lemma ApplySucceeds(rows: seq<Row>, sizes: Sizes, fs: Fs, original: Files)
    requires rows != []
    requires Fits(SpansOf(rows), sizes) && Holds(fs.files, sizes, original)
    requires Published(rows, fs.blobs, original) && CreatesOwnBlob(rows, fs.blobs)
    ensures Apply(rows, fs).Some?
    ensures Holds(Apply(rows, fs).value.files, After(SpansOf(rows), sizes), original)
    ensures Apply(rows, fs).value.blobs == fs.blobs - BlobNames(rows)
  {
    CreatesOkAll(rows, fs.blobs);
    Replay(rows, sizes, fs, original);
  }

  // ---------- Negative sizes ----------

  lemma {:induction false} NegativeReadFails(ops: seq<Io>, fs: Fs)
    requires exists op :: op in ops && op.AppendBytes? && op.num < 0
    ensures Exec(ops, fs).None?
  {
    if !(ops[0].AppendBytes? && ops[0].num < 0) && Exec1(ops[0], fs).Some? {
      NegativeReadFails(ops[1..], Exec1(ops[0], fs).value);
    }
  }

  lemma {:induction false} PlanHasAppends(rows: seq<Row>, r: Row)
    requires r in rows && r.span.kind == Append
    ensures AppendBytes(r.blob, r.blobOffset, r.span.num, r.span.path, r.span.start) in Plan(rows)
  {
    if rows[0] != r {
      PlanHasAppends(rows[1..], r);
    }
  }

  /** A row with a negative size can never be applied, whatever the clone holds. */
  lemma NegativeRowFails(rows: seq<Row>, fs: Fs)
    requires exists r :: r in rows && r.span.num < 0
    ensures Apply(rows, fs).None?
  {
    var r :| r in rows && r.span.num < 0;
    if r.span.kind == Create {
      var i :| 0 <= i < |rows| && rows[i] == r;
      CreatesFail(rows, i, fs.blobs);
    } else {
      PlanHasAppends(rows, r);
      NegativeReadFails(Plan(rows), fs);
    }
  }
}
