/** What a built commit means: its rows fit the committed sizes, its uploads hold the bytes of its rows,
    and both hold in whatever order the database returns the rows of one batch. */
module AvcBuildProof {
  import opened AvcCore
  import opened AvcSplit
  import opened AvcPack
  import opened AvcApply
  import opened AvcCommit

  // ---------- Creates ----------

  ghost predicate NewFiles(rows: seq<Row>, sizes: Sizes) {
    && (forall r :: r in rows ==>
      r.span.kind == Create && r.span.start == 0 && r.span.num >= 0 && r.span.path !in sizes)
    && (forall r, x :: r in rows && x in rows && r.span.path == x.span.path ==> r == x)
    && NoDuplicates(rows)
  }

  lemma NewFilesRest(rows: seq<Row>, sizes: Sizes)
    requires rows != [] && NewFiles(rows, sizes)
    ensures NewFiles(rows[1..], AfterOne(rows[0].span, sizes))
  {
    var r, rest := rows[0], rows[1..];
    forall x | x in rest ensures x in rows && x.span.path != r.span.path {
      var i :| 0 <= i < |rest| && rest[i] == x;
      assert rows[i + 1] == x && rows[i + 1] != rows[0];
    }
    assert forall i, j :: 0 <= i < j < |rest| ==> rest[i] == rows[i + 1] && rest[j] == rows[j + 1];
  }

  lemma {:induction false} CreatesFit(rows: seq<Row>, sizes: Sizes)
    requires NewFiles(rows, sizes)
    ensures Fits(SpansOf(rows), sizes)
  {
    if rows != [] {
      assert rows[0] in rows && SpansOf(rows)[1..] == SpansOf(rows[1..]);
      NewFilesRest(rows, sizes);
      CreatesFit(rows[1..], AfterOne(rows[0].span, sizes));
    }
  }

  /** The size a path gets from rows with distinct paths does not depend on their order. */
  lemma SizeFromRow(rows: seq<Row>, sizes: Sizes, r: Row)
    requires r in rows && NoDuplicates(rows)
    requires forall x :: x in rows && x.span.path == r.span.path ==> x == r
    ensures r.span.path in After(SpansOf(rows), sizes)
    ensures After(SpansOf(rows), sizes)[r.span.path] == r.span.start + r.span.num
  {
    var i :| 0 <= i < |rows| && rows[i] == r;
    forall j | i < j < |rows| ensures SpansOf(rows)[j].path != SpansOf(rows)[i].path {
      assert rows[j] in rows && rows[i] != rows[j];
    }
    AfterLast(SpansOf(rows), sizes, i);
  }

  lemma PathOfRow(rows: seq<Row>, p: Path)
    ensures HasPath(SpansOf(rows), p) <==> exists r :: r in rows && r.span.path == p
  {
    if r :| r in rows && r.span.path == p {
      var i :| 0 <= i < |rows| && rows[i] == r;
      assert SpansOf(rows)[i].path == p;
    }
    if i :| 0 <= i < |rows| && SpansOf(rows)[i].path == p {
      assert rows[i] in rows;
    }
  }

  // ---------- The order in which the database returns rows ----------

  predicate SortedByBatch(rows: seq<Row>) {
    forall i, j :: 0 <= i < j < |rows| ==> rows[i].batch <= rows[j].batch
  }

  /** A result of `SELECT ... ORDER BY batch_id`: ties come in any order. */
  predicate IsReadOrder(q: seq<Row>, rows: seq<Row>) {
    multiset(q) == multiset(rows) && SortedByBatch(q)
  }

  /** The creates share batch 0; every append has a batch of its own, in order. */
  predicate BatchShape(creates: seq<Row>, appends: seq<Row>) {
    && (forall r :: r in creates ==> r.batch == 0)
    && (forall i, j :: 0 <= i < j < |appends| ==> appends[i].batch < appends[j].batch)
    && (creates != [] ==> forall r :: r in appends ==> r.batch > 0)
  }

  /** The last append is the only row with the greatest batch, so it is returned last. */
  lemma LastIsLast(q: seq<Row>, creates: seq<Row>, appends: seq<Row>)
    requires IsReadOrder(q, creates + appends) && BatchShape(creates, appends) && appends != []
    ensures q != [] && q[|q| - 1] == appends[|appends| - 1]
  {
    var last := appends[|appends| - 1];
    assert last in creates + appends;
    assert last in multiset(q);
    var k :| 0 <= k < |q| && q[k] == last;
    var x := q[|q| - 1];
    assert x in multiset(creates + appends);
    assert last.batch <= x.batch;
    if x !in creates {
      assert x in appends;
      var j :| 0 <= j < |appends| && appends[j] == x;
    }
  }

  lemma DropLast<T>(s: seq<T>)
    requires s != []
    ensures s == s[..|s| - 1] + [s[|s| - 1]]
    ensures multiset(s[..|s| - 1]) == multiset(s) - multiset{s[|s| - 1]}
  {
    assert s == s[..|s| - 1] + [s[|s| - 1]];
  }

  /** Only the creates can be returned in another order. */
  lemma {:induction false} OrderSplit(q: seq<Row>, creates: seq<Row>, appends: seq<Row>) returns (qc: seq<Row>)
    requires IsReadOrder(q, creates + appends) && BatchShape(creates, appends)
    ensures q == qc + appends
    ensures multiset(qc) == multiset(creates)
    decreases |appends|
  {
    if appends == [] {
      assert creates + appends == creates && q + [] == q;
      qc := q;
    } else {
      LastIsLast(q, creates, appends);
      DropLast(q);
      DropLastAppend(creates, appends);
      assert BatchShape(creates, appends[..|appends| - 1]) by {
        assert forall r :: r in appends[..|appends| - 1] ==> r in appends;
      }
      qc := OrderSplit(q[..|q| - 1], creates, appends[..|appends| - 1]);
      Reassociate(qc, appends);
    }
  }

  lemma DropLastAppend(creates: seq<Row>, appends: seq<Row>)
    requires appends != []
    ensures multiset(creates + appends[..|appends| - 1])
         == multiset(creates + appends) - multiset{appends[|appends| - 1]}
  {
    DropLast(creates + appends);
    assert (creates + appends)[..|creates + appends| - 1] == creates + appends[..|appends| - 1];
  }

  lemma Reassociate(a: seq<Row>, b: seq<Row>)
    requires b != []
    ensures a + b[..|b| - 1] + [b[|b| - 1]] == a + b
  {
  }

  lemma {:induction false} NoDuplicatesCount<T>(s: seq<T>)
    ensures NoDuplicates(s) <==> forall x :: multiset(s)[x] <= 1
  {
    if s != [] {
      var init, last := s[..|s| - 1], s[|s| - 1];
      assert s == init + [last];
      NoDuplicatesCount(init);
      if NoDuplicates(s) {
        assert NoDuplicates(init) && last !in init;
      } else if forall x :: multiset(s)[x] <= 1 {
        CountedOnce(init, last);
      }
    }
  }

  lemma CountedOnce<T>(init: seq<T>, last: T)
    requires (forall x :: multiset(init)[x] <= 1) ==> NoDuplicates(init)
    requires forall x :: multiset(init + [last])[x] <= 1
    ensures NoDuplicates(init + [last])
  {
    assert forall x :: multiset(init)[x] <= multiset(init + [last])[x];
    assert multiset(init + [last])[last] == multiset(init)[last] + 1;
    assert last !in multiset(init);
  }

  lemma SameElements<T>(q: seq<T>, s: seq<T>)
    requires multiset(q) == multiset(s)
    ensures forall x :: x in q <==> x in s
    ensures NoDuplicates(s) ==> NoDuplicates(q)
  {
    forall x ensures x in q <==> x in s {
      assert x in q <==> x in multiset(q);
      assert x in s <==> x in multiset(s);
    }
    NoDuplicatesCount(q);
    NoDuplicatesCount(s);
  }

  /** In every read order the rows fit, and they lead to the same sizes. */
  lemma AnyOrderFits(q: seq<Row>, creates: seq<Row>, appends: seq<Row>, sizes: Sizes)
    requires IsReadOrder(q, creates + appends) && BatchShape(creates, appends)
    requires NewFiles(creates, sizes)
    requires Fits(SpansOf(creates + appends), sizes)
    ensures Fits(SpansOf(q), sizes)
    ensures After(SpansOf(q), sizes) == After(SpansOf(creates + appends), sizes)
  {
    var qc := OrderSplit(q, creates, appends);
    SameElements(qc, creates);
    CreatesFit(qc, sizes);
    SameSizes(qc, creates, sizes);
    SpansConcat(qc, appends, sizes);
    SpansConcat(creates, appends, sizes);
  }

  lemma SpansConcat(a: seq<Row>, b: seq<Row>, sizes: Sizes)
    ensures After(SpansOf(a + b), sizes) == After(SpansOf(b), After(SpansOf(a), sizes))
    ensures Fits(SpansOf(a + b), sizes) <==> Fits(SpansOf(a), sizes) && Fits(SpansOf(b), After(SpansOf(a), sizes))
  {
    assert SpansOf(a + b) == SpansOf(a) + SpansOf(b);
    FitsConcat(SpansOf(a), SpansOf(b), sizes);
  }

  lemma SameSizes(q: seq<Row>, rows: seq<Row>, sizes: Sizes)
    requires NewFiles(q, sizes) && NewFiles(rows, sizes)
    requires forall x :: x in q <==> x in rows
    ensures After(SpansOf(q), sizes) == After(SpansOf(rows), sizes)
  {
    var a, b := After(SpansOf(q), sizes), After(SpansOf(rows), sizes);
    forall p ensures (p in a <==> p in b) && (p in a && p in b ==> a[p] == b[p]) {
      PathOfRow(q, p);
      PathOfRow(rows, p);
      AfterKeys(SpansOf(q), sizes, p);
      AfterKeys(SpansOf(rows), sizes, p);
      if r :| r in rows && r.span.path == p {
        SizeFromRow(q, sizes, r);
        SizeFromRow(rows, sizes, r);
      } else {
        AfterFrame(SpansOf(q), sizes, p);
        AfterFrame(SpansOf(rows), sizes, p);
      }
    }
  }
}
