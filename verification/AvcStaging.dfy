/** What is staged, and what a commit makes of it, told by the calls of `add` (`add`, `build_git_commit`). */
module AvcStaging {
  import opened Optional
  import opened AvcCore
  import opened AvcSplit
  import opened AvcPack
  import opened AvcCommit
  import opened AvcBuildProof
  import opened AvcBuildTheorem
  import opened AvcHistory
  import opened AvcRuns

  /** What `add` asserts of the staged row it finds. */
  predicate RowAgrees(e: Staged, committed: Option<int>) {
    match committed
    case None => e.span.kind == Create && e.span.start == 0
    case Some(n) => e.span.kind == Append && e.span.start == n
  }

  ghost predicate StagedAgrees(staged: seq<Staged>, changes: map<CommitId, seq<Row>>, chain: seq<CommitId>, k: nat)
    requires k <= |chain|
  {
    forall e :: e in staged ==> RowAgrees(e, LookupSize(changes, chain, k, e.span.path))
  }

  lemma AddAgrees(staged: seq<Staged>, changes: map<CommitId, seq<Row>>, chain: seq<CommitId>, k: nat,
                  p: Path, num: int)
    requires k <= |chain| && StagedAgrees(staged, changes, chain, k)
    ensures StagedAgrees(AddStaged(staged, LookupSize(changes, chain, k, p), p, num), changes, chain, k)
  {
    var committed := LookupSize(changes, chain, k, p);
    var more := AddStaged(staged, committed, p, num);
    var i := StagedIndex(staged, |staged|, p);
    forall e | e in more ensures RowAgrees(e, LookupSize(changes, chain, k, e.span.path)) {
      if e !in staged {
        if i.Some? {
          assert staged[i.value] in staged && e == more[i.value];
        } else {
          assert e == more[|staged|];
        }
      }
    }
  }

  lemma StagedRowAgrees(staged: seq<Staged>, changes: map<CommitId, seq<Row>>, chain: seq<CommitId>, k: nat, i: nat)
    requires k <= |chain| && i < |staged| && StagedAgrees(staged, changes, chain, k)
    ensures RowAgrees(staged[i], LookupSize(changes, chain, k, staged[i].span.path))
  {
    assert staged[i] in staged;
  }

  lemma CreatesStartAt0(staged: seq<Staged>, changes: map<CommitId, seq<Row>>, chain: seq<CommitId>, k: nat)
    requires k <= |chain| && StagedAgrees(staged, changes, chain, k)
    ensures forall e :: e in staged && e.span.kind == Create ==> e.span.start == 0
  {
    hide LookupSize;
  }

  lemma NothingStagedAgrees(changes: map<CommitId, seq<Row>>, chain: seq<CommitId>, k: nat)
    requires k <= |chain|
    ensures StagedAgrees([], changes, chain, k)
  {
  }

  // ---------- One call of `add` ----------

  /** The path is staged up to `num` bytes or to where it was staged before, whichever is more; no other path is
      touched. */
  ghost predicate StagesUpTo(before: seq<Staged>, after: seq<Staged>, p: Path, num: int) {
    && (forall e: Staged :: e.span.path != p ==> (e in before <==> e in after))
    && (exists e :: e in after && e.span.path == p)
    && forall e :: e in after && e.span.path == p ==>
      && e.span.start + e.span.num >= num
      && (forall o :: o in before && o.span.path == p ==> e.span.start + e.span.num >= o.span.start + o.span.num)
      && (e.span.start + e.span.num == num
          || exists o :: o in before && o.span.path == p && e.span.start + e.span.num == o.span.start + o.span.num)
  }

  lemma AddStagesUpTo(staged: seq<Staged>, changes: map<CommitId, seq<Row>>, chain: seq<CommitId>, k: nat,
                      p: Path, num: int)
    requires DistinctStaged(staged) && k <= |chain| && StagedAgrees(staged, changes, chain, k)
    ensures StagesUpTo(staged, AddStaged(staged, LookupSize(changes, chain, k, p), p, num), p, num)
  {
    hide LookupSize;
    var committed := LookupSize(changes, chain, k, p);
    var i, after := StagedIndex(staged, |staged|, p), AddStaged(staged, committed, p, num);
    DistinctMembers(staged);
    AddKeepsDistinct(staged, committed, p, num);
    DistinctMembers(after);
    if i.Some? {
      var row := staged[i.value];
      assert row in staged && after[i.value] in after;
      forall e: Staged | e.span.path != p ensures e in staged <==> e in after {
        if j :| 0 <= j < |staged| && staged[j] == e {
          assert after[j] == e;
        }
        if j :| 0 <= j < |after| && after[j] == e {
          assert staged[j] == e;
        }
      }
    } else {
      assert after[|staged|] in after;
      forall e | e in staged ensures e.span.path != p {}
    }
  }

  // ---------- What a commit makes of what is staged ----------

  /** Whatever the sizes, and even if they are negative: the chunks of a path end where its staged change ends. */
  lemma {:induction false} ScanEnds(q: seq<Staged>, sizes: Sizes, maxSize: nat)
    requires DistinctStaged(q) && maxSize > 0
    ensures Ends(q, sizes, After(StagedSpans(Scan(q, maxSize)), sizes))
    decreases Mass(q)
  {
    if q != [] {
      var rest, t := q[1..] + Spills(q[0], maxSize), Trim(q[0], maxSize);
      RestDistinct(q, maxSize);
      MassDecreases(q, maxSize);
      ScanEnds(rest, AfterOne(t.span, sizes), maxSize);
      var spans := StagedSpans(Scan(q, maxSize));
      assert spans[0] == t.span && spans[1..] == StagedSpans(Scan(rest, maxSize));
      EndsStep(q, sizes, After(spans, sizes), maxSize);
    }
  }

  /** Each staged path ends where its change ends, all other paths are as before. */
  ghost predicate Ends(q: seq<Staged>, sizes: Sizes, final: Sizes) {
    && (forall e :: e in q ==> e.span.path in final && final[e.span.path] == e.span.start + e.span.num)
    && (forall p :: (forall e :: e in q ==> e.span.path != p) ==>
         (p in final <==> p in sizes) && (p in sizes ==> final[p] == sizes[p]))
  }

  lemma RestDistinct(q: seq<Staged>, maxSize: nat)
    requires q != [] && DistinctStaged(q)
    ensures DistinctStaged(q[1..] + Spills(q[0], maxSize))
    ensures forall e :: e in q[1..] ==> e.span.path != q[0].span.path
  {
    var rest := q[1..] + Spills(q[0], maxSize);
    forall e | e in q[1..] ensures e.span.path != q[0].span.path {
      var i :| 0 <= i < |q[1..]| && q[1..][i] == e;
      assert q[i + 1] == e;
    }
    forall i, j | 0 <= i < j < |rest| ensures rest[i].span.path != rest[j].span.path {
      assert rest[i] == q[i + 1];
      if j < |q| - 1 {
        assert rest[j] == q[j + 1];
      } else {
        assert rest[j] == Spill(q[0], maxSize);
      }
    }
  }

  lemma EndsStep(q: seq<Staged>, sizes: Sizes, final: Sizes, maxSize: nat)
    requires q != [] && DistinctStaged(q)
    requires Ends(q[1..] + Spills(q[0], maxSize), AfterOne(Trim(q[0], maxSize).span, sizes), final)
    ensures Ends(q, sizes, final)
  {
    var rest, head := q[1..] + Spills(q[0], maxSize), q[0];
    RestDistinct(q, maxSize);
    assert q == [head] + q[1..] && head in q;
    assert forall e :: e in rest <==> e in q[1..] || e in Spills(head, maxSize);
    if head.span.num > maxSize {
      assert Spill(head, maxSize) in rest;
    }
    forall p | forall e :: e in q ==> e.span.path != p
      ensures (p in final <==> p in sizes) && (p in sizes ==> final[p] == sizes[p])
    {
      assert forall e :: e in rest ==> e.span.path != p;
    }
  }

  lemma CreateEnds(staged: seq<Staged>, sizes: Sizes, id: CommitId, maxSize: nat, c: Staged)
    requires DistinctStaged(staged) && c in staged && c.span.kind == Create
    ensures c.span.path in CreatedSizes(staged, sizes, id, maxSize)
    ensures CreatedSizes(staged, sizes, id, maxSize)[c.span.path] == Trim(c, maxSize).span.num
  {
    var creates := OfKind(staged, Create);
    var rows := CreateRows(TrimmedCreates(staged, maxSize), id);
    OfKindIn(staged, Create);
    OfKindDistinct(staged, Create);
    var i :| 0 <= i < |creates| && creates[i] == c;
    forall j | i < j < |rows| ensures SpansOf(rows)[j].path != SpansOf(rows)[i].path {
      assert creates[i].span.path != creates[j].span.path;
    }
    AfterLast(SpansOf(rows), sizes, i);
  }

  /** A commit leads each staged path to where its change ends, whatever was staged, and leaves the others. */
  lemma CommitEnds(staged: seq<Staged>, sizes: Sizes, id: CommitId, maxSize: nat)
    requires DistinctStaged(staged) && maxSize > 0
    requires forall c :: c in staged && c.span.kind == Create ==> c.span.start == 0
    ensures Ends(staged, sizes, After(SpansOf(CommitRows(staged, id, maxSize)), sizes))
  {
    var creates, appends := CreateRows(TrimmedCreates(staged, maxSize), id), AppendRows(staged, id, maxSize);
    var mid, q := CreatedSizes(staged, sizes, id, maxSize), QueueOf(staged, maxSize);
    var final := After(SpansOf(CommitRows(staged, id, maxSize)), sizes);
    AppendRowsAreChunks(staged, id, maxSize);
    SpansConcat(creates, appends, sizes);
    QueueDistinct(staged, maxSize);
    ScanEnds(q, mid, maxSize);
    assert Ends(q, mid, final);
    forall e | e in staged ensures e.span.path in final && final[e.span.path] == e.span.start + e.span.num {
      StagedEnds(staged, sizes, id, maxSize, final, e);
    }
    forall p | forall e :: e in staged ==> e.span.path != p
      ensures (p in final <==> p in sizes) && (p in sizes ==> final[p] == sizes[p])
    {
      UncreatedSize(staged, sizes, id, maxSize, p);
      forall e | e in q ensures e.span.path != p {
        QueueFrom(staged, maxSize, e);
      }
    }
  }

  lemma StagedEnds(staged: seq<Staged>, sizes: Sizes, id: CommitId, maxSize: nat, final: Sizes, e: Staged)
    requires DistinctStaged(staged) && e in staged && (e.span.kind == Create ==> e.span.start == 0)
    requires Ends(QueueOf(staged, maxSize), CreatedSizes(staged, sizes, id, maxSize), final)
    ensures e.span.path in final && final[e.span.path] == e.span.start + e.span.num
  {
    var q := QueueOf(staged, maxSize);
    QueueFrom(staged, maxSize, e);
    if e.span.kind == Create {
      CreateEnds(staged, sizes, id, maxSize, e);
      QueueFrom(staged, maxSize, Spill(e, maxSize));
      if e.span.num <= maxSize {
        DistinctMembers(staged);
        forall x | x in q ensures x.span.path != e.span.path {
          QueueFrom(staged, maxSize, x);
        }
      }
    }
  }

  lemma {:induction false} LookupStays(changes: map<CommitId, seq<Row>>, chain: seq<CommitId>, id: CommitId,
                                       rows: seq<Row>, k: nat, p: Path)
    requires k <= |chain| && id !in chain
    ensures LookupSize(changes[id := rows], chain + [id], k, p) == LookupSize(changes, chain, k, p)
  {
    hide SizeIn;
    if k > 0 {
      LookupStays(changes, chain, id, rows, k - 1, p);
    }
  }

  /** The rows of a commit give a size to exactly the staged paths. */
  lemma CommitSizeIn(staged: seq<Staged>, id: CommitId, maxSize: nat, p: Path)
    requires DistinctStaged(staged) && maxSize > 0
    requires forall c :: c in staged && c.span.kind == Create ==> c.span.start == 0
    ensures var size := SizeIn(CommitRows(staged, id, maxSize), p);
      && (forall e :: e in staged && e.span.path == p ==> size == Some(e.span.start + e.span.num))
      && ((forall e :: e in staged ==> e.span.path != p) ==> size == None)
  {
    hide SizeIn, CommitRows, After;
    CommitKeyed(staged, id, maxSize);
    CommitEnds(staged, map[], id, maxSize);
    SizeInIsAfter(CommitRows(staged, id, maxSize), map[], p);
  }

  /** The committed sizes after a commit: where the staged changes end, and as before for the other paths. */
  lemma CommitSizes(w: World, id: CommitId, maxSize: nat, p: Path)
    requires maxSize > 0 && TablesOk(w) && id !in w.changes && w.staged != []
    requires forall c :: c in w.staged && c.span.kind == Create ==> c.span.start == 0
    ensures var next := Step(w, Commit(id), maxSize); var now := LookupSize(next.changes, next.chain, |next.chain|, p);
      && (forall e :: e in w.staged && e.span.path == p ==> now == Some(e.span.start + e.span.num))
      && ((forall e :: e in w.staged ==> e.span.path != p) ==> now == LookupSize(w.changes, w.chain, |w.chain|, p))
  {
    hide SizeIn, CommitRows, CommitOps, Upload;
    var rows := CommitRows(w.staged, id, maxSize);
    CommitSizeIn(w.staged, id, maxSize, p);
    LookupStays(w.changes, w.chain, id, rows, |w.chain|, p);
    assert (w.chain + [id])[|w.chain|] == id;
    assert RowsOf(w.changes[id := rows], id) == rows;
  }

  // ---------- Over histories ----------

  /** The adds since the last commit or reset that succeeded: of which path, and how many bytes. */
  type Adds = set<(Path, int)>

  function NextAdds(w: World, adds: Adds, e: Event): Adds {
    match e
    case Add(p, numBytes) =>
      if p !in w.files then adds
      else
        var num := if numBytes.None? then |w.files[p]| else numBytes.value;
        if num > |w.files[p]| then adds else adds + {(p, num)}
    case ResetStaged => {}
    case Commit(_) => {}
    case _ => adds
  }

  ghost function AddsIn(w: World, adds: Adds, events: seq<Event>, maxSize: nat): Adds
    requires maxSize > 0
    decreases |events|
  {
    if events == [] then adds
    else AddsIn(Step(w, events[0], maxSize), NextAdds(w, adds, events[0]), events[1..], maxSize)
  }

  /** The greatest number of bytes of the path that was added. */
  ghost predicate Greatest(adds: Adds, p: Path, n: int) {
    (p, n) in adds && forall m :: (p, m) in adds ==> m <= n
  }

  /** What is staged is what was added, up to the greatest number of bytes, from the committed end on. */
  ghost predicate StagedIsAdded(w: World, adds: Adds) {
    && StagedAgrees(w.staged, w.changes, w.chain, |w.chain|)
    && (forall e :: e in w.staged ==> Greatest(adds, e.span.path, e.span.start + e.span.num))
    && (forall p, n :: (p, n) in adds ==> exists e :: e in w.staged && e.span.path == p)
  }

  lemma AddKeeps(w: World, adds: Adds, p: Path, numBytes: Option<int>)
    requires DistinctStaged(w.staged) && StagedIsAdded(w, adds)
    ensures StagedIsAdded(Adding(w, p, numBytes), NextAdds(w, adds, Add(p, numBytes)))
  {
    var next, more := Adding(w, p, numBytes), NextAdds(w, adds, Add(p, numBytes));
    if next != w {
      var num := if numBytes.None? then |w.files[p]| else numBytes.value;
      var committed := LookupSize(w.changes, w.chain, |w.chain|, p);
      AddAgrees(w.staged, w.changes, w.chain, |w.chain|, p, num);
      AddStagesUpTo(w.staged, w.changes, w.chain, |w.chain|, p, num);
      StagesGreatest(w.staged, next.staged, adds, p, num);
    }
  }

  lemma StagesGreatest(before: seq<Staged>, after: seq<Staged>, adds: Adds, p: Path, num: int)
    requires StagesUpTo(before, after, p, num)
    requires forall e :: e in before ==> Greatest(adds, e.span.path, e.span.start + e.span.num)
    requires forall q, n :: (q, n) in adds ==> exists e :: e in before && e.span.path == q
    ensures forall e :: e in after ==> Greatest(adds + {(p, num)}, e.span.path, e.span.start + e.span.num)
    ensures forall q, n :: (q, n) in adds + {(p, num)} ==> exists e :: e in after && e.span.path == q
  {
    forall e | e in after ensures Greatest(adds + {(p, num)}, e.span.path, e.span.start + e.span.num) {
      if e.span.path != p {
        assert e in before;
      }
    }
    forall q, n | (q, n) in adds + {(p, num)} ensures exists e :: e in after && e.span.path == q {
      if q != p {
        var e :| e in before && e.span.path == q;
        assert e in after;
      }
    }
  }

  lemma AddsStep(w: World, adds: Adds, e: Event, maxSize: nat)
    requires maxSize > 0 && TablesOk(w) && Legal(w, e) && StagedIsAdded(w, adds)
    ensures StagedIsAdded(Step(w, e, maxSize), NextAdds(w, adds, e))
  {
    match e {
      case Add(p, numBytes) => AddKeeps(w, adds, p, numBytes);
      case _ =>
    }
  }

  lemma {:induction false} RunIsAdded(w: World, adds: Adds, events: seq<Event>, maxSize: nat)
    requires maxSize > 0 && Sound(w) && LegalRun(w, events, maxSize) && StagedIsAdded(w, adds)
    ensures Sound(Run(w, events, maxSize)) && StagedIsAdded(Run(w, events, maxSize), AddsIn(w, adds, events, maxSize))
    decreases |events|
  {
    hide StagedIsAdded, Step, NextAdds, Legal;
    if events != [] {
      StepSound(w, events[0], maxSize);
      AddsStep(w, adds, events[0], maxSize);
      RunIsAdded(Step(w, events[0], maxSize), NextAdds(w, adds, events[0]), events[1..], maxSize);
    }
  }

  /** The path has the greatest number of bytes that was added, or its former size if it was not added. */
  ghost predicate CommittedAsAdded(adds: Adds, p: Path, before: Option<int>, now: Option<int>) {
    && (forall n :: Greatest(adds, p, n) ==> now == Some(n))
    && ((exists n :: (p, n) in adds) ==> exists n :: Greatest(adds, p, n))
    && ((forall n :: (p, n) !in adds) ==> now == before)
  }

  lemma StagedAsAdded(w: World, adds: Adds, p: Path, now: Option<int>)
    requires StagedIsAdded(w, adds)
    requires forall e :: e in w.staged && e.span.path == p ==> now == Some(e.span.start + e.span.num)
    requires (forall e :: e in w.staged ==> e.span.path != p) ==> now == LookupSize(w.changes, w.chain, |w.chain|, p)
    ensures CommittedAsAdded(adds, p, LookupSize(w.changes, w.chain, |w.chain|, p), now)
  {
    hide LookupSize;
    if n :| (p, n) in adds {
      var e :| e in w.staged && e.span.path == p;
      assert Greatest(adds, p, e.span.start + e.span.num);
    } else {
      forall e | e in w.staged ensures e.span.path != p {
        assert Greatest(adds, e.span.path, e.span.start + e.span.num);
      }
    }
  }

  lemma CommitAsAdded(w: World, adds: Adds, id: CommitId, maxSize: nat, p: Path)
    requires maxSize > 0 && TablesOk(w) && id !in w.changes && StagedIsAdded(w, adds)
    ensures var next := Step(w, Commit(id), maxSize);
      CommittedAsAdded(adds, p, LookupSize(w.changes, w.chain, |w.chain|, p),
                       LookupSize(next.changes, next.chain, |next.chain|, p))
  {
    hide LookupSize, CommittedAsAdded, CommitRows, CommitOps, Upload;
    var next := Step(w, Commit(id), maxSize);
    if w.staged != [] {
      CreatesStart(w, adds);
      CommitSizes(w, id, maxSize, p);
    }
    StagedAsAdded(w, adds, p, LookupSize(next.changes, next.chain, |next.chain|, p));
  }

  lemma CreatesStart(w: World, adds: Adds)
    requires StagedIsAdded(w, adds)
    ensures forall c :: c in w.staged && c.span.kind == Create ==> c.span.start == 0
  {
    hide LookupSize;
  }

  /** For every history: the next commit leaves each path that was added since the last commit or reset with the
      greatest number of bytes that was added, and every other path with its committed size. */
  lemma CommitsWhatWasAdded(events: seq<Event>, id: CommitId, maxSize: nat, p: Path)
    requires maxSize > 0 && LegalRun(EMPTY, events, maxSize) && id !in Run(EMPTY, events, maxSize).changes
    ensures var w, adds := Run(EMPTY, events, maxSize), AddsIn(EMPTY, {}, events, maxSize);
      var next := Step(w, Commit(id), maxSize);
      CommittedAsAdded(adds, p, LookupSize(w.changes, w.chain, |w.chain|, p),
                       LookupSize(next.changes, next.chain, |next.chain|, p))
  {
    hide LookupSize, CommittedAsAdded, Step, StagedIsAdded, Legal;
    EmptyIsAdded();
    RunIsAdded(EMPTY, {}, events, maxSize);
    CommitAsAdded(Run(EMPTY, events, maxSize), AddsIn(EMPTY, {}, events, maxSize), id, maxSize, p);
  }

  lemma EmptyIsAdded()
    ensures Sound(EMPTY) && StagedIsAdded(EMPTY, {})
  {
  }
}
