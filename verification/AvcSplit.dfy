/** Splitting staged changes at the blob size limit (steps 3a and 3b of `build_git_commit`). */
module AvcSplit {
  import opened AvcCore

  /** The part of a staged change that is committed now. */
  function Trim(s: Staged, maxSize: nat): Staged {
    if s.span.num > maxSize then s.(span := s.span.(num := maxSize)) else s
  }

  /** The part of an oversized staged change that is left for a later append. */
  function Spill(s: Staged, maxSize: nat): Staged {
    Staged(Span(s.span.path, Append, s.span.start + maxSize, s.span.num - maxSize),
           s.backing, s.backingOffset + maxSize)
  }

  function Spills(s: Staged, maxSize: nat): seq<Staged> {
    if s.span.num > maxSize then [Spill(s, maxSize)] else []
  }

  /** Bounds the number of rows still to come out of a queue of appends. */
  function Mass(q: seq<Staged>): nat {
    if q == [] then 0 else (if q[0].span.num < 1 then 1 else q[0].span.num) + Mass(q[1..])
  }

  lemma {:induction false} MassConcat(a: seq<Staged>, b: seq<Staged>)
    ensures Mass(a + b) == Mass(a) + Mass(b)
  {
    if a == [] {
      assert a + b == b;
    } else {
      assert (a + b)[1..] == a[1..] + b;
      MassConcat(a[1..], b);
    }
  }

  /** Handling the head of the queue makes progress, although it may push a new element. */
  lemma MassDecreases(q: seq<Staged>, maxSize: nat)
    requires q != [] && maxSize > 0
    ensures Mass(q[1..] + Spills(q[0], maxSize)) < Mass(q)
  {
    MassConcat(q[1..], Spills(q[0], maxSize));
    if q[0].span.num > maxSize {
      assert Spills(q[0], maxSize)[1..] == [];
    }
  }

  /** The queue discipline of the scan: the head is trimmed, its rest goes to the back. */
  ghost function Scan(q: seq<Staged>, maxSize: nat): seq<Staged>
    requires maxSize > 0
    decreases Mass(q)
  {
    if q == [] then [] else
      MassDecreases(q, maxSize);
      [Trim(q[0], maxSize)] + Scan(q[1..] + Spills(q[0], maxSize), maxSize)
  }

  // ---------- 3a: creates ----------

  function TrimAll(s: seq<Staged>, maxSize: nat): (r: seq<Staged>)
    ensures |r| == |s|
  {
    seq(|s|, i requires 0 <= i < |s| => Trim(s[i], maxSize))
  }

  function SpillAll(s: seq<Staged>, maxSize: nat): seq<Staged> {
    if s == [] then [] else Spills(s[0], maxSize) + SpillAll(s[1..], maxSize)
  }

  method SplitCreates(creates: seq<Staged>, appends: seq<Staged>, maxSize: nat)
    returns (creates': seq<Staged>, appends': seq<Staged>)
    ensures creates' == TrimAll(creates, maxSize)
    ensures appends' == appends + SpillAll(creates, maxSize)
  {
    creates', appends' := creates, appends;
    var i := 0;
    while i < |creates'|
      invariant 0 <= i <= |creates'| == |creates|
      invariant forall j :: 0 <= j < i ==> creates'[j] == Trim(creates[j], maxSize)
      invariant forall j :: i <= j < |creates| ==> creates'[j] == creates[j]
      invariant appends' + SpillAll(creates[i..], maxSize) == appends + SpillAll(creates, maxSize)
    {
      var s := creates'[i];
      assert creates[i..][1..] == creates[i + 1..];
      if s.span.num > maxSize {
        appends' := appends' + [Spill(s, maxSize)];
        creates' := creates'[i := s.(span := s.span.(num := maxSize))];
      }
      i := i + 1;
    }
  }

  // ---------- 3b: appends ----------

  lemma ScanStep(q: seq<Staged>, rest: seq<Staged>, maxSize: nat)
    requires maxSize > 0 && q != [] && rest == q[1..] + Spills(q[0], maxSize)
    ensures Scan(q, maxSize) == [Trim(q[0], maxSize)] + Scan(rest, maxSize)
    ensures Mass(rest) < Mass(q)
  {
    MassDecreases(q, maxSize);
  }

  /** The scan whose list grows while it is traversed. */
  method SplitAppends(appends: seq<Staged>, maxSize: nat) returns (result: seq<Staged>)
    requires maxSize > 0
    ensures result == Scan(appends, maxSize)
  {
    result := appends;
    var i := 0;
    ghost var done, pending := [], appends;
    while i < |result|
      invariant result == done + pending && i == |done|
      invariant Scan(appends, maxSize) == done + Scan(pending, maxSize)
      decreases Mass(pending)
    {
      var s := result[i];
      ghost var rest := pending[1..] + Spills(s, maxSize);
      ScanStep(pending, rest, maxSize);
      if s.span.num > maxSize {
        result := result + [Spill(s, maxSize)];
        result := result[i := s.(span := s.span.(num := maxSize))];
      }
      assert done + ([Trim(s, maxSize)] + Scan(rest, maxSize)) == done + [Trim(s, maxSize)] + Scan(rest, maxSize);
      done, pending := done + [Trim(s, maxSize)], rest;
      i := i + 1;
    }
  }

  // ---------- What splitting means ----------

  /** A staged change reads its bytes from the file it names, at the same offsets. */
  predicate InPlace(s: Staged) {
    s.backing == s.span.path && s.backingOffset == s.span.start
  }

  /** A queue of appends, at most one for a path, each starting at the end of its file. */
  predicate QueueOk(q: seq<Staged>, sizes: Sizes) {
    && DistinctStaged(q)
    && forall e :: e in q ==> e.span.kind == Append && FitsOne(e.span, sizes) && InPlace(e)
  }

  predicate DistinctStaged(q: seq<Staged>) {
    forall i, j :: 0 <= i < j < |q| ==> q[i].span.path != q[j].span.path
  }

  /** Each staged path ends where its staged change ends, all other sizes are as before. */
  ghost predicate Reaches(q: seq<Staged>, sizes: Sizes, final: Sizes) {
    && final.Keys == sizes.Keys
    && (forall e :: e in q ==> e.span.path in final && final[e.span.path] == e.span.start + e.span.num)
    && (forall p :: p in sizes && (forall e :: e in q ==> e.span.path != p) ==> final[p] == sizes[p])
  }

  lemma QueueStep(q: seq<Staged>, sizes: Sizes, maxSize: nat)
    requires q != [] && QueueOk(q, sizes) && maxSize > 0
    ensures FitsOne(Trim(q[0], maxSize).span, sizes)
    ensures QueueOk(q[1..] + Spills(q[0], maxSize), AfterOne(Trim(q[0], maxSize).span, sizes))
    ensures forall e :: e in q[1..] ==> e.span.path != q[0].span.path
  {
    var rest := q[1..] + Spills(q[0], maxSize);
    assert q[0] in q;
    forall e | e in q[1..] ensures e.span.path != q[0].span.path && e in q {
      var i :| 0 <= i < |q[1..]| && q[1..][i] == e;
      assert q[i + 1] == e;
    }
    forall e | e in rest
      ensures e.span.kind == Append && FitsOne(e.span, AfterOne(Trim(q[0], maxSize).span, sizes)) && InPlace(e)
    {
      if e !in q[1..] {
        assert e == Spill(q[0], maxSize);
      }
    }
    forall i, j | 0 <= i < j < |rest| ensures rest[i].span.path != rest[j].span.path {
      assert rest[i] == q[i + 1];
      if j < |q| - 1 {
        assert rest[j] == q[j + 1];
      } else {
        assert rest[j] == Spill(q[0], maxSize);
      }
    }
  }

  lemma ReachesStep(q: seq<Staged>, sizes: Sizes, final: Sizes, maxSize: nat)
    requires q != [] && QueueOk(q, sizes) && maxSize > 0
    requires Reaches(q[1..] + Spills(q[0], maxSize), AfterOne(Trim(q[0], maxSize).span, sizes), final)
    ensures Reaches(q, sizes, final)
  {
    var rest, head := q[1..] + Spills(q[0], maxSize), q[0];
    QueueStep(q, sizes, maxSize);
    assert q == [head] + q[1..] && head in q;
    assert forall e :: e in rest ==> e in q[1..] || e in Spills(head, maxSize);
    if head.span.num > maxSize {
      assert Spill(head, maxSize) in rest;
    }
  }

  /** The chunks of every path are contiguous, in batch order and cover exactly what was staged. */
  lemma {:induction false} ScanExact(q: seq<Staged>, sizes: Sizes, maxSize: nat)
    requires QueueOk(q, sizes) && maxSize > 0
    ensures Fits(StagedSpans(Scan(q, maxSize)), sizes)
    ensures Reaches(q, sizes, After(StagedSpans(Scan(q, maxSize)), sizes))
    decreases Mass(q)
  {
    if q != [] {
      var rest, t := q[1..] + Spills(q[0], maxSize), Trim(q[0], maxSize);
      QueueStep(q, sizes, maxSize);
      MassDecreases(q, maxSize);
      ScanExact(rest, AfterOne(t.span, sizes), maxSize);
      var spans := StagedSpans(Scan(q, maxSize));
      assert spans[0] == t.span && spans[1..] == StagedSpans(Scan(rest, maxSize));
      ReachesStep(q, sizes, After(spans, sizes), maxSize);
    }
  }

  predicate AllNonNegative(q: seq<Staged>) {
    forall e :: e in q ==> e.span.num >= 0
  }

  /** Every chunk is at most the limit, and a negative size stays visible as a negative chunk. */
  lemma {:induction false} ScanChunks(q: seq<Staged>, maxSize: nat)
    requires maxSize > 0
    ensures forall e :: e in Scan(q, maxSize) ==> e.span.num <= maxSize
    ensures AllNonNegative(q) <==> AllNonNegative(Scan(q, maxSize))
    decreases Mass(q)
  {
    if q != [] {
      var rest, head := q[1..] + Spills(q[0], maxSize), q[0];
      MassDecreases(q, maxSize);
      ScanChunks(rest, maxSize);
      assert q == [head] + q[1..];
      assert forall e :: e in q <==> e == head || e in q[1..];
      assert forall e :: e in Scan(q, maxSize) <==> e == Trim(head, maxSize) || e in Scan(rest, maxSize);
      assert forall e :: e in rest <==> e in q[1..] || e in Spills(head, maxSize);
      assert Trim(head, maxSize) in Scan(q, maxSize) && head in q;
      if head.span.num > maxSize {
        assert Spill(head, maxSize) in rest;
      }
    }
  }

  /** The change reads in place, inside its file. */
  predicate Backed(s: Staged, files: Files) {
    && InPlace(s)
    && s.backing in files
    && 0 <= s.span.start
    && (s.span.num >= 0 ==> s.span.start + s.span.num <= |files[s.backing]|)
  }

  lemma {:induction false} ScanBacked(q: seq<Staged>, files: Files, maxSize: nat)
    requires maxSize > 0
    requires forall e :: e in q ==> Backed(e, files) && e.span.kind == Append
    ensures forall e :: e in Scan(q, maxSize) ==> Backed(e, files) && e.span.kind == Append
    decreases Mass(q)
  {
    if q != [] {
      var rest, head := q[1..] + Spills(q[0], maxSize), q[0];
      MassDecreases(q, maxSize);
      assert head in q && forall e :: e in q[1..] ==> e in q;
      assert forall e :: e in rest ==> e in q[1..] || e in Spills(head, maxSize);
      ScanBacked(rest, files, maxSize);
      assert forall e :: e in Scan(q, maxSize) ==> e == Trim(head, maxSize) || e in Scan(rest, maxSize);
    }
  }
}
