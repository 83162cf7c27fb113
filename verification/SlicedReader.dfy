/** `SlicedFileReader` (database_exporting/avc_hf.py): slices of local files read as one flat file. */
module SlicedReader {
  import opened Optional
  import opened AvcCore
  import opened AvcPack

  predicate SourceFits(s: Source, files: Files) {
    s.path in files && 0 <= s.offset && 0 <= s.num && s.offset + s.num <= |files[s.path]|
  }

  /** The slices exist on disk. Zero-length slices are allowed, as in the original. */
  predicate SourcesFit(sources: seq<Source>, files: Files) {
    sources != [] && forall i :: 0 <= i < |sources| ==> SourceFits(sources[i], files)
  }

  /** `cumulative_lengths[i]`. */
  function Cum(sources: seq<Source>, i: nat): int
    requires i <= |sources|
  {
    if i == 0 then 0 else Cum(sources, i - 1) + sources[i - 1].num
  }

  function Total(sources: seq<Source>): int {
    Cum(sources, |sources|)
  }

  /** The flat file: the slices one after another. */
  function Flat(sources: seq<Source>, i: nat, files: Files): Bytes
    requires i <= |sources|
  {
    if i == 0 then [] else Flat(sources, i - 1, files) + Slice(sources[i - 1], files)
  }

  lemma {:induction false} CumMonotone(sources: seq<Source>, files: Files, i: nat, j: nat)
    requires SourcesFit(sources, files) && i <= j <= |sources|
    ensures 0 <= Cum(sources, i) <= Cum(sources, j)
  {
    if i < j {
      CumMonotone(sources, files, i, j - 1);
    } else if i > 0 {
      CumMonotone(sources, files, i - 1, i - 1);
    }
  }

  lemma {:induction false} FlatLength(sources: seq<Source>, files: Files, i: nat)
    requires SourcesFit(sources, files) && i <= |sources|
    ensures |Flat(sources, i, files)| == Cum(sources, i)
  {
    if i > 0 {
      FlatLength(sources, files, i - 1);
    }
  }

  lemma {:induction false} FlatPrefix(sources: seq<Source>, files: Files, k: nat, n: nat)
    requires k <= n <= |sources|
    ensures Flat(sources, k, files) <= Flat(sources, n, files)
  {
    if k < n {
      FlatPrefix(sources, files, k, n - 1);
    }
  }

  /** `flat` starts with the first `k` slices, for every `k`, and ends with the last one. */
  ghost predicate IsFlat(flat: Bytes, sources: seq<Source>, files: Files) {
    && |flat| == Total(sources)
    && forall k: nat {:trigger Flat(sources, k, files)} :: k <= |sources| ==> Flat(sources, k, files) <= flat
  }

  lemma FlatIsFlat(sources: seq<Source>, files: Files)
    requires SourcesFit(sources, files)
    ensures IsFlat(Flat(sources, |sources|, files), sources, files)
  {
    FlatLength(sources, files, |sources|);
    forall k: nat | k <= |sources| ensures Flat(sources, k, files) <= Flat(sources, |sources|, files) {
      FlatPrefix(sources, files, k, |sources|);
    }
  }

  lemma UpToSlice(flat: Bytes, sources: seq<Source>, files: Files, k: nat)
    requires SourcesFit(sources, files) && IsFlat(flat, sources, files) && k < |sources|
    ensures SourceFits(sources[k], files) && |Flat(sources, k, files)| == Cum(sources, k)
    ensures Flat(sources, k, files) + Slice(sources[k], files) <= flat
  {
    FlatLength(sources, files, k);
    assert Flat(sources, k + 1, files) <= flat;
  }

  /** Bytes `a..b` of slice `k` are where the cumulative lengths say they are. */
  lemma FlatSlice(flat: Bytes, sources: seq<Source>, files: Files, k: nat, a: nat, b: nat)
    requires SourcesFit(sources, files) && IsFlat(flat, sources, files)
    requires k < |sources| && a <= b <= sources[k].num
    ensures 0 <= Cum(sources, k) && Cum(sources, k) + b <= |flat|
    ensures flat[Cum(sources, k) + a..Cum(sources, k) + b]
         == files[sources[k].path][sources[k].offset + a..sources[k].offset + b]
  {
    hide IsFlat, Slice, Cum;
    UpToSlice(flat, sources, files, k);
    SliceIn(flat, Flat(sources, k, files), sources[k], files, Cum(sources, k), a, b);
  }

  lemma SliceIn(flat: Bytes, init: Bytes, s: Source, files: Files, pos: nat, a: nat, b: nat)
    requires SourceFits(s, files) && init + Slice(s, files) <= flat && pos == |init| && a <= b <= s.num
    ensures pos + b <= |flat|
    ensures flat[pos + a..pos + b] == files[s.path][s.offset + a..s.offset + b]
  {
    SubSlice(flat, init, Slice(s, files), pos + a, pos + b, a, b);
    SliceOfSlice(files[s.path], s.offset, s.num, s.offset + a, s.offset + b, a, b);
  }

  lemma SubSlice(flat: Bytes, init: Bytes, slice: Bytes, lo: nat, hi: nat, a: nat, b: nat)
    requires init + slice <= flat && a <= b <= |slice| && lo == |init| + a && hi == |init| + b
    ensures hi <= |flat| && flat[lo..hi] == slice[a..b]
  {
    var part := flat[lo..hi];
    forall i | 0 <= i < |part| ensures part[i] == slice[a..b][i] {
      assert (init + slice)[lo + i] == slice[a + i];
    }
  }

  lemma SliceOfSlice(file: Bytes, offset: nat, num: nat, lo: nat, hi: nat, a: nat, b: nat)
    requires a <= b <= num && offset + num <= |file| && lo == offset + a && hi == offset + b
    ensures file[offset..offset + num][a..b] == file[lo..hi]
  {
    var whole := file[offset..offset + num];
    forall i | 0 <= i < b - a ensures whole[a..b][i] == file[lo..hi][i] {
      assert whole[a + i] == file[lo + i];
    }
    assert |whole[a..b]| == |file[lo..hi]|;
  }

  /** Slice `k` is the one to read from at this position: it has the byte there, or there is none. */
  predicate Chosen(sources: seq<Source>, k: nat, pos: int)
    requires k < |sources|
  {
    Cum(sources, k) <= pos && (pos < Cum(sources, k + 1) || (k == |sources| - 1 && Total(sources) <= pos))
  }

  /** When reading reaches the end of a slice, the slice that is chosen next starts there. */
  lemma NextSource(sources: seq<Source>, files: Files, k: nat, next: nat, p: int)
    requires SourcesFit(sources, files) && k < |sources| && next < |sources|
    requires Cum(sources, k) <= p <= Cum(sources, k + 1) && Chosen(sources, next, p)
    ensures next != k ==> Cum(sources, next) == p
  {
    if next > k {
      CumMonotone(sources, files, k + 1, next);
    } else if next < k {
      CumMonotone(sources, files, next + 1, k);
    }
  }

  /** Reading `num` bytes of slice `k` from file position `at` reads the flat file there. */
  lemma PieceIs(flat: Bytes, sources: seq<Source>, files: Files, k: nat, at: int, num: nat)
    requires SourcesFit(sources, files) && IsFlat(flat, sources, files) && k < |sources|
    requires at >= sources[k].offset && at + num <= sources[k].offset + sources[k].num
    ensures var pos := Cum(sources, k) + at - sources[k].offset;
      && 0 <= at && sources[k].path in files && at + num <= |files[sources[k].path]|
      && 0 <= pos && pos + num <= |flat|
      && files[sources[k].path][at..at + num] == flat[pos..pos + num]
  {
    assert SourceFits(sources[k], files);
    FlatSlice(flat, sources, files, k, at - sources[k].offset, at - sources[k].offset + num);
  }

  // ---------- The flat cursor ----------

  /** What a read returns at position `pos` of a flat file; a size of -1 means the rest. A smaller size reads nothing,
      as in the code; an ordinary file would refuse it. */
  function FlatRead(flat: Bytes, pos: nat, size: int): Bytes {
    var left := |flat| - pos;
    var n := if size == -1 then left else if size < left then size else left;
    if n <= 0 then [] else flat[pos..pos + n]
  }

  /** Where a seek on a flat file goes; `None` for a negative position or an unknown whence. */
  function SeekTarget(pos: int, total: int, offset: int, whence: int): (r: Option<int>)
    ensures r.Some? ==> r.value >= 0
  {
    var goal := if whence == 0 then offset else if whence == 1 then pos + offset else total + offset;
    if 0 <= whence <= 2 && goal >= 0 then Some(goal) else None
  }

  // ---------- The reader ----------

  class SlicedFileReader {
    const sources: seq<Source>
    /** The local files, which do not change while they are read. */
    const files: Files
    /** The slices one after another. */
    ghost const contents: Bytes
    var cumulative: seq<int>
    var current: nat
    /** `self.f.tell()`: the position in the file of the current source. */
    var at: int

    ghost predicate Valid()
      reads this
    {
      && SourcesFit(sources, files) && IsFlat(contents, sources, files)
      && CumulativeOk()
      && current < |sources| && at >= sources[current].offset
      && Position() >= 0
      && (Chosen(sources, current, Position()) || Stuck())
    }

    ghost predicate CumulativeOk()
      reads this
    {
      && |cumulative| == |sources| + 1
      && forall i {:trigger cumulative[i]} :: 0 <= i <= |sources| ==> cumulative[i] == Cum(sources, i)
    }

    ghost function Position(): int
      requires current < |sources|
      reads this
    {
      Cum(sources, current) + at - sources[current].offset
    }

    /** As constructed over an empty first slice: the reader stands in a slice that has nothing to read. */
    ghost predicate Stuck()
      requires sources != []
      reads this
    {
      current == 0 && at == sources[0].offset && sources[0].num == 0
    }

    /** It stands there, and there is something to read. */
    ghost predicate Blocked()
      requires sources != []
      reads this
    {
      Stuck() && contents != []
    }

    constructor (sources: seq<Source>, files: Files)
      requires SourcesFit(sources, files)
      ensures Valid() && this.sources == sources && this.files == files
      ensures contents == Flat(sources, |sources|, files)
      ensures Position() == 0
      ensures Stuck() <==> sources[0].num == 0
    {
      hide IsFlat;
      this.sources := sources;
      this.files := files;
      contents := Flat(sources, |sources|, files);
      current := 0;
      at := sources[0].offset;
      new;
      FlatIsFlat(sources, files);
      cumulative := [0];
      var i := 0;
      while i < |sources|
        invariant 0 <= i <= |sources| && |cumulative| == i + 1
        invariant forall j :: 0 <= j <= i ==> cumulative[j] == Cum(sources, j)
        invariant current == 0 && at == sources[0].offset
      {
        cumulative := cumulative + [cumulative[|cumulative| - 1] + sources[i].num];
        i := i + 1;
      }
      assert SourceFits(sources[0], files) && Cum(sources, 1) == sources[0].num;
    }

    /** `__setstate__` on what `__getstate__` saved of another reader. */
    constructor Unpickle(sources: seq<Source>, files: Files, cumulative: seq<int>, current: nat, at: int)
      requires SourcesFit(sources, files) && |cumulative| == |sources| + 1
      requires current < |sources|
      ensures this.sources == sources && this.files == files && contents == Flat(sources, |sources|, files)
      ensures this.cumulative == cumulative && this.current == current && this.at == at
    {
      this.sources := sources;
      this.files := files;
      contents := Flat(sources, |sources|, files);
      this.cumulative := cumulative;
      this.current := current;
      this.at := at;
    }

    /** A reader that is pickled and unpickled continues where the original stood. */
    method Copy() returns (r: SlicedFileReader)
      requires Valid()
      ensures fresh(r) && r.Valid() && r.contents == contents && r.Position() == Position()
      ensures r.Stuck() == Stuck()
    {
      r := new SlicedFileReader.Unpickle(sources, files, cumulative, current, at);
      FlatIsFlat(sources, files);
      assert Flat(sources, |sources|, files) <= contents;
    }

    method Tell() returns (pos: int)
      requires Valid()
      ensures pos == Position()
    {
      pos := cumulative[current] + at - sources[current].offset;
    }

    /** `find_source_idx`; fails its assertion on a negative offset. */
    method FindSourceIdx(offset: int) returns (ok: bool, idx: Option<nat>)
      requires SourcesFit(sources, files) && CumulativeOk()
      ensures ok <==> offset >= 0
      ensures ok && idx.Some? ==>
        idx.value < |sources| && Cum(sources, idx.value) <= offset < Cum(sources, idx.value + 1)
      ensures ok && idx.None? ==> Total(sources) <= offset
    {
      // bisect_right
      var i := |sources| + 1;
      while i > 0 && cumulative[i - 1] > offset
        invariant 0 <= i <= |sources| + 1
        invariant i <= |sources| ==> offset < Cum(sources, i)
      {
        i := i - 1;
      }
      if i == 0 {
        return false, None;
      }
      CumMonotone(sources, files, 0, i - 1);
      if i - 1 == |sources| {
        return true, None;
      }
      return true, Some(i - 1);
    }

    /** `find_source_idx` with its callers' fallback to the last slice. */
    method ChooseSource(offset: int) returns (ok: bool, k: nat)
      requires SourcesFit(sources, files) && CumulativeOk()
      ensures ok <==> offset >= 0
      ensures k < |sources|
      ensures ok ==> Chosen(sources, k, offset)
    {
      var idx;
      ok, idx := FindSourceIdx(offset);
      CumMonotone(sources, files, |sources| - 1, |sources|);
      k := if ok && idx.Some? then idx.value else |sources| - 1;
    }

    /** `seek(offset, 0)`. */
    method SeekAbsolute(offset: int) returns (r: Option<int>)
      requires Valid()
      modifies this`current, this`at
      ensures Valid()
      ensures r == if offset >= 0 then Some(offset) else None
      ensures r.Some? ==> Position() == offset && Chosen(sources, current, offset)
      ensures r.None? ==> unchanged(this)
    {
      var ok, dst := ChooseSource(offset);
      if !ok {
        return None;
      }
      if dst != current {
        current := dst;
      }
      at := offset + sources[dst].offset - cumulative[dst];
      return Some(at + cumulative[dst] - sources[dst].offset);
    }

    /** `seek`; `None` when it raises. */
    method Seek(offset: int, whence: int) returns (r: Option<int>)
      requires Valid()
      modifies this`current, this`at
      ensures Valid()
      ensures r == SeekTarget(old(Position()), Total(sources), offset, whence)
      ensures r.Some? ==> Position() == r.value && Chosen(sources, current, r.value)
      ensures r.None? ==> unchanged(this)
    {
      if whence == 0 {
        r := SeekAbsolute(offset);
      } else if whence == 1 {
        var pos := Tell();
        r := SeekAbsolute(pos + offset);
      } else if whence == 2 {
        r := SeekAbsolute(cumulative[|sources|] + offset);
      } else {
        r := None;
      }
    }

    /** One turn of the loop of `read`: what the current slice still has, at most `want` bytes,
        then on to the slice of the new position. */
    method ReadPiece(want: nat) returns (bytes: Bytes)
      requires Valid() && want > 0 && Position() + want <= Total(sources)
      requires sources[current].num + sources[current].offset - at > 0
      modifies this`current, this`at
      ensures Valid() && 0 < |bytes| <= want
      ensures bytes == contents[old(Position())..old(Position()) + |bytes|]
      ensures Position() == old(Position()) + |bytes| && Chosen(sources, current, Position())
    {
      var remaining := sources[current].num + sources[current].offset - at;
      var toRead := if want < remaining then want else remaining;
      ghost var pos := Position();
      PieceIs(contents, sources, files, current, at, toRead);
      bytes := files[sources[current].path][at..at + toRead];
      assert bytes == contents[pos..pos + toRead] && |bytes| == toRead;
      at := at + toRead;
      var here := cumulative[current] + at - sources[current].offset;
      var _, next := ChooseSource(here);
      NextSource(sources, files, current, next, here);
      if next != current {
        at := sources[next].offset;
        current := next;
      }
    }

    /** `read`; `None` when its assertion fails, which happens exactly when the reader still stands in an
        empty first slice and there is something to read. */
    method Read(size: int) returns (r: Option<Bytes>)
      requires Valid()
      modifies this`current, this`at
      ensures Valid()
      ensures r.None? <==> old(Stuck()) && FlatRead(contents, old(Position()), size) != []
      ensures r.Some? ==> r.value == FlatRead(contents, old(Position()), size)
      ensures r.Some? ==> Position() == old(Position()) + |r.value|
      ensures Stuck() ==> old(Stuck())
      ensures old(Stuck()) ==> current == old(current) && at == old(at)
    {
      var pos := Tell();
      var left := cumulative[|sources|] - pos;
      var n := if size == -1 then left else if size < left then size else left;
      var buffer: Bytes := [];
      while |buffer| < n
        invariant Valid() && 0 <= |buffer| <= Max0(n)
        invariant n > 0 ==> pos + n <= |contents| && buffer == contents[pos..pos + |buffer|]
        invariant Position() == pos + |buffer|
        invariant |buffer| == 0 ==> current == old(current) && at == old(at)
        invariant |buffer| > 0 ==> !old(Stuck()) && Chosen(sources, current, Position())
        decreases n - |buffer|
      {
        // the assertion of the code
        if sources[current].num + sources[current].offset - at <= 0 {
          return None;
        }
        ghost var here := Position();
        var bytes := ReadPiece(n - |buffer|);
        Join(contents, buffer, bytes, pos, here);
        buffer := buffer + bytes;
      }
      return Some(buffer);
    }
  }

  // ---------- Any use of the reader ----------

  datatype Use = Seek(offset: int, whence: int) | Tell | Read(size: int) | Pickle
  datatype Answer = At(pos: int) | Data(bytes: Bytes) | Raised | Done

  /** The same use of an ordinary file with these contents. */
  function FlatUse(flat: Bytes, pos: nat, use: Use): (nat, Answer) {
    match use
    case Seek(offset, whence) =>
      var goal := SeekTarget(pos, |flat|, offset, whence);
      if goal.Some? then (goal.value, At(goal.value)) else (pos, Raised)
    case Tell => (pos, At(pos))
    case Read(size) => (pos + |FlatRead(flat, pos, size)|, Data(FlatRead(flat, pos, size)))
    case Pickle => (pos, Done)
  }

  /** The same use of a reader that stands in an empty first slice, if `blocked`: it raises when there is something to
      read, and a seek to any valid position repairs it. Otherwise it is the use of the flat file. */
  function ReaderUse(flat: Bytes, pos: nat, blocked: bool, use: Use): (nat, bool, Answer) {
    if blocked && use.Read? && FlatRead(flat, pos, use.size) != [] then (pos, true, Raised)
    else
      var (next, answer) := FlatUse(flat, pos, use);
      (next, blocked && !(use.Seek? && answer != Raised), answer)
  }

  function ReaderUses(flat: Bytes, pos: nat, blocked: bool, uses: seq<Use>): seq<Answer>
    decreases |uses|
  {
    if uses == [] then [] else
      var (next, still, answer) := ReaderUse(flat, pos, blocked, uses[0]);
      [answer] + ReaderUses(flat, next, still, uses[1..])
  }

  function FlatUses(flat: Bytes, pos: nat, uses: seq<Use>): seq<Answer>
    decreases |uses|
  {
    if uses == [] then [] else
      var (next, answer) := FlatUse(flat, pos, uses[0]);
      [answer] + FlatUses(flat, next, uses[1..])
  }

  /** Some read would find bytes before any seek has succeeded. */
  predicate Trips(flat: Bytes, pos: nat, uses: seq<Use>)
    decreases |uses|
  {
    uses != [] &&
    var (next, answer) := FlatUse(flat, pos, uses[0]);
    || (uses[0].Read? && answer != Data([]))
    || (!(uses[0].Seek? && answer != Raised) && Trips(flat, next, uses[1..]))
  }

  /** A reader answers as the flat file does, unless it stands in an empty first slice and reads some bytes before any
      seek has succeeded. */
  lemma {:induction false} ReaderIsFlat(flat: Bytes, pos: nat, blocked: bool, uses: seq<Use>)
    ensures ReaderUses(flat, pos, blocked, uses) == FlatUses(flat, pos, uses) <==> !blocked || !Trips(flat, pos, uses)
    decreases |uses|
  {
    if uses != [] {
      var (next, answer) := FlatUse(flat, pos, uses[0]);
      var (next', still, answer') := ReaderUse(flat, pos, blocked, uses[0]);
      ReaderIsFlat(flat, next, still, uses[1..]);
      var a, b := ReaderUses(flat, next', still, uses[1..]), FlatUses(flat, next, uses[1..]);
      assert ([answer'] + a)[0] == answer' && ([answer] + b)[0] == answer;
      assert ([answer'] + a)[1..] == a && ([answer] + b)[1..] == b;
    }
  }

  /** One use of any reader, in whatever slice it stands. */
  method UseOnce(r: SlicedFileReader, use: Use) returns (answer: Answer, r': SlicedFileReader)
    requires r.Valid()
    modifies r`current, r`at
    ensures r'.Valid() && r'.contents == r.contents
    ensures (r'.Position(), r'.Blocked(), answer) == ReaderUse(r.contents, old(r.Position()), old(r.Blocked()), use)
    ensures r' == r || fresh(r')
  {
    r' := r;
    match use {
      case Seek(offset, whence) =>
        var pos := r.Seek(offset, whence);
        answer := if pos.Some? then At(pos.value) else Raised;
      case Tell =>
        var pos := r.Tell();
        answer := At(pos);
      case Read(size) =>
        var bytes := r.Read(size);
        answer := if bytes.Some? then Data(bytes.value) else Raised;
      case Pickle =>
        r' := r.Copy();
        answer := Done;
    }
  }

  /** Any interleaving of seeks, tells, reads and pickling, on any reader. */
  method UseMany(r: SlicedFileReader, uses: seq<Use>) returns (answers: seq<Answer>)
    requires r.Valid()
    modifies r`current, r`at
    ensures answers == ReaderUses(r.contents, old(r.Position()), old(r.Blocked()), uses)
    ensures !old(r.Blocked()) ==> answers == FlatUses(r.contents, old(r.Position()), uses)
    decreases |uses|
  {
    ReaderIsFlat(r.contents, r.Position(), r.Blocked(), uses);
    if uses == [] {
      return [];
    }
    var answer, next := UseOnce(r, uses[0]);
    var rest := UseMany(next, uses[1..]);
    return [answer] + rest;
  }

  /** Reading an upload from its start gives its content, exactly when its first source is not empty
      (or there is nothing to read at all). */
  method ReadUpload(sources: seq<Source>, files: Files) returns (r: Option<Bytes>)
    requires SourcesFit(sources, files)
    ensures r.Some? <==> sources[0].num > 0 || Content(sources, files) == []
    ensures r.Some? ==> r.value == Content(sources, files)
  {
    var reader := new SlicedFileReader(sources, files);
    ContentIsFlat(sources, files, |sources|);
    assert sources[..|sources|] == sources && SourceFits(sources[0], files);
    r := reader.Read(-1);
  }

  lemma {:induction false} ContentIsFlat(sources: seq<Source>, files: Files, n: nat)
    requires n <= |sources|
    ensures Content(sources[..n], files) == Flat(sources, n, files)
  {
    if n > 0 {
      ContentIsFlat(sources, files, n - 1);
      assert sources[..n][..n - 1] == sources[..n - 1];
    }
  }

  lemma Join(flat: Bytes, buffer: Bytes, bytes: Bytes, pos: nat, next: nat)
    requires next == pos + |buffer| && next + |bytes| <= |flat|
    requires buffer == flat[pos..pos + |buffer|] && bytes == flat[next..next + |bytes|]
    ensures buffer + bytes == flat[pos..pos + |buffer + bytes|]
  {
  }

  function Max0(n: int): nat { if n < 0 then 0 else n }

  // ---------- The laws of the flat cursor ----------

  /** A read gives the next bytes: as many as are asked for, or the rest if there are fewer or -1 is asked for. */
  lemma FlatReadIs(flat: Bytes, pos: nat, size: int)
    ensures pos >= |flat| ==> FlatRead(flat, pos, size) == []
    ensures pos <= |flat| ==> FlatRead(flat, pos, size) <= flat[pos..]
    ensures pos <= |flat| && (size == -1 || size >= |flat| - pos) ==> FlatRead(flat, pos, size) == flat[pos..]
    ensures pos <= |flat| && 0 <= size <= |flat| - pos ==> |FlatRead(flat, pos, size)| == size
    ensures size < -1 ==> FlatRead(flat, pos, size) == []
  {
  }

  /** Reading in two steps is reading at once. */
  lemma FlatReadsJoin(flat: Bytes, pos: nat, a: nat, b: nat)
    ensures FlatRead(flat, pos, a + b)
         == FlatRead(flat, pos, a) + FlatRead(flat, pos + |FlatRead(flat, pos, a)|, b)
  {
  }

  /** Positions count from the start, from here, or from the end. */
  lemma SeekLaws(pos: nat, total: nat, offset: int, whence: int)
    ensures SeekTarget(pos, total, pos, 0) == Some(pos as int) && SeekTarget(pos, total, 0, 1) == Some(pos as int)
    ensures SeekTarget(pos, total, 0, 2) == Some(total as int)
    ensures 0 <= whence <= 2 ==>
      SeekTarget(pos, total, offset, whence)
        == (var base := [0, pos, total][whence]; if base + offset >= 0 then Some(base + offset) else None)
    ensures !(0 <= whence <= 2) ==> SeekTarget(pos, total, offset, whence) == None
  {
  }
}
