/** The blob protocol: one index server, the shared files and any number of storing clients
    (blob_idx_server/src/blob.rs and blob_idx_client/src/lib.rs) as a transition system. */
module BlobSystem {
  import opened Optional
  import opened BlobModel

  /** A blob that a client wants to store. */
  datatype Item = Item(key: Key, bytes: Bytes)

  /** A granted request: what it stores and the range it was handed. */
  datatype Grant = Grant(node: NodeId, items: seq<Item>, file: FileId, offset: nat, creates: bool)

  /** How far its client is: whether it has opened the file, and how many bytes it has written. */
  datatype Progress = Progress(isOpen: bool, done: nat)

  type Disk = map<FileId, Bytes>

  /** Where a key's row comes from: an entry of a grant. */
  datatype Origin = Origin(grant: nat, entry: nat)

  /** `holder` and `owner` record which grant took a file's lock and made a key's row. */
  datatype System = System(server: Server, disk: Disk, grants: seq<Grant>, progress: seq<Progress>,
                           holder: map<FileId, nat>, owner: map<Key, Origin>)

  function EntriesOf(items: seq<Item>): (r: seq<Entry>)
    ensures |r| == |items|
    ensures forall e :: 0 <= e < |items| ==> r[e] == Entry(items[e].key, |items[e].bytes|)
  {
    seq(|items|, i requires 0 <= i < |items| => Entry(items[i].key, |items[i].bytes|))
  }

  /** The bytes of the first `n` items, in order. */
  function Data(items: seq<Item>, n: nat): Bytes
    requires n <= |items|
  {
    if n == 0 then [] else Data(items, n - 1) + items[n - 1].bytes
  }

  function Payload(items: seq<Item>): Bytes {
    Data(items, |items|)
  }

  lemma {:induction false} DataSize(items: seq<Item>, n: nat)
    requires n <= |items|
    ensures |Data(items, n)| == SizeOf(EntriesOf(items), n)
  {
    if n > 0 {
      DataSize(items, n - 1);
    }
  }

  /** Each item's bytes lie where its slice says. */
  lemma {:induction false} DataAt(items: seq<Item>, n: nat, e: nat)
    requires e < n <= |items|
    ensures SizeOf(EntriesOf(items), e) + |items[e].bytes| <= |Data(items, n)|
    ensures Data(items, n)[SizeOf(EntriesOf(items), e)..SizeOf(EntriesOf(items), e) + |items[e].bytes|]
         == items[e].bytes
  {
    DataSize(items, n - 1);
    if e < n - 1 {
      DataAt(items, n - 1, e);
      var lo, hi := SizeOf(EntriesOf(items), e), SizeOf(EntriesOf(items), e) + |items[e].bytes|;
      assert Data(items, n)[lo..hi] == Data(items, n - 1)[lo..hi];
    }
  }

  // ---------- Files ----------

  function Zeros(n: nat): (r: Bytes)
    ensures |r| == n
  {
    seq(n, i => 0)
  }

  /** Writing at an offset fills a gap after the end with zeros. */
  function WriteAt(bytes: Bytes, at: nat, chunk: Bytes): (r: Bytes)
    ensures |r| == if at + |chunk| < |bytes| then |bytes| else at + |chunk|
    ensures r[at..at + |chunk|] == chunk
    ensures forall i :: 0 <= i < |bytes| && !(at <= i < at + |chunk|) ==> r[i] == bytes[i]
  {
    var padded := if |bytes| < at then bytes + Zeros(at - |bytes|) else bytes;
    padded[..at] + chunk + (if at + |chunk| < |bytes| then bytes[at + |chunk|..] else [])
  }

  function ContentsOf(disk: Disk, file: FileId): Bytes {
    if file in disk then disk[file] else []
  }

  /** What a reader of a slice gets: seek, then read exactly `len` bytes. */
  function ReadSlice(disk: Disk, slice: Slice): Option<Bytes> {
    if slice.file !in disk then None
    else if slice.len == 0 then Some([])
    else if slice.offset + slice.len > |disk[slice.file]| then None
    else Some(disk[slice.file][slice.offset..slice.offset + slice.len])
  }

  // ---------- Steps ----------

  datatype Step =
    | Request(items: seq<Item>, node: NodeId, pick: FileId)
    | Open(grant: nat)
    | Write(grant: nat, n: nat)
    | Finish(grant: nat)
    | ForeignUnlock(file: FileId, node: NodeId)
    | Expiry(file: FileId)
    | Boot(maxFiles: nat)

  predicate FreshNode(s: System, node: NodeId) {
    forall i :: 0 <= i < |s.grants| ==> s.grants[i].node != node
  }

  predicate WholePayloadWritten(s: System, i: nat)
    requires i < |s.grants| && i < |s.progress|
  {
    s.progress[i].isOpen && s.progress[i].done == |Payload(s.grants[i].items)|
  }

  /** A client unlocks once it has written all its bytes; other unlock requests name another node. */
  predicate Enabled(s: System, step: Step) {
    match step
    case Request(items, node, pick) =>
      CanPick(s.server, pick) && FreshNode(s, node) && forall e :: 0 <= e < |items| ==> items[e].key != FILE_POOL
    case Open(i) => i < |s.grants| && i < |s.progress| && !s.progress[i].isOpen
    case Write(i, n) =>
      i < |s.grants| && i < |s.progress| && s.progress[i].isOpen
      && s.progress[i].done + n <= |Payload(s.grants[i].items)|
    case Finish(i) => i < |s.grants| && i < |s.progress| && WholePayloadWritten(s, i)
    case ForeignUnlock(_, node) => FreshNode(s, node)
    case Expiry(_) => true
    case Boot(_) => true
  }

  /** A client that must create a file that exists already panics. */
  predicate Panics(s: System, step: Step)
    requires Enabled(s, step)
  {
    step.Open? && s.grants[step.grant].creates && s.grants[step.grant].file in s.disk
  }

  /** The keys of a new grant now belong to it. */
  function Claimed(owner: map<Key, Origin>, items: seq<Item>, grant: nat, n: nat): map<Key, Origin>
    requires n <= |items|
  {
    if n == 0 then owner else Claimed(owner, items, grant, n - 1)[items[n - 1].key := Origin(grant, n - 1)]
  }

  function AfterRequest(s: System, items: seq<Item>, node: NodeId, pick: FileId): System
    requires CanPick(s.server, pick)
  {
    var (server, reply) := Create(s.server, EntriesOf(items), node, pick);
    if reply.Err? then s else
      var g := Grant(node, items, reply.value.file, reply.value.offset, reply.value.needsCreation);
      System(server, s.disk, s.grants + [g], s.progress + [Progress(false, 0)],
             s.holder[pick := |s.grants|], Claimed(s.owner, items, |s.grants|, |items|))
  }

  function AfterOpen(s: System, i: nat): System
    requires i < |s.grants| && i < |s.progress|
  {
    var g := s.grants[i];
    var progress := s.progress[i := Progress(true, 0)];
    if g.creates then s.(disk := s.disk[g.file := []], progress := progress)
    else if g.file in s.disk then s.(progress := progress)
    else s
  }

  function AfterWrite(s: System, i: nat, n: nat): System
    requires i < |s.grants| && i < |s.progress| && s.progress[i].done + n <= |Payload(s.grants[i].items)|
  {
    var g, done := s.grants[i], s.progress[i].done;
    var chunk := Payload(g.items)[done..done + n];
    s.(disk := s.disk[g.file := WriteAt(ContentsOf(s.disk, g.file), g.offset + done, chunk)],
       progress := s.progress[i := s.progress[i].(done := done + n)])
  }

  function After(s: System, step: Step): System
    requires Enabled(s, step)
  {
    match step
    case Request(items, node, pick) => AfterRequest(s, items, node, pick)
    case Open(i) => AfterOpen(s, i)
    case Write(i, n) => AfterWrite(s, i, n)
    case Finish(i) => s.(server := Unlock(s.server, s.grants[i].file, s.grants[i].node).0)
    case ForeignUnlock(file, node) => s.(server := Unlock(s.server, file, node).0)
    case Expiry(file) => s.(server := Expire(s.server, file))
    case Boot(maxFiles) => s.(server := Restart(s.server, maxFiles))
  }

  function Start(maxFiles: nat): System {
    System(Server(maxFiles, map[], map[], map[], {}), map[], [], [], map[], map[])
  }

  // ---------- The invariant ----------

  /** Bytes of a file handed to the first `n` grants. */
  function Allocated(grants: seq<Grant>, n: nat, file: FileId): nat
    requires n <= |grants|
  {
    if n == 0 then 0 else
      Allocated(grants, n - 1, file) + if grants[n - 1].file == file then |Payload(grants[n - 1].items)| else 0
  }

  /** Files are numbered from 0; locks and cleaners are on files of the pool. */
  ghost predicate PoolOk(v: Server) {
    && |v.pool| <= v.maxFiles
    && (forall f: FileId :: f in v.pool <==> f < |v.pool|)
    && v.locked.Keys <= v.cleaners <= v.pool.Keys
  }

  /** A grant starts where the earlier grants on its file end. */
  predicate GrantAt(grants: seq<Grant>, i: nat)
    requires i < |grants|
  {
    grants[i].offset == Allocated(grants, i, grants[i].file)
  }

  predicate FirstOnFile(grants: seq<Grant>, i: nat)
    requires i < |grants|
  {
    forall j :: 0 <= j < i ==> grants[j].file != grants[i].file
  }

  predicate OnFile(grants: seq<Grant>, f: FileId) {
    exists i :: 0 <= i < |grants| && grants[i].file == f
  }

  ghost predicate Placed(pool: map<FileId, nat>, grants: seq<Grant>) {
    forall i: nat :: i < |grants| ==>
      grants[i].file in pool && GrantAt(grants, i) && (grants[i].creates <==> FirstOnFile(grants, i))
  }

  predicate DistinctNodes(grants: seq<Grant>) {
    forall i, j :: 0 <= i < j < |grants| ==> grants[i].node != grants[j].node
  }

  /** A file's size in the pool is what its grants were handed. */
  ghost predicate Sized(pool: map<FileId, nat>, grants: seq<Grant>) {
    forall f :: f in pool ==> pool[f] == Allocated(grants, |grants|, f) && OnFile(grants, f)
  }

  ghost predicate GrantsOk(pool: map<FileId, nat>, grants: seq<Grant>) {
    Placed(pool, grants) && DistinctNodes(grants) && Sized(pool, grants)
  }

  /** The bytes that a client has written are in its range. */
  predicate RangeHolds(bytes: Bytes, g: Grant, done: nat) {
    && done <= |Payload(g.items)|
    && (done > 0 ==> g.offset + done <= |bytes|)
    && (forall b :: 0 <= b < done ==> bytes[g.offset + b] == Payload(g.items)[b])
  }

  ghost predicate DiskOk(disk: Disk, grants: seq<Grant>, progress: seq<Progress>) {
    && |progress| == |grants|
    && (forall f :: f in disk ==> OnFile(grants, f))
    && (forall i :: 0 <= i < |grants| && progress[i].isOpen ==> grants[i].file in disk)
    && (forall i :: 0 <= i < |grants| && !progress[i].isOpen ==> progress[i].done == 0)
    && (forall i :: 0 <= i < |grants| ==> RangeHolds(ContentsOf(disk, grants[i].file), grants[i], progress[i].done))
    && (forall i :: 0 <= i < |grants| && grants[i].creates && !progress[i].isOpen ==> grants[i].file !in disk)
  }

  ghost predicate KeyOk(s: System, k: Key)
    requires k in s.server.keys
  {
    && k in s.owner && s.owner[k].grant < |s.grants| && |s.progress| == |s.grants|
    && var g, e := s.grants[s.owner[k].grant], s.owner[k].entry;
    && e < |g.items| && g.items[e].key == k
    && s.server.keys[k].slice == SliceOf(EntriesOf(g.items), g.file, g.offset, e)
    && (s.server.keys[k].written ==> WholePayloadWritten(s, s.owner[k].grant))
  }

  ghost predicate KeysOk(s: System) {
    forall k :: k in s.server.keys ==> KeyOk(s, k)
  }

  /** The grant that holds a live lock owns all its keys, and none of them is written. */
  ghost predicate LockOk(s: System, f: FileId)
    requires f in s.server.locked
  {
    && f in s.holder && s.holder[f] < |s.grants|
    && var h, lock := s.holder[f], s.server.locked[f];
    var g := s.grants[h];
    && g.file == f && lock == FileLock(g.node, KeysOf(EntriesOf(g.items)))
    && forall e :: 0 <= e < |g.items| ==> Held(s, g.items[e].key, Origin(h, e))
  }

  predicate Held(s: System, k: Key, o: Origin) {
    k in s.server.keys && !s.server.keys[k].written && k in s.owner && s.owner[k] == o
  }

  ghost predicate LocksOk(s: System) {
    forall f :: f in s.server.locked ==> LockOk(s, f)
  }

  ghost predicate Inv(s: System) {
    && PoolOk(s.server)
    && GrantsOk(s.server.pool, s.grants)
    && DiskOk(s.disk, s.grants, s.progress)
    && KeysOk(s)
    && LocksOk(s)
  }

  // ---------- Disjoint ranges ----------

  lemma {:induction false} AllocatedGrows(grants: seq<Grant>, i: nat, j: nat, f: FileId)
    requires i <= j <= |grants|
    ensures Allocated(grants, i, f) <= Allocated(grants, j, f)
  {
    if i < j {
      AllocatedGrows(grants, i, j - 1, f);
    }
  }

  lemma {:induction false} AllocatedFrame(grants: seq<Grant>, more: seq<Grant>, n: nat, f: FileId)
    requires n <= |grants| <= |more| && more[..|grants|] == grants
    ensures Allocated(more, n, f) == Allocated(grants, n, f)
  {
    if n > 0 {
      assert more[n - 1] == more[..|grants|][n - 1];
      AllocatedFrame(grants, more, n - 1, f);
    }
  }

  /** Of two grants on a file, the later one starts after the earlier one's range. */
  lemma {:induction false} Ordered(grants: seq<Grant>, i: nat, j: nat)
    requires i < j < |grants| && grants[i].file == grants[j].file
    requires GrantAt(grants, i) && GrantAt(grants, j)
    ensures grants[i].offset + |Payload(grants[i].items)| <= grants[j].offset
  {
    assert Allocated(grants, i + 1, grants[i].file)
        == Allocated(grants, i, grants[i].file) + |Payload(grants[i].items)|;
    AllocatedGrows(grants, i + 1, j, grants[i].file);
  }

  // ---------- Every step keeps the invariant ----------

  /** Writing inside one range keeps what the other ranges hold. */
  lemma OtherRangeHolds(bytes: Bytes, g: Grant, done: nat, at: nat, chunk: Bytes)
    requires RangeHolds(bytes, g, done)
    requires at + |chunk| <= g.offset || g.offset + |Payload(g.items)| <= at
    ensures RangeHolds(WriteAt(bytes, at, chunk), g, done)
  {
  }

  lemma OwnRangeHolds(bytes: Bytes, g: Grant, done: nat, n: nat)
    requires RangeHolds(bytes, g, done) && done + n <= |Payload(g.items)|
    ensures RangeHolds(WriteAt(bytes, g.offset + done, Payload(g.items)[done..done + n]), g, done + n)
  {
    var chunk := Payload(g.items)[done..done + n];
    var r := WriteAt(bytes, g.offset + done, chunk);
    forall b | 0 <= b < done + n ensures r[g.offset + b] == Payload(g.items)[b] {
      if b >= done {
        assert r[g.offset + b] == r[g.offset + done..g.offset + done + n][b - done];
      }
    }
  }

  /** A grant's range is its own: writes of another grant do not touch it. */
  lemma WriteKeepsOthers(grants: seq<Grant>, i: nat, j: nat, bytes: Bytes, done: nat, at: nat, chunk: Bytes)
    requires i < |grants| && j < |grants| && i != j && grants[i].file == grants[j].file
    requires GrantAt(grants, i) && GrantAt(grants, j)
    requires RangeHolds(bytes, grants[j], done)
    requires grants[i].offset <= at && at + |chunk| <= grants[i].offset + |Payload(grants[i].items)|
    ensures RangeHolds(WriteAt(bytes, at, chunk), grants[j], done)
  {
    if i < j {
      Ordered(grants, i, j);
    } else {
      Ordered(grants, j, i);
    }
    OtherRangeHolds(bytes, grants[j], done, at, chunk);
  }

  /** A file may be replaced by bytes that still hold all the written ranges. */
  lemma DiskReplaced(disk: Disk, grants: seq<Grant>, progress: seq<Progress>, i: nat, bytes: Bytes, done: nat)
    requires DiskOk(disk, grants, progress) && i < |grants| && progress[i].isOpen
    requires RangeHolds(bytes, grants[i], done)
    requires forall j: nat :: j < |grants| && j != i && grants[j].file == grants[i].file ==>
      RangeHolds(bytes, grants[j], progress[j].done)
    ensures DiskOk(disk[grants[i].file := bytes], grants, progress[i := progress[i].(done := done)])
  {
  }

  lemma WriteKeepsDisk(disk: Disk, grants: seq<Grant>, progress: seq<Progress>, i: nat, at: nat, chunk: Bytes)
    requires DiskOk(disk, grants, progress) && i < |grants| && progress[i].isOpen
    requires forall j: nat :: j < |grants| ==> GrantAt(grants, j)
    requires at == grants[i].offset + progress[i].done
    requires progress[i].done + |chunk| <= |Payload(grants[i].items)|
    requires chunk == Payload(grants[i].items)[progress[i].done..progress[i].done + |chunk|]
    ensures DiskOk(disk[grants[i].file := WriteAt(ContentsOf(disk, grants[i].file), at, chunk)], grants,
                   progress[i := progress[i].(done := progress[i].done + |chunk|)])
  {
    var bytes := ContentsOf(disk, grants[i].file);
    OwnRangeHolds(bytes, grants[i], progress[i].done, |chunk|);
    forall j: nat | j < |grants| && j != i && grants[j].file == grants[i].file
      ensures RangeHolds(WriteAt(bytes, at, chunk), grants[j], progress[j].done)
    {
      WriteKeepsOthers(grants, i, j, bytes, progress[j].done, at, chunk);
    }
    DiskReplaced(disk, grants, progress, i, WriteAt(bytes, at, chunk), progress[i].done + |chunk|);
  }

  /** The creator of a file opens it before any other client can, so that it never panics. */
  lemma NoPanic(s: System, step: Step)
    requires Inv(s) && Enabled(s, step)
    ensures !Panics(s, step)
  {
  }

  /** `needs_creation` is returned once for each file. */
  lemma OneCreator(pool: map<FileId, nat>, grants: seq<Grant>, i: nat, j: nat)
    requires GrantsOk(pool, grants) && i < |grants| && j < |grants|
    requires grants[i].creates && grants[j].creates && grants[i].file == grants[j].file
    ensures i == j
  {
    assert FirstOnFile(grants, i) && FirstOnFile(grants, j);
  }

  /** A file is created before anything was written to it. */
  lemma CreateKeepsDisk(disk: Disk, grants: seq<Grant>, progress: seq<Progress>, i: nat)
    requires DiskOk(disk, grants, progress) && i < |grants| && !progress[i].isOpen && grants[i].file !in disk
    requires forall j: nat :: j < |grants| && grants[j].creates && grants[j].file == grants[i].file ==> i == j
    ensures DiskOk(disk[grants[i].file := []], grants, progress[i := Progress(true, 0)])
  {
    forall j: nat | j < |grants| && grants[j].file == grants[i].file
      ensures RangeHolds([], grants[j], progress[j].done)
    {
      assert progress[j].done == 0;
    }
    assert OnFile(grants, grants[i].file);
  }

  lemma OpenKeepsDisk(s: System, i: nat)
    requires Inv(s) && Enabled(s, Open(i))
    ensures DiskOk(AfterOpen(s, i).disk, s.grants, AfterOpen(s, i).progress)
  {
    hide KeysOk, LocksOk, PoolOk, GrantsOk, RangeHolds;
    if s.grants[i].creates {
      forall j: nat | j < |s.grants| && s.grants[j].creates && s.grants[j].file == s.grants[i].file ensures i == j {
        OneCreator(s.server.pool, s.grants, i, j);
      }
      CreateKeepsDisk(s.disk, s.grants, s.progress, i);
    }
  }

  /** Progress by a client keeps the tables. */
  lemma ProgressKeeps(s: System, t: System)
    requires Inv(s) && t.server == s.server && t.grants == s.grants && t.holder == s.holder && t.owner == s.owner
    requires DiskOk(t.disk, t.grants, t.progress)
    requires forall i: nat :: i < |s.grants| && WholePayloadWritten(s, i) ==> WholePayloadWritten(t, i)
    ensures Inv(t)
  {
    forall k | k in t.server.keys ensures KeyOk(t, k) {
      assert KeyOk(s, k);
    }
    forall f | f in t.server.locked ensures LockOk(t, f) {
      assert LockOk(s, f);
      var g := s.grants[s.holder[f]];
      forall e | 0 <= e < |g.items| ensures Held(t, g.items[e].key, Origin(s.holder[f], e)) {
        assert Held(s, g.items[e].key, Origin(s.holder[f], e));
      }
    }
  }

  /** The same rows, but for the lock column. */
  ghost predicate SameRows(keys: map<Key, Wrapper>, more: map<Key, Wrapper>) {
    forall k :: (k in more <==> k in keys)
      && (k in keys ==> more[k].slice == keys[k].slice && more[k].written == keys[k].written)
  }

  /** Losing locks is always safe: a foreign unlock, an expiry and a restart keep the invariant. */
  lemma FewerLocks(s: System, v: Server)
    requires Inv(s) && PoolOk(v) && v.pool == s.server.pool && SameRows(s.server.keys, v.keys)
    requires forall f :: f in v.locked ==> f in s.server.locked && v.locked[f] == s.server.locked[f]
    ensures Inv(s.(server := v))
  {
    var t := s.(server := v);
    forall k | k in v.keys ensures KeyOk(t, k) {
      assert KeyOk(s, k);
    }
    forall f | f in v.locked ensures LockOk(t, f) {
      assert LockOk(s, f);
      var g := s.grants[s.holder[f]];
      forall e | 0 <= e < |g.items| ensures Held(t, g.items[e].key, Origin(s.holder[f], e)) {
        assert Held(s, g.items[e].key, Origin(s.holder[f], e));
      }
    }
  }

  /** An unlock by the wrong node only drops the lock. */
  lemma WrongUnlockKeeps(s: System, file: FileId, node: NodeId)
    requires Inv(s)
    requires Unlock(s.server, file, node).1.Err?
    ensures Inv(s.(server := Unlock(s.server, file, node).0))
  {
    hide GrantsOk, DiskOk, KeysOk, LocksOk;
    FewerLocks(s, Unlock(s.server, file, node).0);
  }

  /** A successful unlock comes from the grant that holds the lock. */
  lemma UnlockerHolds(s: System, i: nat)
    requires Inv(s) && i < |s.grants| && s.grants[i].file in s.server.locked
    requires s.server.locked[s.grants[i].file].node == s.grants[i].node
    ensures s.holder[s.grants[i].file] == i
  {
    assert LockOk(s, s.grants[i].file);
  }

  /** The rows once grant `i` has unlocked: just its own keys are marked. */
  ghost predicate Published(s: System, i: nat, keys: map<Key, Wrapper>)
    requires i < |s.grants|
  {
    forall k :: (k in keys <==> k in s.server.keys) && (k in keys ==>
      keys[k].slice == s.server.keys[k].slice
      && (keys[k].written <==> s.server.keys[k].written || HasItem(s.grants[i].items, k)))
  }

  predicate HasItem(items: seq<Item>, k: Key) {
    exists e :: 0 <= e < |items| && items[e].key == k
  }

  lemma MarkedPublishes(s: System, i: nat)
    requires i < |s.grants|
    ensures var ks := KeysOf(EntriesOf(s.grants[i].items)); Published(s, i, Marked(s.server.keys, ks, |ks|))
  {
    var items := s.grants[i].items;
    var ks := KeysOf(EntriesOf(items));
    forall k ensures Among(ks, |ks|, k) <==> HasItem(items, k) {
      if Among(ks, |ks|, k) {
        var e :| 0 <= e < |ks| && ks[e] == k;
        assert items[e].key == k;
      }
      if HasItem(items, k) {
        var e :| 0 <= e < |items| && items[e].key == k;
        assert ks[e] == k;
      }
    }
    forall k {
      MarkedIs(s.server.keys, ks, |ks|, k);
    }
  }

  /** The holder's keys become readable; the other locks are on other keys. */
  lemma PublishKeeps(s: System, i: nat, v: Server)
    requires Inv(s) && i < |s.grants| && WholePayloadWritten(s, i)
    requires s.grants[i].file in s.server.locked && s.holder[s.grants[i].file] == i
    requires PoolOk(v) && v.pool == s.server.pool && Published(s, i, v.keys)
    requires v.locked == s.server.locked - {s.grants[i].file}
    ensures Inv(s.(server := v))
  {
    var t, items := s.(server := v), s.grants[i].items;
    assert LockOk(s, s.grants[i].file);
    forall k | k in v.keys ensures KeyOk(t, k) {
      assert KeyOk(s, k);
      if HasItem(items, k) {
        var e :| 0 <= e < |items| && items[e].key == k;
        assert Held(s, items[e].key, Origin(i, e));
      }
    }
    forall f | f in v.locked ensures LockOk(t, f) {
      OtherLockKept(s, i, t, f);
    }
  }

  lemma OtherLockKept(s: System, i: nat, t: System, f: FileId)
    requires Inv(s) && i < |s.grants| && Published(s, i, t.server.keys) && t == s.(server := t.server)
    requires s.grants[i].file in s.server.locked && s.holder[s.grants[i].file] == i
    requires f in s.server.locked && f != s.grants[i].file
    requires f in t.server.locked && t.server.locked[f] == s.server.locked[f]
    ensures LockOk(t, f)
  {
    var items := s.grants[i].items;
    assert LockOk(s, f) && LockOk(s, s.grants[i].file);
    var g := s.grants[s.holder[f]];
    forall e | 0 <= e < |g.items| ensures Held(t, g.items[e].key, Origin(s.holder[f], e)) {
      assert Held(s, g.items[e].key, Origin(s.holder[f], e));
      forall d | 0 <= d < |items| ensures items[d].key != g.items[e].key {
        assert Held(s, items[d].key, Origin(i, d));
      }
    }
  }

  lemma FinishKeeps(s: System, i: nat)
    requires Inv(s) && Enabled(s, Finish(i))
    ensures Inv(After(s, Finish(i)))
  {
    var g := s.grants[i];
    var (v, reply) := Unlock(s.server, g.file, g.node);
    if reply.Err? {
      WrongUnlockKeeps(s, g.file, g.node);
    } else {
      UnlockerHolds(s, i);
      MarkedPublishes(s, i);
      assert LockOk(s, g.file);
      PublishKeeps(s, i, v);
    }
  }

  // ---------- Granting a request ----------

  lemma {:induction false} ClaimedAt(owner: map<Key, Origin>, items: seq<Item>, grant: nat, n: nat, e: nat)
    requires e < n <= |items| && UniqueKeys(EntriesOf(items))
    ensures items[e].key in Claimed(owner, items, grant, n)
      && Claimed(owner, items, grant, n)[items[e].key] == Origin(grant, e)
  {
    if e < n - 1 {
      assert EntriesOf(items)[e].key != EntriesOf(items)[n - 1].key;
      ClaimedAt(owner, items, grant, n - 1, e);
    }
  }

  lemma {:induction false} ClaimedFrame(owner: map<Key, Origin>, items: seq<Item>, grant: nat, n: nat, k: Key)
    requires n <= |items| && !HasItem(items, k)
    ensures var r := Claimed(owner, items, grant, n);
      (k in r <==> k in owner) && (k in owner ==> r[k] == owner[k])
  {
    if n > 0 {
      assert items[n - 1].key != k;
      ClaimedFrame(owner, items, grant, n - 1, k);
    }
  }

  /** What a granted request did to the tables. */
  ghost predicate Granted(s: System, t: System, g: Grant) {
    && t.disk == s.disk && t.grants == s.grants + [g] && t.progress == s.progress + [Progress(false, 0)]
    && t.holder == s.holder[g.file := |s.grants|]
    && t.server.locked == s.server.locked[g.file := FileLock(g.node, KeysOf(EntriesOf(g.items)))]
    && (forall e: nat :: e < |g.items| ==> FreshRow(t, g, e, |s.grants|))
    && (forall k :: !HasItem(g.items, k) ==> KeptRow(s, t, k))
    && (forall k :: HasItem(g.items, k) ==> !Taken(s.server, k))
  }

  predicate FreshRow(t: System, g: Grant, e: nat, grant: nat)
    requires e < |g.items|
  {
    && Held(t, g.items[e].key, Origin(grant, e))
    && t.server.keys[g.items[e].key].slice == SliceOf(EntriesOf(g.items), g.file, g.offset, e)
  }

  predicate KeptRow(s: System, t: System, k: Key) {
    && (k in t.server.keys <==> k in s.server.keys) && (k in s.server.keys ==> t.server.keys[k] == s.server.keys[k])
    && (k in t.owner <==> k in s.owner) && (k in s.owner ==> t.owner[k] == s.owner[k])
  }

  lemma RequestGrants(s: System, items: seq<Item>, node: NodeId, pick: FileId)
    requires CanPick(s.server, pick) && Create(s.server, EntriesOf(items), node, pick).1.Ok?
    ensures var b := Create(s.server, EntriesOf(items), node, pick).1.value;
      Granted(s, AfterRequest(s, items, node, pick), Grant(node, items, pick, b.offset, b.needsCreation))
  {
    var t, entries := AfterRequest(s, items, node, pick), EntriesOf(items);
    var b := Create(s.server, entries, node, pick).1.value;
    var g := Grant(node, items, pick, b.offset, b.needsCreation);
    forall e: nat | e < |items| ensures FreshRow(t, g, e, |s.grants|) {
      WithSlicesAt(s.server.keys, entries, pick, b.offset, node, |entries|, e);
      ClaimedAt(s.owner, items, |s.grants|, |items|, e);
    }
    forall k | !HasItem(items, k) ensures KeptRow(s, t, k) {
      assert !HasKey(entries, |entries|, k);
      WithSlicesFrame(s.server.keys, entries, pick, b.offset, node, |entries|, k);
      ClaimedFrame(s.owner, items, |s.grants|, |items|, k);
    }
    forall k | HasItem(items, k) ensures !Taken(s.server, k) {
      var e :| 0 <= e < |items| && items[e].key == k;
      assert !Taken(s.server, entries[e].key);
    }
  }

  lemma GrantKeepsKeys(s: System, t: System, g: Grant)
    requires KeysOk(s) && |s.progress| == |s.grants| && Granted(s, t, g)
    ensures KeysOk(t)
  {
    forall k | k in t.server.keys ensures KeyOk(t, k) {
      if HasItem(g.items, k) {
        var e: nat :| e < |g.items| && g.items[e].key == k;
        assert FreshRow(t, g, e, |s.grants|);
      } else {
        assert KeptRow(s, t, k) && KeyOk(s, k);
      }
    }
  }

  /** The lock is taken on a file that had none, and its keys are in no other lock. */
  lemma GrantKeepsLocks(s: System, t: System, g: Grant)
    requires LocksOk(s) && KeysOk(s) && |s.progress| == |s.grants| && Granted(s, t, g) && g.file !in s.server.locked
    ensures LocksOk(t)
  {
    forall f | f in t.server.locked ensures LockOk(t, f) {
      if f == g.file {
        forall e: nat | e < |g.items| ensures Held(t, g.items[e].key, Origin(|s.grants|, e)) {
          assert FreshRow(t, g, e, |s.grants|);
        }
      } else {
        GrantKeepsLock(s, t, g, f);
      }
    }
  }

  lemma GrantKeepsLock(s: System, t: System, g: Grant, f: FileId)
    requires LockedOk(s, f) && KeysOk(s) && |s.progress| == |s.grants| && Granted(s, t, g) && f != g.file
    ensures f in t.server.locked && LockOk(t, f)
  {
    var old_ := s.grants[s.holder[f]];
    forall e | 0 <= e < |old_.items| ensures Held(t, old_.items[e].key, Origin(s.holder[f], e)) {
      var k := old_.items[e].key;
      assert Held(s, k, Origin(s.holder[f], e));
      assert KeyOk(s, k);
      assert Taken(s.server, k);
      assert KeptRow(s, t, k);
    }
  }

  ghost predicate LockedOk(s: System, f: FileId) {
    f in s.server.locked && LockOk(s, f)
  }

  lemma {:induction false} AllocatedNone(grants: seq<Grant>, n: nat, f: FileId)
    requires n <= |grants| && forall i :: 0 <= i < |grants| ==> grants[i].file != f
    ensures Allocated(grants, n, f) == 0
  {
    if n > 0 {
      AllocatedNone(grants, n - 1, f);
    }
  }

  lemma AllocatedOneMore(grants: seq<Grant>, g: Grant, f: FileId)
    ensures Allocated(grants + [g], |grants| + 1, f)
         == Allocated(grants, |grants|, f) + if g.file == f then |Payload(g.items)| else 0
  {
    AllocatedFrame(grants, grants + [g], |grants|, f);
  }

  lemma EarlierGrantsKept(grants: seq<Grant>, g: Grant, i: nat)
    requires i < |grants|
    ensures GrantAt(grants + [g], i) <==> GrantAt(grants, i)
    ensures FirstOnFile(grants + [g], i) <==> FirstOnFile(grants, i)
  {
    var more := grants + [g];
    AllocatedFrame(grants, more, i, grants[i].file);
    assert forall j :: 0 <= j <= i ==> more[j] == grants[j];
  }

  /** The new range starts where the file's ranges end, and the file is created by its first grant. */
  lemma NewGrantOk(v: Server, grants: seq<Grant>, g: Grant)
    requires PoolOk(v) && GrantsOk(v.pool, grants) && CanPick(v, g.file)
    requires g.offset == (if g.file in v.pool then v.pool[g.file] else 0) && (g.creates <==> |v.pool| != v.maxFiles)
    ensures GrantAt(grants + [g], |grants|) && (g.creates <==> FirstOnFile(grants + [g], |grants|))
  {
    var more := grants + [g];
    AllocatedFrame(grants, more, |grants|, g.file);
    assert forall j :: 0 <= j < |grants| ==> more[j] == grants[j];
    if g.file in v.pool {
      assert OnFile(grants, g.file);
    } else {
      AllocatedNone(grants, |grants|, g.file);
    }
  }

  lemma GrantKeepsPlaced(pool: map<FileId, nat>, grants: seq<Grant>, g: Grant, size: nat)
    requires Placed(pool, grants)
    requires GrantAt(grants + [g], |grants|) && (g.creates <==> FirstOnFile(grants + [g], |grants|))
    ensures Placed(pool[g.file := size], grants + [g])
  {
    hide GrantAt, FirstOnFile;
    forall i: nat | i < |grants|
      ensures GrantAt(grants + [g], i) && (grants[i].creates <==> FirstOnFile(grants + [g], i))
    {
      EarlierGrantsKept(grants, g, i);
    }
  }

  lemma GrantKeepsSized(v: Server, grants: seq<Grant>, g: Grant)
    requires GrantsOk(v.pool, grants) && g.offset == if g.file in v.pool then v.pool[g.file] else 0
    ensures Sized(v.pool[g.file := g.offset + |Payload(g.items)|], grants + [g])
  {
    var more, pool := grants + [g], v.pool[g.file := g.offset + |Payload(g.items)|];
    forall f | f in pool ensures pool[f] == Allocated(more, |more|, f) && OnFile(more, f) {
      AllocatedOneMore(grants, g, f);
      NewFileCovered(v, grants, g, f);
    }
  }

  lemma GrantKeepsGrants(v: Server, grants: seq<Grant>, g: Grant)
    requires PoolOk(v) && GrantsOk(v.pool, grants) && CanPick(v, g.file)
    requires g.offset == (if g.file in v.pool then v.pool[g.file] else 0) && (g.creates <==> |v.pool| != v.maxFiles)
    requires forall i :: 0 <= i < |grants| ==> grants[i].node != g.node
    ensures GrantsOk(v.pool[g.file := g.offset + |Payload(g.items)|], grants + [g])
  {
    hide Placed, Sized;
    NewGrantOk(v, grants, g);
    GrantKeepsPlaced(v.pool, grants, g, g.offset + |Payload(g.items)|);
    GrantKeepsSized(v, grants, g);
  }

  lemma NewFileCovered(v: Server, grants: seq<Grant>, g: Grant, f: FileId)
    requires GrantsOk(v.pool, grants) && (f in v.pool || f == g.file)
    requires g.offset == if g.file in v.pool then v.pool[g.file] else 0
    ensures OnFile(grants + [g], f)
    ensures f == g.file ==> g.offset == Allocated(grants, |grants|, f)
  {
    var more := grants + [g];
    assert more[|grants|] == g;
    if f in v.pool {
      var i :| 0 <= i < |grants| && grants[i].file == f;
      assert more[i].file == f;
    } else {
      AllocatedNone(grants, |grants|, f);
    }
  }

  /** A grant on a new file finds it not on disk yet. */
  lemma GrantKeepsDisk(disk: Disk, grants: seq<Grant>, progress: seq<Progress>, g: Grant)
    requires DiskOk(disk, grants, progress) && (g.creates ==> g.file !in disk)
    ensures DiskOk(disk, grants + [g], progress + [Progress(false, 0)])
  {
    var more := grants + [g];
    forall f | f in disk ensures OnFile(more, f) {
      var i :| 0 <= i < |grants| && grants[i].file == f;
      assert more[i].file == f;
    }
  }

  lemma NewFileNotOnDisk(s: System, f: FileId)
    requires Inv(s) && f !in s.server.pool
    ensures f !in s.disk
  {
  }

  lemma GrantKeepsPool(v: Server, entries: seq<Entry>, node: NodeId, pick: FileId)
    requires PoolOk(v) && CanPick(v, pick)
    ensures PoolOk(Create(v, entries, node, pick).0)
  {
  }

  /** A file that a request may pick is not locked, so that taking the lock never overwrites a live one. */
  lemma PickedIsUnlocked(v: Server, pick: FileId)
    requires PoolOk(v) && CanPick(v, pick)
    ensures pick !in v.locked && (pick in v.pool <==> |v.pool| == v.maxFiles)
  {
  }

  lemma GrantedKeeps(s: System, t: System, g: Grant)
    requires Inv(s) && Granted(s, t, g) && CanPick(s.server, g.file) && PoolOk(t.server)
    requires g.offset == if g.file in s.server.pool then s.server.pool[g.file] else 0
    requires g.creates <==> |s.server.pool| != s.server.maxFiles
    requires FreshNode(s, g.node) && g.file !in s.server.locked
    requires t.server.pool == s.server.pool[g.file := g.offset + |Payload(g.items)|]
    ensures Inv(t)
  {
    hide GrantsOk, DiskOk, KeysOk, LocksOk, PoolOk;
    PickedIsUnlocked(s.server, g.file);
    if g.creates {
      NewFileNotOnDisk(s, g.file);
    }
    GrantKeepsGrants(s.server, s.grants, g);
    GrantKeepsDisk(s.disk, s.grants, s.progress, g);
    SameLength(s);
    GrantKeepsKeys(s, t, g);
    GrantKeepsLocks(s, t, g);
  }

  lemma SameLength(s: System)
    requires Inv(s)
    ensures |s.progress| == |s.grants|
  {
  }

  lemma RequestKeeps(s: System, items: seq<Item>, node: NodeId, pick: FileId)
    requires Inv(s) && Enabled(s, Request(items, node, pick))
    ensures Inv(AfterRequest(s, items, node, pick))
  {
    hide GrantsOk, DiskOk, KeysOk, LocksOk, PoolOk, CanPick, Granted;
    var (v, reply) := Create(s.server, EntriesOf(items), node, pick);
    if reply.Ok? {
      RequestGrants(s, items, node, pick);
      GrantKeepsPool(s.server, EntriesOf(items), node, pick);
      PickedIsUnlocked(s.server, pick);
      DataSize(items, |items|);
      GrantedKeeps(s, AfterRequest(s, items, node, pick),
                   Grant(node, items, pick, reply.value.offset, reply.value.needsCreation));
    }
  }

  // ---------- Runs ----------

  lemma OpenStepKeeps(s: System, i: nat)
    requires Inv(s) && Enabled(s, Open(i))
    ensures Inv(AfterOpen(s, i))
  {
    hide Inv, DiskOk;
    SameLength(s);
    OpenKeepsDisk(s, i);
    ProgressKeeps(s, AfterOpen(s, i));
  }

  lemma AllPlaced(s: System)
    requires Inv(s)
    ensures DiskOk(s.disk, s.grants, s.progress) && forall j: nat :: j < |s.grants| ==> GrantAt(s.grants, j)
  {
  }

  lemma WriteStepKeeps(s: System, i: nat, n: nat)
    requires Inv(s) && Enabled(s, Write(i, n))
    ensures Inv(AfterWrite(s, i, n))
  {
    hide Inv, DiskOk, WriteAt;
    AllPlaced(s);
    var g, done := s.grants[i], s.progress[i].done;
    WriteKeepsDisk(s.disk, s.grants, s.progress, i, g.offset + done, Payload(g.items)[done..done + n]);
    ProgressKeeps(s, AfterWrite(s, i, n));
  }

  lemma ExpiryKeeps(s: System, file: FileId)
    requires Inv(s)
    ensures Inv(s.(server := Expire(s.server, file)))
  {
    hide GrantsOk, DiskOk, KeysOk, LocksOk;
    FewerLocks(s, Expire(s.server, file));
  }

  lemma BootKeeps(s: System, maxFiles: nat)
    requires Inv(s)
    ensures Inv(s.(server := Restart(s.server, maxFiles)))
  {
    hide GrantsOk, DiskOk, KeysOk, LocksOk;
    FewerLocks(s, Restart(s.server, maxFiles));
  }

  /** Every step of every client, and everything that happens to the server, keeps the invariant. */
  lemma StepKeeps(s: System, step: Step)
    requires Inv(s) && Enabled(s, step)
    ensures Inv(After(s, step)) && !Panics(s, step)
  {
    hide Inv;
    NoPanic(s, step);
    match step {
      case Request(items, node, pick) => RequestKeeps(s, items, node, pick);
      case Open(i) => OpenStepKeeps(s, i);
      case Write(i, n) => WriteStepKeeps(s, i, n);
      case Finish(i) => FinishKeeps(s, i);
      case ForeignUnlock(file, node) =>
        ForeignUnlockFails(s, file, node);
        WrongUnlockKeeps(s, file, node);
      case Expiry(file) => ExpiryKeeps(s, file);
      case Boot(maxFiles) => BootKeeps(s, maxFiles);
    }
  }

  /** A node that was granted nothing holds no lock. */
  lemma ForeignUnlockFails(s: System, file: FileId, node: NodeId)
    requires Inv(s) && FreshNode(s, node)
    ensures Unlock(s.server, file, node).1.Err?
  {
    if file in s.server.locked {
      assert LockOk(s, file);
    }
  }

  /** `steps` may be taken from `s`, one after another. */
  predicate Possible(s: System, steps: seq<Step>)
    decreases |steps|
  {
    steps == [] || (Enabled(s, steps[0]) && Possible(After(s, steps[0]), steps[1..]))
  }

  function Reached(s: System, steps: seq<Step>): System
    requires Possible(s, steps)
    decreases |steps|
  {
    if steps == [] then s else Reached(After(s, steps[0]), steps[1..])
  }

  lemma {:induction false} RunKeeps(s: System, steps: seq<Step>)
    requires Inv(s) && Possible(s, steps)
    ensures Inv(Reached(s, steps))
    decreases |steps|
  {
    if steps != [] {
      StepKeeps(s, steps[0]);
      RunKeeps(After(s, steps[0]), steps[1..]);
    }
  }

  lemma StartOk(maxFiles: nat)
    ensures Inv(Start(maxFiles))
  {
  }

  // ---------- Read after write ----------

  /** Whatever a lookup answers can be read, and reads as the bytes that were stored under the key. */
  lemma LookupReads(s: System, k: Key)
    requires Inv(s) && Lookup(s.server, k).Ok?
    ensures k in s.owner && s.owner[k].grant < |s.grants| && s.owner[k].entry < |s.grants[s.owner[k].grant].items|
    ensures var item := s.grants[s.owner[k].grant].items[s.owner[k].entry];
      item.key == k && ReadSlice(s.disk, Lookup(s.server, k).value) == Some(item.bytes)
  {
    hide GrantsOk, LocksOk, PoolOk;
    assert KeyOk(s, k);
    var i, e := s.owner[k].grant, s.owner[k].entry;
    var g := s.grants[i];
    DataAt(g.items, |g.items|, e);
    ReadsItem(s.disk[g.file], g, e);
  }

  lemma ReadsItem(bytes: Bytes, g: Grant, e: nat)
    requires RangeHolds(bytes, g, |Payload(g.items)|) && e < |g.items|
    ensures var slice := SliceOf(EntriesOf(g.items), g.file, g.offset, e);
      ReadSlice(map[g.file := bytes], slice) == Some(g.items[e].bytes)
  {
    DataAt(g.items, |g.items|, e);
    var lo, n := SizeOf(EntriesOf(g.items), e), |g.items[e].bytes|;
    if n > 0 {
      var at, payload := g.offset + lo, Payload(g.items);
      var read, stored := bytes[at..at + n], payload[lo..lo + n];
      forall b | 0 <= b < n ensures read[b] == stored[b] {
        assert payload[lo + b] == bytes[g.offset + (lo + b)];
      }
      assert read == stored;
    }
  }

  /** A written key is not granted again: its row and its origin stay. */
  lemma RequestKeepsWritten(s: System, items: seq<Item>, node: NodeId, pick: FileId, k: Key)
    requires CanPick(s.server, pick) && k in s.server.keys && s.server.keys[k].written
    ensures KeptRow(s, AfterRequest(s, items, node, pick), k)
  {
    hide CanPick;
    if Create(s.server, EntriesOf(items), node, pick).1.Ok? {
      RequestGrants(s, items, node, pick);
    }
  }

  lemma FinishKeepsWritten(s: System, i: nat, k: Key)
    requires i < |s.grants| && k in s.server.keys && s.server.keys[k].written
    ensures var v := Unlock(s.server, s.grants[i].file, s.grants[i].node).0;
      k in v.keys && v.keys[k].written && v.keys[k].slice == s.server.keys[k].slice
  {
    var file := s.grants[i].file;
    if file in s.server.locked {
      var ks := s.server.locked[file].keys;
      MarkedIs(s.server.keys, ks, |ks|, k);
    }
  }

  /** The key reads the same in `t` as in `s`, from the same grant. */
  ghost predicate StillWritten(s: System, t: System, k: Key) {
    && Lookup(s.server, k).Ok? && Lookup(t.server, k) == Lookup(s.server, k)
    && k in s.owner && k in t.owner && t.owner[k] == s.owner[k]
    && s.grants <= t.grants
  }

  lemma ClientKeepsWritten(s: System, step: Step, k: Key)
    requires Enabled(s, step) && (step.Open? || step.Write? || step.Finish? || step.Expiry? || step.Boot?)
    requires StillWritten(s, s, k)
    ensures StillWritten(s, After(s, step), k)
  {
    if step.Finish? {
      FinishKeepsWritten(s, step.grant, k);
    }
  }

  /** Grants are never taken back, and a written key keeps its slice and its origin, whatever happens. */
  lemma StepKeepsWritten(s: System, step: Step, k: Key)
    requires Inv(s) && Enabled(s, step) && Lookup(s.server, k).Ok?
    ensures StillWritten(s, After(s, step), k)
  {
    hide Inv, CanPick;
    LookupReads(s, k);
    match step {
      case Request(items, node, pick) => RequestKeepsWritten(s, items, node, pick, k);
      case ForeignUnlock(file, node) => ForeignUnlockFails(s, file, node);
      case _ => ClientKeepsWritten(s, step, k);
    }
  }

  /** The key belongs to an item of some grant. */
  predicate Owned(s: System, k: Key) {
    && k in s.owner && s.owner[k].grant < |s.grants|
    && s.owner[k].entry < |s.grants[s.owner[k].grant].items|
    && s.grants[s.owner[k].grant].items[s.owner[k].entry].key == k
  }

  /** What its owner stored under the key. */
  function StoredBytes(s: System, k: Key): Bytes
    requires Owned(s, k)
  {
    s.grants[s.owner[k].grant].items[s.owner[k].entry].bytes
  }

  predicate KeyReadsAs(s: System, k: Key, slice: Slice, bytes: Bytes) {
    Lookup(s.server, k) == Ok(slice) && ReadSlice(s.disk, slice) == Some(bytes)
  }

  /** Once a key is written, every later lookup returns the same slice, and reading it always yields the bytes that
      were stored under that key, whatever the other clients, expiries, new requests and restarts do. */
  lemma {:induction false} ReadAfterWrite(s: System, steps: seq<Step>, k: Key)
    requires Inv(s) && Possible(s, steps) && Lookup(s.server, k).Ok?
    ensures Owned(s, k) && KeyReadsAs(s, k, Lookup(s.server, k).value, StoredBytes(s, k))
    ensures KeyReadsAs(Reached(s, steps), k, Lookup(s.server, k).value, StoredBytes(s, k))
    decreases |steps|
  {
    hide Inv, Lookup, ReadSlice, Enabled, After;
    LookupReads(s, k);
    if steps != [] {
      StepKeeps(s, steps[0]);
      StepKeepsWritten(s, steps[0], k);
      ReadAfterWrite(After(s, steps[0]), steps[1..], k);
    }
  }

  /** A client whose unlock succeeds has published all its items: they can be looked up, and read as stored, in every
      later state. */
  lemma StoredForever(s: System, i: nat, e: nat, steps: seq<Step>)
    requires Inv(s) && Enabled(s, Finish(i)) && Unlock(s.server, s.grants[i].file, s.grants[i].node).1.Ok?
    requires e < |s.grants[i].items| && s.grants[i].items[e].key != FILE_POOL
    requires Possible(After(s, Finish(i)), steps)
    ensures var item, t := s.grants[i].items[e], Reached(After(s, Finish(i)), steps);
      Lookup(t.server, item.key).Ok? && ReadSlice(t.disk, Lookup(t.server, item.key).value) == Some(item.bytes)
  {
    hide Inv, ReadSlice, After, Enabled, Lookup, Unlock;
    OnlyServerChanges(s, i);
    var t, k := After(s, Finish(i)), s.grants[i].items[e].key;
    StepKeeps(s, Finish(i));
    UnlockPublishes(s, i, e);
    ReadAfterWrite(t, steps, k);
  }

  lemma OnlyServerChanges(s: System, i: nat)
    requires Enabled(s, Finish(i))
    ensures i < |s.grants|
    ensures After(s, Finish(i)) == s.(server := Unlock(s.server, s.grants[i].file, s.grants[i].node).0)
  {
  }

  /** Only a client that still owns all its keys can unlock, and doing so publishes them. */
  lemma UnlockPublishes(s: System, i: nat, e: nat)
    requires Inv(s) && i < |s.grants| && e < |s.grants[i].items| && s.grants[i].items[e].key != FILE_POOL
    requires Unlock(s.server, s.grants[i].file, s.grants[i].node).1.Ok?
    ensures var k, v := s.grants[i].items[e].key, Unlock(s.server, s.grants[i].file, s.grants[i].node).0;
      Lookup(v, k).Ok? && k in s.owner && s.owner[k] == Origin(i, e)
  {
    hide GrantsOk, DiskOk, KeysOk, PoolOk;
    UnlockerHolds(s, i);
    MarkedPublishes(s, i);
    assert LockOk(s, s.grants[i].file);
    assert Held(s, s.grants[i].items[e].key, Origin(i, e));
    assert HasItem(s.grants[i].items, s.grants[i].items[e].key);
  }

  // ---------- Allocation and mutual exclusion ----------

  lemma {:induction false} SizeOfGrows(entries: seq<Entry>, d: nat, e: nat)
    requires d <= e <= |entries|
    ensures SizeOf(entries, d) <= SizeOf(entries, e)
  {
    if d < e {
      SizeOfGrows(entries, d, e - 1);
    }
  }

  predicate Disjoint(a: Slice, b: Slice) {
    a.file != b.file || a.offset + a.len <= b.offset || b.offset + b.len <= a.offset
  }

  function GrantSlice(g: Grant, e: nat): Slice
    requires e < |g.items|
  {
    SliceOf(EntriesOf(g.items), g.file, g.offset, e)
  }

  lemma SliceInRange(g: Grant, e: nat)
    requires e < |g.items|
    ensures g.offset <= GrantSlice(g, e).offset
    ensures GrantSlice(g, e).offset + GrantSlice(g, e).len <= g.offset + |Payload(g.items)|
  {
    DataAt(g.items, |g.items|, e);
  }

  /** No two slices ever handed out overlap, whether or not their keys were published. */
  lemma SlicesDisjoint(s: System, i: nat, d: nat, j: nat, e: nat)
    requires Inv(s) && i < |s.grants| && j < |s.grants| && d < |s.grants[i].items| && e < |s.grants[j].items|
    requires i < j || (i == j && d < e)
    ensures Disjoint(GrantSlice(s.grants[i], d), GrantSlice(s.grants[j], e))
  {
    hide DiskOk, KeysOk, LocksOk, PoolOk;
    SliceInRange(s.grants[i], d);
    SliceInRange(s.grants[j], e);
    if i == j {
      SizeOfGrows(EntriesOf(s.grants[i].items), d + 1, e);
    } else if s.grants[i].file == s.grants[j].file {
      Ordered(s.grants, i, j);
    }
  }

  /** Live locks are on disjoint sets of keys. */
  lemma LocksDisjoint(s: System, f: FileId, g: FileId, a: nat, b: nat)
    requires Inv(s) && f in s.server.locked && g in s.server.locked && f != g
    requires a < |s.server.locked[f].keys| && b < |s.server.locked[g].keys|
    ensures s.server.locked[f].keys[a] != s.server.locked[g].keys[b]
  {
    hide GrantsOk, DiskOk, KeysOk, PoolOk;
    assert LockOk(s, f) && LockOk(s, g);
    assert Held(s, s.server.locked[f].keys[a], Origin(s.holder[f], a));
    assert Held(s, s.server.locked[g].keys[b], Origin(s.holder[g], b));
  }

  /** `create_unlock` finds a row for every key of the lock, and `keep_alive_lock` finds the file's cleaner. */
  lemma LockedRowsExist(s: System, f: FileId, a: nat)
    requires Inv(s) && f in s.server.locked && a < |s.server.locked[f].keys|
    ensures s.server.locked[f].keys[a] in s.server.keys && !s.server.keys[s.server.locked[f].keys[a]].written
    ensures f in s.server.cleaners && f in s.server.pool
  {
    assert LockOk(s, f);
    assert Held(s, s.server.locked[f].keys[a], Origin(s.holder[f], a));
  }

  // ---------- In every run ----------

  /** No two slices ever handed out overlap. */
  ghost predicate SlicesApart(grants: seq<Grant>) {
    forall i: nat, d: nat, j: nat, e: nat ::
      i < |grants| && j < |grants| && d < |grants[i].items| && e < |grants[j].items| && (i < j || (i == j && d < e))
      ==> Disjoint(GrantSlice(grants[i], d), GrantSlice(grants[j], e))
  }

  /** Each file was given to exactly one client to create. */
  ghost predicate CreatedOnce(pool: map<FileId, nat>, grants: seq<Grant>) {
    forall f :: f in pool ==>
      exists i: nat :: CreatorOf(grants, f, i) && forall j: nat :: CreatorOf(grants, f, j) ==> j == i
  }

  predicate CreatorOf(grants: seq<Grant>, f: FileId, i: nat) {
    i < |grants| && grants[i].file == f && grants[i].creates
  }

  ghost predicate LocksApart(v: Server) {
    forall f, g, a: nat, b: nat ::
      f in v.locked && g in v.locked && f != g && a < |v.locked[f].keys| && b < |v.locked[g].keys|
      ==> v.locked[f].keys[a] != v.locked[g].keys[b]
  }

  /** Locked keys have rows that are not written, and locked files have cleaners. */
  ghost predicate LocksBacked(v: Server) {
    && v.locked.Keys <= v.cleaners && v.locked.Keys <= v.pool.Keys
    && forall f, a :: f in v.locked && 0 <= a < |v.locked[f].keys| ==>
      v.locked[f].keys[a] in v.keys && !v.keys[v.locked[f].keys[a]].written
  }

  ghost predicate Safe(s: System) {
    && |s.server.pool| <= s.server.maxFiles
    && (forall f :: f in s.server.pool ==> s.server.pool[f] == Allocated(s.grants, |s.grants|, f))
    && SlicesApart(s.grants) && CreatedOnce(s.server.pool, s.grants)
    && LocksApart(s.server) && LocksBacked(s.server)
  }

  lemma InvApart(s: System)
    requires Inv(s)
    ensures SlicesApart(s.grants)
  {
    forall i: nat, d: nat, j: nat, e: nat |
      i < |s.grants| && j < |s.grants| && d < |s.grants[i].items| && e < |s.grants[j].items|
      && (i < j || (i == j && d < e))
      ensures Disjoint(GrantSlice(s.grants[i], d), GrantSlice(s.grants[j], e))
    {
      hide Inv, Disjoint, GrantSlice;
      SlicesDisjoint(s, i, d, j, e);
    }
  }

  /** The first grant on a file is the one that creates it. */
  lemma {:induction false} FirstExists(grants: seq<Grant>, i: nat) returns (first: nat)
    requires i < |grants|
    ensures first < |grants| && grants[first].file == grants[i].file && FirstOnFile(grants, first)
  {
    if FirstOnFile(grants, i) {
      first := i;
    } else {
      var j :| 0 <= j < i && grants[j].file == grants[i].file;
      first := FirstExists(grants, j);
    }
  }

  lemma OneFirst(pool: map<FileId, nat>, grants: seq<Grant>, f: FileId)
    requires Placed(pool, grants) && OnFile(grants, f)
    ensures exists i: nat :: CreatorOf(grants, f, i) && forall j: nat :: CreatorOf(grants, f, j) ==> j == i
  {
    hide GrantAt;
    var g :| 0 <= g < |grants| && grants[g].file == f;
    var first := FirstExists(grants, g);
    assert CreatorOf(grants, f, first);
    forall j: nat | CreatorOf(grants, f, j) ensures j == first {
      assert FirstOnFile(grants, j);
    }
  }

  lemma InvLocks(s: System)
    requires Inv(s)
    ensures LocksApart(s.server) && LocksBacked(s.server)
  {
    hide Inv;
    forall f, g, a: nat, b: nat |
      f in s.server.locked && g in s.server.locked && f != g
      && a < |s.server.locked[f].keys| && b < |s.server.locked[g].keys|
      ensures s.server.locked[f].keys[a] != s.server.locked[g].keys[b]
    {
      LocksDisjoint(s, f, g, a, b);
    }
    forall f, a: nat | f in s.server.locked && a < |s.server.locked[f].keys|
      ensures s.server.locked[f].keys[a] in s.server.keys && !s.server.keys[s.server.locked[f].keys[a]].written
    {
      LockedRowsExist(s, f, a);
    }
    LockedFiles(s);
  }

  lemma LockedFiles(s: System)
    requires Inv(s)
    ensures s.server.locked.Keys <= s.server.cleaners && s.server.locked.Keys <= s.server.pool.Keys
  {
    hide GrantsOk, DiskOk, KeysOk, LocksOk;
  }

  lemma InvSafe(s: System)
    requires Inv(s)
    ensures Safe(s)
  {
    hide DiskOk, KeysOk, LocksOk, SlicesApart, LocksApart, LocksBacked, OnFile, Placed;
    InvApart(s);
    InvLocks(s);
    forall f | f in s.server.pool
      ensures exists i: nat :: CreatorOf(s.grants, f, i) && forall j: nat :: CreatorOf(s.grants, f, j) ==> j == i
    {
      OneFirst(s.server.pool, s.grants, f);
    }
  }

  /** In every state that a run reaches from the empty system: slices are disjoint and sum to the sizes of their
      files, the pool is within its limit, each file has one creator, and live locks are on disjoint sets of unwritten
      keys. */
  lemma EveryRunSafe(maxFiles: nat, steps: seq<Step>)
    ensures Possible(Start(maxFiles), steps) ==> Safe(Reached(Start(maxFiles), steps))
  {
    hide Safe, Inv, Enabled, After;
    if Possible(Start(maxFiles), steps) {
      StartOk(maxFiles);
      RunKeeps(Start(maxFiles), steps);
      InvSafe(Reached(Start(maxFiles), steps));
    }
  }

  /** A key that is looked up in `s` is looked up in `t` with the same result, and reads as it was stored. */
  ghost predicate ReadsTheSame(s: System, t: System, k: Key) {
    match Lookup(s.server, k)
    case Err(_) => true
    case Ok(slice) =>
      Owned(s, k) && KeyReadsAs(s, k, slice, StoredBytes(s, k)) && KeyReadsAs(t, k, slice, StoredBytes(s, k))
  }

  /** In every run: a key that could once be looked up is looked up the same for ever, from the same grant. */
  lemma EveryRunReads(maxFiles: nat, before: seq<Step>, later: seq<Step>, k: Key)
    requires Possible(Start(maxFiles), before) && Possible(Reached(Start(maxFiles), before), later)
    ensures ReadsTheSame(Reached(Start(maxFiles), before), Reached(Reached(Start(maxFiles), before), later), k)
  {
    hide Inv, Enabled, After, Lookup, ReadSlice;
    var s := Reached(Start(maxFiles), before);
    StartOk(maxFiles);
    RunKeeps(Start(maxFiles), before);
    if Lookup(s.server, k).Ok? {
      ReadAfterWrite(s, later, k);
    }
  }

  /** In every run: a client whose unlock succeeds has stored all its items for ever. */
  lemma EveryRunStores(maxFiles: nat, before: seq<Step>, i: nat, e: nat, later: seq<Step>)
    requires Possible(Start(maxFiles), before) && Enabled(Reached(Start(maxFiles), before), Finish(i))
    requires Possible(After(Reached(Start(maxFiles), before), Finish(i)), later)
    ensures StaysStored(Reached(Start(maxFiles), before), i, e,
                        Reached(After(Reached(Start(maxFiles), before), Finish(i)), later))
  {
    hide Inv, After, Lookup, ReadSlice, Unlock;
    StartOk(maxFiles);
    RunKeeps(Start(maxFiles), before);
    var s := Reached(Start(maxFiles), before);
    if Unlocks(s, i) && e < |s.grants[i].items| && s.grants[i].items[e].key != FILE_POOL {
      StoredForever(s, i, e, later);
    }
  }

  predicate Unlocks(s: System, i: nat)
    requires i < |s.grants|
  {
    Unlock(s.server, s.grants[i].file, s.grants[i].node).1.Ok?
  }

  /** If the grant can be unlocked in `s`, its item reads as stored in `t`. */
  predicate StaysStored(s: System, i: nat, e: nat, t: System)
    requires i < |s.grants|
  {
    Unlocks(s, i) && e < |s.grants[i].items| && s.grants[i].items[e].key != FILE_POOL ==>
      && Lookup(t.server, s.grants[i].items[e].key).Ok?
      && ReadSlice(t.disk, Lookup(t.server, s.grants[i].items[e].key).value) == Some(s.grants[i].items[e].bytes)
  }
}
