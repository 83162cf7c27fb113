/** The blob index server's requests as functions of its state (blob_idx_server/src/blob.rs). */
module BlobModel {
  import opened Optional

  newtype Byte = x: int | 0 <= x < 256
  type Bytes = seq<Byte>
  type Key = string
  type NodeId = string
  type FileId = nat

  /** Where a blob lies. The file name is a function of the file id. */
  datatype Slice = Slice(file: FileId, offset: nat, len: nat)
  datatype Wrapper = Wrapper(slice: Slice, written: bool, lock: Option<NodeId>)
  datatype FileLock = FileLock(node: NodeId, keys: seq<Key>)
  datatype Entry = Entry(key: Key, num: nat)
  datatype BlobOffset = BlobOffset(file: FileId, offset: nat, needsCreation: bool)

  datatype BlobError =
    | AlreadyExists | DuplicateKeys | CreateNotLocked | WrongNode | DoesNotExist | NotWritten | ProhibitedKey

  datatype Result<+T> = Ok(value: T) | Err(error: BlobError)

  /** The name under which Redis keeps the file pool; not usable as a key. */
  const FILE_POOL: Key := "__file_pool__"

  /** `keys` is what a lookup finds, in memory or in Redis; `pool` maps each file to its allocated size. */
  datatype Server = Server(maxFiles: nat, keys: map<Key, Wrapper>, pool: map<FileId, nat>,
                           locked: map<FileId, FileLock>, cleaners: set<FileId>)

  function KeysOf(entries: seq<Entry>): (r: seq<Key>)
    ensures |r| == |entries|
    ensures forall e :: 0 <= e < |entries| ==> r[e] == entries[e].key
  {
    seq(|entries|, i requires 0 <= i < |entries| => entries[i].key)
  }

  predicate UniqueKeys(entries: seq<Entry>) {
    forall i, j :: 0 <= i < j < |entries| ==> entries[i].key != entries[j].key
  }

  /** One of the first `n` entries has the key. */
  predicate HasKey(entries: seq<Entry>, n: nat, k: Key)
    requires n <= |entries|
  {
    exists e :: 0 <= e < n && entries[e].key == k
  }

  /** Bytes needed by the first `n` entries. */
  function SizeOf(entries: seq<Entry>, n: nat): nat
    requires n <= |entries|
  {
    if n == 0 then 0 else SizeOf(entries, n - 1) + entries[n - 1].num
  }

  /** A key that may not be created again: it is written, or its file is being written. */
  predicate Taken(s: Server, k: Key) {
    k in s.keys && (s.keys[k].written || s.keys[k].slice.file in s.locked)
  }

  predicate AnyTaken(s: Server, entries: seq<Entry>) {
    exists e :: 0 <= e < |entries| && Taken(s, entries[e].key)
  }

  /** The table once the first `n` entries have their slices. */
  function WithSlices(keys: map<Key, Wrapper>, entries: seq<Entry>, file: FileId, offset: nat, node: NodeId, n: nat)
    : map<Key, Wrapper>
    requires n <= |entries|
  {
    if n == 0 then keys else
      WithSlices(keys, entries, file, offset, node, n - 1)
        [entries[n - 1].key :=
           Wrapper(Slice(file, offset + SizeOf(entries, n - 1), entries[n - 1].num), false, Some(node))]
  }

  /** A file that a create may use: a new one below the limit, else any file that is not locked.
      When all are locked the request waits, so that it is served in a later state. */
  predicate CanPick(s: Server, pick: FileId) {
    if |s.pool| != s.maxFiles then pick == |s.pool| else pick in s.pool && pick !in s.locked
  }

  /** `create_and_lock`, when the file it gets is `pick`. */
  function Create(s: Server, entries: seq<Entry>, node: NodeId, pick: FileId): (Server, Result<BlobOffset>) {
    if AnyTaken(s, entries) then (s, Err(AlreadyExists))
    else if !UniqueKeys(entries) then (s, Err(DuplicateKeys))
    else
      var offset := if pick in s.pool then s.pool[pick] else 0;
      (Server(s.maxFiles,
              WithSlices(s.keys, entries, pick, offset, node, |entries|),
              s.pool[pick := offset + SizeOf(entries, |entries|)],
              s.locked[pick := FileLock(node, KeysOf(entries))],
              s.cleaners + {pick}),
       Ok(BlobOffset(pick, offset, |s.pool| != s.maxFiles)))
  }

  /** The table once the first `n` keys are marked as written. */
  function Marked(keys: map<Key, Wrapper>, ks: seq<Key>, n: nat): map<Key, Wrapper>
    requires n <= |ks|
  {
    if n == 0 then keys else
      var older := Marked(keys, ks, n - 1);
      if ks[n - 1] in older then older[ks[n - 1] := older[ks[n - 1]].(written := true, lock := None)] else older
  }

  /** `create_unlock`. The lock is dropped before the node is compared. */
  function Unlock(s: Server, file: FileId, node: NodeId): (Server, Result<()>) {
    if file !in s.locked then (s, Err(CreateNotLocked)) else
      var lock, dropped := s.locked[file], s.(locked := s.locked - {file});
      if lock.node != node then (dropped, Err(WrongNode))
      else (dropped.(keys := Marked(s.keys, lock.keys, |lock.keys|), cleaners := s.cleaners - {file}), Ok(()))
  }

  /** The cleaner of a file fires; it removes whatever lock the file has. */
  function Expire(s: Server, file: FileId): Server {
    s.(locked := s.locked - {file})
  }

  function KeepAlive(s: Server, file: FileId): Result<()> {
    if file in s.locked then Ok(()) else Err(CreateNotLocked)
  }

  function Lookup(s: Server, k: Key): Result<Slice> {
    if k == FILE_POOL then Err(ProhibitedKey)
    else if k !in s.keys then Err(DoesNotExist)
    else if !s.keys[k].written then Err(NotWritten)
    else Ok(s.keys[k].slice)
  }

  /** What Redis keeps: everything but the locks. */
  function Stored(keys: map<Key, Wrapper>): map<Key, Wrapper> {
    map k | k in keys :: keys[k].(lock := None)
  }

  /** `init` from what Redis has, with the configured limit raised to the number of files. */
  function Restart(s: Server, maxFiles: nat): Server {
    Server(if |s.pool| <= maxFiles then maxFiles else |s.pool|, Stored(s.keys), s.pool, map[], {})
  }

  // ---------- Facts about the tables ----------

  function SliceOf(entries: seq<Entry>, file: FileId, offset: nat, e: nat): Slice
    requires e < |entries|
  {
    Slice(file, offset + SizeOf(entries, e), entries[e].num)
  }

  /** Keys outside the request keep their rows. */
  lemma {:induction false} WithSlicesFrame(keys: map<Key, Wrapper>, entries: seq<Entry>, file: FileId, offset: nat,
                                           node: NodeId, n: nat, k: Key)
    requires n <= |entries| && !HasKey(entries, n, k)
    ensures var r := WithSlices(keys, entries, file, offset, node, n);
      (k in r <==> k in keys) && (k in keys ==> r[k] == keys[k])
  {
    if n > 0 {
      assert entries[n - 1].key != k;
      WithSlicesFrame(keys, entries, file, offset, node, n - 1, k);
    }
  }

  /** Each key of the request gets its own unwritten part of the granted range. */
  lemma {:induction false} WithSlicesAt(keys: map<Key, Wrapper>, entries: seq<Entry>, file: FileId, offset: nat,
                                        node: NodeId, n: nat, e: nat)
    requires e < n <= |entries| && UniqueKeys(entries)
    ensures var r := WithSlices(keys, entries, file, offset, node, n);
      entries[e].key in r && r[entries[e].key] == Wrapper(SliceOf(entries, file, offset, e), false, Some(node))
  {
    if e < n - 1 {
      assert entries[e].key != entries[n - 1].key;
      WithSlicesAt(keys, entries, file, offset, node, n - 1, e);
    }
  }

  predicate Among(ks: seq<Key>, n: nat, k: Key)
    requires n <= |ks|
  {
    exists i :: 0 <= i < n && ks[i] == k
  }

  /** Marking writes exactly the keys of the lock, and keeps every slice. */
  lemma {:induction false} MarkedIs(keys: map<Key, Wrapper>, ks: seq<Key>, n: nat, k: Key)
    requires n <= |ks|
    ensures var r := Marked(keys, ks, n);
      && (k in r <==> k in keys)
      && (k in keys ==> r[k] == if Among(ks, n, k) then keys[k].(written := true, lock := None) else keys[k])
  {
    if n > 0 {
      MarkedIs(keys, ks, n - 1, k);
      if Among(ks, n, k) {
        var i :| 0 <= i < n && ks[i] == k;
        assert i < n - 1 ==> Among(ks, n - 1, k);
      }
      if ks[n - 1] == k {
        assert Among(ks, n, k);
      }
    }
  }
}
