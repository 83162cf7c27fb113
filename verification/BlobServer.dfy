/** The index server as an object over memory and Redis, and the client's store and read
    (blob_idx_server/src/blob.rs, blob_idx_client/src/lib.rs). */
module BlobServer {
  import opened Optional
  import opened BlobModel
  import opened BlobSystem

  /** The rows of Redis, hidden by the rows in memory. */
  function Visible(redis: map<Key, Wrapper>, memory: map<Key, Wrapper>): map<Key, Wrapper> {
    redis + memory
  }

  /** What Redis has for a row. */
  function Persisted(w: Wrapper): Wrapper {
    w.(lock := None)
  }

  /** Memory caches Redis: a row in memory is in Redis, but for its lock. */
  ghost predicate Coherent(redis: map<Key, Wrapper>, memory: map<Key, Wrapper>) {
    && (forall k :: k in redis ==> redis[k].lock == None)
    && (forall k :: k in memory ==> k in redis && redis[k] == Persisted(memory[k]))
  }

  /** Writing `staged` to Redis makes it coherent with memory again. */
  ghost predicate Staged(redis: map<Key, Wrapper>, staged: map<Key, Wrapper>, memory: map<Key, Wrapper>) {
    && (forall k :: k in redis ==> redis[k].lock == None)
    && (forall k :: k in staged ==> k in memory && staged[k] == Persisted(memory[k]))
    && (forall k :: k in memory && k !in staged ==> k in redis && redis[k] == Persisted(memory[k]))
  }

  lemma StageNone(redis: map<Key, Wrapper>, memory: map<Key, Wrapper>)
    ensures Coherent(redis, memory) <==> Staged(redis, map[], memory)
  {
  }

  lemma StageOne(redis: map<Key, Wrapper>, staged: map<Key, Wrapper>, memory: map<Key, Wrapper>, k: Key, w: Wrapper)
    requires Staged(redis, staged, memory)
    ensures Staged(redis, staged[k := Persisted(w)], memory[k := w])
    ensures Visible(redis, memory[k := w]) == Visible(redis, memory)[k := w]
  {
  }

  lemma LoadOne(redis: map<Key, Wrapper>, staged: map<Key, Wrapper>, memory: map<Key, Wrapper>, k: Key)
    requires Staged(redis, staged, memory) && k in redis && k !in memory
    ensures Staged(redis, staged, memory[k := redis[k]])
    ensures Visible(redis, memory[k := redis[k]]) == Visible(redis, memory)
  {
  }

  lemma StageDone(redis: map<Key, Wrapper>, staged: map<Key, Wrapper>, memory: map<Key, Wrapper>)
    requires Staged(redis, staged, memory)
    ensures Coherent(redis + staged, memory)
    ensures Visible(redis + staged, memory) == Visible(redis, memory)
    ensures (redis + staged).Keys == redis.Keys + staged.Keys
  {
  }

  lemma VisibleAt(redis: map<Key, Wrapper>, memory: map<Key, Wrapper>, k: Key)
    requires k in memory
    ensures k in Visible(redis, memory) && Visible(redis, memory)[k] == memory[k]
  {
  }

  /** What can be seen of a row: it is that in memory, or else that in Redis, and loading it there changes nothing. */
  lemma RowShown(redis: map<Key, Wrapper>, memory: map<Key, Wrapper>, k: Key)
    requires Coherent(redis, memory)
    ensures k in Visible(redis, memory) <==> k in memory || k in redis
    ensures k in memory ==> Visible(redis, memory)[k] == memory[k]
    ensures k !in memory && k in redis ==> Visible(redis, memory)[k] == redis[k]
    ensures k !in memory && k in redis ==>
      Coherent(redis, memory[k := redis[k]]) && Visible(redis, memory[k := redis[k]]) == Visible(redis, memory)
  {
  }

  predicate KnownKeys(redis: map<Key, Wrapper>, keys: seq<Key>) {
    forall i :: 0 <= i < |keys| ==> keys[i] in redis && keys[i] != FILE_POOL
  }

  /** Every key of a lock has a row. */
  ghost predicate LocksKnown(redis: map<Key, Wrapper>, locks: map<FileId, FileLock>) {
    forall f :: f in locks ==> KnownKeys(redis, locks[f].keys)
  }

  lemma LocksKnownAfter(redis: map<Key, Wrapper>, locks: map<FileId, FileLock>,
                        entries: seq<Entry>, file: FileId, node: NodeId, after: map<Key, Wrapper>)
    requires LocksKnown(redis, locks) && redis.Keys <= after.Keys
    requires forall e :: 0 <= e < |entries| ==> entries[e].key in after && entries[e].key != FILE_POOL
    ensures LocksKnown(after, locks[file := FileLock(node, KeysOf(entries))])
  {
  }

  /** The set that the first `n` keys are collected into. */
  function KeySet(entries: seq<Entry>, n: nat): set<Key>
    requires n <= |entries|
  {
    if n == 0 then {} else KeySet(entries, n - 1) + {entries[n - 1].key}
  }

  lemma {:induction false} KeySetHas(entries: seq<Entry>, n: nat, k: Key)
    requires n <= |entries|
    ensures k in KeySet(entries, n) <==> HasKey(entries, n, k)
  {
    if n > 0 {
      KeySetHas(entries, n - 1, k);
      if HasKey(entries, n, k) {
        var e :| 0 <= e < n && entries[e].key == k;
        assert e < n - 1 ==> HasKey(entries, n - 1, k);
      }
      if entries[n - 1].key == k {
        assert HasKey(entries, n, k);
      }
    }
  }

  /** Keys are pairwise distinct just when their set is as large as their list. */
  lemma {:induction false} SetSizeUnique(entries: seq<Entry>, n: nat)
    requires n <= |entries|
    ensures |KeySet(entries, n)| <= n
    ensures |KeySet(entries, n)| == n <==> forall i, j :: 0 <= i < j < n ==> entries[i].key != entries[j].key
  {
    if n > 0 {
      SetSizeUnique(entries, n - 1);
      KeySetHas(entries, n - 1, entries[n - 1].key);
      if HasKey(entries, n - 1, entries[n - 1].key) {
        assert KeySet(entries, n) == KeySet(entries, n - 1);
      }
    }
  }

  /** Files are numbered from 0. */
  ghost predicate Numbered(pool: map<FileId, nat>) {
    forall f: FileId :: f in pool <==> f < |pool|
  }

  lemma PoolSize(pool: map<FileId, nat>, file: FileId, size: nat)
    ensures |pool[file := size]| == if file in pool then |pool| else |pool| + 1
  {
    assert pool[file := size].Keys == pool.Keys + {file};
    assert |pool[file := size].Keys| == |pool[file := size]| && |pool.Keys| == |pool|;
    if file in pool {
      assert pool.Keys + {file} == pool.Keys;
    }
  }

  /** A pool with a new file at its end, or with a file grown, is numbered from 0 as well. */
  lemma NumberedAfter(pool: map<FileId, nat>, file: FileId, size: nat)
    requires Numbered(pool) && (file in pool || file == |pool|)
    ensures Numbered(pool[file := size]) && |pool| !in pool
  {
    PoolSize(pool, file, size);
  }

  class BlobStorage {
    var maxFiles: nat
    var memory: map<Key, Wrapper>
    var filePool: map<FileId, nat>
    var lockedFiles: map<FileId, FileLock>
    var cleanupTasks: set<FileId>
    var redis: map<Key, Wrapper>
    var redisPool: map<FileId, nat>

    ghost predicate Valid()
      reads this
    {
      && Coherent(redis, memory)
      && redisPool == filePool
      && LocksKnown(redis, lockedFiles)
      && Numbered(filePool) && lockedFiles.Keys <= filePool.Keys && lockedFiles.Keys <= cleanupTasks
    }

    ghost function Abs(): Server
      reads this
    {
      Server(maxFiles, Visible(redis, memory), filePool, lockedFiles, cleanupTasks)
    }

    /** `init`: the pool is loaded from Redis, the rows when they are first asked for, and no file is locked. */
    constructor (config: nat, storedKeys: map<Key, Wrapper>, storedPool: map<FileId, nat>)
      requires Numbered(storedPool) && forall k :: k in storedKeys ==> storedKeys[k].lock == None
      ensures Valid() && redis == storedKeys && redisPool == storedPool
      ensures forall s: Server :: Stored(s.keys) == storedKeys && s.pool == storedPool ==> Abs() == Restart(s, config)
    {
      maxFiles := if |storedPool| > config then |storedPool| else config;
      memory, redis := map[], storedKeys;
      filePool, redisPool := storedPool, storedPool;
      lockedFiles, cleanupTasks := map[], {};
      new;
      assert Visible(redis, memory) == storedKeys;
    }

    /** `map_lookup`: what memory or else Redis has; a row found in Redis is loaded. */
    method MapLookup(key: Key) returns (r: Result<Wrapper>)
      requires Valid()
      modifies this`memory
      ensures Valid() && Abs() == old(Abs())
      ensures r == if key == FILE_POOL then Err(ProhibitedKey)
                   else if key in Abs().keys then Ok(Abs().keys[key]) else Err(DoesNotExist)
      ensures r.Ok? ==> key in memory
    {
      hide Numbered, LocksKnown, Coherent, Visible;
      RowShown(redis, memory, key);
      if key == FILE_POOL {
        return Err(ProhibitedKey);
      }
      if key in memory {
        return Ok(memory[key]);
      }
      if key in redis {
        memory := memory[key := redis[key]];
        return Ok(memory[key]);
      }
      r := Err(DoesNotExist);
    }

    /** `lookup`. */
    method LookupKey(key: Key) returns (r: Result<Slice>)
      requires Valid()
      modifies this`memory
      ensures Valid() && Abs() == old(Abs())
      ensures r == Lookup(Abs(), key)
    {
      var v := MapLookup(key);
      if v.Err? {
        return Err(v.error);
      }
      r := if !v.value.written then Err(NotWritten) else Ok(v.value.slice);
    }

    /** Picks a file: a new one below the limit, otherwise any that is not locked. */
    method PickFile() returns (file: FileId, needsCreation: bool)
      requires exists pick: FileId :: CanPick(Abs(), pick)
      modifies this`filePool
      ensures CanPick(old(Abs()), file) && (needsCreation <==> old(|filePool| != maxFiles))
      ensures filePool == if old(|filePool| != maxFiles) then old(filePool)[file := 0] else old(filePool)
    {
      if |filePool| != maxFiles {
        file, needsCreation := |filePool|, true;
        filePool := filePool[file := 0];
      } else {
        file :| file in filePool && file !in lockedFiles;
        needsCreation := false;
      }
    }

    /** The check that opens `create_and_lock`: is some key written, or its file locked? */
    method CheckKeys(entries: seq<Entry>) returns (taken: bool)
      requires Valid() && forall e :: 0 <= e < |entries| ==> entries[e].key != FILE_POOL
      modifies this`memory
      ensures Valid() && Abs() == old(Abs())
      ensures taken <==> AnyTaken(Abs(), entries)
    {
      hide Numbered, Coherent, Visible, LocksKnown;
      for i := 0 to |entries|
        invariant Valid() && Abs() == old(Abs())
        invariant forall e :: 0 <= e < i ==> !Taken(Abs(), entries[e].key)
      {
        var l := MapLookup(entries[i].key);
        if l.Ok? {
          if l.value.written {
            return true;
          }
          if l.value.slice.file in lockedFiles {
            return true;
          }
        }
      }
      taken := false;
    }

    /** The rows of a grant, in memory one by one and then in Redis all at once. */
    method InsertRows(entries: seq<Entry>, file: FileId, offset: nat, node: NodeId)
      requires Coherent(redis, memory)
      modifies this`memory, this`redis
      ensures Coherent(redis, memory)
      ensures Visible(redis, memory)
           == WithSlices(old(Visible(redis, memory)), entries, file, offset, node, |entries|)
      ensures old(redis).Keys <= redis.Keys && forall e :: 0 <= e < |entries| ==> entries[e].key in redis
    {
      hide Visible, Coherent, Staged;
      var at, toSetInRedis := offset, map[];
      StageNone(redis, memory);
      for i := 0 to |entries|
        invariant at == offset + SizeOf(entries, i)
        invariant Staged(redis, toSetInRedis, memory) && redis == old(redis)
        invariant Visible(redis, memory) == WithSlices(old(Visible(redis, memory)), entries, file, offset, node, i)
        invariant forall e :: 0 <= e < i ==> entries[e].key in toSetInRedis
      {
        var w := Wrapper(Slice(file, at, entries[i].num), false, Some(node));
        StageOne(redis, toSetInRedis, memory, entries[i].key, w);
        toSetInRedis := toSetInRedis[entries[i].key := Persisted(w)];
        memory := memory[entries[i].key := w];
        at := at + entries[i].num;
      }
      StageDone(redis, toSetInRedis, memory);
      redis := redis + toSetInRedis;
    }

    /** Reserves room for the entries at the end of the file. */
    method GrowFile(file: FileId, entries: seq<Entry>) returns (offset: nat)
      requires file in filePool
      modifies this`filePool
      ensures offset == old(filePool)[file] && filePool == old(filePool)[file := offset + SizeOf(entries, |entries|)]
    {
      offset := filePool[file];
      for i := 0 to |entries|
        invariant file in filePool && filePool == old(filePool)[file := offset + SizeOf(entries, i)]
      {
        filePool := filePool[file := filePool[file] + entries[i].num];
      }
    }

    /** Takes the lock of the picked file and starts its cleaner. */
    method LockFile(entries: seq<Entry>, node: NodeId) returns (file: FileId, needsCreation: bool)
      requires exists pick: FileId :: CanPick(Abs(), pick)
      modifies this`filePool, this`lockedFiles, this`cleanupTasks
      ensures CanPick(old(Abs()), file) && (needsCreation <==> old(|filePool| != maxFiles))
      ensures filePool == if old(|filePool| != maxFiles) then old(filePool)[file := 0] else old(filePool)
      ensures lockedFiles == old(lockedFiles)[file := FileLock(node, KeysOf(entries))]
      ensures cleanupTasks == old(cleanupTasks) + {file}
    {
      file, needsCreation := PickFile();
      lockedFiles := lockedFiles[file := FileLock(node, KeysOf(entries))];
      cleanupTasks := cleanupTasks + {file};
    }

    /** The part of `create_and_lock` that follows its checks. */
    method GrantRange(entries: seq<Entry>, node: NodeId) returns (b: BlobOffset)
      requires Valid() && forall e :: 0 <= e < |entries| ==> entries[e].key != FILE_POOL
      requires !AnyTaken(Abs(), entries) && UniqueKeys(entries) && exists pick: FileId :: CanPick(Abs(), pick)
      modifies this
      ensures Valid() && (Abs(), Ok(b)) == Create(old(Abs()), entries, node, b.file) && CanPick(old(Abs()), b.file)
    {
      hide Numbered, Visible, Coherent, LocksKnown, AnyTaken, UniqueKeys;
      var file, needsCreation := LockFile(entries, node);
      NumberedAfter(old(filePool), file, filePool[file] + SizeOf(entries, |entries|));
      if needsCreation {
        redisPool := redisPool[file := filePool[file]];
      }
      var offset := GrowFile(file, entries);
      redisPool := redisPool[file := filePool[file]];
      InsertRows(entries, file, offset, node);
      LocksKnownAfter(old(redis), old(lockedFiles), entries, file, node, redis);
      b := BlobOffset(file, offset, needsCreation);
      assert filePool == old(filePool)[file := offset + SizeOf(entries, |entries|)];
    }

    /** `create_and_lock`. It waits while all files are locked; `pick` is the file it gets. */
    method CreateAndLock(entries: seq<Entry>, node: NodeId) returns (r: Result<BlobOffset>, ghost pick: FileId)
      requires Valid() && forall e :: 0 <= e < |entries| ==> entries[e].key != FILE_POOL
      requires AnyTaken(Abs(), entries) || !UniqueKeys(entries) || exists f: FileId :: CanPick(Abs(), f)
      modifies this
      ensures Valid() && (Abs(), r) == Create(old(Abs()), entries, node, pick)
      ensures r.Ok? ==> CanPick(old(Abs()), pick)
    {
      pick := 0;
      var taken := CheckKeys(entries);
      if taken {
        return Err(AlreadyExists), pick;
      }
      var keysSet := {};
      for i := 0 to |entries|
        invariant keysSet == KeySet(entries, i)
      {
        keysSet := keysSet + {entries[i].key};
      }
      SetSizeUnique(entries, |entries|);
      if |keysSet| != |entries| {
        return Err(DuplicateKeys), pick;
      }
      var b := GrantRange(entries, node);
      pick, r := b.file, Ok(b);
    }

    /** `create_unlock`. Every key of the lock has a row, so that marking never fails. */
    method CreateUnlock(file: FileId, node: NodeId) returns (r: Result<()>)
      requires Valid()
      modifies this
      ensures Valid() && (Abs(), r) == Unlock(old(Abs()), file, node)
    {
      if file !in lockedFiles {
        return Err(CreateNotLocked);
      }
      var lock := lockedFiles[file];
      lockedFiles := lockedFiles - {file};
      if lock.node != node {
        return Err(WrongNode);
      }
      MarkRows(lock.keys);
      cleanupTasks := cleanupTasks - {file};
      r := Ok(());
    }

    method MarkRows(keys: seq<Key>)
      requires Coherent(redis, memory) && KnownKeys(redis, keys)
      modifies this`memory, this`redis
      ensures Coherent(redis, memory) && old(redis).Keys <= redis.Keys
      ensures Visible(redis, memory) == Marked(old(Visible(redis, memory)), keys, |keys|)
    {
      hide Visible, Coherent, Staged;
      var toSetInRedis := map[];
      StageNone(redis, memory);
      for i := 0 to |keys|
        invariant Staged(redis, toSetInRedis, memory) && redis == old(redis)
        invariant Visible(redis, memory) == Marked(old(Visible(redis, memory)), keys, i)
      {
        var key := keys[i];
        if key !in memory {
          LoadOne(redis, toSetInRedis, memory, key);
          memory := memory[key := redis[key]];
        }
        var w := memory[key].(lock := None, written := true);
        VisibleAt(redis, memory, key);
        StageOne(redis, toSetInRedis, memory, key, w);
        toSetInRedis := toSetInRedis[key := Persisted(w)];
        memory := memory[key := w];
      }
      StageDone(redis, toSetInRedis, memory);
      redis := redis + toSetInRedis;
    }

    /** `keep_alive_lock`: the cleaner of a locked file always exists. */
    method KeepAliveLock(file: FileId) returns (r: Result<()>)
      requires Valid()
      ensures r == KeepAlive(Abs(), file) && (r.Ok? <==> file in lockedFiles)
      ensures r.Err? ==> r.error == CreateNotLocked
    {
      if file in lockedFiles {
        assert file in cleanupTasks;
        r := Ok(());
      } else {
        r := Err(CreateNotLocked);
      }
    }

    /** The timer of a cleaner fires. */
    method TimerFires(file: FileId)
      requires Valid()
      modifies this`lockedFiles
      ensures Valid() && Abs() == Expire(old(Abs()), file)
    {
      lockedFiles := lockedFiles - {file};
    }
  }

  // ---------- The client ----------

  /** How a client's store ends. */
  datatype StoreResult = Saved | Rejected(error: BlobError) | FileMissing | FileAlreadyThere | LockLost

  class SharedDisk {
    var files: Disk

    constructor ()
      ensures files == map[]
    {
      files := map[];
    }

    /** Opens the granted file, which its first client creates. */
    method OpenGranted(b: BlobOffset) returns (error: Option<StoreResult>)
      modifies this
      ensures error == if b.needsCreation && b.file in old(files) then Some(FileAlreadyThere)
                       else if !b.needsCreation && b.file !in old(files) then Some(FileMissing) else None
      ensures files == if b.needsCreation && error == None then old(files)[b.file := []] else old(files)
    {
      error := None;
      if b.needsCreation {
        if b.file in files {
          return Some(FileAlreadyThere);
        }
        files := files[b.file := []];
      } else if b.file !in files {
        return Some(FileMissing);
      }
    }

    /** Writes the blobs one after another, from the granted offset on. */
    method WriteItems(file: FileId, offset: nat, items: seq<Item>)
      requires file in files
      modifies this
      ensures items != [] ==> files == old(files)[file := WriteAt(old(files)[file], offset, Payload(items))]
      ensures items == [] ==> files == old(files)
    {
      var position := offset;
      for i := 0 to |items|
        invariant position == offset + |Data(items, i)|
        invariant i == 0 ==> files == old(files)
        invariant i > 0 ==> files == old(files)[file := WriteAt(old(files)[file], offset, Data(items, i))]
      {
        if i > 0 {
          WriteInTwo(old(files)[file], offset, Data(items, i), items[i].bytes);
        } else {
          assert Data(items, 1) == items[0].bytes;
        }
        files := files[file := WriteAt(files[file], position, items[i].bytes)];
        position := position + |items[i].bytes|;
      }
    }

    /** `read_and_send`: looks the key up and reads its slice. */
    method ReadBlob(server: BlobStorage, key: Key) returns (r: Result<Option<Bytes>>)
      requires server.Valid()
      modifies server`memory
      ensures server.Valid() && server.Abs() == old(server.Abs())
      ensures r == match Lookup(server.Abs(), key)
                   case Ok(slice) => Ok(ReadSlice(files, slice))
                   case Err(e) => Err(e)
    {
      hide Numbered, Coherent, Visible, LocksKnown;
      var l := server.LookupKey(key);
      match l {
        case Err(e) => r := Err(e);
        case Ok(slice) =>
          if slice.file !in files {
            return Ok(None);
          }
          var bytes := files[slice.file];
          if slice.len == 0 {
            r := Ok(Some([]));
          } else if slice.offset + slice.len > |bytes| {
            r := Ok(None);
          } else {
            r := Ok(Some(bytes[slice.offset..slice.offset + slice.len]));
          }
      }
    }

    /** `store_into_blob`, when nothing else happens meanwhile: if the client reports success, each of its keys can be
        looked up, and reads as its bytes. */
    method StoreIntoBlob(server: BlobStorage, items: seq<Item>, node: NodeId) returns (r: StoreResult)
      requires server.Valid() && forall e :: 0 <= e < |items| ==> items[e].key != FILE_POOL
      requires AnyTaken(server.Abs(), EntriesOf(items)) || !UniqueKeys(EntriesOf(items))
        || exists f: FileId :: CanPick(server.Abs(), f)
      modifies this, server
      ensures server.Valid()
      ensures r.Rejected? ==> server.Abs() == old(server.Abs()) && files == old(files)
      ensures r.Rejected? <==> AnyTaken(old(server.Abs()), EntriesOf(items)) || !UniqueKeys(EntriesOf(items))
      ensures !r.LockLost?
      ensures r.Saved? ==> forall e :: 0 <= e < |items| ==> ReadsAs(server.Abs(), files, items[e])
    {
      hide ReadsAs, WriteAt, ReadSlice, Unlock;
      var b, pick := server.CreateAndLock(EntriesOf(items), node);
      if b.Err? {
        return Rejected(b.error);
      }
      var error := OpenGranted(b.value);
      if error.Some? {
        return error.value;
      }
      ghost var bytes := files[b.value.file];
      WriteItems(b.value.file, b.value.offset, items);
      var u := server.CreateUnlock(b.value.file, node);
      UnlocksOwnLock(old(server.Abs()), EntriesOf(items), node, pick);
      r := if u.Ok? then Saved else LockLost;
      forall e | 0 <= e < |items| ensures ReadsAs(server.Abs(), files, items[e]) {
        UninterruptedStore(old(server.Abs()), items, node, pick, bytes, files, e);
      }
    }
  }

  predicate ReadsAs(v: Server, disk: Disk, item: Item) {
    Lookup(v, item.key).Ok? && ReadSlice(disk, Lookup(v, item.key).value) == Some(item.bytes)
  }

  /** Two writes in a row are one. */
  lemma WriteInTwo(bytes: Bytes, at: nat, a: Bytes, b: Bytes)
    ensures WriteAt(WriteAt(bytes, at, a), at + |a|, b) == WriteAt(bytes, at, a + b)
  {
  }

  lemma UnlocksOwnLock(s: Server, entries: seq<Entry>, node: NodeId, pick: FileId)
    requires Create(s, entries, node, pick).1.Ok?
    ensures Unlock(Create(s, entries, node, pick).0, pick, node).1 == Ok(())
  {
  }

  /** A store that nothing interrupts is unlocked, and published as it was written. */
  lemma UninterruptedStore(s: Server, items: seq<Item>, node: NodeId, pick: FileId, bytes: Bytes,
                           disk: Disk, e: nat)
    requires Create(s, EntriesOf(items), node, pick).1.Ok?
    requires e < |items| && items[e].key != FILE_POOL && pick in disk
    requires disk[pick] == WriteAt(bytes, Create(s, EntriesOf(items), node, pick).1.value.offset, Payload(items))
    ensures ReadsAs(Unlock(Create(s, EntriesOf(items), node, pick).0, pick, node).0, disk, items[e])
  {
    var (v, b) := Create(s, EntriesOf(items), node, pick);
    var g := Grant(node, items, pick, b.value.offset, b.value.needsCreation);
    var ks := KeysOf(EntriesOf(items));
    UninterruptedRow(s, items, node, pick, e);
    assert RangeHolds(bytes, g, 0);
    OwnRangeHolds(bytes, g, 0, |Payload(items)|);
    assert Payload(items)[0..|Payload(items)|] == Payload(items);
    ReadsItem(WriteAt(bytes, g.offset, Payload(items)), g, e);
  }

  lemma UninterruptedRow(s: Server, items: seq<Item>, node: NodeId, pick: FileId, e: nat)
    requires Create(s, EntriesOf(items), node, pick).1.Ok?
    requires e < |items| && items[e].key != FILE_POOL
    ensures var (v, b) := Create(s, EntriesOf(items), node, pick);
      Lookup(Unlock(v, pick, node).0, items[e].key) == Ok(SliceOf(EntriesOf(items), pick, b.value.offset, e))
  {
    var (v, b) := Create(s, EntriesOf(items), node, pick);
    var ks := KeysOf(EntriesOf(items));
    WithSlicesAt(s.keys, EntriesOf(items), pick, b.value.offset, node, |items|, e);
    MarkedIs(v.keys, ks, |ks|, items[e].key);
    assert ks[e] == items[e].key;
  }
}
