/** What the index server answers, told by the run: which keys were published, and which grant had a key last
    (blob_idx_server/src/blob.rs). */
module BlobAnswers {
  import opened Optional
  import opened BlobModel
  import opened BlobSystem

  /** The keys that were published by unlocks that succeeded. */
  function NextPublished(s: System, published: set<Key>, step: Step): set<Key> {
    if step.Finish? && step.grant < |s.grants|
       && Unlock(s.server, s.grants[step.grant].file, s.grants[step.grant].node).1.Ok?
    then published + KeysIn(s.grants[step.grant].items)
    else published
  }

  function KeysIn(items: seq<Item>): (r: set<Key>)
    ensures forall k :: k in r <==> HasItem(items, k)
  {
    set e: nat | e < |items| :: items[e].key
  }

  function PublishedIn(s: System, published: set<Key>, steps: seq<Step>): set<Key>
    requires Possible(s, steps)
    decreases |steps|
  {
    if steps == [] then published
    else PublishedIn(After(s, steps[0]), NextPublished(s, published, steps[0]), steps[1..])
  }

  /** Grant `i` is the last that has the key. */
  predicate LastGrant(grants: seq<Grant>, i: nat, k: Key) {
    i < |grants| && HasItem(grants[i].items, k) && forall j :: i < j < |grants| ==> !HasItem(grants[j].items, k)
  }

  predicate EverGranted(grants: seq<Grant>, k: Key) {
    exists i: nat :: i < |grants| && HasItem(grants[i].items, k)
  }

  /** The rows are those of the keys ever granted, the written ones those of the published keys, and each row belongs
      to the last grant that has its key. */
  ghost predicate Told(s: System, published: set<Key>) {
    && (forall k :: k in published <==> k in s.server.keys && s.server.keys[k].written)
    && (forall k :: k in s.server.keys <==> EverGranted(s.grants, k))
    && (forall k :: k in s.server.keys ==> k in s.owner && LastGrant(s.grants, s.owner[k].grant, k))
  }

  lemma RequestTold(s: System, published: set<Key>, items: seq<Item>, node: NodeId, pick: FileId)
    requires Told(s, published) && CanPick(s.server, pick)
    ensures Told(AfterRequest(s, items, node, pick), published)
  {
    hide CanPick;
    var t := AfterRequest(s, items, node, pick);
    if Create(s.server, EntriesOf(items), node, pick).1.Ok? {
      RequestGrants(s, items, node, pick);
      var b := Create(s.server, EntriesOf(items), node, pick).1.value;
      GrantTold(s, t, published, Grant(node, items, pick, b.offset, b.needsCreation));
    }
  }

  lemma GrantTold(s: System, t: System, published: set<Key>, g: Grant)
    requires Told(s, published) && Granted(s, t, g)
    ensures Told(t, published)
  {
    var n := |s.grants|;
    assert t.grants[n] == g;
    forall k
      ensures k in published <==> k in t.server.keys && t.server.keys[k].written
      ensures k in t.server.keys <==> EverGranted(t.grants, k)
      ensures k in t.server.keys ==> k in t.owner && LastGrant(t.grants, t.owner[k].grant, k)
    {
      if HasItem(g.items, k) {
        var e: nat :| e < |g.items| && g.items[e].key == k;
        assert FreshRow(t, g, e, n) && !Taken(s.server, k);
        assert LastGrant(t.grants, n, k);
      } else {
        assert KeptRow(s, t, k);
        GrantElsewhere(s.grants, g, k);
      }
    }
  }

  lemma GrantElsewhere(grants: seq<Grant>, g: Grant, k: Key)
    requires !HasItem(g.items, k)
    ensures EverGranted(grants + [g], k) <==> EverGranted(grants, k)
    ensures forall i: nat :: LastGrant(grants, i, k) ==> LastGrant(grants + [g], i, k)
  {
    if i: nat :| i < |grants| && HasItem(grants[i].items, k) {
      assert (grants + [g])[i] == grants[i];
    }
    if i: nat :| i < |grants + [g]| && HasItem((grants + [g])[i].items, k) {
      assert grants[i] == (grants + [g])[i];
    }
  }

  lemma PublishTold(s: System, published: set<Key>, i: nat, v: Server)
    requires Told(s, published) && i < |s.grants| && Published(s, i, v.keys)
    requires forall k :: HasItem(s.grants[i].items, k) ==> k in s.server.keys
    ensures Told(s.(server := v), published + KeysIn(s.grants[i].items))
  {
    hide LastGrant, EverGranted, HasItem;
  }

  lemma LockedHaveRows(s: System, i: nat)
    requires Inv(s) && i < |s.grants| && s.grants[i].file in s.server.locked && s.holder[s.grants[i].file] == i
    ensures s.server.locked[s.grants[i].file].keys == KeysOf(EntriesOf(s.grants[i].items))
    ensures forall k :: HasItem(s.grants[i].items, k) ==> k in s.server.keys
  {
    hide GrantsOk, DiskOk, KeysOk, PoolOk;
    assert LockOk(s, s.grants[i].file);
    forall e | 0 <= e < |s.grants[i].items| ensures s.grants[i].items[e].key in s.server.keys {
      assert Held(s, s.grants[i].items[e].key, Origin(i, e));
    }
  }

  /** A successful unlock publishes just the keys of its grant. */
  lemma FinishTold(s: System, published: set<Key>, i: nat)
    requires Inv(s) && Told(s, published) && Enabled(s, Finish(i))
    ensures Told(After(s, Finish(i)), NextPublished(s, published, Finish(i)))
  {
    hide Inv, Published, HasItem;
    var g := s.grants[i];
    var (v, reply) := Unlock(s.server, g.file, g.node);
    if reply.Ok? {
      hide Told;
      UnlockerHolds(s, i);
      MarkedPublishes(s, i);
      LockedHaveRows(s, i);
      PublishTold(s, published, i, v);
    }
  }

  lemma StepTold(s: System, published: set<Key>, step: Step)
    requires Inv(s) && Told(s, published) && Enabled(s, step)
    ensures Told(After(s, step), NextPublished(s, published, step))
  {
    match step {
      case Request(items, node, pick) =>
        hide Inv, Told;
        RequestTold(s, published, items, node, pick);
      case Finish(i) =>
        hide Inv, Told;
        FinishTold(s, published, i);
      case ForeignUnlock(file, node) =>
        hide Inv, LastGrant, EverGranted;
        ForeignUnlockFails(s, file, node);
      case _ =>
        hide Inv, Told;
        OthersTold(s, published, step);
    }
  }

  /** The other steps change no row but for its lock. */
  lemma OthersTold(s: System, published: set<Key>, step: Step)
    requires Told(s, published) && Enabled(s, step)
    requires step.Open? || step.Write? || step.Expiry? || step.Boot?
    ensures Told(After(s, step), NextPublished(s, published, step))
  {
    hide LastGrant, EverGranted;
  }

  lemma {:induction false} RunTold(s: System, published: set<Key>, steps: seq<Step>)
    requires Inv(s) && Told(s, published) && Possible(s, steps)
    ensures Inv(Reached(s, steps)) && Told(Reached(s, steps), PublishedIn(s, published, steps))
    decreases |steps|
  {
    hide Inv, Told, Enabled, After, NextPublished;
    if steps != [] {
      StepKeeps(s, steps[0]);
      StepTold(s, published, steps[0]);
      RunTold(After(s, steps[0]), NextPublished(s, published, steps[0]), steps[1..]);
    }
  }

  lemma StartTold(maxFiles: nat)
    ensures Inv(Start(maxFiles)) && Told(Start(maxFiles), {})
  {
  }

  // ---------- Refusals ----------

  /** The key may not be created: it was published, or the last grant that has it is on a file that is locked. */
  ghost predicate Refuses(s: System, published: set<Key>, k: Key) {
    k in published || exists i: nat :: LastGrant(s.grants, i, k) && s.grants[i].file in s.server.locked
  }

  lemma RefusesTaken(s: System, published: set<Key>, k: Key)
    requires Inv(s) && Told(s, published)
    ensures Refuses(s, published, k) <==> Taken(s.server, k)
  {
    hide GrantsOk, DiskOk, LocksOk, PoolOk;
    if k in s.server.keys {
      assert KeyOk(s, k);
      assert LastGrant(s.grants, s.owner[k].grant, k);
    }
  }

  /** In every run: a request is refused as existing if and only if one of its keys was published, or was last granted
      on a file that is locked; otherwise it is granted, unless it repeats a key. */
  lemma EveryRunRefuses(maxFiles: nat, steps: seq<Step>, items: seq<Item>, node: NodeId, pick: FileId)
    requires Possible(Start(maxFiles), steps)
    ensures var s, published := Reached(Start(maxFiles), steps), PublishedIn(Start(maxFiles), {}, steps);
      var reply := Create(s.server, EntriesOf(items), node, pick).1;
      && (reply == Err(AlreadyExists) <==> exists e :: 0 <= e < |items| && Refuses(s, published, items[e].key))
      && (reply == Err(DuplicateKeys) <==> !UniqueItems(items) && reply != Err(AlreadyExists))
      && (reply.Ok? <==> UniqueItems(items) && reply != Err(AlreadyExists))
  {
    var s, published := Reached(Start(maxFiles), steps), PublishedIn(Start(maxFiles), {}, steps);
    var entries := EntriesOf(items);
    hide Inv, Told, Refuses, Taken, Enabled, After, NextPublished;
    StartTold(maxFiles);
    RunTold(Start(maxFiles), {}, steps);
    forall e | 0 <= e < |items| ensures Refuses(s, published, items[e].key) <==> Taken(s.server, entries[e].key) {
      RefusesTaken(s, published, items[e].key);
    }
    UniqueAre(items);
  }

  predicate UniqueItems(items: seq<Item>) {
    forall i, j :: 0 <= i < j < |items| ==> items[i].key != items[j].key
  }

  lemma UniqueAre(items: seq<Item>)
    ensures UniqueItems(items) <==> UniqueKeys(EntriesOf(items))
  {
    if UniqueKeys(EntriesOf(items)) {
      forall i, j | 0 <= i < j < |items| ensures items[i].key != items[j].key {
        assert EntriesOf(items)[i].key != EntriesOf(items)[j].key;
      }
    }
  }

  /** After a restart nothing is locked, so that only published keys are refused; after an expiry, so are only those
      and the keys that were last granted on another file that is locked. */
  lemma FreedKeys(s: System, published: set<Key>, k: Key, file: FileId, maxFiles: nat)
    requires Inv(s) && Told(s, published)
    ensures Refuses(After(s, Boot(maxFiles)), published, k) <==> k in published
    ensures Refuses(After(s, Expiry(file)), published, k)
      ==> k in published || exists i: nat :: LastGrant(s.grants, i, k) && s.grants[i].file != file
  {
  }

  // ---------- Lookups ----------

  /** In every run: a key can be looked up if and only if it was published; it is said not to be written if it was
      only granted, and not to exist if it never was. */
  lemma EveryRunLooksUp(maxFiles: nat, steps: seq<Step>, k: Key)
    requires Possible(Start(maxFiles), steps) && k != FILE_POOL
    ensures var s, published := Reached(Start(maxFiles), steps), PublishedIn(Start(maxFiles), {}, steps);
      var reply := Lookup(s.server, k);
      && (reply.Ok? <==> k in published)
      && (reply == Err(NotWritten) <==> k !in published && EverGranted(s.grants, k))
      && (reply == Err(DoesNotExist) <==> !EverGranted(s.grants, k))
  {
    hide Inv, Enabled, After, NextPublished, EverGranted;
    StartTold(maxFiles);
    RunTold(Start(maxFiles), {}, steps);
  }

  /** A keep-alive succeeds just when some node could unlock the file. */
  lemma KeepsAlive(s: Server, file: FileId)
    ensures KeepAlive(s, file).Ok? <==> exists node :: Unlock(s, file, node).1.Ok?
    ensures KeepAlive(s, file).Err? <==> forall node :: Unlock(s, file, node).1 == Err(CreateNotLocked)
  {
    if file in s.locked {
      assert Unlock(s, file, s.locked[file].node).1.Ok?;
    } else {
      assert Unlock(s, file, "").1 == Err(CreateNotLocked);
    }
  }

  /** A restart keeps the rows but for their locks, and the files, and raises the limit no further than it must. */
  lemma RestartIs(s: Server, maxFiles: nat)
    ensures var t := Restart(s, maxFiles);
      && t.keys.Keys == s.keys.Keys && t.pool == s.pool && t.locked == map[]
      && (forall k :: k in s.keys ==> t.keys[k] == s.keys[k].(lock := None))
      && maxFiles <= t.maxFiles && |s.pool| <= t.maxFiles && (t.maxFiles == maxFiles || t.maxFiles == |s.pool|)
  {
  }

  /** Below the limit a request gets a new file, and at the limit any file that is not locked; it has to wait if and
      only if the limit is reached and all files are locked. */
  lemma PicksAre(s: Server, pick: FileId)
    requires PoolOk(s)
    ensures |s.pool| < s.maxFiles ==> (CanPick(s, pick) <==> pick == |s.pool|) && |s.pool| !in s.pool
    ensures |s.pool| == s.maxFiles ==> (CanPick(s, pick) <==> pick in s.pool && pick !in s.locked)
    ensures (forall f: FileId :: !CanPick(s, f)) <==> |s.pool| == s.maxFiles && s.locked.Keys == s.pool.Keys
  {
    if |s.pool| < s.maxFiles {
      assert CanPick(s, |s.pool|);
    } else if forall f: FileId :: !CanPick(s, f) {
      forall f | f in s.pool ensures f in s.locked {
        assert !CanPick(s, f);
      }
    }
  }

  /** An unlock drops the file's lock in any case, and no other. It succeeds only for the node that took the lock, and
      then marks its keys; otherwise no row changes, and the answer says whether there was a lock. */
  lemma UnlockIs(s: Server, file: FileId, node: NodeId)
    ensures var (t, reply) := Unlock(s, file, node);
      && t.locked == s.locked - {file} && t.pool == s.pool && t.maxFiles == s.maxFiles && t.keys.Keys == s.keys.Keys
      && (reply.Ok? <==> file in s.locked && s.locked[file].node == node)
      && (reply.Err? ==> t.keys == s.keys && t.cleaners == s.cleaners)
      && (reply.Err? ==> reply.error == if file in s.locked then WrongNode else CreateNotLocked)
      && (reply.Ok? ==> t.cleaners == s.cleaners - {file})
      && (reply.Ok? ==> forall k :: k in s.keys && k in s.locked[file].keys ==>
           t.keys[k].written && t.keys[k].lock == None && t.keys[k].slice == s.keys[k].slice)
      && (reply.Ok? ==> forall k :: k in s.keys && k !in s.locked[file].keys ==> t.keys[k] == s.keys[k])
  {
    if file in s.locked {
      var ks := s.locked[file].keys;
      forall k
        ensures k in Marked(s.keys, ks, |ks|) <==> k in s.keys
        ensures k in s.keys ==>
          Marked(s.keys, ks, |ks|)[k] == if k in ks then s.keys[k].(written := true, lock := None) else s.keys[k]
      {
        MarkedIs(s.keys, ks, |ks|, k);
        assert k in ks <==> Among(ks, |ks|, k);
      }
    }
  }

  /** An expiry drops the file's lock, whoever took it, and does nothing else. */
  lemma ExpireIs(s: Server, file: FileId)
    ensures Expire(s, file) == s.(locked := Expire(s, file).locked) && Expire(s, file).locked == s.locked - {file}
  {
  }
}
