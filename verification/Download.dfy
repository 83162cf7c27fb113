/** The downloader's loop over the download queue (downloader/src/download_db.rs,
    postgres_db/src/download_queue.rs). */
module Download {
  import opened Optional

  /** A url, by its place in the order of the task table. */
  type Url = int

  /** A row of `download_tasks`; the recorded error is a code. */
  datatype Task = Task(failures: int, failed: Option<int>)

  type Tasks = map<Url, Task>

  // ---------- The counters ----------

  /** How many tasks were dispatched, the size of the last chunk, and the receives since it was loaded. */
  datatype Counters = Counters(dispatched: nat, lastChunk: nat, count: nat)

  function Min(a: nat, b: nat): nat {
    if a < b then a else b
  }

  /** The next chunk is loaded when all but one of the last chunk were received. */
  function Refill(k: Counters, n: nat, size: nat): Counters
    requires k.dispatched <= n
  {
    if k.count + 1 == k.lastChunk then
      var chunk := Min(size, n - k.dispatched);
      Counters(k.dispatched + chunk, chunk, 0)
    else k
  }

  /** The counters after `r` receives, for `n` tasks in chunks of `size`. */
  function After(n: nat, size: nat, r: nat): (k: Counters)
    ensures k.dispatched <= n
  {
    if r == 0 then Counters(Min(size, n), Min(size, n), 0)
    else
      var k := Refill(After(n, size, r - 1), n, size);
      k.(count := k.count + 1)
  }

  /** Either everything is dispatched, or enough of the last chunk is outstanding. */
  lemma {:induction false} EnoughOutstanding(n: nat, size: nat, r: nat)
    requires size >= 2 && r < n
    ensures var k := After(n, size, r);
      k.dispatched == n
      || (k.lastChunk == size && k.count < k.lastChunk && k.dispatched >= r + (k.lastChunk - k.count))
  {
    if r > 0 {
      EnoughOutstanding(n, size, r - 1);
    }
  }

  lemma {:induction false} OneByOneStops(n: nat, r: nat)
    requires n >= 2 && r >= 1
    ensures After(n, 1, r).dispatched == 2 && (n == 2 || (After(n, 1, r).lastChunk == 1 && After(n, 1, r).count == r))
  {
    if r > 1 {
      OneByOneStops(n, r - 1);
    }
  }

  /** A receive always has a dispatched task to wait for, unless the tasks are loaded one by one and there are more
      than two. */
  lemma NeverStarvesIff(n: nat, size: nat)
    requires size >= 1
    ensures (forall r: nat :: r < n ==> Refill(After(n, size, r), n, size).dispatched > r) <==> size >= 2 || n <= 2
  {
    hide After, Refill;
    if size >= 2 {
      forall r: nat | r < n ensures Refill(After(n, size, r), n, size).dispatched > r {
        KeepsAhead(n, size, r);
      }
    } else {
      OneByOne(n);
    }
  }

  lemma KeepsAhead(n: nat, size: nat, r: nat)
    requires size >= 2 && r < n
    ensures Refill(After(n, size, r), n, size).dispatched > r
  {
    EnoughOutstanding(n, size, r);
  }

  lemma FirstCounters(n: nat, size: nat)
    ensures After(n, size, 0) == Counters(Min(size, n), Min(size, n), 0)
  {
  }

  lemma NextCounters(n: nat, size: nat, r: nat)
    ensures var k := Refill(After(n, size, r), n, size); After(n, size, r + 1) == k.(count := k.count + 1)
  {
  }

  lemma OneByOne(n: nat)
    ensures n >= 3 ==> Refill(After(n, 1, 2), n, 1).dispatched == 2
    ensures n <= 2 ==> forall r: nat :: r < n ==> Refill(After(n, 1, r), n, 1).dispatched > r
  {
    if n >= 2 {
      OneByOneStops(n, 1);
      OneByOneStops(n, 2);
    }
  }

  // ---------- Chunks of the table ----------

  predicate Ascending(q: seq<Url>) {
    forall i, j :: 0 <= i < j < |q| ==> q[i] < q[j]
  }

  predicate Eligible(tasks: Tasks, retry: bool, u: Url) {
    u in tasks && (retry || tasks[u].failed == None)
  }

  /** The rows that a query for a chunk looks at: the eligible ones after `last`, if there is a last one. */
  predicate Wanted(tasks: Tasks, retry: bool, last: Option<Url>, u: Url) {
    Eligible(tasks, retry, u) && (last.Some? ==> u > last.value)
  }

  /** The first `size` wanted rows, in order. */
  ghost predicate IsChunk(tasks: Tasks, retry: bool, last: Option<Url>, size: nat, chunk: seq<Url>) {
    && Ascending(chunk) && |chunk| <= size
    && (forall u :: u in chunk ==> Wanted(tasks, retry, last, u))
    && (forall u :: Wanted(tasks, retry, last, u) ==>
         u in chunk || (|chunk| == size && forall w :: w in chunk ==> w < u))
  }

  /** `plan` has the tasks to be done, in order; from `d` on they are the wanted ones. */
  ghost predicate RestIs(plan: seq<Url>, d: nat, tasks: Tasks, retry: bool, last: Option<Url>) {
    d <= |plan| && forall u :: Wanted(tasks, retry, last, u) <==> InRest(plan, d, u)
  }

  predicate InRest(plan: seq<Url>, d: nat, u: Url) {
    exists i :: d <= i < |plan| && plan[i] == u
  }

  lemma ChunkElement(plan: seq<Url>, d: nat, tasks: Tasks, retry: bool, last: Option<Url>, size: nat, chunk: seq<Url>,
                     i: nat)
    requires Ascending(plan) && RestIs(plan, d, tasks, retry, last) && IsChunk(tasks, retry, last, size, chunk)
    requires i < |chunk| && d + i <= |plan| && forall k :: 0 <= k < i ==> chunk[k] == plan[d + k]
    ensures d + i < |plan| && chunk[i] == plan[d + i]
  {
    assert Wanted(tasks, retry, last, chunk[i]) && chunk[i] in chunk;
    var j :| d <= j < |plan| && plan[j] == chunk[i];
    if i > 0 {
      assert chunk[i - 1] == plan[d + (i - 1)];
      IndexOrder(plan, d + (i - 1), j);
    }
    var u := plan[d + i];
    assert Wanted(tasks, retry, last, u);
    if u in chunk {
      var k :| 0 <= k < |chunk| && chunk[k] == u;
      if i > 0 {
        IndexOrder(chunk, i - 1, k);
      }
    }
  }

  /** In an ascending sequence a smaller element comes first. */
  lemma IndexOrder(q: seq<Url>, a: nat, b: nat)
    requires Ascending(q) && a < |q| && b < |q| && q[a] < q[b]
    ensures a < b
  {
  }

  lemma {:induction false} ChunkPrefix(plan: seq<Url>, d: nat, tasks: Tasks, retry: bool, last: Option<Url>, size: nat,
                                       chunk: seq<Url>, i: nat)
    requires Ascending(plan) && RestIs(plan, d, tasks, retry, last) && IsChunk(tasks, retry, last, size, chunk)
    requires i <= |chunk|
    ensures d + i <= |plan| && forall k :: 0 <= k < i ==> chunk[k] == plan[d + k]
  {
    if i > 0 {
      ChunkPrefix(plan, d, tasks, retry, last, size, chunk, i - 1);
      ChunkElement(plan, d, tasks, retry, last, size, chunk, i - 1);
    }
  }

  /** A chunk is the next part of the plan. */
  lemma ChunkIsNext(plan: seq<Url>, d: nat, tasks: Tasks, retry: bool, last: Option<Url>, size: nat, chunk: seq<Url>)
    requires Ascending(plan) && RestIs(plan, d, tasks, retry, last) && IsChunk(tasks, retry, last, size, chunk)
    ensures |chunk| == Min(size, |plan| - d) && chunk == plan[d..d + |chunk|]
  {
    ChunkPrefix(plan, d, tasks, retry, last, size, chunk, |chunk|);
    if |chunk| < size {
      forall i | 0 <= i < |plan| - d ensures Within(i, |chunk|) {
        assert Wanted(tasks, retry, last, plan[d + i]);
        var k :| 0 <= k < |chunk| && chunk[k] == plan[d + i];
        assert chunk[k] == plan[d + k];
      }
      if d < |plan| {
        assert Within(|plan| - d - 1, |chunk|);
      }
    }
  }

  predicate Within(i: int, n: nat) {
    0 <= i < n
  }

  // ---------- The loop ----------

  function Elements(q: seq<Url>): set<Url> {
    set u | u in q
  }

  function Without(tasks: Tasks, queue: seq<Url>): Tasks {
    map u | u in tasks && u !in queue :: tasks[u]
  }

  /** What a worker reports about a task. */
  datatype Report = Tarball(url: Url) | Error(url: Url, code: int)

  /** The workers: tasks that were dispatched and not yet reported. Reports arrive in any order. */
  class DownloadThreadPool {
    var pending: set<Url>
    ghost var dispatched: seq<Url>

    constructor ()
      ensures pending == {} && dispatched == []
    {
      pending, dispatched := {}, [];
    }

    method DownloadChunk(tasks: seq<Url>)
      modifies this
      ensures pending == old(pending) + Elements(tasks) && dispatched == old(dispatched) + tasks
    {
      for i := 0 to |tasks|
        invariant pending == old(pending) + Elements(tasks[..i]) && dispatched == old(dispatched) + tasks[..i]
      {
        pending := pending + {tasks[i]};
        dispatched := dispatched + [tasks[i]];
      }
      assert tasks[..|tasks|] == tasks;
    }

    /** A receive waits forever if nothing is pending. */
    method Receive() returns (r: Report)
      requires pending != {}
      modifies this
      ensures r.url in old(pending) && pending == old(pending) - {r.url} && dispatched == old(dispatched)
    {
      SomeElement(pending);
      var u :| u in pending;
      pending := pending - {u};
      var code: int := *;
      if * {
        r := Tarball(u);
      } else {
        r := Error(u, code);
      }
    }
  }

  /** `update_from_error`: one more failure, and its code. */
  function Failed(t: Task, code: int): (r: Task)
    ensures r.failures == t.failures + 1 && r.failed == Some(code)
  {
    Task(t.failures + 1, Some(code))
  }

  /** The table once the tasks in `stored` are dequeued and those in `failed` are marked with their errors. */
  ghost predicate TasksAre(before: Tasks, tasks: Tasks, stored: set<Url>, failed: map<Url, int>) {
    && tasks.Keys == before.Keys - stored
    && forall u :: u in tasks ==> tasks[u] == if u in failed then Failed(before[u], failed[u]) else before[u]
  }

  /** The tables follow the reports: queued tarballs are not stored yet, all others are, and errors are marked. */
  ghost predicate BooksOk(tasks0: Tasks, downloaded0: set<Url>, tasks: Tasks, downloaded: set<Url>, queue: seq<Url>,
                          stored: set<Url>, failed: map<Url, int>) {
    && Elements(queue) <= stored && stored !! failed.Keys
    && TasksAre(tasks0, tasks, stored - Elements(queue), failed)
    && downloaded == downloaded0 + (stored - Elements(queue))
  }

  lemma FlushBooks(tasks0: Tasks, downloaded0: set<Url>, tasks: Tasks, downloaded: set<Url>, queue: seq<Url>,
                   stored: set<Url>, failed: map<Url, int>)
    requires BooksOk(tasks0, downloaded0, tasks, downloaded, queue, stored, failed)
    ensures BooksOk(tasks0, downloaded0, Without(tasks, queue), downloaded + Elements(queue), [],
                    stored, failed)
  {
    assert Elements([]) == {};
    assert stored - {} == stored - Elements(queue) + Elements(queue);
  }

  lemma TarballBooks(tasks0: Tasks, downloaded0: set<Url>, tasks: Tasks, downloaded: set<Url>, queue: seq<Url>,
                     stored: set<Url>, failed: map<Url, int>, u: Url)
    requires BooksOk(tasks0, downloaded0, tasks, downloaded, queue, stored, failed) && u !in stored && u !in failed
    ensures BooksOk(tasks0, downloaded0, tasks, downloaded, queue + [u], stored + {u}, failed)
  {
    assert Elements(queue + [u]) == Elements(queue) + {u};
    assert stored + {u} - Elements(queue + [u]) == stored - Elements(queue);
  }

  lemma ErrorBooks(tasks0: Tasks, downloaded0: set<Url>, tasks: Tasks, downloaded: set<Url>, queue: seq<Url>,
                   stored: set<Url>, failed: map<Url, int>, u: Url, code: int)
    requires BooksOk(tasks0, downloaded0, tasks, downloaded, queue, stored, failed) && u !in stored && u !in failed
    requires u in tasks0
    ensures u in tasks
    ensures BooksOk(tasks0, downloaded0, tasks[u := Failed(tasks[u], code)], downloaded, queue, stored,
                    failed[u := code])
  {
  }

  /** `d` tasks were dispatched, and those not reported are pending. */
  ghost predicate PoolOk(plan: seq<Url>, d: nat, pending: set<Url>, dispatched: seq<Url>, received: set<Url>) {
    && Ascending(plan) && d <= |plan| && dispatched == plan[..d]
    && received <= Elements(plan[..d]) && pending == Elements(plan[..d]) - received
  }

  lemma DispatchOk(plan: seq<Url>, d: nat, pending: set<Url>, dispatched: seq<Url>, received: set<Url>, chunk: seq<Url>)
    requires PoolOk(plan, d, pending, dispatched, received)
    requires d + |chunk| <= |plan| && chunk == plan[d..d + |chunk|]
    ensures PoolOk(plan, d + |chunk|, pending + Elements(chunk), dispatched + chunk, received)
  {
    assert plan[..d] + chunk == plan[..d + |chunk|];
    assert forall u :: u in chunk ==> u !in plan[..d];
  }

  lemma ReceiveOk(plan: seq<Url>, d: nat, pending: set<Url>, dispatched: seq<Url>, received: set<Url>, u: Url)
    requires PoolOk(plan, d, pending, dispatched, received) && u in pending
    ensures PoolOk(plan, d, pending - {u}, dispatched, received + {u}) && u !in received && u in plan
    ensures |received + {u}| == |received| + 1
  {
  }

  /** The state of a run: its plan, the tables at its start, how much was dispatched, and the reports so far. */
  datatype Run = Run(plan: seq<Url>, retry: bool, tasks: Tasks, downloaded: set<Url>, d: nat, stored: set<Url>,
                     failed: map<Url, int>) {
    ghost predicate Ok(now: Tasks, downloadedNow: set<Url>, queue: seq<Url>, pending: set<Url>, dispatched: seq<Url>) {
      && (forall u :: u in plan <==> Eligible(tasks, retry, u))
      && PoolOk(plan, d, pending, dispatched, stored + failed.Keys)
      && BooksOk(tasks, downloaded, now, downloadedNow, queue, stored, failed)
    }

    function Received(): nat {
      |stored + failed.Keys|
    }

    function After(report: Report): Run {
      match report
      case Tarball(u) => this.(stored := stored + {u})
      case Error(u, code) => this.(failed := failed[u := code])
    }
  }

  /** A report of a pending task keeps the pool and the books in order. */
  lemma TarballKeeps(run: Run, now: Tasks, downloadedNow: set<Url>, queue: seq<Url>, pending: set<Url>,
                     dispatched: seq<Url>, u: Url)
    requires run.Ok(now, downloadedNow, queue, pending, dispatched) && u in pending
    ensures run.After(Tarball(u)).Received() == run.Received() + 1
    ensures run.After(Tarball(u)).Ok(now, downloadedNow, queue + [u], pending - {u}, dispatched)
  {
    hide PoolOk, BooksOk, Eligible;
    ReceiveOk(run.plan, run.d, pending, dispatched, run.stored + run.failed.Keys, u);
    assert run.stored + {u} + run.failed.Keys == run.stored + run.failed.Keys + {u};
    TarballBooks(run.tasks, run.downloaded, now, downloadedNow, queue, run.stored, run.failed, u);
  }

  lemma ErrorKeeps(run: Run, now: Tasks, downloadedNow: set<Url>, queue: seq<Url>, pending: set<Url>,
                   dispatched: seq<Url>, u: Url, code: int)
    requires run.Ok(now, downloadedNow, queue, pending, dispatched) && u in pending
    ensures run.After(Error(u, code)).Received() == run.Received() + 1 && u in now
    ensures run.After(Error(u, code)).Ok(now[u := Failed(now[u], code)], downloadedNow, queue, pending - {u},
                                         dispatched)
  {
    hide PoolOk, BooksOk;
    ReceiveOk(run.plan, run.d, pending, dispatched, run.stored + run.failed.Keys, u);
    assert run.stored + run.failed[u := code].Keys == run.stored + run.failed.Keys + {u};
    ErrorBooks(run.tasks, run.downloaded, now, downloadedNow, queue, run.stored, run.failed, u, code);
  }

  lemma RunStarts(plan: seq<Url>, tasks: Tasks, downloaded: set<Url>, retry: bool, chunk: seq<Url>)
    requires Ascending(plan) && Elements(plan) == EligibleIn(tasks, retry)
    requires |chunk| <= |plan| && chunk == plan[0..|chunk|]
    ensures Run(plan, retry, tasks, downloaded, |chunk|, {}, map[]).Ok(tasks, downloaded, [], Elements(chunk), chunk)
    ensures chunk != [] ==> IsLast(plan, |chunk|, chunk[|chunk| - 1])
  {
    RestAtStart(plan, tasks, retry);
    StartBooks(tasks, downloaded);
    StartPool(plan);
    DispatchOk(plan, 0, {}, [], {}, chunk);
    assert {} + Elements(chunk) == Elements(chunk) && [] + chunk == chunk;
  }

  lemma RunHasPending(run: Run, now: Tasks, downloadedNow: set<Url>, queue: seq<Url>, pending: set<Url>,
                      dispatched: seq<Url>)
    requires run.Ok(now, downloadedNow, queue, pending, dispatched) && run.Received() < run.d
    ensures pending != {}
  {
    StillPending(run.plan, run.d, pending, dispatched, run.stored + run.failed.Keys);
  }

  /** When all tasks have reported and the queue is stored, the tables say what became of each. */
  lemma RunEnds(run: Run, now: Tasks, downloadedNow: set<Url>, queue: seq<Url>, pending: set<Url>,
                dispatched: seq<Url>)
    requires run.Ok(now, downloadedNow, queue, pending, dispatched) && run.Received() == |run.plan|
    ensures dispatched == run.plan && pending == {} && run.stored + run.failed.Keys == Elements(run.plan)
    ensures run.stored !! run.failed.Keys
    ensures TasksAre(run.tasks, Without(now, queue), run.stored, run.failed)
    ensures downloadedNow + Elements(queue) == run.downloaded + run.stored
  {
    AllReceived(run.plan, run.d, pending, dispatched, run.stored + run.failed.Keys, |run.plan|);
    FlushBooks(run.tasks, run.downloaded, now, downloadedNow, queue, run.stored, run.failed);
    BooksDone(run.tasks, run.downloaded, Without(now, queue), downloadedNow + Elements(queue),
              run.stored, run.failed);
  }

  function EligibleIn(tasks: Tasks, retry: bool): set<Url> {
    set u | u in tasks && Eligible(tasks, retry, u)
  }

  datatype Outcome = Done | BadWorkers

  class Downloader {
    var tasks: Tasks
    var downloaded: set<Url>
    const chunkSize: nat

    constructor (size: nat)
      ensures chunkSize == size && tasks == map[] && downloaded == {}
    {
      chunkSize, tasks, downloaded := size, map[], {};
    }

    /** `load_chunk_init` and `load_chunk_next`. */
    method LoadChunk(retry: bool, last: Option<Url>) returns (chunk: seq<Url>)
      ensures IsChunk(tasks, retry, last, chunkSize, chunk)
    {
      chunk := [];
      var rest := set u | u in tasks && Wanted(tasks, retry, last, u);
      while |chunk| < chunkSize && rest != {}
        invariant Ascending(chunk) && |chunk| <= chunkSize
        invariant forall u :: u in chunk ==> Wanted(tasks, retry, last, u)
        invariant forall u :: Wanted(tasks, retry, last, u) <==> u in chunk || u in rest
        invariant forall u, w :: u in rest && w in chunk ==> w < u
        decreases rest
      {
        var least := Least(rest);
        assert forall i :: 0 <= i < |chunk| ==> chunk[i] in chunk;
        chunk := chunk + [least];
        rest := rest - {least};
      }
    }

    /** `update_from_tarball_queue`. */
    method StoreQueue(queue: seq<Url>)
      modifies this
      ensures downloaded == old(downloaded) + Elements(queue)
      ensures tasks == Without(old(tasks), queue)
    {
      downloaded := downloaded + Elements(queue);
      tasks := Without(tasks, queue);
    }

    /** `get_total_tasks_num`. */
    method TotalTasks(retry: bool) returns (n: nat)
      ensures n == |EligibleIn(tasks, retry)|
    {
      n := |EligibleIn(tasks, retry)|;
    }

    /** `update_from_error`. */
    method MarkFailed(u: Url, code: int)
      modifies this
      ensures downloaded == old(downloaded)
      ensures tasks == if u in old(tasks) then old(tasks)[u := Failed(old(tasks)[u], code)] else old(tasks)
    {
      if u in tasks {
        tasks := tasks[u := Failed(tasks[u], code)];
      }
    }

    /** The refill in the loop of `download_to_dest`: the queue is stored, and the next chunk is dispatched. */
    method LoadNext(pool: DownloadThreadPool, retry: bool, queue: seq<Url>, last: Url, ghost run: Run)
      returns (chunk: seq<Url>, lastUrl: Url, ghost next: Run)
      requires run.Ok(tasks, downloaded, queue, pool.pending, pool.dispatched) && IsLast(run.plan, run.d, last)
      requires run.retry == retry
      modifies this, pool
      ensures |chunk| == Min(chunkSize, |run.plan| - run.d) && next == run.(d := run.d + |chunk|)
      ensures next.Ok(tasks, downloaded, [], pool.pending, pool.dispatched) && IsLast(next.plan, next.d, lastUrl)
    {
      hide IsChunk, RestIs, PoolOk, BooksOk, TasksAre, Ascending, Elements, Eligible;
      FlushBooks(run.tasks, run.downloaded, tasks, downloaded, queue, run.stored, run.failed);
      StoreQueue(queue);
      RestAfter(run.plan, run.d, run.tasks, run.downloaded, tasks, downloaded, retry, run.stored, run.failed,
                pool.pending, pool.dispatched);
      chunk := LoadChunk(retry, Some(last));
      PlanAscends(run.plan, run.d, pool.pending, pool.dispatched, run.stored + run.failed.Keys);
      ChunkIsNext(run.plan, run.d, tasks, retry, Some(last), chunkSize, chunk);
      LastOfChunk(run.plan, run.d, chunk, last);
      lastUrl := if chunk != [] then chunk[|chunk| - 1] else last;
      DispatchOk(run.plan, run.d, pool.pending, pool.dispatched, run.stored + run.failed.Keys, chunk);
      pool.DownloadChunk(chunk);
      next := run.(d := run.d + |chunk|);
    }

    /** The receive in the loop of `download_to_dest`, which needs a pending task. */
    method TakeReport(pool: DownloadThreadPool, queue: seq<Url>, ghost run: Run)
      returns (more: seq<Url>, ghost next: Run)
      requires run.Ok(tasks, downloaded, queue, pool.pending, pool.dispatched) && pool.pending != {}
      modifies this, pool
      ensures next == run.(stored := next.stored, failed := next.failed) && next.Received() == run.Received() + 1
      ensures next.Ok(tasks, downloaded, more, pool.pending, pool.dispatched)
    {
      hide PoolOk, BooksOk, Run.Ok;
      ghost var pending := pool.pending;
      var report := pool.Receive();
      next := run.After(report);
      match report {
        case Tarball(u) =>
          TarballKeeps(run, tasks, downloaded, queue, pending, pool.dispatched, u);
          more := queue + [u];
        case Error(u, code) =>
          ErrorKeeps(run, tasks, downloaded, queue, pending, pool.dispatched, u, code);
          MarkFailed(u, code);
          more := queue;
      }
    }

    /** The loop of `download_to_dest`: as many receives as tasks, none of which waits for nothing. */
    method ReceiveAll(pool: DownloadThreadPool, n: nat, retry: bool, firstUrl: Url, firstSize: nat, ghost start: Run)
      returns (queue: seq<Url>, ghost run: Run)
      requires start.Ok(tasks, downloaded, [], pool.pending, pool.dispatched) && IsLast(start.plan, start.d, firstUrl)
      requires start.retry == retry && n == |start.plan| && start.Received() == 0 && chunkSize >= 2
      requires start.d == firstSize == Min(chunkSize, n)
      modifies this, pool
      ensures run.Ok(tasks, downloaded, queue, pool.pending, pool.dispatched) && run.Received() == n
      ensures run == start.(d := run.d, stored := run.stored, failed := run.failed)
    {
      hide After, Run.Ok;
      FirstCounters(n, chunkSize);
      var lastUrl, lastChunkSize, downloadCounter := firstUrl, firstSize, 0;
      queue, run := [], start;
      for i := 0 to n
        invariant IsLast(start.plan, run.d, lastUrl) && run.Received() == i
        invariant run.d == After(n, chunkSize, i).dispatched
        invariant lastChunkSize == After(n, chunkSize, i).lastChunk && downloadCounter == After(n, chunkSize, i).count
        invariant run.Ok(tasks, downloaded, queue, pool.pending, pool.dispatched)
        invariant run == start.(d := run.d, stored := run.stored, failed := run.failed)
      {
        NextCounters(n, chunkSize, i);
        KeepsAhead(n, chunkSize, i);
        if downloadCounter + 1 == lastChunkSize {
          var chunk;
          chunk, lastUrl, run := LoadNext(pool, retry, queue, lastUrl, run);
          queue := [];
          lastChunkSize := |chunk|;
          downloadCounter := 0;
        }
        RunHasPending(run, tasks, downloaded, queue, pool.pending, pool.dispatched);
        queue, run := TakeReport(pool, queue, run);
        downloadCounter := downloadCounter + 1;
      }
    }

    /** `download_to_dest`. Every receive has a pending task; each eligible task is dispatched once, in order; in the
        end each is either stored and dequeued, or marked with its error, and the other rows are untouched. */
    method DownloadToDest(pool: DownloadThreadPool, numWorkers: nat, retry: bool)
      returns (r: Outcome, ghost stored: set<Url>, ghost failed: map<Url, int>)
      requires pool.pending == {} && pool.dispatched == []
      modifies this, pool
      ensures r == BadWorkers <==> !(chunkSize > numWorkers > 0)
      ensures r == BadWorkers ==> tasks == old(tasks) && downloaded == old(downloaded)
      ensures r == Done ==> Ascending(pool.dispatched) && Elements(pool.dispatched) == EligibleIn(old(tasks), retry)
      ensures r == Done ==> stored !! failed.Keys && stored + failed.Keys == EligibleIn(old(tasks), retry)
      ensures r == Done ==> TasksAre(old(tasks), tasks, stored, failed) && downloaded == old(downloaded) + stored
      ensures r == Done ==> pool.pending == {}
    {
      hide IsChunk, RestIs, TasksAre, Ascending, Eligible, EligibleIn, Elements, Run.Ok;
      stored, failed := {}, map[];
      if !(chunkSize > numWorkers > 0) {
        return BadWorkers, stored, failed;
      }
      var n := TotalTasks(retry);
      ghost var plan := PlanExists(EligibleIn(tasks, retry));
      RestAtStart(plan, tasks, retry);
      var chunk := LoadChunk(retry, None);
      ChunkIsNext(plan, 0, tasks, retry, None, chunkSize, chunk);
      RunStarts(plan, tasks, downloaded, retry, chunk);
      if chunk == [] {
        NothingToDo(plan, tasks, downloaded, retry);
        return Done, stored, failed;
      }
      pool.DownloadChunk(chunk);
      assert pool.pending == Elements(chunk) && pool.dispatched == chunk;
      ghost var start := Run(plan, retry, tasks, downloaded, |chunk|, {}, map[]);
      var queue, run := ReceiveAll(pool, n, retry, chunk[|chunk| - 1], |chunk|, start);
      RunEnds(run, tasks, downloaded, queue, pool.pending, pool.dispatched);
      StoreQueue(queue);
      stored, failed := run.stored, run.failed;
      r := Done;
    }
  }

  // ---------- The plan ----------

  lemma LeastExists(s: set<Url>) returns (m: Url)
    requires s != {}
    ensures m in s && forall u :: u in s ==> m <= u
    decreases s
  {
    SomeElement(s);
    var x :| x in s;
    m := x;
    if s - {x} != {} {
      var n := LeastExists(s - {x});
      m := if n < x then n else x;
    }
    assert forall u :: u in s ==> u == x || u in s - {x};
  }

  /** The elements of a set in ascending order. */
  lemma PlanExists(s: set<Url>) returns (plan: seq<Url>)
    ensures Ascending(plan) && Elements(plan) == s && |plan| == |s|
    decreases s
  {
    if s == {} {
      plan := [];
    } else {
      var m := LeastExists(s);
      var rest := PlanExists(s - {m});
      plan := [m] + rest;
      assert Elements(plan) == {m} + Elements(rest);
      assert forall i :: 0 <= i < |rest| ==> rest[i] in Elements(rest);
    }
  }

  lemma {:induction false} ElementsCount(q: seq<Url>)
    requires Ascending(q)
    ensures |Elements(q)| == |q|
    decreases |q|
  {
    if q != [] {
      var rest, last := q[..|q| - 1], q[|q| - 1];
      ElementsCount(rest);
      assert q == rest + [last];
      assert Elements(q) == Elements(rest) + {last};
      assert last !in Elements(rest);
    }
  }

  /** More dispatched than received: something is pending. */
  lemma SomePending(plan: seq<Url>, d: nat, received: set<Url>, r: nat)
    requires Ascending(plan) && d <= |plan| && r < d && received <= Elements(plan[..d]) && |received| == r
    ensures Elements(plan[..d]) - received != {}
  {
    ElementsCount(plan[..d]);
    assert |Elements(plan[..d]) - received| == d - r by {
      assert Elements(plan[..d]) == received + (Elements(plan[..d]) - received);
    }
  }

  /** The rows that were not dispatched are as they were, so that the next query finds the rest of the plan. */
  lemma RestStays(plan: seq<Url>, d: nat, before: Tasks, tasks: Tasks, retry: bool, stored: set<Url>,
                  failed: map<Url, int>)
    requires Ascending(plan) && 0 < d <= |plan| && forall u :: u in plan <==> Eligible(before, retry, u)
    requires TasksAre(before, tasks, stored, failed) && stored + failed.Keys <= Elements(plan[..d])
    ensures RestIs(plan, d, tasks, retry, Some(plan[d - 1]))
  {
    forall u | Wanted(tasks, retry, Some(plan[d - 1]), u) ensures InRest(plan, d, u) {
      assert u !in plan[..d];
      assert Eligible(before, retry, u);
      var i :| 0 <= i < |plan| && plan[i] == u;
      IndexOrder(plan, d - 1, i);
    }
    forall i | d <= i < |plan| ensures Wanted(tasks, retry, Some(plan[d - 1]), plan[i]) {
      assert plan[i] !in plan[..d];
      assert plan[i] in plan;
    }
  }

  predicate IsLast(plan: seq<Url>, d: nat, u: Url) {
    0 < d <= |plan| && u == plan[d - 1]
  }

  lemma LastOfChunk(plan: seq<Url>, d: nat, chunk: seq<Url>, last: Url)
    requires IsLast(plan, d, last) && d + |chunk| <= |plan| && chunk == plan[d..d + |chunk|]
    ensures IsLast(plan, d + |chunk|, if chunk != [] then chunk[|chunk| - 1] else last)
  {
  }

  lemma RestAfter(plan: seq<Url>, d: nat, tasks0: Tasks, downloaded0: set<Url>, tasks: Tasks, downloaded: set<Url>,
                  retry: bool, stored: set<Url>, failed: map<Url, int>, pending: set<Url>, dispatched: seq<Url>)
    requires 0 < d <= |plan| && forall u :: u in plan <==> Eligible(tasks0, retry, u)
    requires BooksOk(tasks0, downloaded0, tasks, downloaded, [], stored, failed)
    requires PoolOk(plan, d, pending, dispatched, stored + failed.Keys)
    ensures RestIs(plan, d, tasks, retry, Some(plan[d - 1]))
  {
    assert stored - Elements([]) == stored;
    RestStays(plan, d, tasks0, tasks, retry, stored, failed);
  }

  lemma StillPending(plan: seq<Url>, d: nat, pending: set<Url>, dispatched: seq<Url>, received: set<Url>)
    requires PoolOk(plan, d, pending, dispatched, received) && |received| < d
    ensures pending != {}
  {
    SomePending(plan, d, received, |received|);
  }

  /** As many receives as tasks: all were dispatched, and all reported. */
  lemma AllReceived(plan: seq<Url>, d: nat, pending: set<Url>, dispatched: seq<Url>, received: set<Url>, n: nat)
    requires PoolOk(plan, d, pending, dispatched, received) && |received| == n == |plan|
    ensures dispatched == plan && received == Elements(plan) && pending == {}
  {
    ElementsCount(plan[..d]);
    SubsetSize(received, Elements(plan[..d]));
    assert plan[..d] == plan;
  }

  lemma SubsetSize(a: set<Url>, b: set<Url>)
    requires a <= b && |a| >= |b|
    ensures a == b
  {
    assert b == a + (b - a);
  }

  lemma StartBooks(tasks: Tasks, downloaded: set<Url>)
    ensures BooksOk(tasks, downloaded, tasks, downloaded, [], {}, map[])
  {
  }

  lemma BooksDone(tasks0: Tasks, downloaded0: set<Url>, tasks: Tasks, downloaded: set<Url>, stored: set<Url>,
                  failed: map<Url, int>)
    requires BooksOk(tasks0, downloaded0, tasks, downloaded, [], stored, failed)
    ensures stored !! failed.Keys && TasksAre(tasks0, tasks, stored, failed) && downloaded == downloaded0 + stored
  {
    assert stored - Elements([]) == stored;
  }

  lemma NothingToDo(plan: seq<Url>, tasks: Tasks, downloaded: set<Url>, retry: bool)
    requires |plan| == 0 && Elements(plan) == EligibleIn(tasks, retry)
    ensures Ascending([]) && Elements([]) == EligibleIn(tasks, retry) == {} && TasksAre(tasks, tasks, {}, map[])
  {
    assert Elements(plan) == {} == Elements([]);
  }

  lemma PlanAscends(plan: seq<Url>, d: nat, pending: set<Url>, dispatched: seq<Url>, received: set<Url>)
    requires PoolOk(plan, d, pending, dispatched, received)
    ensures Ascending(plan) && d <= |plan|
  {
  }

  lemma StartPool(plan: seq<Url>)
    requires Ascending(plan)
    ensures PoolOk(plan, 0, {}, [], {})
    ensures |plan| == 0 ==> Ascending([]) && Elements(plan) == {} && Elements([]) == {}
  {
    assert Elements([]) == {};
  }

  lemma RestAtStart(plan: seq<Url>, tasks: Tasks, retry: bool)
    requires Elements(plan) == EligibleIn(tasks, retry)
    ensures RestIs(plan, 0, tasks, retry, None)
    ensures forall u :: u in plan <==> Eligible(tasks, retry, u)
  {
    forall u ensures u in plan <==> Eligible(tasks, retry, u) {
      assert u in plan <==> u in Elements(plan);
    }
    forall u ensures Wanted(tasks, retry, None, u) <==> InRest(plan, 0, u) {
      assert u in plan <==> InRest(plan, 0, u);
    }
  }

  lemma SomeElement(s: set<Url>)
    requires s != {}
    ensures exists u :: u in s
  {
    assert (forall u :: u !in s) ==> s == {};
  }

  method Least(s: set<Url>) returns (m: Url)
    requires s != {}
    ensures m in s && forall u :: u in s ==> m <= u
  {
    SomeElement(s);
    m :| m in s;
    var todo := s - {m};
    while todo != {}
      invariant todo <= s && m in s && forall u :: u in s ==> u in todo || m <= u
      decreases todo
    {
      SomeElement(todo);
      var u :| u in todo;
      if u < m {
        m := u;
      }
      todo := todo - {u};
    }
  }

  /** With retries all tasks are eligible, and without them those that have not failed yet. */
  lemma EligibleAre(tasks: Tasks)
    ensures EligibleIn(tasks, true) == tasks.Keys
    ensures EligibleIn(tasks, false) == set u | u in tasks && tasks[u].failed == None
  {
  }
}
