/** The registry as it was at a time, and the job that solves a package day by day
    (cluster_compute_jobs/historic_solver_job/src/lib.rs and run_solve_job.rs). */
module TimeTravel {
  import opened Optional

  type Name = string
  type Blob = string

  /** Seconds. */
  type Time = int

  datatype Published = Published(version: Name, time: Time)

  /** `ParsedPackument<()>`. */
  datatype Packument = Packument(versions: map<Name, Blob>, times: seq<Published>, modified: Time, created: Time)

  /** `ParsedPackument<String>`. */
  datatype Tagged = Tagged(latest: Name, pack: Packument)

  /** A prerelease or a build. */
  predicate Beta(v: Name) {
    '-' in v || '+' in v
  }

  predicate Sorted(times: seq<Published>) {
    forall i, j :: 0 <= i < j < |times| ==> times[i].time <= times[j].time
  }

  predicate DistinctVersions(times: seq<Published>) {
    forall i, j :: 0 <= i < j < |times| ==> times[i].version != times[j].version
  }

  predicate Lists(times: seq<Published>, v: Name) {
    exists i :: 0 <= i < |times| && times[i].version == v
  }

  /** The versions are those of the sorted list of times, each listed once, and none is a beta. */
  ghost predicate PackOk(p: Packument) {
    && Sorted(p.times) && DistinctVersions(p.times)
    && (forall v :: v in p.versions <==> Lists(p.times, v))
    && (forall i :: 0 <= i < |p.times| ==> !Beta(p.times[i].version))
  }

  // ---------- Restricting to a time ----------

  /** `partition_point`: how many times are at most `t`. */
  function FirstBad(times: seq<Published>, t: Time): (n: nat)
    ensures n <= |times|
    decreases |times|
  {
    if times == [] || times[0].time > t then 0 else 1 + FirstBad(times[1..], t)
  }

  /** The last version among the first `n` that is no beta. */
  function LastStable(times: seq<Published>, n: nat): Option<Name>
    requires n <= |times|
  {
    if n == 0 then None
    else if !Beta(times[n - 1].version) then Some(times[n - 1].version)
    else LastStable(times, n - 1)
  }

  datatype Outcome = Nothing | Panics | Restricted(tagged: Tagged)

  predicate AllPresent(p: Packument, n: nat)
    requires n <= |p.times|
  {
    forall i :: 0 <= i < n ==> p.times[i].version in p.versions
  }

  function Names(times: seq<Published>): set<Name> {
    set i | 0 <= i < |times| :: times[i].version
  }

  /** The first `n` versions with their data. */
  function GoodVersions(p: Packument, n: nat): map<Name, Blob>
    requires n <= |p.times|
  {
    map v | v in Names(p.times[..n]) && v in p.versions :: p.versions[v]
  }

  /** `restrict_time`, with the greatest time where no filter is given. */
  function Restrict(p: Packument, t: Time): Outcome {
    var n := FirstBad(p.times, t);
    if n == 0 then Nothing
    else if !AllPresent(p, n) then Panics
    else
      var latest := LastStable(p.times, n);
      if latest == None then Panics
      else
        Restricted(Tagged(latest.value,
          Packument(GoodVersions(p, n), p.times[..n], p.times[n - 1].time, p.created)))
  }

  lemma {:induction false} FirstBadIs(times: seq<Published>, t: Time)
    requires Sorted(times)
    ensures forall i :: 0 <= i < |times| ==> (times[i].time <= t <==> i < FirstBad(times, t))
    decreases |times|
  {
    if times != [] && times[0].time <= t {
      FirstBadIs(times[1..], t);
      assert forall i :: 0 < i < |times| ==> times[i] == times[1..][i - 1];
    }
  }

  /** The version is one that was published by `t`. */
  predicate PublishedBy(p: Packument, v: Name, t: Time) {
    exists i :: 0 <= i < |p.times| && p.times[i].version == v && p.times[i].time <= t
  }

  lemma NamesAre(times: seq<Published>, n: nat, v: Name)
    requires n <= |times|
    ensures v in Names(times[..n]) <==> exists i :: 0 <= i < n && times[i].version == v
  {
    if i :| 0 <= i < n && times[i].version == v {
      assert times[..n][i].version == v;
    }
  }

  /** On a parsed packument restricting never panics. It gives nothing if nothing was published by `t`; otherwise
      exactly the versions published by `t`, with the last of them as the latest one and its time as the modification
      time. */
  lemma RestrictIsExact(p: Packument, t: Time)
    requires PackOk(p)
    ensures Restrict(p, t) != Panics
    ensures Restrict(p, t) == Nothing <==> forall v :: !PublishedBy(p, v, t)
    ensures Restrict(p, t).Restricted? ==> RestrictedTo(p, t, Restrict(p, t).tagged)
  {
    var n := FirstBad(p.times, t);
    FirstBadIs(p.times, t);
    if n > 0 {
      assert PublishedBy(p, p.times[n - 1].version, t);
      forall i | 0 <= i < n ensures p.times[i].version in p.versions {
        assert Lists(p.times, p.times[i].version);
      }
      RestrictedIs(p, t, n);
    }
  }

  ghost predicate RestrictedTo(p: Packument, t: Time, r: Tagged) {
    && PackOk(r.pack) && r.pack.created == p.created
    && (forall v :: v in r.pack.versions <==> PublishedBy(p, v, t))
    && (forall v :: v in r.pack.versions ==> v in p.versions && r.pack.versions[v] == p.versions[v])
    && r.pack.times == p.times[..FirstBad(p.times, t)] && r.pack.times != []
    && r.latest == r.pack.times[|r.pack.times| - 1].version && r.latest in r.pack.versions
    && r.pack.modified == r.pack.times[|r.pack.times| - 1].time <= t
  }

  predicate ListedBefore(times: seq<Published>, n: nat, v: Name)
    requires n <= |times|
  {
    exists i :: 0 <= i < n && times[i].version == v
  }

  lemma GoodVersionsAre(p: Packument, n: nat, v: Name)
    requires n <= |p.times| && AllPresent(p, n)
    ensures v in GoodVersions(p, n) <==> ListedBefore(p.times, n, v)
    ensures v in GoodVersions(p, n) ==> v in p.versions && GoodVersions(p, n)[v] == p.versions[v]
  {
    NamesAre(p.times, n, v);
  }

  /** A prefix of a well-formed packument is well-formed. */
  lemma PrefixOk(p: Packument, q: Packument, n: nat)
    requires PackOk(p) && n <= |p.times| && q.times == p.times[..n]
    requires forall v :: v in q.versions <==> ListedBefore(p.times, n, v)
    ensures PackOk(q)
  {
    forall v ensures v in q.versions <==> Lists(q.times, v) {
      if i :| 0 <= i < n && p.times[i].version == v {
        assert q.times[i].version == v;
      }
    }
  }

  lemma RestrictedIs(p: Packument, t: Time, n: nat)
    requires PackOk(p) && n == FirstBad(p.times, t) > 0 && AllPresent(p, n)
    requires forall i :: 0 <= i < |p.times| ==> (p.times[i].time <= t <==> i < n)
    ensures Restrict(p, t).Restricted? && RestrictedTo(p, t, Restrict(p, t).tagged)
  {
    hide GoodVersions, AllPresent, Sorted, DistinctVersions;
    assert !Beta(p.times[n - 1].version);
    var r := Restrict(p, t).tagged;
    forall v ensures v in r.pack.versions <==> ListedBefore(p.times, n, v) {
      GoodVersionsAre(p, n, v);
    }
    PrefixOk(p, r.pack, n);
    forall v ensures v in r.pack.versions <==> PublishedBy(p, v, t) {
      BeforeIsPublished(p, t, n, v);
    }
    forall v | v in r.pack.versions ensures v in p.versions && r.pack.versions[v] == p.versions[v] {
      GoodVersionsAre(p, n, v);
    }
    assert ListedBefore(p.times, n, r.latest);
  }

  lemma BeforeIsPublished(p: Packument, t: Time, n: nat, v: Name)
    requires n <= |p.times| && forall i :: 0 <= i < |p.times| ==> (p.times[i].time <= t <==> i < n)
    ensures ListedBefore(p.times, n, v) <==> PublishedBy(p, v, t)
  {
    if i :| 0 <= i < n && p.times[i].version == v {
      assert p.times[i].time <= t;
    }
  }

  /** At a later time there are all the versions of an earlier time, and the latest one was not published earlier. */
  lemma RestrictIsMonotone(p: Packument, t: Time, u: Time)
    requires PackOk(p) && t <= u && Restrict(p, t).Restricted?
    ensures Restrict(p, u).Restricted?
    ensures Restrict(p, t).tagged.pack.versions.Keys <= Restrict(p, u).tagged.pack.versions.Keys
    ensures Restrict(p, t).tagged.pack.times <= Restrict(p, u).tagged.pack.times
    ensures Restrict(p, t).tagged.pack.modified <= Restrict(p, u).tagged.pack.modified
  {
    RestrictIsExact(p, t);
    RestrictIsExact(p, u);
    hide Restrict, RestrictedTo;
    SomethingStays(p, t, u, Restrict(p, t).tagged);
    LaterHasMore(p, t, u, Restrict(p, t).tagged, Restrict(p, u).tagged);
  }

  lemma SomethingStays(p: Packument, t: Time, u: Time, r: Tagged)
    requires RestrictedTo(p, t, r) && t <= u
    ensures exists v :: PublishedBy(p, v, u)
  {
    assert PublishedBy(p, r.latest, t);
    assert PublishedBy(p, r.latest, u);
  }

  lemma LaterHasMore(p: Packument, t: Time, u: Time, r: Tagged, s: Tagged)
    requires RestrictedTo(p, t, r) && RestrictedTo(p, u, s) && Sorted(p.times) && t <= u
    ensures r.pack.versions.Keys <= s.pack.versions.Keys
    ensures r.pack.times <= s.pack.times && r.pack.modified <= s.pack.modified
  {
    hide PackOk;
    MoreBefore(p.times, t, u);
    var n, m := FirstBad(p.times, t), FirstBad(p.times, u);
    assert p.times[..m][..n] == p.times[..n];
    forall v | v in r.pack.versions ensures v in s.pack.versions {
      assert PublishedBy(p, v, t);
      assert PublishedBy(p, v, u);
    }
  }

  lemma MoreBefore(times: seq<Published>, t: Time, u: Time)
    requires Sorted(times) && t <= u
    ensures FirstBad(times, t) <= FirstBad(times, u)
  {
    FirstBadIs(times, t);
    FirstBadIs(times, u);
  }

  function MinTime(t: Time, u: Time): Time {
    if t < u then t else u
  }

  lemma {:induction false} FirstBadOfPrefix(times: seq<Published>, t: Time, u: Time)
    requires Sorted(times)
    ensures FirstBad(times[..FirstBad(times, t)], u) == FirstBad(times, MinTime(t, u))
    decreases |times|
  {
    if times != [] && times[0].time <= t && times[0].time <= u {
      assert times[..FirstBad(times, t)][1..] == times[1..][..FirstBad(times[1..], t)];
      FirstBadOfPrefix(times[1..], t, u);
    }
  }

  /** Restricting twice is restricting to the earlier time. */
  lemma RestrictComposes(p: Packument, t: Time, u: Time)
    requires PackOk(p)
    ensures Restrict(p, t).Restricted? ==> Restrict(Restrict(p, t).tagged.pack, u) == Restrict(p, MinTime(t, u))
    ensures Restrict(p, t) == Nothing ==> Restrict(p, MinTime(t, u)) == Nothing
  {
    RestrictIsExact(p, t);
    FirstBadIs(p.times, t);
    FirstBadOfPrefix(p.times, t, u);
    if Restrict(p, t).Restricted? {
      RestrictPrefix(p, Restrict(p, t).tagged.pack, t, u);
    } else {
      MoreBefore(p.times, MinTime(t, u), t);
    }
  }

  lemma {:induction false} LastStableOfPrefix(times: seq<Published>, n: nat, k: nat)
    requires k <= n <= |times|
    ensures LastStable(times[..n], k) == LastStable(times, k)
  {
    if k > 0 {
      LastStableOfPrefix(times, n, k - 1);
    }
  }

  lemma RestrictPrefix(p: Packument, q: Packument, t: Time, u: Time)
    requires PackOk(p) && PackOk(q) && q.created == p.created && q.times == p.times[..FirstBad(p.times, t)]
    requires forall v :: v in q.versions ==> v in p.versions && q.versions[v] == p.versions[v]
    requires FirstBad(q.times, u) == FirstBad(p.times, MinTime(t, u))
    ensures Restrict(q, u) == Restrict(p, MinTime(t, u))
  {
    hide PackOk, GoodVersions, AllPresent;
    var k := FirstBad(q.times, u);
    LastStableOfPrefix(p.times, |q.times|, k);
    SameGoodVersions(p, q, k);
    assert q.times[..k] == p.times[..k];
  }

  lemma SameGoodVersions(p: Packument, q: Packument, k: nat)
    requires PackOk(p) && PackOk(q) && k <= |q.times| <= |p.times| && q.times == p.times[..|q.times|]
    requires forall v :: v in q.versions ==> v in p.versions && q.versions[v] == p.versions[v]
    ensures AllPresent(q, k) && AllPresent(p, k) && GoodVersions(q, k) == GoodVersions(p, k)
  {
    assert q.times[..k] == p.times[..k];
    forall i | 0 <= i < k ensures q.times[i].version in q.versions && p.times[i].version in p.versions {
      assert Lists(q.times, q.times[i].version);
    }
    forall v | v in Names(q.times[..k]) ensures v in q.versions {
      NamesAre(q.times, k, v);
    }
  }

  // ---------- Parsing a packument ----------

  /** A registry document: its versions, and its times by key. */
  datatype Doc = Doc(versions: Option<map<Name, Blob>>, times: Option<map<Name, Time>>)

  datatype Parsed = Absent | Malformed | Parsed(pack: Packument)

  const MODIFIED := "modified"
  const CREATED := "created"

  /** The versions that are kept: those with a time, and no betas. */
  predicate Retained(versions: map<Name, Blob>, times: map<Name, Time>, v: Name) {
    v in versions && v in times && v != MODIFIED && v != CREATED && !Beta(v)
  }

  predicate HasTimes(times: Option<map<Name, Time>>) {
    times.Some? && MODIFIED in times.value && CREATED in times.value
  }

  /** `parse_packument`: afterwards restricting cannot panic. Versions with equal times may come in any order. */
  method ParsePackument(doc: Doc) returns (r: Parsed)
    ensures r == Absent <==> doc.versions == None
    ensures r == Malformed <==> doc.versions.Some? && !HasTimes(doc.times)
    ensures r.Parsed? ==> PackOk(r.pack) && ParsedFrom(r.pack, doc.versions.value, doc.times.value)
  {
    if doc.versions == None {
      return Absent;
    }
    if !HasTimes(doc.times) {
      return Malformed;
    }
    var times, all := doc.times.value, doc.versions.value;
    var kept := set v | v in times && Retained(all, times, v);
    var versions := map v | v in all && v in kept :: all[v];
    var sorted := SortByTime(kept, times);
    r := Parsed(Packument(versions, sorted, times[MODIFIED], times[CREATED]));
  }

  ghost predicate ParsedFrom(p: Packument, versions: map<Name, Blob>, times: map<Name, Time>)
    requires MODIFIED in times && CREATED in times
  {
    && (forall v :: v in p.versions <==> Retained(versions, times, v))
    && (forall v :: v in p.versions ==> p.versions[v] == versions[v])
    && (forall i :: 0 <= i < |p.times| ==> p.times[i].version in times && p.times[i].time == times[p.times[i].version])
    && p.modified == times[MODIFIED] && p.created == times[CREATED]
  }

  method SortByTime(kept: set<Name>, times: map<Name, Time>) returns (sorted: seq<Published>)
    requires kept <= times.Keys
    ensures Sorted(sorted) && DistinctVersions(sorted) && forall v :: v in kept <==> Lists(sorted, v)
    ensures forall i :: 0 <= i < |sorted| ==> sorted[i].version in kept && sorted[i].time == times[sorted[i].version]
  {
    sorted := [];
    var todo := kept;
    while todo != {}
      invariant todo <= kept && Sorted(sorted) && DistinctVersions(sorted)
      invariant forall v :: v in kept - todo <==> Lists(sorted, v)
      invariant forall i :: 0 <= i < |sorted| ==>
        sorted[i].version in kept - todo && sorted[i].time == times[sorted[i].version]
      invariant forall i, v :: 0 <= i < |sorted| && v in todo ==> sorted[i].time <= times[v]
      decreases todo
    {
      var v := Earliest(todo, times);
      ghost var before := sorted;
      sorted := sorted + [Published(v, times[v])];
      todo := todo - {v};
      ListsOneMore(before, Published(v, times[v]));
    }
  }

  lemma ListsOneMore(times: seq<Published>, e: Published)
    ensures forall v :: Lists(times + [e], v) <==> Lists(times, v) || v == e.version
  {
    var more := times + [e];
    forall v ensures Lists(more, v) <==> Lists(times, v) || v == e.version {
      if i :| 0 <= i < |times| && times[i].version == v {
        assert more[i].version == v;
      }
      if v == e.version {
        assert more[|times|].version == v;
      }
    }
  }

  method Earliest(names: set<Name>, times: map<Name, Time>) returns (v: Name)
    requires names != {} && names <= times.Keys
    ensures v in names && forall w :: w in names ==> times[v] <= times[w]
  {
    v :| v in names;
    var todo := names - {v};
    while todo != {}
      invariant todo <= names && v in names && forall w :: w in names ==> w in todo || times[v] <= times[w]
      decreases todo
    {
      var w :| w in todo;
      if times[w] < times[v] {
        v := w;
      }
      todo := todo - {w};
    }
  }

  // ---------- The solve job ----------

  /** A version of the updated package, by its place in the order of versions. */
  type Ver = int

  datatype Solution = SolveError | Solved(deps: map<Name, set<Ver>>)

  /** What the solver answers for a version of the downstream package at a time. */
  type Solver = (Name, Time) -> Solution

  datatype Job = Job(updatePackage: Name, from: Ver, toTime: Time)

  datatype SolveResult = SolveResult(time: Time, downstream: Name, updates: set<Ver>)

  datatype Result =
    | Done | MissingVersion | SolveFailed | FromMissingPackage | FromMissingVersion | RemovedDep | GaveUp

  const EPSILON := 10
  const DAY := 86400

  /** When solve number `i` happens: just before the update, just after it, and then day by day. */
  function SolveTime(job: Job, i: nat): Time {
    if i == 0 then job.toTime - EPSILON else job.toTime + EPSILON + (i - 1) * DAY
  }

  function NextTime(initial: Time, current: Time): Option<Time> {
    if current + DAY - initial > 365 * DAY then None else Some(current + DAY)
  }

  /** The most recent version at a time, solved at that time. */
  datatype Attempt = NoVersion | Broken | Solution(version: Name, deps: map<Name, set<Ver>>)

  function Attempted(pack: Packument, dt: Time, solver: Solver): Attempt {
    match Restrict(pack, dt)
    case Restricted(tagged) =>
      (match solver(tagged.latest, dt)
       case SolveError => Broken
       case Solved(deps) => Solution(tagged.latest, deps))
    case _ => NoVersion
  }

  function UpdatesIn(deps: map<Name, set<Ver>>, package: Name): set<Ver> {
    if package in deps then deps[package] else {}
  }

  predicate AllOldGone(deps: map<Name, set<Ver>>, package: Name, old_: Ver)
    requires package in deps
  {
    forall v :: v in deps[package] ==> v > old_
  }

  /** The recorded solve is the one at its time. */
  ghost predicate Recorded(pack: Packument, job: Job, solver: Solver, i: nat, h: SolveResult) {
    var a := Attempted(pack, SolveTime(job, i), solver);
    a.Solution? && h == SolveResult(SolveTime(job, i), a.version, UpdatesIn(a.deps, job.updatePackage))
  }

  /** Solve number `i` finds the update everywhere. */
  predicate Updated(pack: Packument, job: Job, solver: Solver, i: nat) {
    var a := Attempted(pack, SolveTime(job, i), solver);
    a.Solution? && job.updatePackage in a.deps && AllOldGone(a.deps, job.updatePackage, job.from)
  }

  /** Solve number `i` still has an old version. */
  predicate StillOld(pack: Packument, job: Job, solver: Solver, i: nat) {
    var a := Attempted(pack, SolveTime(job, i), solver);
    a.Solution? && job.updatePackage in a.deps && !AllOldGone(a.deps, job.updatePackage, job.from)
  }

  /** How the solve before the update ends the job, if it does. */
  function FirstEnds(pack: Packument, job: Job, solver: Solver): Option<Result> {
    match Attempted(pack, SolveTime(job, 0), solver)
    case NoVersion => Some(MissingVersion)
    case Broken => Some(SolveFailed)
    case Solution(_, deps) =>
      if job.updatePackage !in deps then Some(FromMissingPackage)
      else if job.from !in deps[job.updatePackage] then Some(FromMissingVersion)
      else None
  }

  /** How solve number `i` after the update ends the job, if it does. */
  function SolveEnds(pack: Packument, job: Job, solver: Solver, i: nat): Option<Result> {
    match Attempted(pack, SolveTime(job, i), solver)
    case NoVersion => Some(MissingVersion)
    case Broken => Some(SolveFailed)
    case Solution(_, deps) =>
      if job.updatePackage !in deps then Some(RemovedDep)
      else if AllOldGone(deps, job.updatePackage, job.from) then Some(Done)
      else if i == 365 then Some(GaveUp)
      else None
  }

  /** Solve number `i` has the updated package. */
  predicate SolvedWith(pack: Packument, job: Job, solver: Solver, i: nat) {
    var a := Attempted(pack, SolveTime(job, i), solver);
    a.Solution? && job.updatePackage in a.deps
  }

  /** The first solve is just before the update, the others just after it and then a day apart, for less than a
      year. */
  lemma SolveTimes(job: Job, i: nat)
    ensures SolveTime(job, 0) < job.toTime < SolveTime(job, 1) && SolveTime(job, 1) - SolveTime(job, 0) == 20
    ensures i > 0 ==> SolveTime(job, i + 1) - SolveTime(job, i) == 24 * 60 * 60
    ensures SolveTime(job, i) - job.toTime <= 365 * 24 * 60 * 60 <==> i <= 365
  {
  }

  /** The solve lists a version up to `old_`. */
  predicate ListsOld(h: SolveResult, old_: Ver) {
    exists v :: v in h.updates && v <= old_
  }

  /** A solve with the package lists a version up to `old_` if and only if not all old ones are gone. */
  lemma OldIsListed(deps: map<Name, set<Ver>>, package: Name, old_: Ver, h: SolveResult)
    requires package in deps && h.updates == UpdatesIn(deps, package)
    ensures AllOldGone(deps, package, old_) <==> !ListsOld(h, old_)
  {
    if !AllOldGone(deps, package, old_) {
      var v :| v in deps[package] && v <= old_;
      assert v in h.updates;
    }
  }

  lemma StillOldGoesOn(pack: Packument, job: Job, solver: Solver)
    ensures forall i: nat ::
      StillOld(pack, job, solver, i) <==> SolveEnds(pack, job, solver, i) == if i == 365 then Some(GaveUp) else None
  {
  }

  /** `run_solve_job_result` on a parsed packument. Solve number `last` is the first that ends the job, and tells how:
      it is done when no old version is left, and gives up if and only if all the 365 solves after the update have
      one. History holds the solves in order of time. */
  method RunSolveJob(pack: Packument, job: Job, solver: Solver)
    returns (r: Result, history: seq<SolveResult>, ghost last: nat)
    requires PackOk(pack)
    ensures last <= 365 && |history| == if r == MissingVersion || r == SolveFailed then last else last + 1
    ensures last == 0 ==> FirstEnds(pack, job, solver) == Some(r)
    ensures last > 0 ==> FirstEnds(pack, job, solver) == None && SolveEnds(pack, job, solver, last) == Some(r)
    ensures forall i: nat :: 1 <= i < last ==> SolveEnds(pack, job, solver, i) == None
    ensures r == GaveUp
      <==> FirstEnds(pack, job, solver) == None && forall i: nat :: 1 <= i <= 365 ==> StillOld(pack, job, solver, i)
    ensures |history| <= 366 && forall i: nat :: i < |history| ==> Recorded(pack, job, solver, i, history[i])
    ensures r == Done ==> |history| >= 2 && Updated(pack, job, solver, |history| - 1)
    ensures forall i: nat :: 1 <= i < |history| - 1 ==> StillOld(pack, job, solver, i)
    ensures r == GaveUp ==> |history| == 366 && StillOld(pack, job, solver, 365)
    ensures r == RemovedDep ==> |history| >= 2 && history[|history| - 1].updates == {}
    ensures |history| >= 2 ==> job.from in history[0].updates
    ensures r == FromMissingPackage || r == FromMissingVersion ==> |history| == 1 && job.from !in history[0].updates
    ensures r == Done ==> SolvedWith(pack, job, solver, |history| - 1)
    ensures r == Done ==> !ListsOld(history[|history| - 1], job.from)
    ensures forall i: nat :: 1 <= i < |history| && (i < |history| - 1 || r == GaveUp) ==> ListsOld(history[i], job.from)
  {
    hide PackOk, Attempted, AllOldGone, ListsOld;
    StillOldGoesOn(pack, job, solver);
    history, last := [], 0;
    var initial := Attempted(pack, job.toTime - EPSILON, solver);
    match initial {
      case NoVersion => return MissingVersion, history, last;
      case Broken => return SolveFailed, history, last;
      case Solution(version, deps) =>
        history := [SolveResult(job.toTime - EPSILON, version, UpdatesIn(deps, job.updatePackage))];
        if job.from !in UpdatesIn(deps, job.updatePackage) {
          r := if job.updatePackage !in deps then FromMissingPackage else FromMissingVersion;
          return r, history, last;
        }
    }
    var dt := job.toTime + EPSILON;
    while true
      invariant 1 <= |history| <= 365 && dt == SolveTime(job, |history|)
      invariant forall i: nat :: i < |history| ==> Recorded(pack, job, solver, i, history[i])
      invariant forall i: nat :: 1 <= i < |history| ==> StillOld(pack, job, solver, i)
      invariant FirstEnds(pack, job, solver) == None && job.from in history[0].updates
      invariant forall i: nat :: 1 <= i < |history| ==> ListsOld(history[i], job.from)
      decreases 366 - |history|
    {
      last := |history|;
      var solve := Attempted(pack, dt, solver);
      match solve {
        case NoVersion => return MissingVersion, history, last;
        case Broken => return SolveFailed, history, last;
        case Solution(version, deps) =>
          history := history + [SolveResult(dt, version, UpdatesIn(deps, job.updatePackage))];
          if job.updatePackage !in deps {
            return RemovedDep, history, last;
          }
          OldIsListed(deps, job.updatePackage, job.from, history[|history| - 1]);
          if AllOldGone(deps, job.updatePackage, job.from) {
            return Done, history, last;
          }
      }
      var next := NextTime(job.toTime, dt);
      if next == None {
        return GaveUp, history, last;
      }
      dt := next.value;
    }
  }

  /** The times of the solves strictly increase, and so never do the chosen versions get older. */
  lemma HistoryGoesForward(pack: Packument, job: Job, solver: Solver, i: nat, j: nat)
    requires PackOk(pack) && i < j
    requires Attempted(pack, SolveTime(job, i), solver).Solution?
    requires Attempted(pack, SolveTime(job, j), solver).Solution?
    ensures SolveTime(job, i) < SolveTime(job, j)
    ensures Restrict(pack, SolveTime(job, i)).Restricted? && Restrict(pack, SolveTime(job, j)).Restricted?
    ensures Restrict(pack, SolveTime(job, i)).tagged.pack.modified
         <= Restrict(pack, SolveTime(job, j)).tagged.pack.modified
  {
    RestrictIsMonotone(pack, SolveTime(job, i), SolveTime(job, j));
  }

  /** Place `i` of the list is the last one published by the time. */
  predicate LastBy(times: seq<Published>, dt: Time, i: nat) {
    i < |times| && times[i].time <= dt && forall j :: i < j < |times| ==> times[j].time > dt
  }

  lemma LatestBy(pack: Packument, dt: Time) returns (i: nat)
    requires PackOk(pack) && Restrict(pack, dt).Restricted?
    ensures LastBy(pack.times, dt, i) && Restrict(pack, dt).tagged.latest == pack.times[i].version
  {
    RestrictIsExact(pack, dt);
    FirstBadIs(pack.times, dt);
    hide PackOk, Restrict, PublishedBy;
    i := FirstBad(pack.times, dt) - 1;
  }

  /** What the solver answers, as the outcome of a solve of this version. */
  function Answer(version: Name, solution: Solution): Attempt {
    match solution
    case SolveError => Broken
    case Solved(deps) => Solution(version, deps)
  }

  /** Each solve is of the last version published by its time, with the solver's answer for it at that time. */
  lemma AttemptIs(pack: Packument, dt: Time, solver: Solver)
    requires PackOk(pack)
    ensures Attempted(pack, dt, solver).NoVersion? <==> forall v :: !PublishedBy(pack, v, dt)
    ensures !Attempted(pack, dt, solver).NoVersion? ==> exists i: nat ::
      LastBy(pack.times, dt, i)
      && Attempted(pack, dt, solver) == Answer(pack.times[i].version, solver(pack.times[i].version, dt))
  {
    RestrictIsExact(pack, dt);
    hide PackOk, Restrict, PublishedBy, RestrictedTo, LastBy;
    if Restrict(pack, dt).Restricted? {
      var i := LatestBy(pack, dt);
      LastInRange(pack.times, dt, i);
    }
  }

  lemma LastInRange(times: seq<Published>, dt: Time, i: nat)
    requires LastBy(times, dt, i)
    ensures i < |times|
  {
  }
}
