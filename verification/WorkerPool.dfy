/** The pool of worker jobs, whose free workers are tokens in a channel (blob_idx_server/src/job/pool.rs). */
module WorkerPool {
  import opened Optional

  type JobId = nat

  datatype Status = Queued | Running

  /** The pool, and every place where a worker's token can be: in the channel, received by a `get_worker` that has not
      looked it up yet or that is checking the worker it found, in a guard, or about to be sent. `used` are all job
      ids that were ever handed out by the scheduler. */
  datatype State = State(pool: map<JobId, Status>, channel: seq<JobId>, received: multiset<JobId>,
                         checking: multiset<JobId>, guards: multiset<JobId>, sending: multiset<JobId>,
                         used: set<JobId>)

  /** How many tokens a job has. */
  function Tokens(s: State, id: JobId): nat {
    multiset(s.channel)[id] + s.received[id] + s.checking[id] + s.guards[id] + s.sending[id]
  }

  datatype Step =
    | Spawn(id: JobId)          // a worker is added to the pool
    | Deliver(id: JobId)        // a token is put into the channel
    | Receive                   // a `get_worker` takes a token
    | LookUp(id: JobId)         // it looks for the worker of its token; a stale token is dropped
    | HandOut(id: JobId)        // the worker runs, is young and has a network: it is handed out
    | WaitFailed(id: JobId)     // a queued worker could not be waited for: its token goes back
    | Retire(id: JobId)         // the worker is too old or has no network: it is removed, with its token
    | ReplaceGuarded(id: JobId) // the holder of a guard has its worker replaced
    | DropGuard(id: JobId)      // the holder releases the worker

  predicate Enabled(s: State, capacity: nat, step: Step) {
    match step
    case Spawn(id) => id !in s.used
    case Deliver(id) => id in s.sending && |s.channel| < capacity
    case Receive => s.channel != []
    case LookUp(id) => id in s.received
    case HandOut(id) => id in s.checking
    case WaitFailed(id) => id in s.checking
    case Retire(id) => id in s.checking
    case ReplaceGuarded(id) => id in s.guards
    case DropGuard(id) => id in s.guards
  }

  function After(s: State, step: Step): State
    requires step.Receive? ==> s.channel != []
  {
    match step
    case Spawn(id) => s.(pool := s.pool[id := Queued], sending := s.sending + multiset{id}, used := s.used + {id})
    case Deliver(id) => s.(sending := s.sending - multiset{id}, channel := s.channel + [id])
    case Receive => s.(channel := s.channel[1..], received := s.received + multiset{s.channel[0]})
    case LookUp(id) =>
      if id in s.pool then s.(received := s.received - multiset{id}, checking := s.checking + multiset{id})
      else s.(received := s.received - multiset{id})
    case HandOut(id) =>
      s.(checking := s.checking - multiset{id}, guards := s.guards + multiset{id}, pool := s.pool[id := Running])
    case WaitFailed(id) => s.(checking := s.checking - multiset{id}, sending := s.sending + multiset{id})
    case Retire(id) => s.(checking := s.checking - multiset{id}, pool := s.pool - {id})
    case ReplaceGuarded(id) => s.(pool := s.pool - {id})
    case DropGuard(id) => s.(guards := s.guards - multiset{id}, sending := s.sending + multiset{id})
  }

  const START: State := State(map[], [], multiset{}, multiset{}, multiset{}, multiset{}, {})

  /** A pooled worker has exactly one token, any other job at most one, and a checked worker is in the pool. */
  predicate JobOk(s: State, id: JobId) {
    && (if id in s.pool then Tokens(s, id) == 1 else Tokens(s, id) <= 1)
    && (id in s.pool || Tokens(s, id) > 0 ==> id in s.used)
    && (id in s.checking ==> id in s.pool)
  }

  ghost predicate Inv(s: State) {
    forall id: JobId :: JobOk(s, id)
  }

  lemma StartOk()
    ensures Inv(START)
  {
  }

  /** The job whose token a step makes, moves or destroys. */
  function Subject(s: State, step: Step): JobId
    requires step.Receive? ==> s.channel != []
  {
    if step.Receive? then s.channel[0] else step.id
  }

  lemma ChannelTokens(s: State, capacity: nat, step: Step, id: JobId)
    requires Enabled(s, capacity, step) && (step.Receive? || step.Deliver?)
    ensures Tokens(After(s, step), id) == Tokens(s, id)
  {
    if step.Receive? {
      assert s.channel == [s.channel[0]] + s.channel[1..];
    }
  }

  /** A spawn makes a token, dropping a stale one and retiring a worker destroy one, and all other steps move one. */
  lemma TokensAfter(s: State, capacity: nat, step: Step, id: JobId)
    requires Enabled(s, capacity, step)
    ensures Tokens(After(s, step), id) == Tokens(s, id) + if id == Subject(s, step) then Made(s, step) else 0
  {
    if step.Receive? || step.Deliver? {
      hide Tokens;
      ChannelTokens(s, capacity, step, id);
    } else {
      assert After(s, step).channel == s.channel;
    }
  }

  function Made(s: State, step: Step): int {
    match step
    case Spawn(_) => 1
    case LookUp(id) => if id in s.pool then 0 else -1
    case Retire(_) => -1
    case _ => 0
  }

  lemma StepKeeps(s: State, capacity: nat, step: Step)
    requires Inv(s) && Enabled(s, capacity, step)
    ensures Inv(After(s, step))
  {
    forall id: JobId ensures JobOk(After(s, step), id) {
      assert JobOk(s, id) && JobOk(s, Subject(s, step));
      TokensAfter(s, capacity, step, id);
    }
  }

  // ---------- Runs ----------

  predicate Possible(s: State, capacity: nat, steps: seq<Step>)
    decreases |steps|
  {
    steps == [] || (Enabled(s, capacity, steps[0]) && Possible(After(s, steps[0]), capacity, steps[1..]))
  }

  function Reached(s: State, capacity: nat, steps: seq<Step>): State
    requires Possible(s, capacity, steps)
    decreases |steps|
  {
    if steps == [] then s else Reached(After(s, steps[0]), capacity, steps[1..])
  }

  lemma {:induction false} RunKeeps(s: State, capacity: nat, steps: seq<Step>)
    requires Inv(s) && Possible(s, capacity, steps)
    ensures Inv(Reached(s, capacity, steps))
    decreases |steps|
  {
    if steps != [] {
      StepKeeps(s, capacity, steps[0]);
      RunKeeps(After(s, steps[0]), capacity, steps[1..]);
    }
  }

  /** No worker is ever held by two callers, and while one holds it no token of it is in the channel or on its way. */
  lemma Exclusive(capacity: nat, steps: seq<Step>, id: JobId)
    requires Possible(START, capacity, steps)
    ensures var s := Reached(START, capacity, steps);
      && s.received[id] + s.checking[id] + s.guards[id] <= 1
      && (id in s.guards ==> id !in s.channel && id !in s.sending && id !in s.checking && id !in s.received)
  {
    StartOk();
    RunKeeps(START, capacity, steps);
    var s := Reached(START, capacity, steps);
    assert JobOk(s, id);
    assert id in s.channel <==> multiset(s.channel)[id] > 0;
  }

  /** The worker's job was replaced: it was used and is not in the pool. */
  predicate Gone(s: State, id: JobId) {
    id in s.used && id !in s.pool
  }

  /** A replaced worker never comes back, and its stale token never yields it: nobody checks it, and no guard of it is
      ever made. */
  lemma {:induction false} GoneForever(s: State, capacity: nat, steps: seq<Step>, id: JobId)
    requires Inv(s) && Gone(s, id) && Possible(s, capacity, steps)
    ensures Gone(Reached(s, capacity, steps), id) && id !in Reached(s, capacity, steps).checking
    ensures Reached(s, capacity, steps).guards[id] <= s.guards[id]
    decreases |steps|
  {
    assert JobOk(s, id);
    if steps != [] {
      assert JobOk(s, Subject(s, steps[0]));
      StepKeeps(s, capacity, steps[0]);
      GoneForever(After(s, steps[0]), capacity, steps[1..], id);
    }
  }

  /** Tokens are never lost: the worker of each job in the pool can still be reached from the channel, a sender or a
      holder. */
  lemma NeverLost(capacity: nat, steps: seq<Step>, id: JobId)
    requires Possible(START, capacity, steps) && id in Reached(START, capacity, steps).pool
    ensures var s := Reached(START, capacity, steps);
      id in s.channel || id in s.sending || id in s.received || id in s.checking || id in s.guards
  {
    StartOk();
    RunKeeps(START, capacity, steps);
    assert JobOk(Reached(START, capacity, steps), id);
    assert id in Reached(START, capacity, steps).channel
      <==> multiset(Reached(START, capacity, steps).channel)[id] > 0;
  }

  lemma Steps1(s: State, capacity: nat, a: Step)
    requires Enabled(s, capacity, a)
    ensures Possible(s, capacity, [a]) && Reached(s, capacity, [a]) == After(s, a)
  {
    assert [a][1..] == [];
  }

  lemma {:induction false} StepsConcat(s: State, capacity: nat, a: seq<Step>, b: seq<Step>)
    requires Possible(s, capacity, a) && Possible(Reached(s, capacity, a), capacity, b)
    ensures Possible(s, capacity, a + b)
    ensures Reached(s, capacity, a + b) == Reached(Reached(s, capacity, a), capacity, b)
    decreases |a|
  {
    if a == [] {
      assert a + b == b;
    } else {
      assert (a + b)[1..] == a[1..] + b;
      StepsConcat(After(s, a[0]), capacity, a[1..], b);
    }
  }

  // ---------- The pool as an object ----------

  datatype SpawnResult = Spawned(id: JobId) | MaxWorkerJobsReached | CommandFailed

  /** What a call of the scheduler or of a worker answers: the id of a submitted job, whether a queued worker could be
      waited for, whether a running worker is too old, and whether its network is up. */
  datatype Answers = Answers(submitted: Option<JobId>, cancelled: bool, waited: bool, expired: bool, networkUp: bool)

  datatype Helped = Worker(id: JobId) | TryAgain | Failed

  class Pool {
    var pool: map<JobId, Status>
    var channel: seq<JobId>
    const maxWorkerJobs: nat
    ghost var rest: State

    /** The capacity of the channel. */
    function Capacity(): nat {
      if maxWorkerJobs > 1 then maxWorkerJobs else 1
    }

    ghost function Abs(): State
      reads this
    {
      rest.(pool := pool, channel := channel)
    }

    constructor (max: nat)
      ensures Abs() == START && maxWorkerJobs == max
    {
      pool, channel, maxWorkerJobs, rest := map[], [], max, START;
    }

    /** One step of the protocol on the ghost part of the state. */
    ghost method Advance(was: State, steps: seq<Step>, step: Step) returns (more: seq<Step>)
      requires Possible(was, Capacity(), steps)
      requires Enabled(Reached(was, Capacity(), steps), Capacity(), step)
      requires pool == After(Reached(was, Capacity(), steps), step).pool
      requires channel == After(Reached(was, Capacity(), steps), step).channel
      modifies this`rest
      ensures more == steps + [step] && Possible(was, Capacity(), more) && Abs() == Reached(was, Capacity(), more)
      ensures Abs() == After(Reached(was, Capacity(), steps), step)
    {
      Steps1(Reached(was, Capacity(), steps), Capacity(), step);
      StepsConcat(was, Capacity(), steps, [step]);
      more := steps + [step];
      rest := After(Reached(was, Capacity(), steps), step);
    }

    /** `spawn_worker`: at most `max_worker_jobs` workers; sending the token waits while the channel is full. */
    method SpawnWorker(submitted: Option<JobId>) returns (r: SpawnResult, ghost steps: seq<Step>)
      requires |channel| < Capacity() && (submitted.Some? ==> submitted.value !in rest.used)
      modifies this
      ensures r == if |old(pool)| >= maxWorkerJobs then MaxWorkerJobsReached
                   else if submitted == None then CommandFailed else Spawned(submitted.value)
      ensures Possible(old(Abs()), Capacity(), steps) && Abs() == Reached(old(Abs()), Capacity(), steps)
      ensures r.Spawned? ==> r.id in pool && r.id in channel
      ensures !r.Spawned? ==> steps == []
      ensures Abs().guards == old(Abs().guards)
    {
      steps := [];
      if |pool| >= maxWorkerJobs {
        return MaxWorkerJobsReached, steps;
      }
      if submitted == None {
        return CommandFailed, steps;
      }
      var id := submitted.value;
      pool := pool[id := Queued];
      steps := Advance(old(Abs()), steps, Spawn(id));
      channel := channel + [id];
      steps := Advance(old(Abs()), steps, Deliver(id));
      r := Spawned(id);
    }

    /** `replace_worker`, by the holder of a guard. */
    method ReplaceWorker(id: JobId, answers: Answers) returns (ok: bool, ghost steps: seq<Step>)
      requires id in rest.guards && |channel| < Capacity()
      requires answers.submitted.Some? ==> answers.submitted.value !in rest.used
      modifies this
      ensures Possible(old(Abs()), Capacity(), steps) && Abs() == Reached(old(Abs()), Capacity(), steps)
      ensures steps != [] && steps[0] == ReplaceGuarded(id)
      ensures ok ==> answers.submitted.Some? && answers.submitted.value in channel
    {
      pool := pool - {id};
      steps := Advance(old(Abs()), [], ReplaceGuarded(id));
      if !answers.cancelled {
        return false, steps;
      }
      ghost var before := steps;
      var r;
      ghost var spawn;
      r, spawn := SpawnWorker(answers.submitted);
      StepsConcat(old(Abs()), Capacity(), before, spawn);
      steps := before + spawn;
      ok := r.Spawned?;
    }

    /** A queued worker is waited for; if that fails its token goes back. */
    method WaitRunning(id: JobId, answers: Answers, ghost was: State, ghost before: seq<Step>)
      returns (r: Helped, ghost steps: seq<Step>)
      requires Possible(was, Capacity(), before) && Abs() == Reached(was, Capacity(), before)
      requires id in Abs().checking && |channel| < Capacity()
      modifies this
      ensures Possible(was, Capacity(), steps) && Abs() == Reached(was, Capacity(), steps)
      ensures r == if answers.waited then Worker(id) else Failed
      ensures r.Worker? ==> id in pool && pool[id] == Running && Abs().guards == old(Abs().guards) + multiset{id}
      ensures !r.Worker? ==> Abs().guards == old(Abs().guards)
    {
      if answers.waited {
        pool := pool[id := Running];
        steps := Advance(was, before, HandOut(id));
        r := Worker(id);
      } else {
        steps := Advance(was, before, WaitFailed(id));
        channel := channel + [id];
        steps := Advance(was, steps, Deliver(id));
        r := Failed;
      }
    }

    /** A running worker is handed out if it is young and has a network, and is replaced otherwise. */
    method CheckRunning(id: JobId, answers: Answers, ghost was: State, ghost before: seq<Step>)
      returns (r: Helped, ghost steps: seq<Step>)
      requires Possible(was, Capacity(), before) && Abs() == Reached(was, Capacity(), before)
      requires id in Abs().checking && |channel| < Capacity() && id in pool && pool[id] == Running
      requires answers.submitted.Some? ==> answers.submitted.value !in rest.used
      modifies this
      ensures Possible(was, Capacity(), steps) && Abs() == Reached(was, Capacity(), steps)
      ensures r == if !answers.expired && answers.networkUp then Worker(id) else TryAgain
      ensures r.Worker? ==> id in pool && pool[id] == Running && Abs().guards == old(Abs().guards) + multiset{id}
      ensures !r.Worker? ==> Abs().guards == old(Abs().guards)
    {
      if !answers.expired && answers.networkUp {
        assert pool == pool[id := Running];
        steps := Advance(was, before, HandOut(id));
        r := Worker(id);
      } else {
        pool := pool - {id};
        steps := Advance(was, before, Retire(id));
        if answers.cancelled {
          ghost var retired := steps;
          var spawned;
          ghost var spawn;
          spawned, spawn := SpawnWorker(answers.submitted);
          StepsConcat(was, Capacity(), retired, spawn);
          steps := retired + spawn;
        }
        r := TryAgain;
      }
    }

    /** One round of `get_worker`: a stale token is dropped, a queued worker is waited for, and a worker that is too
        old or has no network is replaced. Whatever is returned is in the pool, runs, and has a guard of its own. */
    method GetWorkerOnce(answers: Answers) returns (r: Helped, ghost steps: seq<Step>)
      requires Inv(Abs()) && channel != [] && |channel| <= Capacity()
      requires answers.submitted.Some? ==> answers.submitted.value !in rest.used
      modifies this
      ensures Possible(old(Abs()), Capacity(), steps) && Abs() == Reached(old(Abs()), Capacity(), steps) && Inv(Abs())
      ensures r.Worker? ==> r.id == old(channel)[0] && r.id in old(pool) && r.id in pool && pool[r.id] == Running
      ensures r.Worker? ==> Abs().guards == old(Abs().guards) + multiset{r.id}
      ensures !r.Worker? ==> Abs().guards == old(Abs().guards)
      ensures r == if old(channel)[0] !in old(pool) then TryAgain
                   else if old(pool)[old(channel)[0]] == Queued
                   then if answers.waited then Worker(old(channel)[0]) else Failed
                   else if !answers.expired && answers.networkUp then Worker(old(channel)[0]) else TryAgain
    {
      hide Inv;
      var id := channel[0];
      channel := channel[1..];
      steps := Advance(old(Abs()), [], Receive);
      steps := Advance(old(Abs()), steps, LookUp(id));
      if id !in pool {
        r := TryAgain;
      } else if pool[id] == Queued {
        r, steps := WaitRunning(id, answers, old(Abs()), steps);
      } else {
        r, steps := CheckRunning(id, answers, old(Abs()), steps);
      }
      RunKeeps(old(Abs()), Capacity(), steps);
    }

    /** Dropping a guard sends the token back. */
    method ReleaseGuard(id: JobId) returns (ghost steps: seq<Step>)
      requires id in rest.guards && |channel| < Capacity()
      modifies this
      ensures steps == [DropGuard(id), Deliver(id)]
      ensures Possible(old(Abs()), Capacity(), steps) && Abs() == Reached(old(Abs()), Capacity(), steps)
      ensures id in channel
    {
      steps := Advance(old(Abs()), [], DropGuard(id));
      channel := channel + [id];
      steps := Advance(old(Abs()), steps, Deliver(id));
    }
  }
}
