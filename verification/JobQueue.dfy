/** The durable job queue: idempotent enqueue, FIFO claim, retry with backoff, dead
    letters and requeue, and the workers that claim a job and settle it once. */
module JobQueue {
  import opened Wrappers

  datatype Status = Queued | Running | Done | Dead

  /** A row of `jobs`. Rows are never deleted, so a job's id is its position. */
  datatype Job = Job(kind: string, payload: string, status: Status, attempts: nat, maxAttempts: nat,
                     runAfter: int, key: string, lastError: Option<string>)

  /** A row of `jobs_dead`; `reprocessed` once the job has been requeued. */
  datatype Letter = Letter(job: nat, kind: string, payload: string, error: string, attempts: nat, reprocessed: bool)

  datatype Db = Db(jobs: seq<Job>, letters: seq<Letter>)

  datatype Result<T> = Ok(value: T) | InvalidInput | NoSuchJob

  const DEFAULT_MAX_ATTEMPTS: nat := 5

  const KINDS := {"extract", "summarize", "maintain", "reembed", "reeval"}

  // ---- the calls on values ---------------------------------------------------------------

  /** First job with this idempotency key, or `|jobs|`. */
  function KeyIndex(jobs: seq<Job>, key: string): (i: nat)
    ensures i <= |jobs|
    ensures i < |jobs| ==> jobs[i].key == key
    ensures forall k :: 0 <= k < i ==> jobs[k].key != key
  {
    if jobs == [] then 0 else if jobs[0].key == key then 0 else 1 + KeyIndex(jobs[1..], key)
  }

  function Enqueued(db: Db, kind: string, payload: string, key: string): (r: Db) {
    if kind !in KINDS || KeyIndex(db.jobs, key) < |db.jobs| then db
    else db.(jobs := db.jobs + [Job(kind, payload, Queued, 0, DEFAULT_MAX_ATTEMPTS, 0, key, None)])
  }

  predicate Ready(j: Job, now: int) {
    j.status == Queued && j.runAfter <= now
  }

  /** Lowest id whose job is queued and due, or `|jobs|`. */
  function FirstReady(jobs: seq<Job>, now: int): (i: nat)
    ensures i <= |jobs|
    ensures i < |jobs| ==> Ready(jobs[i], now)
    ensures forall k :: 0 <= k < i ==> !Ready(jobs[k], now)
  {
    if jobs == [] then 0 else if Ready(jobs[0], now) then 0 else 1 + FirstReady(jobs[1..], now)
  }

  function Claimed(db: Db, now: int): (r: Db) {
    var i := FirstReady(db.jobs, now);
    if i == |db.jobs| then db
    else db.(jobs := db.jobs[i := db.jobs[i].(status := Running, attempts := db.jobs[i].attempts + 1)])
  }

  function Completed(db: Db, id: nat): (r: Db) {
    if id < |db.jobs| then db.(jobs := db.jobs[id := db.jobs[id].(status := Done)]) else db
  }

  function Pow2(n: nat): (p: nat)
    ensures p >= 1
  {
    if n == 0 then 1 else 2 * Pow2(n - 1)
  }

  function RetryAt(attempts: nat, now: int): int {
    now + Pow2(if attempts < 10 then attempts else 10) * 1000
  }

  /** A retry is due strictly later: two seconds after the first attempt, twice as long after each
      further one, and never more than 1024 seconds. */
  lemma RetryBacksOff(attempts: nat, now: int)
    ensures RetryAt(attempts, now) > now && RetryAt(1, now) == now + 2_000
    ensures attempts < 10 ==> RetryAt(attempts + 1, now) - now == 2 * (RetryAt(attempts, now) - now)
    ensures attempts >= 10 ==> RetryAt(attempts, now) == now + 1_024_000
  {
    PowersOfTwo();
  }

  lemma PowersOfTwo()
    ensures Pow2(1) == 2 && Pow2(5) == 32 && Pow2(10) == 1024
  {
    assert Pow2(5) == 2 * Pow2(4) == 4 * Pow2(3) == 8 * Pow2(2) == 16 * Pow2(1);
    assert Pow2(10) == 2 * Pow2(9) == 4 * Pow2(8) == 8 * Pow2(7) == 16 * Pow2(6) == 32 * Pow2(5);
  }

  /** A failed job waits at least that long, with the error on record, until its attempts are used up;
      then it is dead and a letter carries its kind, payload, attempts and error. */
  lemma FailSettles(db: Db, id: nat, err: string, now: int)
    requires id < |db.jobs|
    ensures var j, u := db.jobs[id], Failed(db, id, err, now);
            && |u.jobs| == |db.jobs| && (forall k :: 0 <= k < |db.jobs| && k != id ==> u.jobs[k] == db.jobs[k])
            && u.jobs[id].lastError == Some(err) && u.jobs[id].attempts == j.attempts
            && (j.attempts < j.maxAttempts ==>
                  u.jobs[id].status == Queued && u.letters == db.letters
                  && forall t :: t <= now ==> !Ready(u.jobs[id], t))
            && (j.attempts >= j.maxAttempts ==>
                  u.jobs[id].status == Dead
                  && u.letters == db.letters + [Letter(id, j.kind, j.payload, err, j.attempts, false)])
  {
    RetryBacksOff(db.jobs[id].attempts, now);
  }

  function Failed(db: Db, id: nat, err: string, now: int): (r: Db) {
    if id >= |db.jobs| then db else
      var j := db.jobs[id];
      if j.attempts < j.maxAttempts then
        db.(jobs := db.jobs[id := j.(status := Queued, runAfter := RetryAt(j.attempts, now), lastError := Some(err))])
      else
        Db(db.jobs[id := j.(status := Dead, lastError := Some(err))],
           db.letters + [Letter(id, j.kind, j.payload, err, j.attempts, false)])
  }

  function CloseLetters(letters: seq<Letter>, id: nat): (r: seq<Letter>)
    ensures |r| == |letters|
    ensures forall k :: 0 <= k < |letters| ==>
              r[k] == if letters[k].job == id then letters[k].(reprocessed := true) else letters[k]
  {
    seq(|letters|, k requires 0 <= k < |letters| =>
      if letters[k].job == id then letters[k].(reprocessed := true) else letters[k])
  }

  function Requeued(db: Db, id: nat): (r: Db) {
    if id < |db.jobs| && db.jobs[id].status == Dead then
      Db(db.jobs[id := db.jobs[id].(status := Queued, attempts := 0, runAfter := 0, lastError := None)],
         CloseLetters(db.letters, id))
    else db
  }

  // ---- what the calls do -----------------------------------------------------------------

  lemma {:induction false} ClaimFindsFirst(jobs: seq<Job>, now: int, i: nat)
    requires i < |jobs| && jobs[i].status == Queued && jobs[i].runAfter <= now
    requires forall k :: 0 <= k < i ==> !(jobs[k].status == Queued && jobs[k].runAfter <= now)
    ensures FirstReady(jobs, now) == i
  {
    var f := FirstReady(jobs, now);
    assert Ready(jobs[i], now);
    assert f < |jobs| ==> Ready(jobs[f], now);
  }

  /** A claim takes the oldest job that is queued and due, marks it running and counts the attempt;
      when there is none it changes nothing. */
  lemma ClaimIsFifo(db: Db, now: int, i: nat)
    requires i < |db.jobs| ==> db.jobs[i].status == Queued && db.jobs[i].runAfter <= now
    requires forall k :: 0 <= k < i && k < |db.jobs| ==> !(db.jobs[k].status == Queued && db.jobs[k].runAfter <= now)
    ensures i >= |db.jobs| ==> Claimed(db, now) == db
    ensures i < |db.jobs| ==>
              var u := Claimed(db, now);
              && |u.jobs| == |db.jobs| && u.letters == db.letters
              && (forall k :: 0 <= k < |db.jobs| && k != i ==> u.jobs[k] == db.jobs[k])
              && u.jobs[i] == db.jobs[i].(status := Running, attempts := db.jobs[i].attempts + 1)
  {
    if i < |db.jobs| {
      ClaimFindsFirst(db.jobs, now, i);
    } else {
      var f := FirstReady(db.jobs, now);
      assert f < |db.jobs| ==> Ready(db.jobs[f], now);
    }
  }

  /** A new key of a known kind adds one job at the end, due at once, with five attempts; every other
      call changes nothing. */
  lemma EnqueueAdds(db: Db, kind: string, payload: string, key: string)
    ensures var known := kind in ["extract", "summarize", "maintain", "reembed", "reeval"];
            var taken := exists k :: 0 <= k < |db.jobs| && db.jobs[k].key == key;
            var u := Enqueued(db, kind, payload, key);
            if !known || taken then u == db
            else
              && u.letters == db.letters && |u.jobs| == |db.jobs| + 1 && db.jobs <= u.jobs
              && var j := u.jobs[|db.jobs|];
              && j.kind == kind && j.payload == payload && j.key == key && j.lastError == None
              && j.status == Queued && j.attempts == 0 && j.maxAttempts == 5 && j.runAfter == 0
  {
    var i := KeyIndex(db.jobs, key);
    assert i < |db.jobs| ==> db.jobs[i].key == key;
  }

  /** Requeueing a dead job starts it over, due at once, and closes its letters; any other job is
      left alone. */
  lemma RequeueRevives(db: Db, id: nat, k: nat)
    requires id < |db.jobs|
    ensures var j, u := db.jobs[id], Requeued(db, id);
            if j.status != Dead then u == db
            else
              && |u.jobs| == |db.jobs| && (k < |db.jobs| && k != id ==> u.jobs[k] == db.jobs[k])
              && u.jobs[id] == j.(status := Queued, attempts := 0, runAfter := 0, lastError := None)
              && |u.letters| == |db.letters|
              && (k < |db.letters| ==> u.letters[k] == if db.letters[k].job == id
                  then db.letters[k].(reprocessed := true)
                                                       else db.letters[k])
  {
  }

  /** Completing marks that one job done. */
  lemma CompleteIsDone(db: Db, id: nat)
    requires id < |db.jobs|
    ensures Completed(db, id).letters == db.letters
    ensures Completed(db, id).jobs == db.jobs[id := db.jobs[id].(status := Done)]
  {
  }

  // ---- the system: table and workers -----------------------------------------------------

  /** `held` maps each busy worker to the job it has claimed and not yet settled. */
  datatype System = System(db: Db, held: map<nat, nat>)

  datatype Event =
    | Enqueue(kind: string, payload: string, key: string)
    | Claim(worker: nat, now: int)
    | Settle(worker: nat, failure: Option<string>, now: int)
    | Crash(worker: nat)
    | Requeue(id: nat)

  /** A worker claims only when idle and settles only the job it holds; a crashed
      worker forgets its job without settling it. */
  function Step(s: System, e: Event): (r: System) {
    match e
    case Enqueue(kind, payload, key) => s.(db := Enqueued(s.db, kind, payload, key))
    case Claim(w, now) =>
      var i := FirstReady(s.db.jobs, now);
      if w in s.held || i == |s.db.jobs| then s else System(Claimed(s.db, now), s.held[w := i])
    case Settle(w, failure, now) =>
      if w !in s.held then s
      else System(if failure.None? then Completed(s.db, s.held[w]) else Failed(s.db, s.held[w], failure.value, now),
                  s.held - {w})
    case Crash(w) => s.(held := s.held - {w})
    case Requeue(id) => s.(db := Requeued(s.db, id))
  }

  function Run(s: System, events: seq<Event>): (r: System)
    decreases |events|
  {
    if events == [] then s else Run(Step(s, events[0]), events[1..])
  }

  const START := System(Db([], []), map[])

  // ---- the invariant of every run ----------------------------------------------------------

  ghost predicate JobOk(j: Job) {
    match j.status
    case Queued => j.attempts < j.maxAttempts
    case Running => 1 <= j.attempts <= j.maxAttempts
    case Done => 1 <= j.attempts <= j.maxAttempts
    case Dead => 1 <= j.attempts == j.maxAttempts
  }

  /** Dead letters of job `id` not yet reprocessed. */
  function OpenLetters(letters: seq<Letter>, id: nat): (n: nat) {
    if letters == [] then 0 else
      var n := |letters| - 1;
      OpenLetters(letters[..n], id) + if letters[n].job == id && !letters[n].reprocessed then 1 else 0
  }

  ghost predicate LettersOk(db: Db) {
    forall id: nat :: OpenLetters(db.letters, id) == if id < |db.jobs| && db.jobs[id].status == Dead then 1 else 0
  }

  ghost predicate DbOk(db: Db) {
    && (forall i :: 0 <= i < |db.jobs| ==> JobOk(db.jobs[i]))
    && (forall i, j :: 0 <= i < j < |db.jobs| ==> db.jobs[i].key != db.jobs[j].key)
    && LettersOk(db)
  }

  /** A running job is held by at most one worker, and only running jobs are held. */
  ghost predicate HeldOk(s: System) {
    && (forall w :: w in s.held ==> s.held[w] < |s.db.jobs| && s.db.jobs[s.held[w]].status == Running)
    && (forall v, w :: v in s.held && w in s.held && v != w ==> s.held[v] != s.held[w])
  }

  ghost predicate SystemOk(s: System) {
    DbOk(s.db) && HeldOk(s)
  }

  lemma OpenAfterPush(letters: seq<Letter>, l: Letter, id: nat)
    ensures OpenLetters(letters + [l], id) == OpenLetters(letters, id) + if l.job == id && !l.reprocessed then 1 else 0
  {
    assert (letters + [l])[..|letters|] == letters;
  }

  lemma {:induction false} OpenAfterClose(letters: seq<Letter>, closed: nat, id: nat)
    ensures OpenLetters(CloseLetters(letters, closed), id) == if id == closed then 0 else OpenLetters(letters, id)
  {
    if letters != [] {
      var n := |letters| - 1;
      OpenAfterClose(letters[..n], closed, id);
      assert CloseLetters(letters, closed)[..n] == CloseLetters(letters[..n], closed);
    }
  }

  lemma FailKeepsDb(db: Db, id: nat, err: string, now: int)
    requires DbOk(db) && id < |db.jobs| && db.jobs[id].status == Running
    ensures DbOk(Failed(db, id, err, now))
  {
    var j := db.jobs[id];
    forall x: nat {
      OpenAfterPush(db.letters, Letter(id, j.kind, j.payload, err, j.attempts, false), x);
    }
  }

  lemma RequeueKeepsDb(db: Db, id: nat)
    requires DbOk(db)
    ensures DbOk(Requeued(db, id))
  {
    forall x: nat {
      OpenAfterClose(db.letters, id, x);
    }
  }

  lemma EnqueueKeepsDb(db: Db, kind: string, payload: string, key: string)
    requires DbOk(db)
    ensures DbOk(Enqueued(db, kind, payload, key))
  {
  }

  /** Changing the status of a job that is not dead, to one that is not dead. */
  lemma UpdateKeepsDb(db: Db, id: nat, j: Job)
    requires DbOk(db) && id < |db.jobs| && db.jobs[id].status != Dead
    requires JobOk(j) && j.status != Dead && j.key == db.jobs[id].key
    ensures DbOk(db.(jobs := db.jobs[id := j]))
  {
  }

  lemma StepKeepsDb(s: System, e: Event)
    requires SystemOk(s)
    ensures DbOk(Step(s, e).db)
  {
    var db := s.db;
    match e {
      case Enqueue(kind, payload, key) => EnqueueKeepsDb(db, kind, payload, key);
      case Claim(w, now) =>
        var i := FirstReady(db.jobs, now);
        if i < |db.jobs| {
          assert JobOk(db.jobs[i]);
          UpdateKeepsDb(db, i, db.jobs[i].(status := Running, attempts := db.jobs[i].attempts + 1));
        }
      case Settle(w, failure, now) =>
        if w in s.held {
          assert JobOk(db.jobs[s.held[w]]);
          if failure.Some? {
            FailKeepsDb(db, s.held[w], failure.value, now);
          } else {
            UpdateKeepsDb(db, s.held[w], db.jobs[s.held[w]].(status := Done));
          }
        }
      case Crash(w) =>
      case Requeue(id) => RequeueKeepsDb(db, id);
    }
  }

  lemma StepKeepsHeld(s: System, e: Event)
    requires SystemOk(s)
    ensures HeldOk(Step(s, e))
  {
    match e {
      case Enqueue(kind, payload, key) =>
      case Claim(w, now) => ClaimKeepsHeld(s, w, now);
      case Settle(w, failure, now) => SettleKeepsHeld(s, w, failure, now);
      case Crash(w) =>
      case Requeue(id) =>
    }
  }

  lemma ClaimKeepsHeld(s: System, w: nat, now: int)
    requires HeldOk(s)
    ensures HeldOk(Step(s, Claim(w, now)))
  {
    hide FirstReady;
  }

  lemma SettleKeepsHeld(s: System, w: nat, failure: Option<string>, now: int)
    requires HeldOk(s)
    ensures HeldOk(Step(s, Settle(w, failure, now)))
  {
    hide RetryAt;
  }

  lemma StepKeepsSystem(s: System, e: Event)
    requires SystemOk(s)
    ensures SystemOk(Step(s, e))
  {
    StepKeepsDb(s, e);
    StepKeepsHeld(s, e);
  }

  lemma StartOk()
    ensures SystemOk(START)
  {
    assert forall id: nat :: OpenLetters([], id) == 0;
  }

  /** Every run from the empty queue keeps attempts in range for every status, one row
      per key, exactly one open dead letter per dead job, and one worker per running job. */
  lemma RunsFromStart(events: seq<Event>)
    ensures SystemOk(Run(START, events))
  {
    StartOk();
    RunsKeepSystem(START, events);
  }

  /** So does every run from a consistent system. */
  lemma {:induction false} RunsKeepSystem(s: System, events: seq<Event>)
    requires SystemOk(s)
    ensures SystemOk(Run(s, events))
    decreases |events|
  {
    if events != [] {
      StepKeepsSystem(s, events[0]);
      RunsKeepSystem(Step(s, events[0]), events[1..]);
    }
  }

  /** Rows and their keys are permanent: every later state extends the key list. */
  lemma {:induction false} KeysArePermanent(s: System, events: seq<Event>, i: nat)
    requires i < |s.db.jobs|
    ensures i < |Run(s, events).db.jobs| && Run(s, events).db.jobs[i].key == s.db.jobs[i].key
    decreases |events|
  {
    if events != [] {
      KeysArePermanent(Step(s, events[0]), events[1..], i);
    }
  }

  /** Enqueueing a known key, at any later time and whatever became of the job, changes
      nothing and answers with the original id. */
  lemma KnownKeyIsNoOp(s: System, events: seq<Event>, i: nat, kind: string, payload: string)
    requires SystemOk(s) && i < |s.db.jobs|
    ensures var t := Run(s, events);
            Step(t, Enqueue(kind, payload, s.db.jobs[i].key)) == t && KeyIndex(t.db.jobs, s.db.jobs[i].key) == i
  {
    RunsKeepSystem(s, events);
    KeysArePermanent(s, events, i);
    var t := Run(s, events);
    var k := KeyIndex(t.db.jobs, s.db.jobs[i].key);
    assert k <= i;
  }

  // ---- finiteness --------------------------------------------------------------------------

  /** Claims and settlements this job can still take without a requeue. */
  function Work(j: Job): (n: nat) {
    match j.status
    case Queued => if j.attempts < j.maxAttempts then 2 * (j.maxAttempts - j.attempts) else 0
    case Running => if j.attempts <= j.maxAttempts then 2 * (j.maxAttempts - j.attempts) + 1 else 1
    case Done => 0
    case Dead => 0
  }

  function TotalWork(jobs: seq<Job>): (n: nat) {
    if jobs == [] then 0 else TotalWork(jobs[..|jobs| - 1]) + Work(jobs[|jobs| - 1])
  }

  lemma {:induction false} WorkAfterUpdate(jobs: seq<Job>, i: nat, j: Job)
    requires i < |jobs|
    ensures TotalWork(jobs[i := j]) == TotalWork(jobs) - Work(jobs[i]) + Work(j)
  {
    var n := |jobs| - 1;
    if i < n {
      WorkAfterUpdate(jobs[..n], i, j);
      assert jobs[i := j][..n] == jobs[..n][i := j];
    } else {
      assert jobs[i := j][..n] == jobs[..n];
    }
  }

  /** A claim that finds a job, or a settlement by a busy worker. */
  predicate Effective(s: System, e: Event) {
    match e
    case Claim(w, now) => w !in s.held && FirstReady(s.db.jobs, now) < |s.db.jobs|
    case Settle(w, failure, now) => w in s.held
    case _ => false
  }

  predicate NoNewWork(e: Event) {
    !e.Enqueue? && !e.Requeue?
  }

  lemma EffectiveStepsDescend(s: System, e: Event)
    requires SystemOk(s) && NoNewWork(e)
    ensures TotalWork(Step(s, e).db.jobs) == TotalWork(s.db.jobs) - (if Effective(s, e) then SettledWork(s, e) else 0)
    ensures Effective(s, e) ==> SettledWork(s, e) >= 1
  {
    hide LettersOk, HeldOk, RetryAt, TotalWork;
    match e {
      case Claim(w, now) =>
        if Effective(s, e) {
          var i := FirstReady(s.db.jobs, now);
          WorkAfterUpdate(s.db.jobs, i, s.db.jobs[i].(status := Running, attempts := s.db.jobs[i].attempts + 1));
        }
      case Settle(w, failure, now) => SettleDescends(s, w, failure, now);
      case Crash(w) =>
    }
  }

  lemma SettleDescends(s: System, w: nat, failure: Option<string>, now: int)
    requires SystemOk(s)
    ensures var e := Settle(w, failure, now);
            && TotalWork(Step(s, e).db.jobs)
                == TotalWork(s.db.jobs) - (if Effective(s, e) then SettledWork(s, e) else 0)
            && (Effective(s, e) ==> SettledWork(s, e) >= 1)
  {
    hide LettersOk, RetryAt, TotalWork;
    if w in s.held {
      var i := s.held[w];
      assert JobOk(s.db.jobs[i]);
      WorkAfterUpdate(s.db.jobs, i, Step(s, Settle(w, failure, now)).db.jobs[i]);
    }
  }

  /** Work an effective event uses up: one unit, except that completing a job also
      drops its remaining retries. */
  function SettledWork(s: System, e: Event): (n: int) {
    match e
    case Settle(w, failure, now) =>
      if w in s.held && s.held[w] < |s.db.jobs| && failure.None? then Work(s.db.jobs[s.held[w]]) else 1
    case _ => 1
  }

  ghost predicate Changed(s: System, events: seq<Event>, k: nat)
    requires k < |events|
  {
    Run(s, events[..k + 1]).db != Run(s, events[..k]).db
  }

  /** Which of the first `n` events changed the table. */
  ghost function Changes(s: System, events: seq<Event>, n: nat): (at: set<nat>)
    requires n <= |events|
  {
    set k: nat | k < n && Changed(s, events, k)
  }

  lemma ChangesNext(s: System, events: seq<Event>, n: nat)
    requires 0 < n <= |events|
    ensures |Changes(s, events, n)| == |Changes(s, events, n - 1)| + (if Changed(s, events, n - 1) then 1 else 0)
  {
    hide Changed;
    if Changed(s, events, n - 1) {
      assert Changes(s, events, n) == Changes(s, events, n - 1) + {n - 1};
    } else {
      assert Changes(s, events, n) == Changes(s, events, n - 1);
    }
  }

  lemma ChangeIsEffective(s: System, e: Event)
    requires SystemOk(s) && NoNewWork(e) && Step(s, e).db != s.db
    ensures Effective(s, e)
  {
  }

  lemma {:induction false} RunSnoc(s: System, events: seq<Event>, e: Event)
    ensures Run(s, events + [e]) == Step(Run(s, events), e)
    decreases |events|
  {
    if events == [] {
      assert Run(Step(s, e), []) == Step(s, e);
    } else {
      RunSnoc(Step(s, events[0]), events[1..], e);
      assert (events + [e])[1..] == events[1..] + [e];
    }
  }

  /** Without enqueue or requeue, the table changes at most `TotalWork` times: so many claims and
      settlements happen, in any order, by any number of workers, with any crashes. */
  lemma {:induction false} WorkIsFinite(s: System, events: seq<Event>, n: nat)
    requires SystemOk(s) && n <= |events| && forall k :: 0 <= k < |events| ==> NoNewWork(events[k])
    ensures |Changes(s, events, n)| + TotalWork(Run(s, events[..n]).db.jobs) <= TotalWork(s.db.jobs)
  {
    if n == 0 {
      assert Changes(s, events, 0) == {};
    } else {
      hide SystemOk, Effective, TotalWork, Step, SettledWork, Run, Changes;
      WorkIsFinite(s, events, n - 1);
      var before, e := Run(s, events[..n - 1]), events[n - 1];
      RunsKeepSystem(s, events[..n - 1]);
      RunSnoc(s, events[..n - 1], e);
      assert events[..n - 1] + [e] == events[..n];
      EffectiveStepsDescend(before, e);
      ChangesNext(s, events, n);
      if Changed(s, events, n - 1) {
        ChangeIsEffective(before, e);
      }
    }
  }

  // ---- where the guarantee ends ----------------------------------------------------------

  /** `fail` itself does not look at the status. Called for any row at any moment, it
      keeps the system consistent exactly when the job is not already dead (a second
      dead letter would be opened) and no worker holds it. */
  lemma FailIsSafeExactly(s: System, id: nat, err: string, now: int)
    requires SystemOk(s) && id < |s.db.jobs|
    ensures SystemOk(s.(db := Failed(s.db, id, err, now))) <==>
              s.db.jobs[id].status != Dead && forall w :: w in s.held ==> s.held[w] != id
  {
    var db := s.db;
    var j := db.jobs[id];
    var after := Failed(db, id, err, now);
    assert JobOk(j);
    assert after.jobs[id].status != Running;
    if j.attempts < j.maxAttempts {
      UpdateKeepsDb(db, id, after.jobs[id]);
    } else {
      forall x: nat {
        OpenAfterPush(db.letters, Letter(id, j.kind, j.payload, err, j.attempts, false), x);
      }
      assert j.status == Dead ==> OpenLetters(after.letters, id) == 2;
      assert j.status != Dead ==> LettersOk(after);
    }
    if w :| w in s.held && s.held[w] == id {
      assert !HeldOk(s.(db := after));
    }
  }

  /** Neither does `complete`: it keeps the system consistent exactly for a job that has been
      attempted, is not dead (its letter would stay open) and that no worker holds. */
  lemma CompleteIsSafeExactly(s: System, id: nat)
    requires SystemOk(s) && id < |s.db.jobs|
    ensures SystemOk(s.(db := Completed(s.db, id))) <==>
              && s.db.jobs[id].status != Dead && s.db.jobs[id].attempts >= 1
              && forall w :: w in s.held ==> s.held[w] != id
  {
    var after := Completed(s.db, id);
    assert JobOk(s.db.jobs[id]);
    assert after.jobs[id].status == Done;
    if s.db.jobs[id].status == Dead {
      assert OpenLetters(after.letters, id) == 1;
      assert !LettersOk(after);
    } else if s.db.jobs[id].attempts >= 1 {
      UpdateKeepsDb(s.db, id, after.jobs[id]);
    } else {
      assert !JobOk(after.jobs[id]);
    }
    if w :| w in s.held && s.held[w] == id {
      assert !HeldOk(s.(db := after));
    }
  }

  lemma RunTwo(a: Event, b: Event)
    ensures Run(START, [a]) == Step(START, a) && Run(START, [a, b]) == Step(Step(START, a), b)
  {
    hide Step;
    assert [a, b][1..] == [b] && [b][1..] == [] && [a][1..] == [];
    assert Run(Step(START, a), [b]) == Run(Step(Step(START, a), b), []);
  }

  /** Both conditions fail on reachable systems. Failing a job while worker 1 holds it puts it
      back in the queue, and worker 2 then claims the job worker 1 is still running; completing a
      job nobody has claimed marks it done with no attempt. */
  lemma UnsafeCalls()
    ensures var enqueue := Enqueue("extract", "p", "key");
            var claimed := Run(START, [enqueue, Claim(1, 0)]);
            var failed := claimed.(db := Failed(claimed.db, 0, "late", 0));
            var twice := Step(failed, Claim(2, 2000));
            && !SystemOk(failed) && 1 in twice.held && 2 in twice.held && twice.held[1] == twice.held[2]
    ensures var queued := Run(START, [Enqueue("extract", "p", "key")]);
            |queued.db.jobs| == 1 && !SystemOk(queued.(db := Completed(queued.db, 0)))
  {
    var enqueue := Enqueue("extract", "p", "key");
    RunTwo(enqueue, Claim(1, 0));
    var claimed := Run(START, [enqueue, Claim(1, 0)]);
    var queued := Run(START, [enqueue]);
    assert queued.db.jobs == [Job("extract", "p", Queued, 0, DEFAULT_MAX_ATTEMPTS, 0, "key", None)];
    assert FirstReady(queued.db.jobs, 0) == 0;
    RunsFromStart([enqueue]);
    RunsFromStart([enqueue, Claim(1, 0)]);
    FailIsSafeExactly(claimed, 0, "late", 0);
    CompleteIsSafeExactly(queued, 0);
    var failed := Failed(claimed.db, 0, "late", 0);
    assert RetryAt(1, 0) == 2000;
    assert FirstReady(failed.jobs, 2000) == 0;
  }

  // ---- the table itself ------------------------------------------------------------------------

  class JobTable {
    var jobs: seq<Job>
    var letters: seq<Letter>

    ghost function State(): Db
      reads this
    {
      Db(jobs, letters)
    }

    constructor ()
      ensures State() == Db([], [])
    {
      jobs := [];
      letters := [];
    }

    method Enqueue(kind: string, payload: string, key: Option<string>, derive: (string, string) -> string)
      returns (r: Result<nat>)
      modifies this
      ensures State() == Enqueued(old(State()), kind, payload, if key.Some? then key.value else derive(kind, payload))
      ensures r.InvalidInput? <==> kind !in KINDS
      ensures r.Ok? ==> r.value < |jobs| && jobs[r.value].key == if key.Some? then key.value else derive(kind, payload)
      ensures !r.NoSuchJob?
    {
      if kind !in KINDS {
        return InvalidInput;
      }
      var k := if key.Some? then key.value else derive(kind, payload);
      var i := 0;
      while i < |jobs| && jobs[i].key != k
        invariant i <= |jobs|
        invariant forall x :: 0 <= x < i ==> jobs[x].key != k
      {
        i := i + 1;
      }
      assert KeyIndex(jobs, k) == i by {
        assert KeyIndex(jobs, k) < |jobs| ==> jobs[KeyIndex(jobs, k)].key == k;
      }
      if i < |jobs| {
        return Ok(i);
      }
      jobs := jobs + [Job(kind, payload, Queued, 0, DEFAULT_MAX_ATTEMPTS, 0, k, None)];
      return Ok(|jobs| - 1);
    }

    /** The oldest due job, marked running; `None` when idle. */
    method ClaimNext(now: int) returns (id: Option<nat>)
      modifies this
      ensures State() == Claimed(old(State()), now)
      ensures id == if FirstReady(old(jobs), now) < |old(jobs)| then Some(FirstReady(old(jobs), now)) else None
    {
      var i := 0;
      while i < |jobs| && !Ready(jobs[i], now)
        invariant i <= |jobs|
        invariant forall x :: 0 <= x < i ==> !Ready(jobs[x], now)
      {
        i := i + 1;
      }
      assert FirstReady(jobs, now) == i by {
        assert FirstReady(jobs, now) < |jobs| ==> Ready(jobs[FirstReady(jobs, now)], now);
      }
      if i == |jobs| {
        return None;
      }
      jobs := jobs[i := jobs[i].(status := Running, attempts := jobs[i].attempts + 1)];
      return Some(i);
    }

    method Complete(id: nat)
      modifies this
      ensures State() == Completed(old(State()), id)
    {
      if id < |jobs| {
        jobs := jobs[id := jobs[id].(status := Done)];
      }
    }

    method Fail(id: nat, err: string, now: int) returns (r: Result<()>)
      modifies this
      ensures State() == Failed(old(State()), id, err, now)
      ensures r == if id < |old(jobs)| then Ok(()) else NoSuchJob
    {
      if id >= |jobs| {
        return NoSuchJob;
      }
      var j := jobs[id];
      if j.attempts < j.maxAttempts {
        jobs := jobs[id := j.(status := Queued, runAfter := RetryAt(j.attempts, now), lastError := Some(err))];
      } else {
        letters := letters + [Letter(id, j.kind, j.payload, err, j.attempts, false)];
        jobs := jobs[id := j.(status := Dead, lastError := Some(err))];
      }
      return Ok(());
    }

    method RequeueDead(id: nat) returns (r: Result<()>)
      modifies this
      ensures State() == Requeued(old(State()), id)
      ensures r.Ok? <==> id < |old(jobs)| && old(jobs)[id].status == Dead
    {
      if id >= |jobs| || jobs[id].status != Dead {
        return InvalidInput;
      }
      jobs := jobs[id := jobs[id].(status := Queued, attempts := 0, runAfter := 0, lastError := None)];
      letters := CloseLetters(letters, id);
      return Ok(());
    }

    /** One turn of the worker loop: claim, run the handler of the job's kind, then
        exactly one of complete or fail; an unknown kind fails. */
    method WorkerTurn(handlers: map<string, Job -> Option<string>>, now: int) returns (id: Option<nat>)
      modifies this
      ensures id == if FirstReady(old(jobs), now) < |old(jobs)| then Some(FirstReady(old(jobs), now)) else None
      ensures id.None? ==> State() == old(State())
      ensures id.Some? ==>
                var db := Claimed(old(State()), now);
                var j := db.jobs[id.value];
                State() == if j.kind in handlers && handlers[j.kind](j).None? then Completed(db, id.value)
                           else if j.kind in handlers then Failed(db, id.value, handlers[j.kind](j).value, now)
                           else Failed(db, id.value, "no handler for job kind", now)
    {
      id := ClaimNext(now);
      if id.None? {
        return;
      }
      var j := jobs[id.value];
      var failure := if j.kind in handlers then handlers[j.kind](j) else Some("no handler for job kind");
      if failure.None? {
        Complete(id.value);
      } else {
        var _ := Fail(id.value, failure.value, now);
      }
    }
  }
}
