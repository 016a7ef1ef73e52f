/** The single-writer actor: callers queue closures on a bounded channel, one thread runs
    them in order and answers through two capacity-1 channels, callers may give up, closures
    may panic, and a shutdown message ends the thread. Every interleaving is a run of
    the steps below. */
module Writer {
  import opened Wrappers

  datatype Msg = Job(id: nat) | Shutdown

  /** Where the writer thread is: between messages, in a closure, about to send the
      closure's own reply, or about to send its own. */
  datatype Phase = Idle | Running(id: nat) | Replying(id: nat) | Settling(id: nat, ok: bool) | Stopped

  datatype Outcome = Value(v: int) | Panicked | TimedOut | Disconnected | Rejected

  datatype Call = Waiting | Reading | Returned(outcome: Outcome)

  /** `replies` and `results` are the filled capacity-1 channels; `accepted`, `executed` and
      `mark` (jobs accepted before the first shutdown message) record the run. */
  datatype System = System(
    queue: seq<Msg>, phase: Phase, open: bool, healthy: bool, calls: map<nat, Call>,
    replies: map<nat, bool>, results: map<nat, int>, accepted: seq<nat>, executed: seq<nat>, mark: Option<nat>)

  /** What each closure does: return a value or panic. */
  type Closures = nat -> Option<int>

  const START := System([], Idle, true, true, map[], map[], map[], [], [], None)

  datatype Event =
    | Accept(id: nat) | Reject(id: nat) | RequestStop | Close
    | Pop | Finish | Execute | Reply | Settle
    | Receive(id: nat) | Read(id: nat) | Timeout(id: nat) | Disconnect(id: nat)

  // ---- steps ----------------------------------------------------------------------------------

  predicate Waits(calls: map<nat, Call>, id: nat) {
    id in calls && calls[id] == Waiting
  }

  /** The caller still holds its receivers. */
  predicate Listening(calls: map<nat, Call>, id: nat) {
    id in calls && !calls[id].Returned?
  }

  predicate Busy(phase: Phase) {
    phase.Running? || phase.Replying? || phase.Settling?
  }

  /** Some sender of the reply channel is alive: in a queued job or with the writer. */
  predicate HasSender(queue: seq<Msg>, phase: Phase, id: nat) {
    Job(id) in queue || (Busy(phase) && phase.id == id)
  }

  predicate Enabled(s: System, e: Event, capacity: nat) {
    match e
    case Accept(id) => s.open && s.phase != Stopped && |s.queue| < capacity && id !in s.calls
    case Reject(id) => s.open && (s.phase == Stopped || |s.queue| >= capacity) && id !in s.calls
    case RequestStop => s.open && s.phase != Stopped && |s.queue| < capacity
    case Close => s.open
    case Pop => s.phase == Idle && s.queue != []
    case Finish => s.phase == Idle && s.queue == [] && !s.open
    case Execute => s.phase.Running?
    case Reply => s.phase.Replying?
    case Settle => s.phase.Settling? && (!Listening(s.calls, s.phase.id) || s.phase.id !in s.replies)
    case Receive(id) => Waits(s.calls, id) && id in s.replies
    case Read(id) => id in s.calls && s.calls[id] == Reading
    case Timeout(id) => Waits(s.calls, id)
    case Disconnect(id) => Waits(s.calls, id) && id !in s.replies && !HasSender(s.queue, s.phase, id)
  }

  /** The caller returns and drops its receivers, buffered replies with them. */
  function Return(s: System, id: nat, outcome: Outcome): System {
    s.(calls := s.calls[id := Returned(outcome)], replies := s.replies - {id})
  }

  /** Leaving the loop drops the receiver and every message still queued. */
  function Stop(s: System): System {
    s.(phase := Stopped, queue := [], healthy := false)
  }

  function Apply(s: System, e: Event, f: Closures, capacity: nat): System
    requires Enabled(s, e, capacity)
  {
    match e
    case Accept(id) => s.(queue := s.queue + [Job(id)], calls := s.calls[id := Waiting], accepted := s.accepted + [id])
    case Reject(id) => s.(calls := s.calls[id := Returned(Rejected)])
    case RequestStop => s.(queue := s.queue + [Shutdown], mark := if s.mark.None? then Some(|s.accepted|) else s.mark)
    case Close => s.(open := false)
    case Pop =>
      (match s.queue[0]
       case Job(id) => s.(queue := s.queue[1..], phase := Running(id), executed := s.executed + [id])
       case Shutdown => Stop(s))
    case Finish => Stop(s)
    case Execute =>
      var id := s.phase.id;
      (match f(id)
       case Some(v) => s.(phase := Replying(id), results := s.results[id := v])
       case None => s.(phase := Settling(id, false), healthy := false))
    case Reply =>
      var id := s.phase.id;
      s.(phase := Settling(id, true), replies := if Listening(s.calls, id) then s.replies[id := true] else s.replies)
    case Settle =>
      var id := s.phase.id;
      s.(phase := Idle, replies := if Listening(s.calls, id) then s.replies[id := s.phase.ok] else s.replies)
    case Receive(id) =>
      if s.replies[id] then s.(calls := s.calls[id := Reading], replies := s.replies - {id})
          else Return(s, id, Panicked)
    case Read(id) => Return(s, id, if id in s.results then Value(s.results[id]) else Disconnected)
    case Timeout(id) => Return(s, id, TimedOut)
    case Disconnect(id) => Return(s, id, Disconnected)
  }

  ghost predicate IsRun(states: seq<System>, events: seq<Event>, f: Closures, capacity: nat) {
    && |states| == |events| + 1 && states[0] == START
    && (forall k :: 0 <= k < |events| ==>
          Enabled(states[k], events[k], capacity) && states[k + 1] == Apply(states[k], events[k], f, capacity))
  }

  // ---- order ------------------------------------------------------------------------------------

  function Jobs(queue: seq<Msg>): (ids: seq<nat>) {
    if queue == [] then [] else
      (if queue[0].Job? then [queue[0].id] else []) + Jobs(queue[1..])
  }

  /** Jobs in front of the first shutdown message. */
  function JobsBefore(queue: seq<Msg>): (ids: seq<nat>) {
    if queue == [] || queue[0] == Shutdown then [] else [queue[0].id] + JobsBefore(queue[1..])
  }

  lemma JobsSnoc(queue: seq<Msg>, m: Msg)
    ensures Jobs(queue + [m]) == Jobs(queue) + (if m.Job? then [m.id] else [])
    ensures JobsBefore(queue + [m]) ==
            if Shutdown in queue || m == Shutdown then JobsBefore(queue) else JobsBefore(queue) + [m.id]
    ensures Shutdown !in queue ==> JobsBefore(queue) == Jobs(queue)
  {
    hide Jobs, JobsBefore;
    JobsAppend(queue, m);
    JobsBeforeAppend(queue, m);
    if Shutdown !in queue {
      AllBeforeShutdown(queue);
    }
  }

  lemma {:induction false} JobsAppend(queue: seq<Msg>, m: Msg)
    ensures Jobs(queue + [m]) == Jobs(queue) + (if m.Job? then [m.id] else [])
  {
    if queue == [] {
      assert (queue + [m])[1..] == [];
    } else {
      JobsAppend(queue[1..], m);
      assert (queue + [m])[1..] == queue[1..] + [m];
    }
  }

  lemma {:induction false} JobsBeforeAppend(queue: seq<Msg>, m: Msg)
    ensures JobsBefore(queue + [m]) ==
            if Shutdown in queue || m == Shutdown then JobsBefore(queue) else JobsBefore(queue) + [m.id]
  {
    if queue == [] {
      assert (queue + [m])[1..] == [];
    } else if queue[0] != Shutdown {
      JobsBeforeAppend(queue[1..], m);
      assert (queue + [m])[1..] == queue[1..] + [m];
      assert Shutdown in queue <==> Shutdown in queue[1..] by {
        assert queue == [queue[0]] + queue[1..];
      }
    }
  }

  lemma {:induction false} AllBeforeShutdown(queue: seq<Msg>)
    requires Shutdown !in queue
    ensures JobsBefore(queue) == Jobs(queue)
  {
    if queue != [] {
      AllBeforeShutdown(queue[1..]);
    }
  }

  lemma {:induction false} JobsMember(queue: seq<Msg>, id: nat)
    ensures Job(id) in queue <==> id in Jobs(queue)
  {
    if queue != [] {
      JobsMember(queue[1..], id);
      assert queue == [queue[0]] + queue[1..];
    }
  }

  ghost predicate Distinct(s: seq<nat>) {
    forall i, j :: 0 <= i < j < |s| ==> s[i] != s[j]
  }

  predicate Ran(executed: seq<nat>, id: nat) {
    id in executed
  }

  lemma RanSnoc(executed: seq<nat>, id: nat, x: nat)
    ensures Ran(executed + [id], x) <==> Ran(executed, x) || x == id
  {
  }

  /** Closures run in accepted order; with a shutdown message queued, those accepted
      before it are exactly what is left to run. */
  ghost predicate Ordered(accepted: seq<nat>, executed: seq<nat>, queue: seq<Msg>, mark: Option<nat>, stopped: bool) {
    && Distinct(accepted)
    && (!stopped ==> accepted == executed + Jobs(queue))
    && (stopped ==> queue == [] && executed <= accepted)
    && (mark.None? ==> Shutdown !in queue && (stopped ==> executed == accepted))
    && (mark.Some? ==>
          && mark.value <= |accepted|
          && (!stopped ==> Shutdown in queue && executed + JobsBefore(queue) == accepted[..mark.value])
          && (stopped ==> executed == accepted[..mark.value]))
  }

  /** Accepted calls are known and only those can be waiting or answered. */
  ghost predicate Tracked(accepted: seq<nat>, calls: map<nat, Call>) {
    && (forall id :: Ran(accepted, id) ==> id in calls)
    && (forall id :: id in calls ==> Ran(accepted, id) || calls[id] == Returned(Rejected))
  }

  /** What the channels hold is what the closure of that call produced. */
  ghost predicate Faithful(results: map<nat, int>, replies: map<nat, bool>, phase: Phase, executed: seq<nat>,
                           f: Closures) {
    && (forall id :: id in results ==> Ran(executed, id) && f(id) == Some(results[id]))
    && (forall id :: id in replies ==> Ran(executed, id) && replies[id] == f(id).Some?)
    && (forall id :: id in replies ==> phase != Running(id) && phase != Replying(id) && phase != Settling(id, false))
    && (forall id :: Ran(executed, id) && f(id).Some? ==> id in results || phase == Running(id))
    && (Busy(phase) ==> Ran(executed, phase.id))
    && (phase.Settling? ==> phase.ok == f(phase.id).Some?)
    && (phase.Replying? ==> f(phase.id).Some?)
  }

  /** What a caller was told is true; one still waiting for a closure that has finished
      has its reply buffered. */
  ghost predicate CallOk(call: Call, id: nat, replies: map<nat, bool>, phase: Phase, executed: seq<nat>,
                         accepted: seq<nat>, f: Closures) {
    match call
    case Waiting =>
      Ran(executed, id) ==>
        id in replies || phase == Running(id) || phase == Replying(id) || phase == Settling(id, false)
    case Reading =>
      && Ran(executed, id) && f(id).Some? && phase != Running(id) && phase != Replying(id)
      && (phase == Settling(id, true) ==> id !in replies)
    case Returned(outcome) =>
      match outcome
      case Value(v) => Ran(executed, id) && f(id) == Some(v)
      case Panicked => Ran(executed, id) && f(id) == None
      case TimedOut => true
      case Disconnected => !Ran(executed, id) && phase == Stopped
      case Rejected => !Ran(accepted, id)
  }

  ghost predicate Answered(s: System, f: Closures) {
    forall id :: id in s.calls ==> CallOk(s.calls[id], id, s.replies, s.phase, s.executed, s.accepted, f)
  }

  /** Healthy until a closure panics or the thread ends. */
  ghost predicate HealthTrue(healthy: bool, phase: Phase, executed: seq<nat>, f: Closures) {
    healthy <==> phase != Stopped && forall id :: Ran(executed, id) ==> f(id).Some? || phase == Running(id)
  }

  ghost predicate WriterOk(s: System, f: Closures) {
    && Ordered(s.accepted, s.executed, s.queue, s.mark, s.phase == Stopped)
    && Tracked(s.accepted, s.calls)
    && Faithful(s.results, s.replies, s.phase, s.executed, f)
    && Answered(s, f)
    && HealthTrue(s.healthy, s.phase, s.executed, f)
  }

  // ---- every step keeps it ------------------------------------------------------------------------

  lemma OrderAfterAccept(accepted: seq<nat>, executed: seq<nat>, queue: seq<Msg>, mark: Option<nat>, id: nat)
    requires Ordered(accepted, executed, queue, mark, false) && !Ran(accepted, id)
    ensures Ordered(accepted + [id], executed, queue + [Job(id)], mark, false)
  {
    JobsSnoc(queue, Job(id));
    assert executed + (Jobs(queue) + [id]) == (executed + Jobs(queue)) + [id];
    if mark.Some? {
      assert (accepted + [id])[..mark.value] == accepted[..mark.value];
    }
  }

  lemma OrderAfterRequest(accepted: seq<nat>, executed: seq<nat>, queue: seq<Msg>, mark: Option<nat>)
    requires Ordered(accepted, executed, queue, mark, false)
    ensures Ordered(accepted, executed, queue + [Shutdown], if mark.None? then Some(|accepted|) else mark, false)
  {
    JobsSnoc(queue, Shutdown);
    assert accepted[..|accepted|] == accepted;
    assert Jobs(queue) + [] == Jobs(queue);
  }

  lemma NextIsFresh(accepted: seq<nat>, executed: seq<nat>, id: nat, rest: seq<nat>)
    requires Distinct(accepted) && accepted == executed + [id] + rest
    ensures !Ran(executed, id) && Ran(accepted, id)
  {
    assert accepted[|executed|] == id;
    forall j | 0 <= j < |executed|
      ensures executed[j] != id
    {
      assert accepted[j] == executed[j];
    }
  }

  lemma HeadJob(queue: seq<Msg>, id: nat)
    requires queue != [] && queue[0] == Job(id)
    ensures Jobs(queue) == [id] + Jobs(queue[1..]) && JobsBefore(queue) == [id] + JobsBefore(queue[1..])
    ensures Shutdown in queue <==> Shutdown in queue[1..]
  {
    assert queue == [Job(id)] + queue[1..];
  }

  lemma OrderAfterJob(accepted: seq<nat>, executed: seq<nat>, queue: seq<Msg>, mark: Option<nat>, id: nat)
    requires Ordered(accepted, executed, queue, mark, false) && queue != [] && queue[0] == Job(id)
    ensures Ordered(accepted, executed + [id], queue[1..], mark, false)
    ensures !Ran(executed, id) && Ran(accepted, id)
  {
    HeadJob(queue, id);
    hide Jobs, JobsBefore, Distinct, Ran;
    var rest := Jobs(queue[1..]);
    assert executed + ([id] + rest) == executed + [id] + rest;
    NextIsFresh(accepted, executed, id, rest);
    if mark.Some? {
      var before := JobsBefore(queue[1..]);
      assert executed + ([id] + before) == executed + [id] + before;
    }
  }

  lemma OrderAfterStop(accepted: seq<nat>, executed: seq<nat>, queue: seq<Msg>, mark: Option<nat>)
    requires Ordered(accepted, executed, queue, mark, false) && (queue == [] || queue[0] == Shutdown)
    ensures Ordered(accepted, executed, [], mark, true)
  {
    assert executed + [] == executed;
  }

  lemma StepKeepsOrder(s: System, e: Event, f: Closures, capacity: nat)
    requires WriterOk(s, f) && Enabled(s, e, capacity)
    ensures var u := Apply(s, e, f, capacity);
            Ordered(u.accepted, u.executed, u.queue, u.mark, u.phase == Stopped)
  {
    hide Ordered, Faithful, Answered, HealthTrue;
    match e
    case Accept(id) => OrderAfterAccept(s.accepted, s.executed, s.queue, s.mark, id);
    case RequestStop => OrderAfterRequest(s.accepted, s.executed, s.queue, s.mark);
    case Pop =>
      if s.queue[0].Job? {
        OrderAfterJob(s.accepted, s.executed, s.queue, s.mark, s.queue[0].id);
      } else {
        OrderAfterStop(s.accepted, s.executed, s.queue, s.mark);
      }
    case Finish => OrderAfterStop(s.accepted, s.executed, s.queue, s.mark);
    case _ =>
  }

  lemma StepKeepsTracked(s: System, e: Event, f: Closures, capacity: nat)
    requires WriterOk(s, f) && Enabled(s, e, capacity)
    ensures var u := Apply(s, e, f, capacity); Tracked(u.accepted, u.calls)
  {
    hide Ordered, Faithful, HealthTrue, Answered, Ran;
    if e.Accept? {
      forall x {
        RanSnoc(s.accepted, e.id, x);
      }
    }
  }

  lemma FaithfulAfterJob(s: System, f: Closures, id: nat)
    requires Faithful(s.results, s.replies, Idle, s.executed, f) && !Ran(s.executed, id)
    ensures Faithful(s.results, s.replies, Running(id), s.executed + [id], f)
  {
    hide Ran;
    forall x {
      RanSnoc(s.executed, id, x);
    }
  }

  lemma FaithfulAfterStop(s: System, f: Closures)
    requires Faithful(s.results, s.replies, s.phase, s.executed, f) && s.phase == Idle
    ensures Faithful(s.results, s.replies, Stopped, s.executed, f)
  {
    hide Ran;
  }

  lemma FaithfulWithout(s: System, f: Closures, id: nat)
    requires Faithful(s.results, s.replies, s.phase, s.executed, f)
    ensures Faithful(s.results, s.replies - {id}, s.phase, s.executed, f)
  {
    hide Ran;
  }

  lemma FaithfulAfterExecute(s: System, f: Closures, capacity: nat)
    requires Faithful(s.results, s.replies, s.phase, s.executed, f) && s.phase.Running?
    ensures var u := Apply(s, Execute, f, capacity); Faithful(u.results, u.replies, u.phase, u.executed, f)
  {
    hide Ran;
  }

  lemma FaithfulAfterReply(s: System, f: Closures, capacity: nat)
    requires Faithful(s.results, s.replies, s.phase, s.executed, f) && s.phase.Replying?
    ensures var u := Apply(s, Reply, f, capacity); Faithful(u.results, u.replies, u.phase, u.executed, f)
  {
    hide Ran;
  }

  lemma FaithfulAfterSettle(s: System, f: Closures, capacity: nat)
    requires Faithful(s.results, s.replies, s.phase, s.executed, f) && Enabled(s, Settle, capacity)
    ensures var u := Apply(s, Settle, f, capacity); Faithful(u.results, u.replies, u.phase, u.executed, f)
  {
    hide Ran;
  }

  lemma StepKeepsFaithful(s: System, e: Event, f: Closures, capacity: nat)
    requires WriterOk(s, f) && Enabled(s, e, capacity)
    ensures var u := Apply(s, e, f, capacity); Faithful(u.results, u.replies, u.phase, u.executed, f)
  {
    hide Ordered, HealthTrue, Answered, Tracked, Faithful, Ran;
    match e
    case Pop =>
      if s.queue[0].Job? {
        OrderAfterJob(s.accepted, s.executed, s.queue, s.mark, s.queue[0].id);
        FaithfulAfterJob(s, f, s.queue[0].id);
      } else {
        FaithfulAfterStop(s, f);
      }
    case Finish => FaithfulAfterStop(s, f);
    case Execute => FaithfulAfterExecute(s, f, capacity);
    case Reply => FaithfulAfterReply(s, f, capacity);
    case Settle => FaithfulAfterSettle(s, f, capacity);
    case Receive(id) => FaithfulWithout(s, f, id);
    case Read(id) => FaithfulWithout(s, f, id);
    case Timeout(id) => FaithfulWithout(s, f, id);
    case Disconnect(id) => FaithfulWithout(s, f, id);
    case _ =>
  }

  lemma AcceptedIsSomewhere(s: System, id: nat)
    requires Ordered(s.accepted, s.executed, s.queue, s.mark, s.phase == Stopped) && Ran(s.accepted, id)
    ensures Ran(s.executed, id) || id in Jobs(s.queue) || s.phase == Stopped
  {
  }

  /** A caller sees its reply channel closed only when the thread stopped before running
      its closure. */
  lemma DisconnectedNeverRan(s: System, f: Closures, id: nat)
    requires WriterOk(s, f) && Waits(s.calls, id) && id !in s.replies && !HasSender(s.queue, s.phase, id)
    ensures !Ran(s.executed, id) && s.phase == Stopped
  {
    assert CallOk(s.calls[id], id, s.replies, s.phase, s.executed, s.accepted, f);
    JobsMember(s.queue, id);
    assert Ran(s.accepted, id);
    AcceptedIsSomewhere(s, id);
  }

  lemma CallAfterWriterStep(s: System, e: Event, f: Closures, capacity: nat, x: nat)
    requires WriterOk(s, f) && Enabled(s, e, capacity) && (e.Execute? || e.Reply? || e.Settle?)
    ensures var u := Apply(s, e, f, capacity);
            x in u.calls ==> CallOk(u.calls[x], x, u.replies, u.phase, u.executed, u.accepted, f)
  {
    hide Ordered, Tracked, HealthTrue, Ran;
  }

  lemma CallAfterAccept(s: System, f: Closures, capacity: nat, id: nat, x: nat)
    requires WriterOk(s, f) && Enabled(s, Accept(id), capacity)
    ensures var u := Apply(s, Accept(id), f, capacity);
            x in u.calls ==> CallOk(u.calls[x], x, u.replies, u.phase, u.executed, u.accepted, f)
  {
    RanSnoc(s.accepted, id, x);
    NotAcceptedNeverRan(s, f, id);
    hide Ordered, Faithful, HealthTrue, Ran;
  }

  lemma CallAfterTake(call: Call, x: nat, replies: map<nat, bool>, executed: seq<nat>, accepted: seq<nat>,
                      f: Closures, job: nat)
    requires CallOk(call, x, replies, Idle, executed, accepted, f) && !Ran(executed, job)
    ensures CallOk(call, x, replies, Running(job), executed + [job], accepted, f)
  {
    hide Ran;
    RanSnoc(executed, job, x);
  }

  lemma CallAfterStop(call: Call, x: nat, replies: map<nat, bool>, executed: seq<nat>, accepted: seq<nat>, f: Closures)
    requires CallOk(call, x, replies, Idle, executed, accepted, f)
    ensures CallOk(call, x, replies, Stopped, executed, accepted, f)
  {
    hide Ran;
  }

  lemma CallAfterPop(s: System, f: Closures, capacity: nat, x: nat)
    requires WriterOk(s, f) && Enabled(s, Pop, capacity)
    ensures var u := Apply(s, Pop, f, capacity);
            x in u.calls ==> CallOk(u.calls[x], x, u.replies, u.phase, u.executed, u.accepted, f)
  {
    hide Ordered, Tracked, Faithful, HealthTrue, Ran, CallOk;
    if x in s.calls {
      if s.queue[0].Job? {
        OrderAfterJob(s.accepted, s.executed, s.queue, s.mark, s.queue[0].id);
        CallAfterTake(s.calls[x], x, s.replies, s.executed, s.accepted, f, s.queue[0].id);
      } else {
        CallAfterStop(s.calls[x], x, s.replies, s.executed, s.accepted, f);
      }
    }
  }

  lemma StepKeepsCall(s: System, e: Event, f: Closures, capacity: nat, x: nat)
    requires WriterOk(s, f) && Enabled(s, e, capacity)
    ensures var u := Apply(s, e, f, capacity);
            x in u.calls ==> CallOk(u.calls[x], x, u.replies, u.phase, u.executed, u.accepted, f)
  {
    hide Ordered, Tracked, Faithful, HealthTrue, CallOk, Ran;
    match e
    case Accept(id) => CallAfterAccept(s, f, capacity, id, x);
    case Reject(id) => CallAfterReject(s, f, capacity, id, x);
    case Pop => CallAfterPop(s, f, capacity, x);
    case Finish =>
      if x in s.calls {
        CallAfterStop(s.calls[x], x, s.replies, s.executed, s.accepted, f);
      }
    case Execute => CallAfterWriterStep(s, e, f, capacity, x);
    case Reply => CallAfterWriterStep(s, e, f, capacity, x);
    case Settle => CallAfterWriterStep(s, e, f, capacity, x);
    case Receive(id) => CallAfterAnswer(s, e, f, capacity, x);
    case Read(id) => CallAfterAnswer(s, e, f, capacity, x);
    case Timeout(id) => CallAfterAnswer(s, e, f, capacity, x);
    case Disconnect(id) => CallAfterAnswer(s, e, f, capacity, x);
    case _ =>
  }

  lemma CallAfterReject(s: System, f: Closures, capacity: nat, id: nat, x: nat)
    requires WriterOk(s, f) && Enabled(s, Reject(id), capacity)
    ensures var u := Apply(s, Reject(id), f, capacity);
            x in u.calls ==> CallOk(u.calls[x], x, u.replies, u.phase, u.executed, u.accepted, f)
  {
    hide Ordered, Faithful, HealthTrue, Ran;
  }

  /** A caller's own step. */
  lemma CallAfterAnswer(s: System, e: Event, f: Closures, capacity: nat, x: nat)
    requires WriterOk(s, f) && Enabled(s, e, capacity) && (e.Receive? || e.Read? || e.Timeout? || e.Disconnect?)
    ensures var u := Apply(s, e, f, capacity);
            x in u.calls ==> CallOk(u.calls[x], x, u.replies, u.phase, u.executed, u.accepted, f)
  {
    hide Ordered, Tracked, Faithful, HealthTrue, CallOk, Ran;
    if x == e.id {
      OwnAnswer(s, e, f, capacity);
    } else if x in s.calls {
      OthersAnswer(s.calls[x], x, e.id, s.replies, s.phase, s.executed, s.accepted, f);
    }
  }

  lemma OthersAnswer(call: Call, x: nat, id: nat, replies: map<nat, bool>, phase: Phase, executed: seq<nat>,
                     accepted: seq<nat>, f: Closures)
    requires CallOk(call, x, replies, phase, executed, accepted, f) && x != id
    ensures CallOk(call, x, replies - {id}, phase, executed, accepted, f)
  {
    hide Ran;
  }

  lemma OwnAnswer(s: System, e: Event, f: Closures, capacity: nat)
    requires WriterOk(s, f) && Enabled(s, e, capacity) && (e.Receive? || e.Read? || e.Timeout? || e.Disconnect?)
    ensures var u := Apply(s, e, f, capacity);
            e.id in u.calls && CallOk(u.calls[e.id], e.id, u.replies, u.phase, u.executed, u.accepted, f)
  {
    if e.Disconnect? {
      DisconnectedNeverRan(s, f, e.id);
      hide WriterOk;
    } else {
      assert CallOk(s.calls[e.id], e.id, s.replies, s.phase, s.executed, s.accepted, f);
      assert Faithful(s.results, s.replies, s.phase, s.executed, f);
      hide WriterOk, Ran;
    }
  }

  lemma NotAcceptedNeverRan(s: System, f: Closures, id: nat)
    requires WriterOk(s, f) && !Ran(s.accepted, id)
    ensures !Ran(s.executed, id)
  {
    assert forall i :: 0 <= i < |s.executed| ==> s.executed[i] == s.accepted[i];
  }

  lemma StepKeepsAnswered(s: System, e: Event, f: Closures, capacity: nat)
    requires WriterOk(s, f) && Enabled(s, e, capacity)
    ensures Answered(Apply(s, e, f, capacity), f)
  {
    hide WriterOk, Enabled, Apply, CallOk;
    forall x {
      StepKeepsCall(s, e, f, capacity, x);
    }
  }

  lemma HealthAfterJob(healthy: bool, executed: seq<nat>, f: Closures, id: nat)
    requires HealthTrue(healthy, Idle, executed, f) && !Ran(executed, id)
    ensures HealthTrue(healthy, Running(id), executed + [id], f)
  {
    hide Ran;
    forall x {
      RanSnoc(executed, id, x);
    }
    if !healthy {
      var x :| Ran(executed, x) && f(x).None?;
      assert Ran(executed + [id], x) && x != id;
    }
  }

  lemma StepKeepsHealth(s: System, e: Event, f: Closures, capacity: nat)
    requires WriterOk(s, f) && Enabled(s, e, capacity)
    ensures var u := Apply(s, e, f, capacity); HealthTrue(u.healthy, u.phase, u.executed, f)
  {
    hide Ordered, Answered, Tracked, Ran;
    if e == Pop && s.queue[0].Job? {
      OrderAfterJob(s.accepted, s.executed, s.queue, s.mark, s.queue[0].id);
      HealthAfterJob(s.healthy, s.executed, f, s.queue[0].id);
    }
  }

  lemma StepKeepsWriter(s: System, e: Event, f: Closures, capacity: nat)
    requires WriterOk(s, f) && Enabled(s, e, capacity)
    ensures WriterOk(Apply(s, e, f, capacity), f)
  {
    StepKeepsOrder(s, e, f, capacity);
    StepKeepsTracked(s, e, f, capacity);
    StepKeepsFaithful(s, e, f, capacity);
    StepKeepsAnswered(s, e, f, capacity);
    StepKeepsHealth(s, e, f, capacity);
    hide Ordered, Tracked, Faithful, Answered, HealthTrue, Enabled, Apply;
  }

  lemma {:induction false} RunsKeepWriter(states: seq<System>, events: seq<Event>, f: Closures, capacity: nat, k: nat)
    requires IsRun(states, events, f, capacity) && k < |states|
    ensures WriterOk(states[k], f)
  {
    hide WriterOk, Enabled, Apply;
    if k == 0 {
      StartOk(f);
    } else {
      RunsKeepWriter(states, events, f, capacity, k - 1);
      StepKeepsWriter(states[k - 1], events[k - 1], f, capacity);
    }
  }

  lemma StartOk(f: Closures)
    ensures WriterOk(START, f)
  {
  }

  // ---- the channels ----------------------------------------------------------------------------------

  /** The queue keeps its bound, only callers still listening have a buffered reply, and the thread
      ends only when told to or abandoned. */
  ghost predicate Tidy(s: System, capacity: nat) {
    && |s.queue| <= capacity
    && (forall id :: id in s.replies ==> Listening(s.calls, id))
    && (s.phase == Stopped ==> s.mark.Some? || !s.open)
  }

  lemma StepKeepsTidy(s: System, e: Event, f: Closures, capacity: nat)
    requires WriterOk(s, f) && Tidy(s, capacity) && Enabled(s, e, capacity)
    ensures Tidy(Apply(s, e, f, capacity), capacity)
  {
    hide Tracked, Faithful, Answered, HealthTrue, HasSender, Ran, Distinct, Jobs, JobsBefore;
    if e.Pop? && s.queue[0] == Shutdown {
      assert s.mark.Some?;
    }
  }

  /** Over every run the channels keep their bounds: the queue never outgrows its capacity, only
      callers still listening have a buffered reply, and the thread ends only after a shutdown message
      was queued or the last handle was dropped. */
  lemma {:induction false} ChannelsAreBounded(states: seq<System>, events: seq<Event>, f: Closures, capacity: nat,
                                              k: nat)
    requires IsRun(states, events, f, capacity) && k < |states|
    ensures |states[k].queue| <= capacity
    ensures forall id :: id in states[k].replies ==> Listening(states[k].calls, id)
    ensures states[k].phase == Stopped ==> states[k].mark.Some? || !states[k].open
  {
    if k > 0 {
      hide WriterOk, Enabled, Apply;
      ChannelsAreBounded(states, events, f, capacity, k - 1);
      RunsKeepWriter(states, events, f, capacity, k - 1);
      StepKeepsTidy(states[k - 1], events[k - 1], f, capacity);
    }
  }

  lemma WriterSends(s: System, e: Event, f: Closures, capacity: nat)
    requires WriterOk(s, f) && Enabled(s, e, capacity) && (e.Reply? || e.Settle?)
    ensures Busy(s.phase) && (Listening(s.calls, s.phase.id) ==> s.phase.id !in s.replies)
  {
  }

  /** Whenever the writer sends to a caller that listens, the caller's slot is free: no reply is ever
      overwritten. And a call is rejected only by a stopped thread or a queue exactly full. */
  lemma SendsFindRoom(states: seq<System>, events: seq<Event>, f: Closures, capacity: nat, k: nat)
    requires IsRun(states, events, f, capacity) && k < |events|
    ensures var s, e := states[k], events[k];
            && (e.Reply? || e.Settle? ==>
                  Busy(s.phase) && (Listening(s.calls, s.phase.id) ==> s.phase.id !in s.replies))
            && (e.Reject? ==> s.phase == Stopped || |s.queue| == capacity)
  {
    ChannelsAreBounded(states, events, f, capacity, k);
    RunsKeepWriter(states, events, f, capacity, k);
    assert Enabled(states[k], events[k], capacity);
    hide WriterOk, Apply, Listening, Waits, HasSender;
    if events[k].Reply? || events[k].Settle? {
      WriterSends(states[k], events[k], f, capacity);
    }
  }

  // ---- what every run guarantees --------------------------------------------------------------------

  /** One at a time, in accepted order, each at most once, and nothing that was never
      accepted; a caller that timed out is no exception. */
  lemma RunsInOrderAtMostOnce(states: seq<System>, events: seq<Event>, f: Closures, capacity: nat, k: nat)
    requires IsRun(states, events, f, capacity) && k < |states|
    ensures states[k].executed <= states[k].accepted && Distinct(states[k].executed)
  {
    RunsKeepWriter(states, events, f, capacity, k);
    PrefixDistinct(states[k].accepted, states[k].executed);
  }

  lemma PrefixDistinct(accepted: seq<nat>, executed: seq<nat>)
    requires Distinct(accepted) && executed <= accepted
    ensures Distinct(executed)
  {
    assert forall i :: 0 <= i < |executed| ==> executed[i] == accepted[i];
  }

  /** Once the thread has ended, exactly the closures accepted before the first shutdown
      message have run, or all of them when the last handle was dropped instead. */
  lemma ShutdownDrainsExactly(states: seq<System>, events: seq<Event>, f: Closures, capacity: nat, k: nat)
    requires IsRun(states, events, f, capacity) && k < |states| && states[k].phase == Stopped
    ensures var s := states[k];
            if s.mark.Some? then s.mark.value <= |s.accepted| && s.executed == s.accepted[..s.mark.value]
                else s.executed == s.accepted
  {
    RunsKeepWriter(states, events, f, capacity, k);
  }

  /** A call that has returned is never given another answer. */
  lemma {:induction false} AnswersStay(states: seq<System>, events: seq<Event>, f: Closures, capacity: nat, k: nat,
                                       m: nat, id: nat)
    requires IsRun(states, events, f, capacity) && k <= m < |states| && id in states[k].calls
               && states[k].calls[id].Returned?
    ensures id in states[m].calls && states[m].calls[id] == states[k].calls[id]
    decreases m - k
  {
    hide WriterOk;
    if k < m {
      AnswersStay(states, events, f, capacity, k, m - 1, id);
      RunsKeepWriter(states, events, f, capacity, m - 1);
      ReturnedStays(states[m - 1], events[m - 1], f, capacity, id);
    }
  }

  lemma ReturnedStays(s: System, e: Event, f: Closures, capacity: nat, id: nat)
    requires WriterOk(s, f) && Enabled(s, e, capacity) && id in s.calls && s.calls[id].Returned?
    ensures id in Apply(s, e, f, capacity).calls && Apply(s, e, f, capacity).calls[id] == s.calls[id]
  {
    hide WriterOk;
  }

  /** What a caller was told is true when it is told and in every later state `m`. `Ok(v)` is
      the value of the caller's own closure; a caller told of a panic had a closure that panicked;
      one told the thread is gone, or turned away, has a closure that never ran and never will. */
  lemma AnswersAreTrue(states: seq<System>, events: seq<Event>, f: Closures, capacity: nat, k: nat, m: nat, id: nat)
    requires IsRun(states, events, f, capacity) && k <= m < |states| && id in states[k].calls
               && states[k].calls[id].Returned?
    ensures var s := states[m];
            match states[k].calls[id].outcome
            case Value(v) => Ran(s.executed, id) && f(id) == Some(v)
            case Panicked => Ran(s.executed, id) && f(id) == None
            case TimedOut => true
            case Disconnected => !Ran(s.executed, id) && s.phase == Stopped
            case Rejected => !Ran(s.executed, id)
  {
    var s := states[m];
    AnswersStay(states, events, f, capacity, k, m, id);
    RunsKeepWriter(states, events, f, capacity, m);
    assert CallOk(s.calls[id], id, s.replies, s.phase, s.executed, s.accepted, f);
    if s.calls[id].outcome == Rejected {
      NotAcceptedNeverRan(s, f, id);
    }
  }

  /** Health never comes back. */
  lemma HealthOnlyFalls(s: System, e: Event, f: Closures, capacity: nat)
    requires Enabled(s, e, capacity)
    ensures Apply(s, e, f, capacity).healthy ==> s.healthy
  {
  }

  /** Reported healthy exactly while the thread runs and no closure has panicked. */
  lemma HealthIsTrue(states: seq<System>, events: seq<Event>, f: Closures, capacity: nat, k: nat)
    requires IsRun(states, events, f, capacity) && k < |states|
    ensures var s := states[k];
            s.healthy <==> s.phase != Stopped && forall id :: Ran(s.executed, id) ==>
                f(id).Some? || s.phase == Running(id)
  {
    RunsKeepWriter(states, events, f, capacity, k);
  }

  // ---- progress ---------------------------------------------------------------------------------------

  /** Steps of the writer thread and of waiting callers; the rest come from outside. */
  predicate Internal(e: Event) {
    e.Pop? || e.Finish? || e.Execute? || e.Reply? || e.Settle? || e.Receive? || e.Read? || e.Timeout? || e.Disconnect?
  }

  predicate WriterStep(e: Event) {
    e.Pop? || e.Finish? || e.Execute? || e.Reply? || e.Settle?
  }

  /** The writer can always move, except when its second send meets a full reply channel;
      then that reply is the one its caller is waiting for, and receiving it is enabled. */
  lemma WriterNeverStuck(s: System, f: Closures, capacity: nat)
    requires WriterOk(s, f) && s.phase != Stopped && (s.phase != Idle || s.queue != [] || !s.open)
    ensures || (exists e :: WriterStep(e) && Enabled(s, e, capacity))
            || (s.phase.Settling? && s.phase.ok && Enabled(s, Receive(s.phase.id), capacity))
  {
    hide Ordered, Tracked, HealthTrue, Ran;
    match s.phase
    case Idle =>
      if s.queue != [] {
        assert Enabled(s, Pop, capacity);
      } else {
        assert Enabled(s, Finish, capacity);
      }
    case Running(id) => assert Enabled(s, Execute, capacity);
    case Replying(id) => assert Enabled(s, Reply, capacity);
    case Settling(id, ok) =>
      if Listening(s.calls, id) && id in s.replies {
        FullChannelWaits(s, f);
      } else {
        assert Enabled(s, Settle, capacity);
      }
  }

  /** The reply channel of the current call is full only while its caller waits for it. */
  lemma FullChannelWaits(s: System, f: Closures)
    requires WriterOk(s, f) && s.phase.Settling? && Listening(s.calls, s.phase.id) && s.phase.id in s.replies
    ensures s.phase.ok && Waits(s.calls, s.phase.id)
  {
    assert CallOk(s.calls[s.phase.id], s.phase.id, s.replies, s.phase, s.executed, s.accepted, f);
  }

  function CallRank(c: Call): nat {
    match c
    case Waiting => 2
    case Reading => 1
    case Returned(_) => 0
  }

  function CallRanks(accepted: seq<nat>, calls: map<nat, Call>): nat {
    if accepted == [] then 0 else
      var n := |accepted| - 1;
      CallRanks(accepted[..n], calls) + (if accepted[n] in calls then CallRank(calls[accepted[n]]) else 0)
  }

  function PhaseRank(p: Phase): nat {
    match p
    case Idle => 1
    case Running(_) => 4
    case Replying(_) => 3
    case Settling(_, _) => 2
    case Stopped => 0
  }

  /** Work left: four steps per message, what the current closure still needs, and the
      answers callers still wait for. */
  function Rank(s: System): nat {
    4 * |s.queue| + PhaseRank(s.phase) + CallRanks(s.accepted, s.calls)
  }

  lemma {:induction false} CallRanksFall(accepted: seq<nat>, calls: map<nat, Call>, id: nat, c: Call)
    requires id in calls && CallRank(c) < CallRank(calls[id])
    ensures CallRanks(accepted, calls[id := c]) <= CallRanks(accepted, calls)
    ensures Ran(accepted, id) ==> CallRanks(accepted, calls[id := c]) < CallRanks(accepted, calls)
  {
    if accepted != [] {
      var n := |accepted| - 1;
      CallRanksFall(accepted[..n], calls, id, c);
      assert accepted == accepted[..n] + [accepted[n]];
      RanSnoc(accepted[..n], accepted[n], id);
    }
  }

  /** Every internal step uses up work, so only finitely many happen between two calls
      from outside. */
  lemma InternalStepsDescend(s: System, e: Event, f: Closures, capacity: nat)
    requires WriterOk(s, f) && Internal(e) && Enabled(s, e, capacity)
    ensures Rank(Apply(s, e, f, capacity)) < Rank(s)
  {
    hide Ordered, Faithful, Answered, HealthTrue, Ran, CallRanks;
    match e
    case Receive(id) => CallRanksFall(s.accepted, s.calls, id, if s.replies[id] then Reading else Returned(Panicked));
    case Read(id) => CallRanksFall(s.accepted, s.calls, id,
        Returned(if id in s.results then Value(s.results[id]) else Disconnected));
    case Timeout(id) => CallRanksFall(s.accepted, s.calls, id, Returned(TimedOut));
    case Disconnect(id) => CallRanksFall(s.accepted, s.calls, id, Returned(Disconnected));
    case _ =>
  }

  /** A stretch of internal steps is no longer than the work left at its start. */
  lemma {:induction false} InternalRunsAreFinite(states: seq<System>, events: seq<Event>, f: Closures, capacity: nat,
                                                 i: nat, j: nat)
    requires IsRun(states, events, f, capacity) && i <= j < |states|
    requires forall k :: i <= k < j ==> Internal(events[k])
    ensures Rank(states[j]) + (j - i) <= Rank(states[i])
    decreases j - i
  {
    hide Rank, Enabled, Apply, Internal;
    if i < j {
      InternalRunsAreFinite(states, events, f, capacity, i, j - 1);
      RunsKeepWriter(states, events, f, capacity, j - 1);
      assert Internal(events[j - 1]);
      InternalStepsDescend(states[j - 1], events[j - 1], f, capacity);
    }
  }

  /** Internal steps that are not a caller giving up. */
  predicate Patient(e: Event) {
    Internal(e) && !e.Timeout?
  }

  ghost predicate Quiet(s: System, capacity: nat) {
    forall e :: Patient(e) ==> !Enabled(s, e, capacity)
  }

  lemma QuietWriter(s: System, f: Closures, capacity: nat)
    requires WriterOk(s, f) && Quiet(s, capacity)
    ensures s.phase == Stopped || (s.phase == Idle && s.queue == [] && s.open)
  {
    if s.phase != Stopped && (s.phase != Idle || s.queue != [] || !s.open) {
      WriterNeverStuck(s, f, capacity);
      assert false;
    }
  }

  /** A caller still waiting in a quiet state would have a reply to receive, or no sender left. */
  lemma QuietCall(s: System, f: Closures, capacity: nat, id: nat)
    requires WriterOk(s, f) && Quiet(s, capacity) && id in s.calls
    ensures s.calls[id].Returned?
  {
    QuietWriter(s, f, capacity);
    assert !Busy(s.phase) && s.queue == [];
    hide Ordered, Tracked, Faithful, HealthTrue, Ran;
    assert CallOk(s.calls[id], id, s.replies, s.phase, s.executed, s.accepted, f);
    assert Patient(Read(id)) && Patient(Receive(id)) && Patient(Disconnect(id));
  }

  /** The reply protocol needs no timeouts: when the writer and the waiting callers have no step
      left but giving up, every call has returned and the writer is between messages with an empty
      queue, or has ended. */
  lemma QuietMeansAnswered(s: System, f: Closures, capacity: nat)
    requires WriterOk(s, f) && Quiet(s, capacity)
    ensures forall id :: id in s.calls ==> s.calls[id].Returned?
    ensures s.phase == Stopped || (s.phase == Idle && s.queue == [] && s.open)
  {
    hide WriterOk, Quiet;
    forall id | id in s.calls
      ensures s.calls[id].Returned?
    {
      QuietCall(s, f, capacity, id);
    }
    QuietWriter(s, f, capacity);
  }

  ghost predicate IsPath(states: seq<System>, events: seq<Event>, f: Closures, capacity: nat) {
    && |states| == |events| + 1
    && (forall k :: 0 <= k < |events| ==>
          Enabled(states[k], events[k], capacity) && states[k + 1] == Apply(states[k], events[k], f, capacity))
  }

  /** From every state of the actor, some stretch of its own steps without a single timeout
      answers every call; with `InternalStepsDescend`, so does every stretch that goes on until
      nothing is left to do. */
  lemma {:induction false} EveryCallIsAnswered(s: System, f: Closures, capacity: nat)
    returns (states: seq<System>, events: seq<Event>)
    requires WriterOk(s, f)
    ensures IsPath(states, events, f, capacity) && states[0] == s
    ensures forall k :: 0 <= k < |events| ==> Patient(events[k]) && !events[k].Timeout?
    ensures var u := states[|events|];
            WriterOk(u, f) && Quiet(u, capacity) && forall id :: id in u.calls ==> u.calls[id].Returned?
    decreases Rank(s)
  {
    hide WriterOk, Enabled, Apply, Rank, Internal;
    if e :| Patient(e) && Enabled(s, e, capacity) {
      StepKeepsWriter(s, e, f, capacity);
      InternalStepsDescend(s, e, f, capacity);
      var u := Apply(s, e, f, capacity);
      var rest, more := EveryCallIsAnswered(u, f, capacity);
      states, events := [s] + rest, [e] + more;
      assert IsPath(states, events, f, capacity) by {
        forall k | 0 <= k < |events|
          ensures Enabled(states[k], events[k], capacity) && states[k + 1] == Apply(states[k], events[k], f, capacity)
        {
          if k > 0 {
            assert states[k] == rest[k - 1] && events[k] == more[k - 1];
          }
        }
      }
    } else {
      states, events := [s], [];
      QuietMeansAnswered(s, f, capacity);
    }
  }

  /** The documentation promises that queued jobs are drained. Jobs behind the shutdown
      message are not: this one is accepted, never run, and its caller gets an error. */
  lemma LateJobIsDropped(f: Closures)
    ensures var events := [RequestStop, Accept(0), Pop, Disconnect(0)];
            exists states: seq<System> ::
              && IsRun(states, events, f, 2) && states[4].accepted == [0] && states[4].executed == []
              && 0 in states[4].calls && states[4].calls[0] == Returned(Disconnected)
  {
    var s1 := Apply(START, RequestStop, f, 2);
    var s2 := Apply(s1, Accept(0), f, 2);
    var s3 := Apply(s2, Pop, f, 2);
    var s4 := Apply(s3, Disconnect(0), f, 2);
    var states := [START, s1, s2, s3, s4];
    var events := [RequestStop, Accept(0), Pop, Disconnect(0)];
    assert IsRun(states, events, f, 2);
  }

  // ---- the loop itself --------------------------------------------------------------------------------

  /** The thread's loop over the messages it receives: run closures until a shutdown message
      or the end of the channel, answer each with success or the panic, and note panics. */
  method WriterLoop(messages: seq<Msg>, f: Closures) 
    returns (executed: seq<nat>, replies: seq<bool>, panicked: bool, healthy: bool)
    ensures executed == JobsBefore(messages)
    ensures |replies| == |executed| && forall i :: 0 <= i < |executed| ==> replies[i] == f(executed[i]).Some?
    ensures panicked <==> exists i :: 0 <= i < |executed| && f(executed[i]) == None
    ensures !healthy
  {
    executed, replies, panicked, healthy := [], [], false, true;
    var rest := messages;
    while rest != []
      invariant executed + JobsBefore(rest) == JobsBefore(messages)
      invariant |replies| == |executed| && forall i :: 0 <= i < |executed| ==> replies[i] == f(executed[i]).Some?
      invariant panicked <==> exists i :: 0 <= i < |executed| && f(executed[i]) == None
      invariant panicked ==> !healthy
      decreases |rest|
    {
      if rest[0] == Shutdown {
        assert executed + [] == executed;
        break;
      }
      var id := rest[0].id;
      ghost var was := executed;
      executed := executed + [id];
      assert executed + JobsBefore(rest[1..]) == was + ([id] + JobsBefore(rest[1..]));
      assert forall i :: 0 <= i < |was| ==> executed[i] == was[i];
      assert executed[|was|] == id;
      if f(id).None? {
        panicked, healthy := true, false;
      }
      replies := replies + [f(id).Some?];
      rest := rest[1..];
    }
    healthy := false;
    assert executed + [] == executed;
  }
}
