/** The per-entity publisher that mirrors the local context and turns into the
    remote synchronized maps (`SyncQueueService`).

    Two implementations exist in the repository. In the part modelled here
    they differ only in error handling: `Current` (completion-server/session-store/sync-queue.ts, the one
    the session store uses) and `Legacy` (the class of the same name in
    completion-server/session-store/sync.ts).

    A queue is a single-concurrency priority queue: at most one task in flight,
    the others waiting. Time and asynchrony are replaced by an explicit `Step`
    that runs the in-flight task to completion against a remote map, given the
    local state as it stood when the task started (for a task submitted to an
    idle queue, the moment of submission) and the remote's response. */
module SyncQueue {
  import opened Values

  /** Which implementation of the publisher is meant. */
  datatype Variant = Current | Legacy

  /** The work a queued task performs when it runs. */
  datatype Task =
    | UpdateContextTask(key: string)
    | UpdateTurnTask(turnId: string)
    | AddTurnTask(turn: Turn)
    | DeleteTurnTask(turnId: string)

  /** Queue priority: new turns are added with priority 1, everything else with
      the default priority 0. */
  function Priority(t: Task): nat {
    if t.AddTurnTask? then 1 else 0
  }

  /** `${callSid}:context:${key}` */
  function ContextQueueKey(callSid: string, key: string): string {
    callSid + ":context:" + key
  }

  /** `${callSid}:turn:${turnId}` */
  function TurnQueueKey(callSid: string, turnId: string): string {
    callSid + ":turn:" + turnId
  }

  /** The registry key of the queue a task is submitted to. */
  function QueueKeyOf(callSid: string, t: Task): string {
    match t
    case UpdateContextTask(key) => ContextQueueKey(callSid, key)
    case UpdateTurnTask(id) => TurnQueueKey(callSid, id)
    case AddTurnTask(turn) => TurnQueueKey(callSid, turn.id)
    case DeleteTurnTask(id) => TurnQueueKey(callSid, id)
  }

  /** One queue: `running` is the task in flight (p-queue's `pending`), `waiting`
      the tasks not yet started (p-queue's `size`). */
  datatype Queue = Queue(running: Option<Task>, waiting: seq<Task>)
  {
    /** `queue.size === 0 && queue.pending === 0` */
    predicate Idle() {
      running.None? && waiting == []
    }

    /** Number of tasks this queue still has to run. */
    function Pending(): nat {
      (if running.Some? then 1 else 0) + |waiting|
    }

    /** The tasks in the order the queue runs them: the one in flight, then
        the waiting ones from the front. */
    function Order(): (o: seq<Task>)
      ensures |o| == Pending()
    {
      (if running.Some? then [running.value] else []) + waiting
    }
  }

  /** Waiting tasks are ordered by non-increasing priority. */
  ghost predicate SortedByPriority(w: seq<Task>) {
    forall i, j :: 0 <= i < j < |w| ==> Priority(w[i]) >= Priority(w[j])
  }

  /** The shape every queue keeps: nothing waits while nothing runs (a task
      added to an idle queue starts at once) and the waiting tasks are sorted. */
  ghost predicate WellFormed(q: Queue) {
    && (q.running.None? ==> q.waiting == [])
    && SortedByPriority(q.waiting)
  }

  /** p-queue's lower bound: the first position whose task has a lower priority
      than `p`, so a new task goes after every task of priority `>= p`. */
  function InsertIndex(w: seq<Task>, p: nat): (i: nat)
    ensures i <= |w|
    ensures forall j :: 0 <= j < i ==> Priority(w[j]) >= p
    ensures i < |w| ==> Priority(w[i]) < p
  {
    if w == [] then 0
    else if Priority(w[0]) >= p then 1 + InsertIndex(w[1..], p)
    else 0
  }

  /** The waiting list after `queue.add(t, { priority: Priority(t) })`. */
  function InsertByPriority(w: seq<Task>, t: Task): (r: seq<Task>)
    ensures |r| == |w| + 1
    ensures multiset(r) == multiset(w) + multiset{t}
  {
    var i := InsertIndex(w, Priority(t));
    assert w == w[..i] + w[i..];
    w[..i] + [t] + w[i..]
  }

  /** `queue.add(t)`: an idle queue starts the task at once; otherwise it waits. */
  function Enqueue(q: Queue, t: Task): Queue {
    if q.Idle() then Queue(Some(t), [])
    else Queue(q.running, InsertByPriority(q.waiting, t))
  }

  /** The queue after its in-flight task completed: p-queue starts the next
      waiting task before the submitter's continuation runs. */
  function Advance(q: Queue): (r: Queue)
    ensures q.running.Some? ==> r.Order() == q.Order()[1..] && r.Pending() + 1 == q.Pending()
    ensures r.running.None? ==> r.waiting == []
  {
    if q.waiting == [] then Queue(None, [])
    else Queue(Some(q.waiting[0]), q.waiting[1..])
  }

  /** The publisher of one call: the queue registry and the coalescing counters. */
  datatype Service = Service(callSid: string, queues: map<string, Queue>, counts: map<string, int>)

  /** A freshly constructed publisher: no queues and no counters. */
  function NewService(callSid: string): (s: Service)
    ensures s.callSid == callSid && s.queues == map[] && s.counts == map[]
  {
    Service(callSid, map[], map[])
  }

  /** The queue a submission uses, and the registry after `getQueue`. */
  datatype Got = Got(service: Service, queue: Queue)

  /** `getQueue(queueKey)`: the registered queue, or a new idle one, registered. */
  function GetQueue(s: Service, qk: string): (r: Got)
    ensures qk in s.queues ==> r.service == s && r.queue == s.queues[qk]
    ensures qk !in s.queues ==> r.queue.Idle()
    ensures qk !in s.queues ==> r.service == s.(queues := s.queues[qk := r.queue])
    ensures r.service.queues.Keys == s.queues.Keys + {qk}
    ensures qk in r.service.queues && r.service.queues[qk] == r.queue
  {
    if qk in s.queues then Got(s, s.queues[qk])
    else Got(s.(queues := s.queues[qk := Queue(None, [])]), Queue(None, []))
  }

  /** `cleanupQueue(queue, queueKey)`: drop the registry entry of an idle queue. */
  function CleanupQueue(s: Service, qk: string): (r: Service)
    ensures r.callSid == s.callSid && r.counts == s.counts
    ensures (qk in s.queues && s.queues[qk].Idle()) ==> r.queues == s.queues - {qk}
    ensures !(qk in s.queues && s.queues[qk].Idle()) ==> r == s
  {
    if qk in s.queues && s.queues[qk].Idle() then s.(queues := s.queues - {qk})
    else s
  }

  /** Submitting a task: `getQueue` for its key, then `queue.add`. The
      submitter's continuation (error handling and `cleanupQueue`) runs in
      `Step`, once the task has completed. */
  function Submit(s: Service, t: Task): (r: Service)
    ensures r.callSid == s.callSid && r.counts == s.counts
    ensures r.queues.Keys == s.queues.Keys + {QueueKeyOf(s.callSid, t)}
    ensures forall k :: k in s.queues && k != QueueKeyOf(s.callSid, t) ==> r.queues[k] == s.queues[k]
    ensures var qk := QueueKeyOf(s.callSid, t);
            r.queues[qk] == Enqueue(if qk in s.queues then s.queues[qk] else Queue(None, []), t)
  {
    var qk := QueueKeyOf(s.callSid, t);
    var got := GetQueue(s, qk);
    got.service.(queues := got.service.queues[qk := Enqueue(got.queue, t)])
  }

  /** `updateContext(key)`, `updateTurn(turnId)`, `addTurn(turn)`, `deleteTurn(turnId)`. */
  function UpdateContext(s: Service, key: string): Service { Submit(s, UpdateContextTask(key)) }
  function UpdateTurn(s: Service, turnId: string): Service { Submit(s, UpdateTurnTask(turnId)) }
  function AddTurn(s: Service, turn: Turn): Service { Submit(s, AddTurnTask(turn)) }
  function DeleteTurn(s: Service, turnId: string): Service { Submit(s, DeleteTurnTask(turnId)) }

  /** A write to one of the two remote maps of the call. */
  datatype RemoteOp =
    | SetContextItem(key: string, value: Value)
    | RemoveContextItem(key: string)
    | SetTurnItem(turnId: string, turn: Turn)
    | RemoveTurnItem(turnId: string)

  /** The remote context map and turn map. */
  datatype Remote = Remote(context: map<string, Value>, turns: map<string, Turn>)

  /** The local state a task reads as it starts, before its first `await`
      (`getContext()`, `getTurn(id)`). */
  datatype Local = Local(context: map<string, Value>, turns: map<string, Turn>)

  /** What the remote store answered to a write. */
  datatype Response = Done | Failed(error: Value)

  /** The remote maps after a successful write. */
  function ApplyRemote(rm: Remote, op: RemoteOp): Remote {
    match op
    case SetContextItem(k, v) => rm.(context := rm.context[k := v])
    case RemoveContextItem(k) => rm.(context := rm.context - {k})
    case SetTurnItem(id, turn) => rm.(turns := rm.turns[id := turn])
    case RemoveTurnItem(id) => rm.(turns := rm.turns - {id})
  }

  /** `isSyncMapItemNotFound(error)`: an object carrying `status` 404 and `code` 54201. */
  predicate IsNotFound(e: Value) {
    e.Obj? && "status" in e.props && "code" in e.props
    && e.props["status"] == Num(404) && e.props["code"] == Num(54201)
  }

  /** `isSyncRateLimitError(error)`: an object carrying `status` 429 and `code` 54009. */
  predicate IsRateLimited(e: Value) {
    e.Obj? && "status" in e.props && "code" in e.props
    && e.props["status"] == Num(429) && e.props["code"] == Num(54009)
  }

  /** The value of the coalescing counter: `queueCounts.get(queueKey) || 0`. */
  function CountOf(counts: map<string, int>, qk: string): int {
    if qk in counts then counts[qk] else 0
  }

  /** What running a task does: the new counters, the remote write it attempts
      (if any), and whether it warned that a context value is not an object. */
  datatype Execution = Execution(counts: map<string, int>, op: Option<RemoteOp>, warnNonObject: bool)

  /** The body of the task closure. The closure starts when the task reaches
      the head of its queue, or at once when submitted to an idle queue, and
      reads the counter and `local` before its first `await`. */
  function Execute(t: Task, qk: string, counts: map<string, int>, local: Local): (r: Execution)
    ensures (t.AddTurnTask? || t.DeleteTurnTask?) ==> r.counts == counts && r.op.Some?
    ensures r.warnNonObject ==> t.UpdateContextTask?
  {
    match t
    case UpdateContextTask(key) =>
      var count := CountOf(counts, qk);
      if count > 1 then Execution(counts[qk := count - 1], None, false)
      else
        var value := Lookup(local.context, key);
        var op := if value.IsNullish() then RemoveContextItem(key) else SetContextItem(key, value);
        Execution(counts - {qk}, Some(op), !value.IsTypeofObject())
    case UpdateTurnTask(id) =>
      var count := CountOf(counts, qk);
      if count > 1 then Execution(counts[qk := count - 1], None, false)
      else if id !in local.turns then Execution(counts - {qk}, None, false)
      else Execution(counts - {qk}, Some(SetTurnItem(id, local.turns[id])), false)
    case AddTurnTask(turn) => Execution(counts, Some(SetTurnItem(turn.id, turn)), false)
    case DeleteTurnTask(id) => Execution(counts, Some(RemoveTurnItem(id)), false)
  }

  /** Log severities and what a log line reports. */
  datatype Level = Warn | Error
  datatype Diagnostic = NonObjectContextValue | ItemNotFound | RateLimited | QueueError | TaskFailed
  datatype Log = Log(level: Level, what: Diagnostic)

  /** The queue's `error` listener, then the submitter's `catch` block, for a
      task that failed with `e`. */
  function FailureLogs(v: Variant, t: Task, e: Value): seq<Log> {
    match v
    case Legacy => [Log(Error, QueueError), Log(Error, TaskFailed)]
    case Current =>
      var listener :=
        if IsNotFound(e) then Log(Warn, ItemNotFound)
        else if IsRateLimited(e) then Log(Error, RateLimited)
        else Log(Error, QueueError);
      var caller :=
        if (t.UpdateContextTask? || t.DeleteTurnTask?) && IsNotFound(e) then Log(Warn, ItemNotFound)
        else Log(Error, TaskFailed);
      [listener, caller]
  }

  /** Whether the submitter of `t` returns before `cleanupQueue` after the task
      failed with `e`: only `updateContext` of sync-queue.ts on a not-found error. */
  predicate SkipsCleanup(v: Variant, t: Task, e: Value) {
    v == Current && t.UpdateContextTask? && IsNotFound(e)
  }

  /** The outcome of one step: the publisher and remote after it, the remote
      write attempted (whatever the response), the error it failed with, and
      the log lines written. */
  datatype StepResult = StepResult(
    service: Service, remote: Remote, attempted: Option<RemoteOp>, failure: Option<Value>, logs: seq<Log>)

  /** Pending work of the queue registered under `qk` (0 when none is registered). */
  function PendingAt(s: Service, qk: string): nat {
    if qk in s.queues then s.queues[qk].Pending() else 0
  }

  /** Runs the in-flight task of the queue under `qk` to completion, then the
      submitter's continuation. `local` is the local state when the task
      started and `resp` the remote's answer to the write, if the task makes
      one. */
  function Step(v: Variant, s: Service, qk: string, local: Local, remote: Remote, resp: Response): (r: StepResult)
    // nothing to run: nothing happens
    ensures (qk !in s.queues || s.queues[qk].running.None?) ==> r == StepResult(s, remote, None, None, [])
    // one task less to run; a failure never holds back the tasks behind it
    ensures qk in s.queues && s.queues[qk].running.Some? ==> PendingAt(r.service, qk) + 1 == PendingAt(s, qk)
    // other queues are untouched; no counter ever grows
    ensures r.service.callSid == s.callSid
    ensures forall k :: k in s.queues && k != qk ==> k in r.service.queues && r.service.queues[k] == s.queues[k]
    ensures r.service.queues.Keys <= s.queues.Keys
    ensures forall k :: k in r.service.counts ==> k in s.counts && r.service.counts[k] <= s.counts[k]
    // the remote changes only by the attempted write, and only if it succeeded
    ensures r.attempted.None? || resp.Failed? ==> r.remote == remote
    ensures r.attempted.Some? && resp.Done? ==> r.remote == ApplyRemote(remote, r.attempted.value)
    ensures r.failure.Some? <==> r.attempted.Some? && resp.Failed?
  {
    if qk !in s.queues || s.queues[qk].running.None? then StepResult(s, remote, None, None, [])
    else
      var q := s.queues[qk];
      var t := q.running.value;
      var ex := Execute(t, qk, s.counts, local);
      var failure := if ex.op.Some? && resp.Failed? then Some(resp.error) else None;
      var remote' := if ex.op.Some? && resp.Done? then ApplyRemote(remote, ex.op.value) else remote;
      var s1 := s.(queues := s.queues[qk := Advance(q)], counts := ex.counts);
      var s2 := if failure.Some? && SkipsCleanup(v, t, failure.value) then s1 else CleanupQueue(s1, qk);
      var warn := if ex.warnNonObject then [Log(Warn, NonObjectContextValue)] else [];
      var logs := warn + (if failure.Some? then FailureLogs(v, t, failure.value) else []);
      StepResult(s2, remote', ex.op, failure, logs)
  }
}
