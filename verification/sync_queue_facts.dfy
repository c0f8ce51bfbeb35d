/** Properties of the per-entity publisher: queue keys, priority order, the
    coalescing counter as written, the remote writes each task makes, error
    classification and the queue registry's clean-up. */
module SyncQueueFacts {
  import opened Values
  import opened SyncQueue

  /* ---------------------------------------------------------------------- */
  /* Queue keys                                                             */
  /* ---------------------------------------------------------------------- */

  /** The entity a task publishes: one context field or one turn. */
  datatype Entity = ContextEntity(key: string) | TurnEntity(turnId: string)

  function EntityOf(t: Task): Entity {
    match t
    case UpdateContextTask(key) => ContextEntity(key)
    case UpdateTurnTask(id) => TurnEntity(id)
    case AddTurnTask(turn) => TurnEntity(turn.id)
    case DeleteTurnTask(id) => TurnEntity(id)
  }

  lemma CharAfterPrefix(c: string, mid: string, rest: string, i: nat)
    requires i < |mid|
    ensures (c + mid + rest)[|c| + i] == mid[i]
  {
  }

  lemma SuffixAfterPrefix(c: string, mid: string, rest: string)
    ensures (c + mid + rest)[|c| + |mid|..] == rest
  {
  }

  /** Two tasks of one call share a queue exactly when they publish the same
      entity: add, update and delete of a turn meet in one queue, and no
      context field ever shares a queue with a turn. */
  lemma {:induction false} SameQueueIffSameEntity(callSid: string, t1: Task, t2: Task)
    ensures QueueKeyOf(callSid, t1) == QueueKeyOf(callSid, t2) <==> EntityOf(t1) == EntityOf(t2)
  {
    var k1, k2 := QueueKeyOf(callSid, t1), QueueKeyOf(callSid, t2);
    var m1 := if EntityOf(t1).ContextEntity? then ":context:" else ":turn:";
    var m2 := if EntityOf(t2).ContextEntity? then ":context:" else ":turn:";
    var r1 := if EntityOf(t1).ContextEntity? then EntityOf(t1).key else EntityOf(t1).turnId;
    var r2 := if EntityOf(t2).ContextEntity? then EntityOf(t2).key else EntityOf(t2).turnId;
    assert k1 == callSid + m1 + r1;
    assert k2 == callSid + m2 + r2;
    if k1 == k2 {
      CharAfterPrefix(callSid, m1, r1, 1);
      CharAfterPrefix(callSid, m2, r2, 1);
      assert m1 == m2;
      SuffixAfterPrefix(callSid, m1, r1);
      SuffixAfterPrefix(callSid, m2, r2);
    }
  }

  /* ---------------------------------------------------------------------- */
  /* Priority order                                                         */
  /* ---------------------------------------------------------------------- */

  /** Inserting at the lower bound keeps the waiting list sorted. */
  lemma {:induction false} InsertKeepsSorted(w: seq<Task>, t: Task)
    requires SortedByPriority(w)
    ensures SortedByPriority(InsertByPriority(w, t))
  {
    var i := InsertIndex(w, Priority(t));
    var r := InsertByPriority(w, t);
    assert r == w[..i] + [t] + w[i..];
    forall a, b | 0 <= a < b < |r|
      ensures Priority(r[a]) >= Priority(r[b])
    {
      if a < i && b < i {
        assert r[a] == w[a] && r[b] == w[b];
      } else if a < i && b == i {
        assert r[a] == w[a] && r[b] == t;
      } else if a < i {
        assert r[a] == w[a] && r[b] == w[b - 1];
      } else if a == i {
        assert r[a] == t && r[b] == w[b - 1];
        assert Priority(w[i]) < Priority(t);
        assert Priority(w[i]) >= Priority(w[b - 1]) || i == b - 1;
      } else {
        assert r[a] == w[a - 1] && r[b] == w[b - 1];
      }
    }
  }

  /** Submission keeps every queue well formed. */
  lemma EnqueueKeepsWellFormed(q: Queue, t: Task)
    requires WellFormed(q)
    ensures WellFormed(Enqueue(q, t))
  {
    if !q.Idle() {
      InsertKeepsSorted(q.waiting, t);
    }
  }

  /** Default-priority tasks (updates and deletes) are served first in, first out:
      the new task waits behind everything already waiting. */
  lemma {:induction false} DefaultPriorityIsFifo(q: Queue, t: Task)
    requires !t.AddTurnTask?
    ensures q.Idle() ==> Enqueue(q, t) == Queue(Some(t), [])
    ensures !q.Idle() ==> Enqueue(q, t) == Queue(q.running, q.waiting + [t])
  {
    if !q.Idle() {
      var i := InsertIndex(q.waiting, 0);
      assert i == |q.waiting|;
      assert q.waiting[..i] == q.waiting && q.waiting[i..] == [];
    }
  }

  /** The tasks a key's queue will run, in order (none when no queue is
      registered under it). */
  function OrderAt(s: Service, qk: string): seq<Task> {
    if qk in s.queues then s.queues[qk].Order() else []
  }

  /** An update or delete runs after everything its queue already holds. */
  lemma SubmitRunsInArrivalOrder(s: Service, t: Task)
    requires !t.AddTurnTask?
    ensures var qk := QueueKeyOf(s.callSid, t);
            Submit(s, t).queues[qk].Order() == OrderAt(s, qk) + [t]
  {
    var qk := QueueKeyOf(s.callSid, t);
    var q := if qk in s.queues then s.queues[qk] else Queue(None, []);
    DefaultPriorityIsFifo(q, t);
    if !q.Idle() && q.running.Some? {
      assert Enqueue(q, t).Order() == [q.running.value] + (q.waiting + [t]);
    }
  }

  /** A step runs the task at the head of its queue's order, and leaves the
      rest of the order as it was. */
  lemma StepRunsNextInLine(v: Variant, s: Service, qk: string, local: Local, remote: Remote, resp: Response)
    requires qk in s.queues && s.queues[qk].running.Some?
    ensures var r := Step(v, s, qk, local, remote, resp);
            && r.attempted == Execute(s.queues[qk].Order()[0], qk, s.counts, local).op
            && (qk in r.service.queues ==> r.service.queues[qk].Order() == s.queues[qk].Order()[1..])
  {
    var r := Step(v, s, qk, local, remote, resp);
    if qk in r.service.queues {
      assert r.service.queues[qk] == Advance(s.queues[qk]);
    }
  }

  /** Positions in a sequence with one element put in at index `i`. */
  lemma PutInPositions<T>(w: seq<T>, x: T, i: nat)
    requires i <= |w|
    ensures var rw := w[..i] + [x] + w[i..];
            && |rw| == |w| + 1 && rw[i] == x && rw[..i] + rw[i + 1..] == w
            && (forall j :: 0 <= j < i ==> rw[j] == w[j])
            && (forall j :: i < j < |rw| ==> rw[j] == w[j - 1])
  {
    var rw := w[..i] + [x] + w[i..];
    assert rw[..i] == w[..i] && rw[i + 1..] == w[i..];
    assert w[..i] + w[i..] == w;
  }

  /** Where a new turn lands in the waiting list: at the insertion point,
      after every waiting addition, before every task that is not one. */
  lemma AddTurnInsertion(w: seq<Task>, t: Task, i: nat)
    requires t.AddTurnTask? && i == InsertIndex(w, 1)
    requires forall k :: i <= k < |w| ==> !w[k].AddTurnTask?
    ensures var rw := InsertByPriority(w, t);
            && i < |rw| && rw[i] == t && rw[..i] + rw[i + 1..] == w
            && (forall j :: 0 <= j < i ==> rw[j].AddTurnTask?)
            && (forall j :: i < j < |rw| ==> !rw[j].AddTurnTask?)
  {
    var rw := w[..i] + [t] + w[i..];
    assert InsertByPriority(w, t) == rw;
    PutInPositions(w, t, i);
    assert forall j :: i < j < |rw| ==> !rw[j].AddTurnTask? by {
      forall j | i < j < |rw| ensures !rw[j].AddTurnTask? {
        assert rw[j] == w[j - 1];
      }
    }
  }

  /** In a sorted waiting list, no addition waits behind an update or delete. */
  lemma NoAddsFrom(w: seq<Task>, i: nat)
    requires SortedByPriority(w) && i <= |w| && (i < |w| ==> !w[i].AddTurnTask?)
    ensures forall k :: i <= k < |w| ==> !w[k].AddTurnTask?
  {
    forall k | i <= k < |w|
      ensures !w[k].AddTurnTask?
    {
      assert Priority(w[i]) >= Priority(w[k]);
    }
  }

  /** A new turn (priority 1) overtakes every waiting update or delete, but
      not other waiting additions, nor the task already in flight. */
  lemma AddTurnOvertakesDefault(q: Queue, turn: Turn)
    requires WellFormed(q) && !q.Idle()
    ensures var r := Enqueue(q, AddTurnTask(turn));
            && r.running == q.running
            && exists i :: 0 <= i < |r.waiting|
                 && r.waiting[i] == AddTurnTask(turn)
                 && r.waiting[..i] + r.waiting[i + 1..] == q.waiting
                 && (forall j :: 0 <= j < i ==> r.waiting[j].AddTurnTask?)
                 && (forall j :: i < j < |r.waiting| ==> !r.waiting[j].AddTurnTask?)
  {
    var i := InsertIndex(q.waiting, 1);
    NoAddsFrom(q.waiting, i);
    AddTurnInsertion(q.waiting, AddTurnTask(turn), i);
    assert Enqueue(q, AddTurnTask(turn)).waiting == InsertByPriority(q.waiting, AddTurnTask(turn));
  }

  /* ---------------------------------------------------------------------- */
  /* Task execution                                                         */
  /* ---------------------------------------------------------------------- */

  /** The remote context map agrees with the local context on `key`: a
      null or undefined value is absent remotely, any other value is stored. */
  ghost predicate MirrorsContextKey(local: Local, remote: Remote, key: string) {
    var v := Lookup(local.context, key);
    && (v.IsNullish() ==> key !in remote.context)
    && (!v.IsNullish() ==> key in remote.context && remote.context[key] == v)
  }

  /** An update task that finds the counter above 1 decrements it and does no
      remote work. */
  lemma UpdateSkipsWhileCountAboveOne(v: Variant, s: Service, qk: string, local: Local, remote: Remote, resp: Response)
    requires qk in s.queues && s.queues[qk].running.Some?
    requires s.queues[qk].running.value.UpdateContextTask? || s.queues[qk].running.value.UpdateTurnTask?
    requires CountOf(s.counts, qk) > 1
    ensures var r := Step(v, s, qk, local, remote, resp);
            && r.attempted.None? && r.remote == remote && r.logs == []
            && r.service.counts == s.counts[qk := CountOf(s.counts, qk) - 1]
  {
  }

  /** Otherwise a context update clears the counter and publishes the value the
      local context holds when the task starts (not when it was submitted, unless
      its queue was idle then); on
      success the remote mirrors the local context for that key. A value that
      is not an object (`typeof` other than "object") is still published, with
      a warning. */
  lemma ContextUpdatePublishesCurrentValue(
    v: Variant, s: Service, qk: string, key: string, local: Local, remote: Remote, resp: Response)
    requires qk in s.queues && s.queues[qk].running == Some(UpdateContextTask(key))
    requires CountOf(s.counts, qk) <= 1
    ensures var r := Step(v, s, qk, local, remote, resp);
            && qk !in r.service.counts
            && r.attempted.Some?
            && (Lookup(local.context, key).IsNullish() <==> r.attempted.value == RemoveContextItem(key))
            && (resp.Done? ==> MirrorsContextKey(local, r.remote, key))
            && (!Lookup(local.context, key).IsTypeofObject() <==>
                  |r.logs| > 0 && r.logs[0] == Log(Warn, NonObjectContextValue))
  {
  }

  /** A turn update also clears the counter and reads the turn when it starts;
      a turn deleted locally in the meantime produces no remote write. */
  lemma TurnUpdatePublishesCurrentTurn(
    v: Variant, s: Service, qk: string, id: string, local: Local, remote: Remote, resp: Response)
    requires qk in s.queues && s.queues[qk].running == Some(UpdateTurnTask(id))
    requires CountOf(s.counts, qk) <= 1
    ensures var r := Step(v, s, qk, local, remote, resp);
            && qk !in r.service.counts
            && (id !in local.turns ==> r.attempted.None? && r.remote == remote && r.logs == [])
            && (id in local.turns && resp.Done? ==> id in r.remote.turns && r.remote.turns[id] == local.turns[id])
  {
  }

  /** Adding and deleting a turn never consult the counter and always write:
      the addition stores the turn given at submission, the deletion removes it. */
  lemma AddAndDeleteAlwaysWrite(v: Variant, s: Service, qk: string, local: Local, remote: Remote, resp: Response)
    requires qk in s.queues && s.queues[qk].running.Some?
    requires s.queues[qk].running.value.AddTurnTask? || s.queues[qk].running.value.DeleteTurnTask?
    ensures var r := Step(v, s, qk, local, remote, resp);
            var t := s.queues[qk].running.value;
            && r.service.counts == s.counts
            && r.attempted.Some?
            && (t.AddTurnTask? && resp.Done? ==> r.remote.turns == remote.turns[t.turn.id := t.turn])
            && (t.DeleteTurnTask? && resp.Done? ==> t.turnId !in r.remote.turns)
  {
  }

  /* ---------------------------------------------------------------------- */
  /* The counter is never incremented                                       */
  /* ---------------------------------------------------------------------- */

  /** Nothing in either implementation increments the counter: starting from
      no counters, submissions and steps never create one. */
  lemma CountersStayEmpty(v: Variant, s: Service, t: Task, qk: string, local: Local, remote: Remote, resp: Response)
    requires s.counts == map[]
    ensures Submit(s, t).counts == map[]
    ensures Step(v, s, qk, local, remote, resp).service.counts == map[]
  {
  }

  /** Submitting tasks one after another, as the event handlers do. */
  function SubmitAll(s: Service, ts: seq<Task>): (r: Service)
    ensures r.callSid == s.callSid && r.counts == s.counts
    decreases |ts|
  {
    if ts == [] then s else SubmitAll(Submit(s, ts[0]), ts[1..])
  }

  /** Runs the queue under `qk` until it has nothing left, every write
      succeeding and the local state fixed; collects the writes made. */
  datatype Drained = Drained(service: Service, remote: Remote, writes: seq<RemoteOp>)

  function Drain(v: Variant, s: Service, qk: string, local: Local, remote: Remote): Drained
    decreases PendingAt(s, qk)
  {
    if qk !in s.queues || s.queues[qk].running.None? then Drained(s, remote, [])
    else
      var st := Step(v, s, qk, local, remote, Done);
      var rest := Drain(v, st.service, qk, local, st.remote);
      Drained(rest.service, rest.remote, (if st.attempted.Some? then [st.attempted.value] else []) + rest.writes)
  }

  /** The queue under `qk` holds only updates of context field `key`, and a
      task waits only while another is in flight. */
  ghost predicate OnlyContextUpdates(s: Service, qk: string, key: string) {
    qk in s.queues ==>
      && (s.queues[qk].running.None? ==> s.queues[qk].waiting == [])
      && (s.queues[qk].running.Some? ==> s.queues[qk].running.value == UpdateContextTask(key))
      && (forall j :: 0 <= j < |s.queues[qk].waiting| ==> s.queues[qk].waiting[j] == UpdateContextTask(key))
  }

  /** How many update tasks a counter value lets skip before one writes. */
  function Skips(c: int): nat {
    if c > 1 then c - 1 else 0
  }

  function Min(a: nat, b: nat): nat {
    if a <= b then a else b
  }

  /** Draining a queue with a task in flight: the first step's write, if any,
      then the writes of draining what it leaves. */
  lemma DrainFirstStep(v: Variant, s: Service, qk: string, local: Local, remote: Remote)
    requires qk in s.queues && s.queues[qk].running.Some?
    ensures var st := Step(v, s, qk, local, remote, Done);
            var rest := Drain(v, st.service, qk, local, st.remote);
            var d := Drain(v, s, qk, local, remote);
            && d.writes == (if st.attempted.Some? then [st.attempted.value] else []) + rest.writes
            && d.remote == rest.remote
  {
  }

  /** Running one context update keeps the queue holding only such updates. */
  lemma StepKeepsOnlyContextUpdates(v: Variant, s: Service, qk: string, key: string, local: Local, remote: Remote)
    requires OnlyContextUpdates(s, qk, key)
    ensures OnlyContextUpdates(Step(v, s, qk, local, remote, Done).service, qk, key)
  {
    var st := Step(v, s, qk, local, remote, Done);
    if qk in s.queues && s.queues[qk].running.Some? && qk in st.service.queues {
      assert st.service.queues[qk] == Advance(s.queues[qk]);
    }
  }

  /** The coalescing rule as written: with counter value `c` and `n` context
      updates queued, the first `c - 1` skip and every later one writes. So
      had the counter been raised once per submission (`c == n`) a burst would
      cost one write; with the counter never raised (`c == 0`) it costs `n`. */
  lemma {:induction false} DrainWrites(v: Variant, s: Service, qk: string, key: string, local: Local, remote: Remote)
    requires OnlyContextUpdates(s, qk, key)
    ensures var d := Drain(v, s, qk, local, remote);
            && |d.writes| == PendingAt(s, qk) - Min(PendingAt(s, qk), Skips(CountOf(s.counts, qk)))
            && (|d.writes| > 0 ==> MirrorsContextKey(local, d.remote, key))
    decreases PendingAt(s, qk)
  {
    if qk in s.queues && s.queues[qk].running.Some? {
      var st := Step(v, s, qk, local, remote, Done);
      var q := s.queues[qk];
      var c := CountOf(s.counts, qk);
      assert q.running.value == UpdateContextTask(key);
      StepKeepsOnlyContextUpdates(v, s, qk, key, local, remote);
      DrainWrites(v, st.service, qk, key, local, st.remote);
      var rest := Drain(v, st.service, qk, local, st.remote);
      DrainFirstStep(v, s, qk, local, remote);
      var d := Drain(v, s, qk, local, remote);
      assert PendingAt(st.service, qk) + 1 == PendingAt(s, qk);
      if c > 1 {
        UpdateSkipsWhileCountAboveOne(v, s, qk, local, remote, Done);
        assert CountOf(st.service.counts, qk) == c - 1;
        assert d.writes == rest.writes && d.remote == rest.remote;
      } else {
        ContextUpdatePublishesCurrentValue(v, s, qk, key, local, remote, Done);
        assert CountOf(st.service.counts, qk) == 0;
        assert d.writes == [st.attempted.value] + rest.writes;
        if |rest.writes| == 0 {
          assert d.remote == st.remote;
        }
      }
    }
  }

  /** One more context update for `key` joins the end of that key's queue. */
  lemma SubmitContextUpdate(s: Service, key: string)
    requires OnlyContextUpdates(s, ContextQueueKey(s.callSid, key), key)
    ensures var qk := ContextQueueKey(s.callSid, key);
            var r := Submit(s, UpdateContextTask(key));
            && OnlyContextUpdates(r, qk, key)
            && PendingAt(r, qk) == PendingAt(s, qk) + 1
  {
    var qk := ContextQueueKey(s.callSid, key);
    var t := UpdateContextTask(key);
    var q := GetQueue(s, qk).queue;
    DefaultPriorityIsFifo(q, t);
  }

  /** Submitting a burst of context updates to one key queues all of them
      under that key's queue. */
  lemma {:induction false} BurstQueuesAll(s: Service, key: string, n: nat)
    requires OnlyContextUpdates(s, ContextQueueKey(s.callSid, key), key)
    ensures var r := SubmitAll(s, seq(n, _ => UpdateContextTask(key)));
            && OnlyContextUpdates(r, ContextQueueKey(s.callSid, key), key)
            && PendingAt(r, ContextQueueKey(s.callSid, key)) == PendingAt(s, ContextQueueKey(s.callSid, key)) + n
    decreases n
  {
    var ts := seq(n, _ => UpdateContextTask(key));
    if n > 0 {
      var s1 := Submit(s, UpdateContextTask(key));
      assert ts[0] == UpdateContextTask(key);
      assert ts[1..] == seq(n - 1, _ => UpdateContextTask(key));
      assert SubmitAll(s, ts) == SubmitAll(s1, ts[1..]);
      SubmitContextUpdate(s, key);
      assert ContextQueueKey(s1.callSid, key) == ContextQueueKey(s.callSid, key);
      BurstQueuesAll(s1, key, n - 1);
    }
  }

  /** As written, coalescing never happens: `n` context updates to one field,
      submitted to a fresh publisher before any of them runs, make `n` remote
      writes, and the remote ends up mirroring the local value. */
  lemma BurstWritesEveryTime(v: Variant, callSid: string, key: string, n: nat, local: Local, remote: Remote)
    ensures var s := SubmitAll(NewService(callSid), seq(n, _ => UpdateContextTask(key)));
            var d := Drain(v, s, ContextQueueKey(callSid, key), local, remote);
            && |d.writes| == n
            && (n > 0 ==> MirrorsContextKey(local, d.remote, key))
  {
    var s0 := NewService(callSid);
    var qk := ContextQueueKey(callSid, key);
    BurstQueuesAll(s0, key, n);
    var s := SubmitAll(s0, seq(n, _ => UpdateContextTask(key)));
    assert s.counts == map[];
    DrainWrites(v, s, qk, key, local, remote);
  }

  /** The mechanism itself is sound: had the counter stood at `n` for a burst
      of `n` updates, exactly one remote write would be made, by the last
      task, carrying the value current when it starts. */
  lemma SeededCounterCoalesces(v: Variant, s: Service, qk: string, key: string, local: Local, remote: Remote)
    requires OnlyContextUpdates(s, qk, key)
    requires PendingAt(s, qk) >= 1 && CountOf(s.counts, qk) == PendingAt(s, qk)
    ensures var d := Drain(v, s, qk, local, remote);
            |d.writes| == 1 && MirrorsContextKey(local, d.remote, key)
  {
    DrainWrites(v, s, qk, key, local, remote);
  }

  /* ---------------------------------------------------------------------- */
  /* Error classification and logging                                       */
  /* ---------------------------------------------------------------------- */

  /** An error object with the given `status` and `code`. */
  function TwilioError(status: int, code: int): Value {
    Obj(map["status" := Num(status), "code" := Num(code)])
  }

  /** "Not found" is exactly status 404 with code 54201 and "rate limited" exactly
      429 with 54009; a value that is not an object, or lacks either field, is
      neither, and no error is both. */
  lemma ClassifiersMatchTheirCodes(e: Value, status: int, code: int)
    ensures IsNotFound(TwilioError(status, code)) <==> status == 404 && code == 54201
    ensures IsRateLimited(TwilioError(status, code)) <==> status == 429 && code == 54009
    ensures !e.Obj? ==> !IsNotFound(e) && !IsRateLimited(e)
    ensures e.Obj? && ("status" !in e.props || "code" !in e.props) ==> !IsNotFound(e) && !IsRateLimited(e)
    ensures !(IsNotFound(e) && IsRateLimited(e))
  {
  }

  /** In sync-queue.ts a not-found failure of a context removal or a turn
      deletion is only warned about; a rate-limit failure is logged as an error
      by the queue's listener. The variant in sync.ts logs every failure as an
      error, twice. */
  lemma FailureSeverity(t: Task, e: Value)
    ensures (t.UpdateContextTask? || t.DeleteTurnTask?) && IsNotFound(e) ==>
              forall j :: 0 <= j < |FailureLogs(Current, t, e)| ==> FailureLogs(Current, t, e)[j].level == Warn
    ensures IsRateLimited(e) ==> FailureLogs(Current, t, e)[0] == Log(Error, RateLimited)
    ensures forall j :: 0 <= j < |FailureLogs(Legacy, t, e)| ==> FailureLogs(Legacy, t, e)[j].level == Error
    ensures |FailureLogs(Current, t, e)| == |FailureLogs(Legacy, t, e)| == 2
  {
  }

  /* ---------------------------------------------------------------------- */
  /* Registry clean-up                                                      */
  /* ---------------------------------------------------------------------- */

  /** No registered queue is idle: the registry holds only queues with work. */
  ghost predicate NoIdleQueues(s: Service) {
    forall k :: k in s.queues ==> !s.queues[k].Idle()
  }

  /** Submissions keep the registry free of idle queues. */
  lemma SubmitKeepsNoIdleQueues(s: Service, t: Task)
    requires NoIdleQueues(s)
    ensures NoIdleQueues(Submit(s, t))
  {
  }

  /** A step keeps the registry free of idle queues unless the submitter
      returned before `cleanupQueue`. */
  lemma StepKeepsNoIdleQueues(v: Variant, s: Service, qk: string, local: Local, remote: Remote, resp: Response)
    requires NoIdleQueues(s)
    requires qk in s.queues && s.queues[qk].running.Some?
    requires !(resp.Failed? && SkipsCleanup(v, s.queues[qk].running.value, resp.error))
    ensures NoIdleQueues(Step(v, s, qk, local, remote, resp).service)
  {
  }

  /** In sync.ts every submitter reaches `cleanupQueue`, so the registry never
      keeps an idle queue. */
  lemma LegacyNeverKeepsIdleQueues(s: Service, qk: string, local: Local, remote: Remote, resp: Response)
    requires NoIdleQueues(s)
    ensures NoIdleQueues(Step(Legacy, s, qk, local, remote, resp).service)
  {
  }

  /** In sync-queue.ts `updateContext` returns before `cleanupQueue` on a
      not-found error: when the last queued task is a context removal the
      remote rejects as not found, its idle queue stays registered. */
  lemma NotFoundLeavesIdleQueueRegistered(s: Service, qk: string, key: string, local: Local, remote: Remote, e: Value)
    requires qk in s.queues && s.queues[qk] == Queue(Some(UpdateContextTask(key)), [])
    requires CountOf(s.counts, qk) <= 1
    requires IsNotFound(e)
    ensures var r := Step(Current, s, qk, local, remote, Failed(e));
            qk in r.service.queues && r.service.queues[qk].Idle()
    ensures var r := Step(Legacy, s, qk, local, remote, Failed(e));
            qk !in r.service.queues
  {
  }
}
