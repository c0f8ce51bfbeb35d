/** Properties of the client handoff: claims succeed once, expiry and claims
    exclude each other, and the connection promise settles at most once. */
module SyncClientFacts {
  import opened Values
  import opened SyncClient

  /** A claimed entry cannot be claimed again. */
  lemma ClaimOnce(c: Cache, callSid: string)
    requires callSid in c.entries
    ensures var first := GetSyncClient(c, callSid);
            && first.claim == Claimed(c.entries[callSid].client)
            && GetSyncClient(first.cache, callSid).claim == NoSyncClientFound(callSid)
  {
  }

  /** Registering a client and claiming it gives back that client and clears
      its timer, so the timer can no longer evict anything. */
  lemma RegisterThenClaim(c: Cache, callSid: string, client: Client)
    requires Valid(c)
    ensures var reg := Register(c, callSid, client);
            var claimed := GetSyncClient(reg, callSid);
            && claimed.claim == Claimed(client)
            && claimed.cache.entries == c.entries - {callSid}
            && TimerFires(claimed.cache, c.nextTimer) == Expiry(claimed.cache, None)
  {
    var reg := Register(c, callSid, client);
    assert c.nextTimer !in c.timers;
    assert GetSyncClient(reg, callSid).cache.timers == c.timers;
  }

  /** An entry that is never claimed is evicted when its timer fires: the
      client is shut down and a later claim fails. */
  lemma UnclaimedEntryExpires(c: Cache, callSid: string, client: Client)
    ensures var reg := Register(c, callSid, client);
            var exp := TimerFires(reg, c.nextTimer);
            && exp.shutdown == Some(client)
            && GetSyncClient(exp.cache, callSid).claim == NoSyncClientFound(callSid)
  {
  }

  /** With a valid cache, a fired timer only ever shuts down a client of its
      own call. */
  lemma ExpiryStaysWithinItsCall(c: Cache, timer: nat)
    requires Valid(c) && timer in c.timers
    ensures var exp := TimerFires(c, timer);
            exp.shutdown.Some? ==> exp.shutdown.value == c.entries[c.timers[timer]].client
  {
  }

  /** Setting up the same call twice leaves the first timer armed: when it
      fires it shuts down the second client, and the first client is never
      shut down by it. */
  lemma StaleTimerEvictsNewerClient(c: Cache, callSid: string, first: Client, second: Client)
    ensures var r1 := Register(c, callSid, first);
            var r2 := Register(r1, callSid, second);
            var exp := TimerFires(r2, c.nextTimer);
            && exp.shutdown == Some(second)
            && callSid !in exp.cache.entries
  {
  }

  /* ---------------------------------------------------------------------- */
  /* Connection promise                                                     */
  /* ---------------------------------------------------------------------- */

  /** Once the promise has settled, no later event changes it. */
  lemma {:induction false} SettledStaysSettled(c: Connection, evs: seq<ClientEvent>)
    requires !c.promise.Pending?
    ensures RunEvents(c, evs).promise == c.promise
    decreases |evs|
  {
    if evs != [] {
      SettledStaysSettled(OnClientEvent(c, evs[0]), evs[1..]);
    }
  }

  lemma {:induction false} RunEventsAppend(c: Connection, evs1: seq<ClientEvent>, evs2: seq<ClientEvent>)
    ensures RunEvents(c, evs1 + evs2) == RunEvents(RunEvents(c, evs1), evs2)
    decreases |evs1|
  {
    if evs1 == [] {
      assert evs1 + evs2 == evs2;
    } else {
      assert (evs1 + evs2)[0] == evs1[0];
      assert (evs1 + evs2)[1..] == evs1[1..] + evs2;
      RunEventsAppend(OnClientEvent(c, evs1[0]), evs1[1..], evs2);
    }
  }

  /** The promise settles at most once: whatever a prefix of the events
      settled it to is its final state. */
  lemma SettlesAtMostOnce(c: Connection, evs1: seq<ClientEvent>, evs2: seq<ClientEvent>)
    requires !RunEvents(c, evs1).promise.Pending?
    ensures RunEvents(c, evs1 + evs2).promise == RunEvents(c, evs1).promise
  {
    RunEventsAppend(c, evs1, evs2);
    SettledStaysSettled(RunEvents(c, evs1), evs2);
  }

  /** `connecting` and token refreshes never settle the promise. */
  lemma {:induction false} QuietEventsLeavePending(evs: seq<ClientEvent>)
    requires forall j :: 0 <= j < |evs| ==> evs[j] == StateChanged(Connecting) || evs[j].TokenAboutToExpire? || evs[j].TokenExpired?
    ensures RunEvents(Connection(false, Pending), evs) == Connection(false, Pending)
    decreases |evs|
  {
    if evs != [] {
      QuietEventsLeavePending(evs[1..]);
    }
  }

  /** After `connected`, failure states and connection errors are ignored. */
  lemma ConnectedThenFailureStaysResolved(evs: seq<ClientEvent>)
    ensures RunEvents(Connection(false, Pending), [StateChanged(Connected)] + evs).promise == Resolved
  {
    RunEventsAppend(Connection(false, Pending), [StateChanged(Connected)], evs);
    SettledStaysSettled(Connection(true, Resolved), evs);
  }

  /** A failure before `connected` rejects for good: a later `connected` sets
      the flag but cannot resolve the already rejected promise. */
  lemma FailureThenConnectedStaysRejected(st: ConnectionState)
    requires IsFailureState(st)
    ensures var c := RunEvents(Connection(false, Pending), [StateChanged(st), StateChanged(Connected)]);
            c.isResolved && c.promise == Rejected(ByState(st))
  {
    var evs := [StateChanged(st), StateChanged(Connected)];
    var c1 := OnClientEvent(Connection(false, Pending), evs[0]);
    assert c1 == Connection(false, Rejected(ByState(st)));
    assert evs[1..] == [StateChanged(Connected)];
    var c2 := OnClientEvent(c1, StateChanged(Connected));
    assert c2 == Connection(true, Rejected(ByState(st)));
    assert RunEvents(c2, []) == c2;
    assert RunEvents(c1, evs[1..]) == RunEvents(c2, evs[1..][1..]);
  }
}
