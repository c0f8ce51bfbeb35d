/** The handoff of remote-store clients from call set-up to session start
    (completion-server/session-store/sync.ts): a cache keyed by call id whose
    entries are claimed once or evicted by a timer, and the connection
    promise of a new client, which settles at most once.

    Timers are explicit: each cache entry arms a timer with an id, and
    `TimerFires` is the event of that timer running out. Clients are opaque
    handles; shutting one down is reported, not performed. */
module SyncClient {
  import opened Values

  /** An opaque remote-store client. */
  datatype Client = Client(handle: nat)

  /** A cache entry: the client and the id of the timer armed for it. */
  datatype Entry = Entry(client: Client, timer: nat)

  /** The cache, the armed timers (timer id to call id) and the next timer id. */
  datatype Cache = Cache(entries: map<string, Entry>, timers: map<nat, string>, nextTimer: nat)

  /** Every entry's timer is armed for that entry's call, and no armed timer
      has an id at or above the next one. */
  ghost predicate Valid(c: Cache) {
    && (forall sid :: sid in c.entries ==> c.entries[sid].timer in c.timers && c.timers[c.entries[sid].timer] == sid)
    && (forall id :: id in c.timers ==> id < c.nextTimer)
  }

  function EmptyCache(): (c: Cache)
    ensures Valid(c) && c.entries == map[]
  {
    Cache(map[], map[], 0)
  }

  /* ---------------------------------------------------------------------- */
  /* Claiming and expiry                                                    */
  /* ---------------------------------------------------------------------- */

  /** What `getSyncClient` returns, or the error it throws. */
  datatype Claim = Claimed(client: Client) | NoSyncClientFound(callSid: string)

  datatype ClaimResult = ClaimResult(cache: Cache, claim: Claim)

  /** `getSyncClient(callSid)`: without an entry it throws and the cache is
      unchanged; otherwise the entry's timer is cleared, the entry removed and
      its client returned. */
  function GetSyncClient(c: Cache, callSid: string): (r: ClaimResult)
    ensures callSid !in c.entries ==> r == ClaimResult(c, NoSyncClientFound(callSid))
    ensures callSid in c.entries ==> r.claim == Claimed(c.entries[callSid].client)
    ensures callSid in c.entries ==> r.cache.entries == c.entries - {callSid}
    ensures callSid in c.entries ==> r.cache.timers == c.timers - {c.entries[callSid].timer}
    ensures Valid(c) ==> Valid(r.cache)
  {
    if callSid !in c.entries then ClaimResult(c, NoSyncClientFound(callSid))
    else
      var e := c.entries[callSid];
      ClaimResult(c.(entries := c.entries - {callSid}, timers := c.timers - {e.timer}), Claimed(e.client))
  }

  datatype Expiry = Expiry(cache: Cache, shutdown: Option<Client>)

  /** The timer callback of `setupSyncSession`. A cleared timer never fires.
      A fired timer looks up the entry currently cached for its call: if there
      is none nothing happens; otherwise that client is shut down and the
      entry removed. */
  function TimerFires(c: Cache, timer: nat): (r: Expiry)
    ensures timer !in c.timers ==> r == Expiry(c, None)
    ensures timer in c.timers && c.timers[timer] !in c.entries ==> r.shutdown.None? && r.cache.entries == c.entries
    ensures timer in c.timers && c.timers[timer] in c.entries ==>
              && r.shutdown == Some(c.entries[c.timers[timer]].client)
              && r.cache.entries == c.entries - {c.timers[timer]}
    ensures timer !in r.cache.timers
    ensures Valid(c) ==> Valid(r.cache)
  {
    if timer !in c.timers then Expiry(c, None)
    else
      var sid := c.timers[timer];
      var c1 := c.(timers := c.timers - {timer});
      if sid !in c.entries then Expiry(c1, None)
      else Expiry(c1.(entries := c.entries - {sid}), Some(c.entries[sid].client))
  }

  /** The end of `setupSyncSession`: arm a timer for the call and cache the
      client with it. An earlier entry for the same call is overwritten; its
      timer is not cleared. */
  function Register(c: Cache, callSid: string, client: Client): (r: Cache)
    ensures r.entries == c.entries[callSid := Entry(client, c.nextTimer)]
    ensures r.timers == c.timers[c.nextTimer := callSid]
    ensures r.nextTimer > c.nextTimer
    ensures Valid(c) ==> Valid(r)
  {
    Cache(c.entries[callSid := Entry(client, c.nextTimer)], c.timers[c.nextTimer := callSid], c.nextTimer + 1)
  }

  /* ---------------------------------------------------------------------- */
  /* Connection                                                             */
  /* ---------------------------------------------------------------------- */

  /** The client's connection states. */
  datatype ConnectionState = Connecting | Connected | Denied | Disconnected | Disconnecting | ErrorState | Unknown

  /** Events of a new client that `createSyncClient` listens to. */
  datatype ClientEvent =
    | StateChanged(state: ConnectionState)
    | ConnectionError
    | TokenAboutToExpire
    | TokenExpired

  /** Why the connection promise was rejected. */
  datatype RejectReason = ByConnectionError | ByState(state: ConnectionState)

  /** A promise: pending, or settled once and for all. */
  datatype Settlement = Pending | Resolved | Rejected(reason: RejectReason)

  /** The `isResolved` flag and the promise of `createSyncClient`. */
  datatype Connection = Connection(isResolved: bool, promise: Settlement)

  /** A promise ignores `resolve`/`reject` once it has settled. */
  function Settle(p: Settlement, outcome: Settlement): (r: Settlement)
    ensures p.Pending? ==> r == outcome
    ensures !p.Pending? ==> r == p
  {
    if p.Pending? then outcome else p
  }

  /** A state the `connectionStateChanged` listener rejects on. */
  predicate IsFailureState(st: ConnectionState) {
    st in {Denied, Disconnected, Disconnecting, ErrorState, Unknown}
  }

  /** One listener invocation. `connected` sets the flag and resolves; a
      failure state or a connection error rejects only while the flag is
      unset; `connecting` and the token events do not touch the promise. */
  function OnClientEvent(c: Connection, ev: ClientEvent): (r: Connection)
    ensures !c.promise.Pending? ==> r.promise == c.promise
    ensures ev == StateChanged(Connected) ==> r.isResolved && r.promise == Settle(c.promise, Resolved)
    ensures ev != StateChanged(Connected) ==> r.isResolved == c.isResolved
    ensures ev.StateChanged? && IsFailureState(ev.state) ==>
              r.promise == if c.isResolved then c.promise else Settle(c.promise, Rejected(ByState(ev.state)))
    ensures ev.ConnectionError? ==>
              r.promise == if c.isResolved then c.promise else Settle(c.promise, Rejected(ByConnectionError))
    ensures ev == StateChanged(Connecting) || ev.TokenAboutToExpire? || ev.TokenExpired? ==> r == c
  {
    match ev
    case StateChanged(Connecting) => c
    case StateChanged(Connected) => Connection(true, Settle(c.promise, Resolved))
    case StateChanged(st) =>
      if c.isResolved then c else c.(promise := Settle(c.promise, Rejected(ByState(st))))
    case ConnectionError =>
      if c.isResolved then c else c.(promise := Settle(c.promise, Rejected(ByConnectionError)))
    case TokenAboutToExpire => c
    case TokenExpired => c
  }

  /** The connection after a sequence of events, from a fresh client. */
  function RunEvents(c: Connection, evs: seq<ClientEvent>): Connection
    decreases |evs|
  {
    if evs == [] then c else RunEvents(OnClientEvent(c, evs[0]), evs[1..])
  }

  /** The result of `setupSyncSession`: a ready client, a rejection, or still
      waiting for the connection to settle. */
  datatype SetupOutcome = Ready(client: Client) | SetupFailed | StillConnecting

  datatype SetupResult = SetupResult(cache: Cache, outcome: SetupOutcome)

  /** `setupSyncSession(callSid)`: wait for the client's connection, then for
      both maps of the call to be created; only then arm the timer and cache
      the client. Any rejection fails the set-up with the cache untouched. */
  function SetupSyncSession(
    c: Cache, callSid: string, client: Client, events: seq<ClientEvent>, contextMapCreated: bool, turnMapCreated: bool)
    : (r: SetupResult)
    ensures var p := RunEvents(Connection(false, Pending), events).promise;
            r.outcome.Ready? <==> p.Resolved? && contextMapCreated && turnMapCreated
    ensures r.outcome.Ready? ==> r.outcome.client == client && r.cache == Register(c, callSid, client)
    ensures !r.outcome.Ready? ==> r.cache == c
  {
    var conn := RunEvents(Connection(false, Pending), events);
    match conn.promise
    case Pending => SetupResult(c, StillConnecting)
    case Rejected(_) => SetupResult(c, SetupFailed)
    case Resolved =>
      if contextMapCreated && turnMapCreated then SetupResult(Register(c, callSid, client), Ready(client))
      else SetupResult(c, SetupFailed)
  }
}
