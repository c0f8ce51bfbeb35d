/** The session store of one call (`SessionStore`): the shallow-merged context,
    the parking lot for out-of-band turns, and the wiring that sends local
    changes to the publisher and applies remote context changes locally.

    Each operation is a pure transition returning the new store together with
    what it emitted: store events, calls into the turn store (which is not part
    of this model: its appends are recorded, not performed), and the context
    keys handed to the publisher's `updateContext`. */
module SessionStore {
  import opened Values
  import SyncQueue

  type Context = map<string, Value>

  /** The parameters of a system or human turn, as handed to the turn store. */
  datatype TurnParams = TurnParams(fields: map<string, Value>)

  /** The two last-write-wins slots of the parking lot. */
  datatype ParkingLot = ParkingLot(system: Option<TurnParams>, human: Option<TurnParams>)

  /** A call into the turn store. */
  datatype TurnStoreCall = AddSystem(params: TurnParams) | AddHumanText(params: TurnParams)

  /** Events of the store's emitter that this model produces. */
  datatype StoreEvent =
    | TryCompletion
    | ContextUpdated(context: Context, prev: Context, keys: set<string>)

  datatype Store = Store(callSid: string, context: Context, parkingLot: ParkingLot)

  /** A transition: the store after it and everything it emitted. */
  datatype Transition = Transition(
    store: Store, events: seq<StoreEvent>, turnCalls: seq<TurnStoreCall>, syncKeys: set<string>)

  /** A transition that changes and emits nothing. */
  function Unchanged(s: Store): Transition {
    Transition(s, [], [], {})
  }

  /* ---------------------------------------------------------------------- */
  /* Construction                                                           */
  /* ---------------------------------------------------------------------- */

  /** A new store: the given context (or `{}`), an empty parking lot, and an
      `updateContext` for every key of the initial context. */
  function NewStore(callSid: string, context: Option<Context>): (r: Transition)
    ensures r.store.callSid == callSid
    ensures r.store.parkingLot == ParkingLot(None, None)
    ensures context.None? ==> r.store.context == map[]
    ensures context.Some? ==> r.store.context == context.value
    ensures r.syncKeys == r.store.context.Keys
    ensures r.events == [] && r.turnCalls == []
  {
    var ctx := if context.Some? then context.value else map[];
    Transition(Store(callSid, ctx, ParkingLot(None, None)), [], [], ctx.Keys)
  }

  /** Turn-store events the store forwards to the publisher. */
  datatype TurnEvent = TurnAdded(turn: Turn) | TurnDeleted(turnId: string) | TurnUpdated(turnId: string)

  /** `turnAdded` goes to `addTurn`, `turnDeleted` to `deleteTurn` and
      `turnUpdated` to `updateTurn`. */
  function TurnEventTask(ev: TurnEvent): (t: SyncQueue.Task)
    ensures ev.TurnAdded? <==> t.AddTurnTask?
    ensures ev.TurnAdded? ==> t.turn == ev.turn
    ensures ev.TurnDeleted? <==> t.DeleteTurnTask?
    ensures ev.TurnUpdated? <==> t.UpdateTurnTask?
    ensures !ev.TurnAdded? ==> t.turnId == ev.turnId
  {
    match ev
    case TurnAdded(turn) => SyncQueue.AddTurnTask(turn)
    case TurnDeleted(id) => SyncQueue.DeleteTurnTask(id)
    case TurnUpdated(id) => SyncQueue.UpdateTurnTask(id)
  }

  /* ---------------------------------------------------------------------- */
  /* Parking lot                                                            */
  /* ---------------------------------------------------------------------- */

  /** `addParkingLotItem({ system, human })`: each supplied item replaces the
      pending item of its kind, then `tryCompletion` is emitted once. */
  function AddParkingLotItem(s: Store, system: Option<TurnParams>, human: Option<TurnParams>): (r: Transition)
    ensures r.store.parkingLot.system == (if system.Some? then system else s.parkingLot.system)
    ensures r.store.parkingLot.human == (if human.Some? then human else s.parkingLot.human)
    ensures r.store.context == s.context && r.store.callSid == s.callSid
    ensures r.events == [TryCompletion]
    ensures r.turnCalls == [] && r.syncKeys == {}
  {
    var lot := s.parkingLot;
    var lot := if system.Some? then lot.(system := system) else lot;
    var lot := if human.Some? then lot.(human := human) else lot;
    Transition(s.(parkingLot := lot), [TryCompletion], [], {})
  }

  /** `insertParkingLot()`: both slots are emptied, then the pending system
      item and the pending human item, in that order, go to the turn store. */
  function InsertParkingLot(s: Store): (r: Transition)
    ensures r.store == s.(parkingLot := ParkingLot(None, None))
    ensures r.events == [] && r.syncKeys == {}
    ensures |r.turnCalls| == (if s.parkingLot.system.Some? then 1 else 0) + (if s.parkingLot.human.Some? then 1 else 0)
    ensures forall j :: 0 <= j < |r.turnCalls| ==>
              (r.turnCalls[j].AddSystem? ==> Some(r.turnCalls[j].params) == s.parkingLot.system)
              && (r.turnCalls[j].AddHumanText? ==> Some(r.turnCalls[j].params) == s.parkingLot.human)
    ensures forall i, j :: 0 <= i < j < |r.turnCalls| ==> r.turnCalls[i].AddSystem? && r.turnCalls[j].AddHumanText?
  {
    var sys := if s.parkingLot.system.Some? then [AddSystem(s.parkingLot.system.value)] else [];
    var hum := if s.parkingLot.human.Some? then [AddHumanText(s.parkingLot.human.value)] else [];
    Transition(s.(parkingLot := ParkingLot(None, None)), [], sys + hum, {})
  }

  /* ---------------------------------------------------------------------- */
  /* Context                                                                */
  /* ---------------------------------------------------------------------- */

  /** The top-level keys on which two contexts differ: present in one only, or
      present in both with different values. */
  function ChangedKeys(prev: Context, next: Context): (keys: set<string>)
    ensures keys <= prev.Keys + next.Keys
    ensures keys == {} <==> prev == next
  {
    var keys := set k | k in prev.Keys + next.Keys && (k !in prev || k !in next || prev[k] != next[k]);
    assert keys == {} ==> prev == next by {
      if keys == {} {
        assert forall k :: k in prev <==> k in next by {
          forall k ensures k in prev <==> k in next {
            if k in prev.Keys + next.Keys { assert k !in keys; }
          }
        }
        assert forall k :: k in prev ==> prev[k] == next[k] by {
          forall k | k in prev ensures prev[k] == next[k] { assert k !in keys; }
        }
      }
    }
    keys
  }

  /** `setContext(update, sendToSync)`: the previous context overridden by the
      update's keys. When that equals the previous context nothing happens;
      otherwise the context is replaced, `contextUpdated` carries the new and
      previous contexts and the changed keys, and the changed keys are handed
      to `updateContext` when `sendToSync` holds. */
  function SetContext(s: Store, update: Context, sendToSync: bool): (r: Transition)
    ensures r.store.callSid == s.callSid && r.store.parkingLot == s.parkingLot
    ensures r.turnCalls == []
    ensures r.store.context.Keys == s.context.Keys + update.Keys
    ensures forall k :: k in update ==> r.store.context[k] == update[k]
    ensures forall k :: k in s.context && k !in update ==> r.store.context[k] == s.context[k]
    ensures r.events == [] <==> r.store.context == s.context
    ensures r.events == [] ==> r.syncKeys == {}
    ensures r.events != [] ==> r.events == [ContextUpdated(r.store.context, s.context, ChangedKeys(s.context, r.store.context))]
    ensures r.events != [] ==> r.syncKeys == (if sendToSync then ChangedKeys(s.context, r.store.context) else {})
  {
    var prev := s.context;
    var context := prev + update;
    var keys := ChangedKeys(prev, context);
    if keys == {} then Unchanged(s)
    else
      Transition(s.(context := context), [ContextUpdated(context, prev, keys)], [],
                 if sendToSync then keys else {})
  }

  /** A change notification from the remote context map. */
  datatype MapEvent =
    | ItemAdded(key: string, data: Value, isLocal: bool)
    | ItemUpdated(key: string, data: Value, isLocal: bool)
    | ItemRemoved(key: string, isLocal: bool)

  /** The `ctxMap` listeners: local echoes are ignored; a remote addition or
      update sets the key to the remote data and a remote removal sets it to
      `undefined`, without sending the change back. */
  function OnContextMapEvent(s: Store, ev: MapEvent): (r: Transition)
    ensures ev.isLocal ==> r == Unchanged(s)
    ensures r.syncKeys == {} && r.turnCalls == []
    ensures !ev.isLocal && ev.ItemRemoved? ==> r.store.context == s.context[ev.key := Undefined]
    ensures !ev.isLocal && !ev.ItemRemoved? ==> r.store.context == s.context[ev.key := ev.data]
  {
    if ev.isLocal then Unchanged(s)
    else match ev
      case ItemRemoved(key, _) => SetContext(s, map[key := Undefined], false)
      case ItemAdded(key, data, _) => SetContext(s, map[key := data], false)
      case ItemUpdated(key, data, _) => SetContext(s, map[key := data], false)
  }
}
