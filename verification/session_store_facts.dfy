/** Properties of the session store: parking-lot order and draining, the
    context merge and its change set, and quiet remote echoes. */
module SessionStoreFacts {
  import opened Values
  import opened SessionStore

  /** Parking a system and a human item and then draining the lot hands the
      turn store exactly the system item first and the human item second. */
  lemma ParkThenInsertOrder(s: Store, sys: TurnParams, human: TurnParams)
    ensures var parked := AddParkingLotItem(s, Some(sys), Some(human)).store;
            InsertParkingLot(parked).turnCalls == [AddSystem(sys), AddHumanText(human)]
  {
  }

  /** A later item of one kind replaces an earlier one before a drain: only the
      last system item and the last human item reach the turn store. */
  lemma ParkingIsLastWriteWins(s: Store, sys1: TurnParams, sys2: TurnParams, human: Option<TurnParams>)
    ensures var first := AddParkingLotItem(s, Some(sys1), human).store;
            var second := AddParkingLotItem(first, Some(sys2), None).store;
            var calls := InsertParkingLot(second).turnCalls;
            && calls[0] == AddSystem(sys2)
            && (forall j :: 0 <= j < |calls| ==> calls[j] != AddSystem(sys1) || sys1 == sys2)
  {
  }

  /** Draining empties the lot, so an immediate second drain adds no turns. */
  lemma SecondInsertAddsNothing(s: Store)
    ensures InsertParkingLot(InsertParkingLot(s).store).turnCalls == []
    ensures InsertParkingLot(InsertParkingLot(s).store).store == InsertParkingLot(s).store
  {
  }

  /** A drain that follows a park with neither item only adds what was
      already pending, and the park still asked for a completion. */
  lemma EmptyParkStillRequestsCompletion(s: Store)
    ensures AddParkingLotItem(s, None, None).events == [TryCompletion]
    ensures InsertParkingLot(AddParkingLotItem(s, None, None).store).turnCalls == InsertParkingLot(s).turnCalls
  {
  }

  /** The keys a merge changes are exactly the update's keys whose value is new:
      absent before, or present with a different value. */
  lemma {:induction false} MergeChangesOnlyUpdatedKeys(prev: Context, update: Context)
    ensures ChangedKeys(prev, prev + update) ==
              set k | k in update && (k !in prev || prev[k] != update[k])
  {
    var next := prev + update;
    var lhs := ChangedKeys(prev, next);
    var rhs := set k | k in update && (k !in prev || prev[k] != update[k]);
    forall k ensures k in lhs <==> k in rhs {
      if k in update {
        assert next[k] == update[k];
      } else if k in prev {
        assert next[k] == prev[k];
      }
    }
  }

  /** `setContext` is a no-op exactly when every key of the update already
      holds the update's value. */
  lemma {:induction false} SetContextNoOpIff(s: Store, update: Context, sendToSync: bool)
    ensures SetContext(s, update, sendToSync) == Unchanged(s) <==>
              forall k :: k in update ==> k in s.context && s.context[k] == update[k]
  {
    var r := SetContext(s, update, sendToSync);
    MergeChangesOnlyUpdatedKeys(s.context, update);
    if forall k :: k in update ==> k in s.context && s.context[k] == update[k] {
      assert ChangedKeys(s.context, s.context + update) == {};
    } else {
      var k :| k in update && !(k in s.context && s.context[k] == update[k]);
      assert k in ChangedKeys(s.context, s.context + update);
      assert r.events != [];
    }
  }

  /** Applying the same update twice: the second call changes and emits nothing. */
  lemma SetContextIdempotent(s: Store, update: Context, send1: bool, send2: bool)
    ensures var once := SetContext(s, update, send1).store;
            SetContext(once, update, send2) == Unchanged(once)
  {
    var once := SetContext(s, update, send1).store;
    SetContextNoOpIff(once, update, send2);
  }

  /** The changed keys published for a local update are exactly the update's
      keys whose value is new; a remote-originated update publishes none. */
  lemma PublishedKeys(s: Store, update: Context, sendToSync: bool)
    ensures SetContext(s, update, sendToSync).syncKeys ==
              if sendToSync then set k | k in update && (k !in s.context || s.context[k] != update[k]) else {}
  {
    MergeChangesOnlyUpdatedKeys(s.context, update);
  }

  /** A remote change that carries the value the store already holds (an
      echo of our own publication, or a repeat) changes and emits nothing,
      which breaks the publish/echo loop. */
  lemma EchoIsQuiet(s: Store, ev: MapEvent)
    requires ev.ItemRemoved? ==> ev.key in s.context && s.context[ev.key] == Undefined
    requires !ev.ItemRemoved? ==> ev.key in s.context && s.context[ev.key] == ev.data
    ensures OnContextMapEvent(s, ev) == Unchanged(s)
  {
    if !ev.isLocal {
      var update := if ev.ItemRemoved? then map[ev.key := Undefined] else map[ev.key := ev.data];
      SetContextNoOpIff(s, update, false);
    }
  }

  /** A remote change that differs from local state is applied and reported to
      local listeners with exactly its key, and is not published back. */
  lemma {:induction false} RemoteChangeNotifiesListeners(s: Store, key: string, data: Value)
    requires key !in s.context || s.context[key] != data
    ensures var r := OnContextMapEvent(s, ItemUpdated(key, data, false));
            && r.events == [ContextUpdated(s.context[key := data], s.context, {key})]
            && r.syncKeys == {}
  {
    MergeChangesOnlyUpdatedKeys(s.context, map[key := data]);
    assert s.context + map[key := data] == s.context[key := data];
    var keys := set k | k in map[key := data] && (k !in s.context || s.context[k] != map[key := data][k]);
    assert keys == {key};
  }
}
