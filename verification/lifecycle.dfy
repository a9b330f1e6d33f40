/** The connections a client holds and the sessions behind them. */
module Lifecycle {
  import opened Options

  datatype Status = Disconnected | Connecting | Connected | Failing

  // A stored connection; `settings` stands for everything but the read-only flag.
  datatype Connection = Connection(id: string, title: string, readOnly: bool, settings: string)

  // A live session, with the connection it was opened from.
  datatype Driver = Driver(origin: Connection)

  datatype Managed = Managed(conn: Connection, status: Status, driver: Option<Driver>, error: Option<string>)

  type Registry = map<string, Managed>

  // How an attempt to connect ends: the caller may also give it up half-way.
  datatype Attempt = Opens | Fails(message: string) | Abandoned

  datatype ConnectError = NotRegistered | Refused(message: string) | GivenUp

  /* ---- What each operation does ---- */

  function Idle(conn: Connection): Managed { Managed(conn, Disconnected, None, None) }

  // The stored form replaces the held one; a session does not outlive a change of the read-only flag.
  function Restored(managed: Managed, conn: Connection): Managed {
    if managed.conn.readOnly != conn.readOnly then Idle(conn) else managed.(conn := conn)
  }

  function Stored(registry: Registry, conn: Connection): Registry {
    registry[conn.id := if conn.id in registry then Restored(registry[conn.id], conn) else Idle(conn)]
  }

  function StoredAll(registry: Registry, connections: seq<Connection>): Registry {
    if connections == [] then registry
    else Stored(StoredAll(registry, connections[..|connections| - 1]), connections[|connections| - 1])
  }

  function Ids(connections: seq<Connection>): set<string> { set c | c in connections :: c.id }

  function Synced(registry: Registry, connections: seq<Connection>): Registry {
    StoredAll(registry - (registry.Keys - Ids(connections)), connections)
  }

  function Attempted(managed: Managed, attempt: Attempt): Managed {
    match attempt
    case Opens => managed.(driver := Some(Driver(managed.conn)), status := Connected, error := None)
    case Fails(message) => managed.(status := Failing, error := Some(message))
    case Abandoned => managed.(status := Connecting)
  }

  function AfterConnect(registry: Registry, id: string, attempt: Attempt): Registry {
    if id in registry then registry[id := Attempted(registry[id], attempt)] else registry
  }

  function AfterDisconnect(registry: Registry, id: string): Registry {
    if id in registry then registry[id := registry[id].(driver := None, status := Disconnected, error := None)]
      else registry
  }

  /* ---- What a sync is for ---- */

  // No later connection of the list has the same id.
  ghost predicate Latest(connections: seq<Connection>, conn: Connection) {
    exists i :: 0 <= i < |connections| && connections[i] == conn &&
      forall j :: i < j < |connections| ==> connections[j].id != conn.id
  }

  // Every connection of the list with this id has this flag.
  ghost predicate KeepsFlag(connections: seq<Connection>, id: string, readOnly: bool) {
    forall c <- connections :: c.id == id ==> c.readOnly == readOnly
  }

  // The registry holds the connections as they were stored last; a session, its status and its error stay exactly as
  // long as the read-only flag does.
  ghost predicate Reflects(before: Registry, connections: seq<Connection>, after: Registry) {
    (forall id :: id in after <==> exists c <- connections :: c.id == id) &&
    (forall id <- after :: after[id].conn.id == id && Latest(connections, after[id].conn)) &&
    forall id <- after ::
      if id in before && KeepsFlag(connections, id, before[id].conn.readOnly) then
        after[id].status == before[id].status && after[id].driver == before[id].driver &&
        after[id].error == before[id].error
      else after[id].status == Disconnected && after[id].driver.None? && after[id].error.None?
  }

  // What the first connections of a list leave under an id.
  ghost predicate StoredSoFar(before: Registry, connections: seq<Connection>, after: Registry, id: string) {
    if exists c <- connections :: c.id == id then
      id in after && after[id].conn.id == id && Latest(connections, after[id].conn) &&
      if id in before && KeepsFlag(connections, id, before[id].conn.readOnly) then
        after[id] == before[id].(conn := after[id].conn)
      else after[id] == Managed(after[id].conn, Disconnected, None, None)
    else (id in after <==> id in before) && (id in before ==> after[id] == before[id])
  }

  lemma LatestNext(connections: seq<Connection>, conn: Connection, last: Connection)
    ensures Latest(connections + [last], last)
    ensures Latest(connections, conn) && conn.id != last.id ==> Latest(connections + [last], conn)
  {
    var more := connections + [last];
    assert more[|connections|] == last;
    if Latest(connections, conn) && conn.id != last.id {
      var i :| 0 <= i < |connections| && connections[i] == conn &&
        forall j :: i < j < |connections| ==> connections[j].id != conn.id;
      assert more[i] == conn;
    }
  }

  lemma StoredNext(before: Registry, connections: seq<Connection>, after: Registry, last: Connection, id: string)
    requires StoredSoFar(before, connections, after, id)
    ensures StoredSoFar(before, connections + [last], Stored(after, last), id)
  {
    var more := connections + [last];
    assert forall c <- connections :: c in more;
    assert last in more;
    if id in after {
      LatestNext(connections, after[id].conn, last);
    } else {
      LatestNext(connections, last, last);
    }
  }

  lemma {:induction false} StoredAllSoFar(before: Registry, connections: seq<Connection>, id: string)
    ensures StoredSoFar(before, connections, StoredAll(before, connections), id)
  {
    if connections != [] {
      var n := |connections| - 1;
      StoredAllSoFar(before, connections[..n], id);
      StoredNext(before, connections[..n], StoredAll(before, connections[..n]), connections[n], id);
      assert connections == connections[..n] + [connections[n]];
    }
  }

  lemma SyncedReflects(before: Registry, connections: seq<Connection>)
    ensures Reflects(before, connections, Synced(before, connections))
  {
    hide StoredAll, Latest, KeepsFlag;
    var retained, after := before - (before.Keys - Ids(connections)), Synced(before, connections);
    forall id
      ensures id in after <==> exists c <- connections :: c.id == id
      ensures StoredSoFar(retained, connections, after, id)
    {
      StoredAllSoFar(retained, connections, id);
    }
    forall id | id in after
      ensures id in retained <==> id in before
    {
      var c :| c in connections && c.id == id;
    }
  }

  /* ---- What a connect is for ---- */

  // The other connections are left alone, and so is the one that is stored under the id.
  ghost predicate OnlyChanges(before: Registry, after: Registry, id: string) {
    after.Keys == before.Keys && (forall other <- before :: other != id ==> after[other] == before[other]) &&
    (id in before ==> after[id].conn == before[id].conn)
  }

  // A session is opened from the connection as it is held; a failure or an attempt that was given up leaves the session
  // alone.
  ghost predicate Shows(before: Managed, attempt: Attempt, after: Managed) {
    match attempt
    case Opens => after.status == Connected && after.driver == Some(Driver(before.conn)) && after.error.None?
    case Fails(message) => after.status == Failing && after.driver == before.driver && after.error == Some(message)
    case Abandoned => after.status == Connecting && after.driver == before.driver && after.error == before.error
  }

  function Answer(attempt: Attempt): Result<(), ConnectError> {
    match attempt
    case Opens => Ok(())
    case Fails(message) => Err(Refused(message))
    case Abandoned => Err(GivenUp)
  }

  class ConnectionManager {
    var registry: Registry

    constructor ()
      ensures registry == map[]
    {
      registry := map[];
    }

    method SyncConnections(connections: seq<Connection>)
      modifies this
      ensures registry == Synced(old(registry), connections)
      ensures Reflects(old(registry), connections, registry)
    {
      hide Reflects;
      SyncedReflects(registry, connections);
      var ids := Ids(connections);
      registry := registry - (registry.Keys - ids);
      ghost var retained := registry;
      for i := 0 to |connections|
        invariant registry == StoredAll(retained, connections[..i])
      {
        assert connections[..i + 1][..i] == connections[..i];
        var conn := connections[i];
        if conn.id in registry {
          var managed := registry[conn.id];
          if managed.conn.readOnly != conn.readOnly {
            managed := managed.(driver := None, status := Disconnected, error := None);
          }
          registry := registry[conn.id := managed.(conn := conn)];
        } else {
          registry := registry[conn.id := Managed(conn, Disconnected, None, None)];
        }
      }
      assert connections[..|connections|] == connections;
    }

    // The caller holds the manager until the attempt ends, so nothing comes between its two halves.
    method Connect(id: string, attempt: Attempt) returns (r: Result<(), ConnectError>)
      modifies this
      ensures registry == AfterConnect(old(registry), id, attempt)
      ensures OnlyChanges(old(registry), registry, id)
      ensures id in registry ==> Shows(old(registry)[id], attempt, registry[id])
      ensures r == if id !in old(registry) then Err(NotRegistered) else Answer(attempt)
    {
      if id !in registry {
        return Err(NotRegistered);
      }
      registry := registry[id := registry[id].(status := Connecting)];
      var conn := registry[id].conn;
      match attempt
      case Opens =>
        registry := registry[id := registry[id].(driver := Some(Driver(conn)), status := Connected, error := None)];
        return Ok(());
      case Fails(message) =>
        registry := registry[id := registry[id].(status := Failing, error := Some(message))];
        return Err(Refused(message));
      case Abandoned =>
        return Err(GivenUp);
    }

    method Disconnect(id: string)
      modifies this
      ensures registry == AfterDisconnect(old(registry), id)
      ensures OnlyChanges(old(registry), registry, id)
      ensures id in registry ==>
        registry[id].status == Disconnected && registry[id].driver.None? && registry[id].error.None?
    {
      if id !in registry {
        return;
      }
      registry := registry[id := registry[id].(driver := None)];
      registry := registry[id := registry[id].(status := Disconnected, error := None)];
    }
  }

  datatype DriverError = ConnectionNotFound | ConnectionNotActive | DriverMissing

  // The session of a connected connection, looked up twice.
  function ConnectedDriver(registry: Registry, id: string): Result<(Driver, string), DriverError> {
    if id !in registry then Err(ConnectionNotFound)
    else if registry[id].status != Connected then Err(ConnectionNotActive)
    else if registry[id].driver.None? then Err(DriverMissing)
    else Ok((registry[id].driver.value, registry[id].conn.title))
  }

  /* ---- All runs ---- */

  datatype Event = Sync(connections: seq<Connection>) | Connect(id: string, attempt: Attempt) | Disconnect(id: string)

  function Step(registry: Registry, event: Event): Registry {
    match event
    case Sync(connections) => Synced(registry, connections)
    case Connect(id, attempt) => AfterConnect(registry, id, attempt)
    case Disconnect(id) => AfterDisconnect(registry, id)
  }

  // The state after any events, from the empty manager.
  function Run(events: seq<Event>): Registry {
    if events == [] then map[] else Step(Run(events[..|events| - 1]), events[|events| - 1])
  }

  ghost predicate Proper(id: string, managed: Managed) {
    managed.conn.id == id &&
    (managed.status == Connected ==> managed.driver.Some? && managed.error.None?) &&
    (managed.status == Disconnected ==> managed.driver.None? && managed.error.None?) &&
    (managed.driver.Some? ==>
       managed.driver.value.origin.id == id && managed.driver.value.origin.readOnly == managed.conn.readOnly)
  }

  ghost predicate AllProper(registry: Registry) { forall id <- registry :: Proper(id, registry[id]) }

  lemma {:induction false} StoredAllKeeps(registry: Registry, connections: seq<Connection>)
    requires AllProper(registry)
    ensures AllProper(StoredAll(registry, connections))
    ensures StoredAll(registry, connections).Keys == registry.Keys + Ids(connections)
  {
    if connections != [] {
      var n := |connections| - 1;
      StoredAllKeeps(registry, connections[..n]);
      assert connections == connections[..n] + [connections[n]];
    }
  }

  lemma StepKeeps(registry: Registry, event: Event)
    requires AllProper(registry)
    ensures AllProper(Step(registry, event))
    ensures Step(registry, event).Keys == if event.Sync? then Ids(event.connections) else registry.Keys
  {
    match event
    case Sync(connections) =>
      StoredAllKeeps(registry - (registry.Keys - Ids(connections)), connections);
    case Connect(id, attempt) =>
    case Disconnect(id) =>
  }

  // The connections stored last.
  function StoredIds(events: seq<Event>): set<string> {
    if events == [] then {}
    else if events[|events| - 1].Sync? then Ids(events[|events| - 1].connections)
    else StoredIds(events[..|events| - 1])
  }

  // After any run: exactly the stored connections are there, a connected one has a session and no error, a disconnected
  // one has neither, and every session was opened with the read-only flag its connection has now.
  lemma {:induction false} RunKeeps(events: seq<Event>)
    ensures AllProper(Run(events)) && Run(events).Keys == StoredIds(events)
  {
    if events != [] {
      RunKeeps(events[..|events| - 1]);
      StepKeeps(Run(events[..|events| - 1]), events[|events| - 1]);
    }
  }

  // The connections of the last sync.
  function LastSynced(events: seq<Event>): seq<Connection> {
    if events == [] then []
    else if events[|events| - 1].Sync? then events[|events| - 1].connections
    else LastSynced(events[..|events| - 1])
  }

  // After any run the connection under each id is the one that was stored last.
  lemma {:induction false} RunHoldsStored(events: seq<Event>)
    ensures forall id <- Run(events) ::
      Run(events)[id].conn.id == id && Latest(LastSynced(events), Run(events)[id].conn)
    ensures forall c <- LastSynced(events) :: c.id in Run(events)
  {
    if events != [] {
      var n := |events| - 1;
      RunHoldsStored(events[..n]);
      var before, event := Run(events[..n]), events[n];
      if event.Sync? {
        SyncedReflects(before, event.connections);
      } else {
        StepOnly(before, event);
      }
    }
  }

  // What an event other than a sync does, and to which connection.
  lemma StepOnly(registry: Registry, event: Event)
    requires !event.Sync?
    ensures OnlyChanges(registry, Step(registry, event), event.id)
    ensures event.Connect? && event.id in registry ==>
      Shows(registry[event.id], event.attempt, Step(registry, event)[event.id])
    ensures event.Disconnect? && event.id in registry ==>
      Step(registry, event)[event.id] == Managed(registry[event.id].conn, Disconnected, None, None)
  {
  }

  // So the second lookup of a session never fails, and a session that is handed out obeys the flag.
  lemma SessionFound(events: seq<Event>, id: string)
    ensures var found := ConnectedDriver(Run(events), id);
      (found == Err(ConnectionNotFound) <==> id !in Run(events)) &&
      (found == Err(ConnectionNotActive) <==> id in Run(events) && Run(events)[id].status != Connected) &&
      found != Err(DriverMissing) &&
      (found.Ok? ==>
         Run(events)[id].driver == Some(found.value.0) && found.value.1 == Run(events)[id].conn.title &&
         found.value.0.origin.readOnly == Run(events)[id].conn.readOnly)
  {
    RunKeeps(events);
  }

  // Storing a connection again as it is changes nothing.
  lemma SyncedAgain(registry: Registry, connections: seq<Connection>)
    requires AllProper(registry) &&
      (forall i, j :: 0 <= i < j < |connections| ==> connections[i].id != connections[j].id)
    requires registry.Keys == Ids(connections) && forall c <- connections :: registry[c.id].conn == c
    ensures Synced(registry, connections) == registry
  {
    assert registry - (registry.Keys - Ids(connections)) == registry;
    StoredSame(registry, connections);
  }

  lemma {:induction false} StoredSame(registry: Registry, connections: seq<Connection>)
    requires forall c <- connections :: c.id in registry && registry[c.id].conn == c
    ensures StoredAll(registry, connections) == registry
  {
    if connections != [] {
      StoredSame(registry, connections[..|connections| - 1]);
      assert registry[connections[|connections| - 1].id := registry[connections[|connections| - 1].id]] == registry;
    }
  }
}
