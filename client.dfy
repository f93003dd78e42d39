/**
 * The requesting side (RemoteSQLAdapter): an id counter and a pending-response
 * map shared by every adapter of the process, the per-adapter `closed` flag,
 * the message listener that fills the map, and the wait that empties it.
 */
module Client {
  import opened Wrappers
  import opened Protocol
  import opened Paths
  import opened Transport

  type Responses = map<string, seq<byte>>

  /**
   * The static fields queryIdCounter and responses. One object stands for the
   * class's statics; every adapter refers to the same one.
   */
  class SharedState {
    var counter: nat
    var responses: Responses
    /** The paths handed out so far, in order (specification only). */
    ghost var issued: seq<string>

    ghost predicate Valid()
      reads this
    {
      |issued| == counter && forall i :: 0 <= i < |issued| ==> issued[i] == PathWithId(i)
    }

    /** Class initialisation: the counter starts at 0 and no response is pending. */
    constructor ()
      ensures Valid() && counter == 0 && responses == map[] && issued == []
    {
      counter := 0;
      responses := map[];
      issued := [];
    }
  }

  /** What the listener does to the map: store prefixed paths, ignore the rest. */
  function Deliver(responses: Responses, path: string, data: seq<byte>): (r: Responses)
    ensures !StartsWith(path, PathQueryExecutor) ==> r == responses
    ensures StartsWith(path, PathQueryExecutor) ==> path in r && r[path] == data
    ensures forall k :: k != path ==> (k in r <==> k in responses) && (k in r ==> r[k] == responses[k])
  {
    if StartsWith(path, PathQueryExecutor) then responses[path := data] else responses
  }

  /** One way a `responses.wait(TIMEOUT_MILLIS)` call ends. */
  datatype WaitEvent =
    | Timeout                                  // the wait expired (or woke spuriously)
    | Interrupt                                // InterruptedException
    | Delivery(path: string, data: seq<byte>)  // the listener thread ran onMessageReceived

  /** How awaitResponse ends: with the bytes, with null after an interrupt, or not at all. */
  datatype Awaited = Response(data: seq<byte>) | Interrupted | StillWaiting

  /**
   * The wait loop of awaitResponse over a schedule of wake-ups: it re-checks
   * containsKey after each one and removes the entry once it is there.
   * StillWaiting means the schedule ran out while the key was absent, so the
   * call has not returned.
   */
  function AwaitSpec(responses: Responses, path: string, events: seq<WaitEvent>): (Awaited, Responses)
    decreases |events|
  {
    if path in responses then (Response(responses[path]), responses - {path})
    else if events == [] then (StillWaiting, responses)
    else match events[0]
      case Interrupt => (Interrupted, responses)
      case Timeout => AwaitSpec(responses, path, events[1..])
      case Delivery(p, d) => AwaitSpec(Deliver(responses, p, d), path, events[1..])
  }

  /** However the wait ends, no entry for its path is left behind. */
  lemma {:induction false} AwaitLeavesNoEntry(responses: Responses, path: string, events: seq<WaitEvent>)
    ensures path !in AwaitSpec(responses, path, events).1
    decreases |events|
  {
    if path !in responses && events != [] {
      match events[0]
      case Interrupt =>
      case Timeout => AwaitLeavesNoEntry(responses, path, events[1..]);
      case Delivery(p, d) => AwaitLeavesNoEntry(Deliver(responses, p, d), path, events[1..]);
    }
  }

  /**
   * Without a delivery the map is untouched and the wait ends only by an
   * interrupt: expired waits just go round the loop again.
   */
  lemma {:induction false} AwaitWithoutDelivery(responses: Responses, path: string, events: seq<WaitEvent>)
    requires path !in responses
    requires forall i :: 0 <= i < |events| ==> !events[i].Delivery?
    ensures AwaitSpec(responses, path, events) == (if Interrupt in events then Interrupted else StillWaiting, responses)
    decreases |events|
  {
    if events != [] && events[0] == Timeout {
      AwaitWithoutDelivery(responses, path, events[1..]);
      assert Interrupt in events <==> Interrupt in events[1..] by {
        assert events == [events[0]] + events[1..];
      }
    }
  }

  /**
   * A returned response is the entry for the waited-on path: one already
   * stored, or the data of a delivery under exactly that path.
   */
  lemma {:induction false} AwaitResponseMatchesPath(responses: Responses, path: string, events: seq<WaitEvent>, data: seq<byte>)
    requires AwaitSpec(responses, path, events).0 == Response(data)
    ensures (path in responses && responses[path] == data) || Delivery(path, data) in events
    decreases |events|
  {
    if path !in responses {
      match events[0]
      case Interrupt =>
      case Timeout =>
        AwaitResponseMatchesPath(responses, path, events[1..], data);
        assert events == [events[0]] + events[1..];
      case Delivery(p, d) =>
        AwaitResponseMatchesPath(Deliver(responses, p, d), path, events[1..], data);
        assert events == [events[0]] + events[1..];
    }
  }

  /** What query() returns once awaitResponse has ended. */
  datatype QueryOutcome = Returned(cursor: Option<Table>) | Raised(failure: Failure) | Blocked

  /**
   * deserializeCursor: null stays null; otherwise the deserialised
   * SerializableCursorPart becomes a MatrixCursor with its columns and its
   * rows in order, and addRow rejects a row of the wrong width.
   */
  function DeserializeSpec(response: Option<seq<byte>>, codec: Codec): Result<Option<Table>, Failure> {
    if response.None? then Ok(None)
    else match codec.deserialize(response.value)
      case None => Err(SerializationFailure)
      case Some(QueryPayload(_)) => Err(ClassCast)
      case Some(PartPayload(part)) =>
        if Rectangular(part.columns, part.rows) then Ok(Some(Table(part.columns, part.rows)))
        else Err(IllegalArgument)
  }

  function QueryResult(awaited: Awaited, codec: Codec): QueryOutcome {
    match awaited
    case StillWaiting => Blocked
    case Interrupted => Returned(None)
    case Response(data) =>
      match DeserializeSpec(Some(data), codec)
      case Ok(cursor) => Returned(cursor)
      case Err(f) => Raised(f)
  }

  class RemoteSqlAdapter {
    const shared: SharedState
    var closed: bool
    /** apiClient != null. */
    var hasApiClient: bool

    ghost predicate Valid()
      reads this, shared
    {
      shared.Valid() && hasApiClient == !closed
    }

    /** The private constructor behind create(): open, with a connected client. */
    constructor (shared: SharedState)
      requires shared.Valid()
      ensures Valid() && this.shared == shared && !closed
    {
      this.shared := shared;
      closed := false;
      hasApiClient := true;
    }

    /** ensureNotClosed. */
    function EnsureNotClosed(): Completion
      reads this
    {
      if closed then Thrown(AlreadyClosed) else Normal
    }

    /**
     * The first half of query(): check the flag, take an id with
     * getAndIncrement, build the path and send the request to every node.
     */
    method BeginQuery(text: string, args: Option<seq<Option<string>>>, connected: Option<seq<string>>, codec: Codec)
      returns (r: Result<string, Failure>, sent: seq<Send>)
      requires Valid()
      modifies shared
      ensures Valid() && shared.responses == old(shared.responses)
      ensures old(closed) ==>
        (r == Err(AlreadyClosed) && sent == []
         && shared.counter == old(shared.counter) && shared.issued == old(shared.issued))
      ensures !old(closed) ==>
        (r == Ok(PathWithId(old(shared.counter)))
         && shared.counter == old(shared.counter) + 1
         && r.value !in old(shared.issued) && shared.issued == old(shared.issued) + [r.value]
         && IsBroadcast(sent, NodeIds(connected), r.value, codec.serialize(QueryPayload(Protocol.Query(text, args)))))
    {
      if EnsureNotClosed().Thrown? {
        return Err(AlreadyClosed), [];
      }
      var id := shared.counter;
      shared.counter := shared.counter + 1;
      var path := PathWithId(id);
      forall i | 0 <= i < |shared.issued| ensures shared.issued[i] != path {
        PathWithIdInjective(i, id);
      }
      shared.issued := shared.issued + [path];
      sent := SendQuery(path, text, args, connected, codec);
      r := Ok(path);
    }

    /** sendQuery: the serialised SerializableQuery, once to every distinct node. */
    static method SendQuery(path: string, text: string, args: Option<seq<Option<string>>>,
                            connected: Option<seq<string>>, codec: Codec)
      returns (sent: seq<Send>)
      ensures IsBroadcast(sent, NodeIds(connected), path, codec.serialize(QueryPayload(Protocol.Query(text, args))))
    {
      var message := codec.serialize(QueryPayload(Protocol.Query(text, args)));
      var nodes := ConnectedNodeIds(connected);
      sent := Broadcast(nodes, path, message);
    }

    /** onMessageReceived: store the data under a prefixed path, overwriting; ignore other paths. */
    method OnMessageReceived(path: string, data: seq<byte>)
      requires Valid()
      modifies shared
      ensures Valid() && shared.counter == old(shared.counter) && shared.issued == old(shared.issued)
      ensures shared.responses == Deliver(old(shared.responses), path, data)
    {
      if !StartsWith(path, PathQueryExecutor) {
        return;
      }
      shared.responses := shared.responses[path := data];
    }

    /** responses.remove(path): the entry, which is then gone, or null when absent. */
    method TakeResponse(path: string) returns (data: Option<seq<byte>>)
      requires Valid()
      modifies shared
      ensures Valid() && shared.counter == old(shared.counter) && shared.issued == old(shared.issued)
      ensures path in old(shared.responses) ==>
        data == Some(old(shared.responses)[path]) && shared.responses == old(shared.responses) - {path}
      ensures path !in old(shared.responses) ==> data == None && shared.responses == old(shared.responses)
    {
      if path in shared.responses {
        data := Some(shared.responses[path]);
        shared.responses := shared.responses - {path};
      } else {
        data := None;
      }
    }

    /**
     * awaitResponse: loop while the key is absent, consuming one wake-up per
     * wait; a Delivery runs this process's listener before the re-check.
     */
    method AwaitResponse(path: string, events: seq<WaitEvent>) returns (awaited: Awaited)
      requires Valid()
      modifies shared
      ensures Valid() && shared.counter == old(shared.counter) && shared.issued == old(shared.issued)
      ensures (awaited, shared.responses) == AwaitSpec(old(shared.responses), path, events)
    {
      var k := 0;
      while path !in shared.responses
        invariant 0 <= k <= |events|
        invariant Valid() && shared.counter == old(shared.counter) && shared.issued == old(shared.issued)
        invariant AwaitSpec(shared.responses, path, events[k..]) == AwaitSpec(old(shared.responses), path, events)
        decreases |events| - k
      {
        if k == |events| {
          return StillWaiting;
        }
        match events[k] {
          case Interrupt =>
            return Interrupted;
          case Timeout =>
          case Delivery(p, d) =>
            OnMessageReceived(p, d);
        }
        assert events[k..][1..] == events[k + 1..];
        k := k + 1;
      }
      var taken := TakeResponse(path);
      awaited := Response(taken.value);
    }

    /** deserializeCursor, with the row-adding loop of MatrixCursor.addRow. */
    static method DeserializeCursor(response: Option<seq<byte>>, codec: Codec)
      returns (r: Result<Option<Table>, Failure>)
      ensures r == DeserializeSpec(response, codec)
    {
      if response.None? {
        return Ok(None);
      }
      var decoded := codec.deserialize(response.value);
      if decoded.None? {
        return Err(SerializationFailure);
      }
      if decoded.value.QueryPayload? {
        return Err(ClassCast);
      }
      var part := decoded.value.part;
      var rows: seq<Row> := [];
      for i := 0 to |part.rows|
        invariant rows == part.rows[..i]
        invariant Rectangular(part.columns, rows)
      {
        if |part.rows[i]| != |part.columns| {
          return Err(IllegalArgument);
        }
        rows := rows + [part.rows[i]];
      }
      assert part.rows[..|part.rows|] == part.rows;
      r := Ok(Some(Table(part.columns, rows)));
    }

    /**
     * query(): the whole call, for one schedule of wake-ups while it waits.
     * A closed adapter throws before touching the counter or the map.
     */
    method Query(text: string, args: Option<seq<Option<string>>>, connected: Option<seq<string>>,
                 codec: Codec, events: seq<WaitEvent>)
      returns (sent: seq<Send>, r: QueryOutcome)
      requires Valid()
      modifies shared
      ensures Valid()
      ensures old(closed) ==>
        (r == Raised(AlreadyClosed) && sent == []
         && shared.counter == old(shared.counter) && shared.responses == old(shared.responses))
      ensures !old(closed) ==>
        var path := PathWithId(old(shared.counter));
        var awaited := AwaitSpec(old(shared.responses), path, events);
        shared.counter == old(shared.counter) + 1
        && IsBroadcast(sent, NodeIds(connected), path, codec.serialize(QueryPayload(Protocol.Query(text, args))))
        && shared.responses == awaited.1
        && r == QueryResult(awaited.0, codec)
    {
      var begun;
      begun, sent := BeginQuery(text, args, connected, codec);
      if begun.Err? {
        return sent, Raised(begun.error);
      }
      var path := begun.value;
      var awaited := AwaitResponse(path, events);
      if awaited.StillWaiting? {
        return sent, Blocked;
      }
      var response := if awaited.Response? then Some(awaited.data) else None;
      var cursor := DeserializeCursor(response, codec);
      r := if cursor.Ok? then Returned(cursor.value) else Raised(cursor.error);
    }

    /**
     * close(): set the flag, then unregister and disconnect through apiClient,
     * which a previous close has nulled (NullPointerException).
     */
    method Close() returns (c: Completion)
      requires Valid()
      modifies this
      ensures Valid() && closed && !hasApiClient
      ensures c == if old(closed) then Thrown(NullPointer) else Normal
    {
      closed := true;
      if !hasApiClient {
        return Thrown(NullPointer);
      }
      hasApiClient := false;
      c := Normal;
    }
  }

  /**
   * close() followed by query(): the query throws "Already closed", sends
   * nothing, and leaves the shared counter and response map as they were.
   */
  method QueryAfterClose(adapter: RemoteSqlAdapter, text: string, args: Option<seq<Option<string>>>,
                         connected: Option<seq<string>>, codec: Codec, events: seq<WaitEvent>)
    returns (sent: seq<Send>, r: QueryOutcome)
    requires adapter.Valid()
    modifies adapter, adapter.shared
    ensures adapter.Valid() && adapter.closed
    ensures r == Raised(AlreadyClosed) && sent == []
    ensures adapter.shared.counter == old(adapter.shared.counter)
    ensures adapter.shared.responses == old(adapter.shared.responses)
  {
    var _ := adapter.Close();
    sent, r := adapter.Query(text, args, connected, codec, events);
  }
}
