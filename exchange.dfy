/**
 * The two sides together: a request issued by the client is accepted by the
 * responder's filter, answered under the same path, picked up by the waiter
 * for that path only, and decoded to the table the database produced.
 */
module Exchange {
  import opened Wrappers
  import opened Protocol
  import opened Paths
  import opened Transport
  import opened Client
  import opened Responder

  /** A rectangular table survives being materialised. */
  lemma MaterializeRectangular(t: Table)
    requires Rectangular(t.columns, t.rows)
    ensures Readable(t) && Materialize(t) == CursorPart(t.columns, t.rows)
  {
    var part := Materialize(t);
    forall i | 0 <= i < |t.rows| ensures part.rows[i] == t.rows[i] {
      assert t.rows[i][..|t.columns|] == t.rows[i];
    }
  }

  /**
   * One round trip: the query the client sends under PathWithId(id) is
   * answered with the database's table, and the client's wait on that path
   * returns exactly that table.
   */
  lemma {:induction false} RoundTripQuery(codec: Codec, id: nat, text: string, args: Option<seq<Option<string>>>,
                                          db: RawQuery, t: Table, pending: Responses)
    requires RoundTrips(codec)
    requires db(text, args) == Some(t)
    requires Rectangular(t.columns, t.rows)
    requires PathWithId(id) !in pending
    ensures
      var path := PathWithId(id);
      var answer := codec.serialize(PartPayload(CursorPart(t.columns, t.rows)));
      && StartsWith(path, PathQueryExecutor)
      && ProcessSpec(codec.serialize(QueryPayload(Protocol.Query(text, args))), codec, Some(db))
         == Ok(CursorPart(t.columns, t.rows))
      && AwaitSpec(pending, path, [Delivery(path, answer)]) == (Response(answer), pending)
      && QueryResult(Response(answer), codec) == Returned(Some(t))
  {
    var path := PathWithId(id);
    var answer := codec.serialize(PartPayload(CursorPart(t.columns, t.rows)));
    assert codec.deserialize(codec.serialize(QueryPayload(Protocol.Query(text, args))))
           == Some(QueryPayload(Protocol.Query(text, args)));
    assert codec.deserialize(answer) == Some(PartPayload(CursorPart(t.columns, t.rows)));
    MaterializeRectangular(t);
    var stored := Deliver(pending, path, answer);
    assert [Delivery(path, answer)][1..] == [];
    assert stored - {path} == pending;
  }

  /**
   * A failing query is never answered: the handler's exception escapes and
   * the waiting client sees no delivery for its path.
   */
  lemma FailedQueryIsNotAnswered(codec: Codec, text: string, args: Option<seq<Option<string>>>, db: RawQuery)
    requires RoundTrips(codec)
    requires db(text, args) == None
    ensures ProcessSpec(codec.serialize(QueryPayload(Protocol.Query(text, args))), codec, Some(db)) == Err(SqlFailure)
  {
  }

  /**
   * Responses are broadcast to every node, so one can reach another node's
   * QueryHandler. Its path passes the prefix filter and it is deserialised,
   * but the cast to SerializableQuery fails and the ClassCastException
   * escapes handleMessage.
   */
  lemma ResponseIsNotARequest(codec: Codec, part: CursorPart, db: Option<RawQuery>)
    requires RoundTrips(codec)
    ensures ProcessSpec(codec.serialize(PartPayload(part)), codec, db) == Err(ClassCast)
  {
  }

  /**
   * Two queries in flight, answered in the opposite order: each wait takes
   * its own answer, and nothing is left in the map afterwards. query() is
   * synchronized on its adapter, so two waits pending at once belong to two
   * adapters of the same process.
   */
  lemma OutOfOrderAnswers(pending: Responses, first: nat, second: nat, a1: seq<byte>, a2: seq<byte>)
    requires first != second
    requires PathWithId(first) !in pending && PathWithId(second) !in pending
    ensures
      var p1, p2 := PathWithId(first), PathWithId(second);
      var stored := Deliver(Deliver(pending, p2, a2), p1, a1);
      && AwaitSpec(stored, p1, []) == (Response(a1), stored - {p1})
      && AwaitSpec(stored - {p1}, p2, []) == (Response(a2), pending)
  {
    var p1, p2 := PathWithId(first), PathWithId(second);
    PathWithIdInjective(first, second);
    var stored := Deliver(Deliver(pending, p2, a2), p1, a1);
    assert stored - {p1} - {p2} == pending;
  }

  /**
   * A wait that sees no delivery for any path never ends on its own: only an
   * interrupt makes query() return null, and the map is left as it was.
   */
  lemma NoDeliveryNoAnswer(pending: Responses, id: nat, events: seq<WaitEvent>, codec: Codec)
    requires PathWithId(id) !in pending
    requires forall i :: 0 <= i < |events| ==> !events[i].Delivery?
    ensures
      var awaited := AwaitSpec(pending, PathWithId(id), events);
      && awaited.1 == pending
      && QueryResult(awaited.0, codec) == if Interrupt in events then Returned(None) else Blocked
  {
    AwaitWithoutDelivery(pending, PathWithId(id), events);
  }

  /**
   * Ids start at 0 on every node, and requests go to every node. A client
   * listener on another node stores any prefixed message, so another node's
   * request for the same id is taken by the waiter as its answer, and
   * query() throws ClassCastException.
   */
  lemma {:induction false} ForeignRequestTakenAsAnswer(codec: Codec, id: nat, foreign: Protocol.Query,
                                                       pending: Responses, events: seq<WaitEvent>)
    requires RoundTrips(codec)
    requires PathWithId(id) !in pending
    ensures
      var path := PathWithId(id);
      var request := codec.serialize(QueryPayload(foreign));
      var awaited := AwaitSpec(pending, path, [Delivery(path, request)] + events);
      && awaited == (Response(request), pending)
      && QueryResult(awaited.0, codec) == Raised(ClassCast)
  {
    var path := PathWithId(id);
    var request := codec.serialize(QueryPayload(foreign));
    assert codec.deserialize(request) == Some(QueryPayload(foreign));
    assert ([Delivery(path, request)] + events)[1..] == events;
    assert Deliver(pending, path, request) - {path} == pending;
  }
}
