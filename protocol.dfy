/**
 * The values exchanged by the remote-query protocol: the request record
 * (SerializableQuery), the response record (SerializableCursorPart), the
 * contents of a database cursor, and the object-serialisation codec that
 * carries both records as bytes.
 */
module Protocol {
  import opened Wrappers

  newtype byte = x: int | 0 <= x < 256

  /** A row of a result: one cell per column, each a string or SQL NULL. */
  type Row = seq<Option<string>>

  /** SerializableQuery: the SQL text and its (possibly null) bind arguments. */
  datatype Query = Query(query: string, args: Option<seq<Option<string>>>)

  /** SerializableCursorPart: column names and a table of string cells. */
  datatype CursorPart = CursorPart(columns: seq<string>, rows: seq<Row>)

  /**
   * What an Android cursor exposes: its column names and the rows it yields
   * in order. Used both for the cursor a database query returns and for the
   * MatrixCursor the client hands back to its caller.
   */
  datatype Table = Table(columns: seq<string>, rows: seq<Row>)

  /** Every row has exactly one cell per column. */
  predicate Rectangular(columns: seq<string>, rows: seq<Row>) {
    forall i :: 0 <= i < |rows| ==> |rows[i]| == |columns|
  }

  /** The two record shapes that travel through object serialisation. */
  datatype Payload = QueryPayload(q: Query) | PartPayload(part: CursorPart)

  /**
   * Java object serialisation (SerializationUtils.serialize / deserialize).
   * `deserialize` yields None when the bytes are not a serialised object
   * (SerializationException); the byte format itself is not modelled.
   */
  datatype Codec = Codec(serialize: Payload -> seq<byte>, deserialize: seq<byte> -> Option<Payload>)

  /** Whatever the codec writes, it reads back. */
  ghost predicate RoundTrips(codec: Codec) {
    forall p: Payload :: codec.deserialize(codec.serialize(p)) == Some(p)
  }

  /** The exceptions that can leave an operation of the core. */
  datatype Failure =
    | AlreadyClosed         // IllegalStateException("Already closed")
    | NullPointer           // a call through a field that close() has nulled
    | SerializationFailure  // SerializationUtils.deserialize on malformed bytes
    | ClassCast             // deserialised object of the other record type
    | IllegalArgument       // MatrixCursor.addRow with a row of the wrong width
    | SqlFailure            // SQLiteDatabase.rawQuery threw
    | CursorFailure         // Cursor.getString threw on a cell it cannot read

  /** How a void Java method ends. */
  datatype Completion = Normal | Thrown(failure: Failure)
}
