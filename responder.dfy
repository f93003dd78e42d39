/**
 * The answering side (QueryHandler): recognise protocol messages by their path
 * prefix, run the embedded query, copy the cursor into a SerializableCursorPart,
 * always close the cursor, and send the result back under the request's path.
 */
module Responder {
  import opened Wrappers
  import opened Protocol
  import opened Paths
  import opened Transport

  /**
   * SQLiteDatabase.rawQuery(sql, args): the cursor's contents, or None when
   * the database throws.
   */
  type RawQuery = (string, Option<seq<Option<string>>>) -> Option<Table>

  /**
   * The cursor rawQuery returns. A row shorter than the column list stands for
   * a row whose getString throws on a cell it cannot convert.
   */
  class LiveCursor {
    const columns: seq<string>
    const rows: seq<Row>
    /** The row the cursor is on; -1 before the first, |rows| after the last. */
    var position: int
    var closed: bool

    constructor (contents: Table)
      ensures columns == contents.columns && rows == contents.rows
      ensures position == -1 && !closed
    {
      columns := contents.columns;
      rows := contents.rows;
      position := -1;
      closed := false;
    }

    /** getColumnNames. */
    function ColumnNames(): (names: seq<string>)
      ensures names == columns
    {
      columns
    }

    /** getCount: the number of rows the cursor yields. */
    function Count(): (n: nat)
      ensures n == |rows|
    {
      |rows|
    }

    /** moveToNext: advance one row (never past the end); true while on a row. */
    method MoveToNext() returns (more: bool)
      requires !closed && -1 <= position <= |rows|
      modifies this`position
      ensures position == if old(position) < |rows| then old(position) + 1 else old(position)
      ensures more == (position < |rows|)
    {
      if position < |rows| {
        position := position + 1;
      }
      more := position < |rows|;
    }

    /** getString(j) on the current row; None when the cell cannot be read. */
    method GetString(j: nat) returns (cell: Option<Option<string>>)
      requires !closed && 0 <= position < |rows|
      ensures j < |rows[position]| ==> cell == Some(rows[position][j])
      ensures j >= |rows[position]| ==> cell == None
    {
      if j < |rows[position]| {
        cell := Some(rows[position][j]);
      } else {
        cell := None;
      }
    }

    /** close. */
    method Close()
      modifies this`closed
      ensures closed
    {
      closed := true;
    }
  }

  /** Every row can be read in each of the cursor's columns. */
  predicate Readable(t: Table) {
    forall i :: 0 <= i < |t.rows| ==> |t.columns| <= |t.rows[i]|
  }

  /**
   * The table processQuery builds: the cursor's column names, one row per
   * cursor row in order, and cell [i][j] the j-th string of the i-th row.
   */
  function Materialize(t: Table): (part: CursorPart)
    requires Readable(t)
    ensures part.columns == t.columns && |part.rows| == |t.rows|
    ensures Rectangular(part.columns, part.rows)
    ensures forall i, j :: 0 <= i < |t.rows| && 0 <= j < |t.columns| ==> part.rows[i][j] == t.rows[i][j]
  {
    CursorPart(t.columns, seq(|t.rows|, i requires 0 <= i < |t.rows| => t.rows[i][..|t.columns|]))
  }

  /**
   * processQuery: deserialise the request, run it, and materialise the cursor;
   * each step's exception propagates.
   */
  function ProcessSpec(data: seq<byte>, codec: Codec, database: Option<RawQuery>): Result<CursorPart, Failure> {
    match codec.deserialize(data)
    case None => Err(SerializationFailure)
    case Some(PartPayload(_)) => Err(ClassCast)
    case Some(QueryPayload(q)) =>
      if database.None? then Err(NullPointer)
      else match database.value(q.query, q.args)
        case None => Err(SqlFailure)
        case Some(t) => if Readable(t) then Ok(Materialize(t)) else Err(CursorFailure)
  }

  /** The request gets as far as opening a cursor. */
  predicate OpensCursor(data: seq<byte>, codec: Codec, database: Option<RawQuery>) {
    match codec.deserialize(data)
    case Some(QueryPayload(q)) => database.Some? && database.value(q.query, q.args).Some?
    case _ => false
  }

  /** How handleMessage ends: path not ours, result sent, or an escaping exception. */
  datatype Handled = Ignored | Answered(sent: seq<Send>) | Propagated(failure: Failure)

  class QueryHandler {
    /** apiClient != null. */
    var hasApiClient: bool
    /** The database field; None once close() has nulled it. */
    var database: Option<RawQuery>

    /** The private constructor behind create(). */
    constructor (database: Option<RawQuery>)
      ensures hasApiClient && this.database == database
    {
      hasApiClient := true;
      this.database := database;
    }

    /**
     * processQuery. The cursor, when one was opened, is returned so that the
     * contract can say it is closed on every exit.
     */
    method ProcessQuery(data: seq<byte>, codec: Codec) returns (r: Result<CursorPart, Failure>, cursor: LiveCursor?)
      ensures r == ProcessSpec(data, codec, database)
      ensures cursor != null <==> OpensCursor(data, codec, database)
      ensures cursor != null ==> cursor.closed
    {
      var decoded := codec.deserialize(data);
      if decoded.None? {
        return Err(SerializationFailure), null;
      }
      if decoded.value.PartPayload? {
        return Err(ClassCast), null;
      }
      var query := decoded.value.q;
      if database.None? {
        return Err(NullPointer), null;
      }
      var outcome := database.value(query.query, query.args);
      if outcome.None? {
        return Err(SqlFailure), null;
      }
      var t := outcome.value;
      cursor := new LiveCursor(t);
      var columns := cursor.ColumnNames();
      var width := |columns|;
      var count := cursor.Count();
      var rows := new Option<string>[count, width]((_, _) => None);
      var i := 0;
      var more := cursor.MoveToNext();
      while more
        invariant 0 <= i <= count && cursor.position == i && more == (i < count)
        invariant !cursor.closed
        invariant forall a :: 0 <= a < i ==> width <= |t.rows[a]|
        invariant forall a, b :: 0 <= a < i && 0 <= b < width ==> rows[a, b] == t.rows[a][b]
        decreases count - i
      {
        for j := 0 to width
          invariant cursor.position == i && !cursor.closed
          invariant j <= |t.rows[i]|
          invariant forall b :: 0 <= b < j ==> rows[i, b] == t.rows[i][b]
          invariant forall a, b :: 0 <= a < i && 0 <= b < width ==> rows[a, b] == t.rows[a][b]
        {
          var cell := cursor.GetString(j);
          if cell.None? {
            assert |t.rows[i]| < |t.columns|;
            cursor.Close();
            return Err(CursorFailure), cursor;
          }
          rows[i, j] := cell.value;
        }
        i := i + 1;
        more := cursor.MoveToNext();
      }
      cursor.Close();
      var table := seq(count, a requires 0 <= a < count reads rows =>
                     seq(width, b requires 0 <= b < width reads rows => rows[a, b]));
      assert Readable(t);
      forall a | 0 <= a < count ensures table[a] == Materialize(t).rows[a] {
        assert |table[a]| == |Materialize(t).rows[a]| == width;
        assert forall b :: 0 <= b < width ==> table[a][b] == Materialize(t).rows[a][b];
      }
      assert table == Materialize(t).rows;
      r := Ok(CursorPart(columns, table));
    }

    /** sendCursorPart: the serialised result, once to every distinct node. */
    method SendCursorPart(path: string, part: CursorPart, connected: Option<seq<string>>, codec: Codec)
      returns (r: Result<seq<Send>, Failure>)
      ensures !hasApiClient ==> r == Err(NullPointer)
      ensures hasApiClient ==> r.Ok? && IsBroadcast(r.value, NodeIds(connected), path, codec.serialize(PartPayload(part)))
    {
      var message := codec.serialize(PartPayload(part));
      if !hasApiClient {
        return Err(NullPointer);
      }
      var nodes := ConnectedNodeIds(connected);
      var sent := Broadcast(nodes, path, message);
      r := Ok(sent);
    }

    /**
     * handleMessage: only prefixed paths are decoded and queried; the answer
     * goes out under the request's own path. Its catch clause names only
     * IOException, which none of these steps throws, so every failure escapes.
     */
    method HandleMessage(path: string, data: seq<byte>, connected: Option<seq<string>>, codec: Codec)
      returns (h: Handled)
      ensures !StartsWith(path, PathQueryExecutor) ==> h == Ignored
      ensures StartsWith(path, PathQueryExecutor) ==>
        match ProcessSpec(data, codec, database)
        case Err(f) => h == Propagated(f)
        case Ok(part) =>
          if hasApiClient
          then h.Answered? && IsBroadcast(h.sent, NodeIds(connected), path, codec.serialize(PartPayload(part)))
          else h == Propagated(NullPointer)
    {
      if !StartsWith(path, PathQueryExecutor) {
        return Ignored;
      }
      var part, _ := ProcessQuery(data, codec);
      if part.Err? {
        return Propagated(part.error);
      }
      var sent := SendCursorPart(path, part.value, connected, codec);
      h := if sent.Ok? then Answered(sent.value) else Propagated(sent.error);
    }

    /**
     * close: disconnect through apiClient and null both fields; a second call
     * dereferences the nulled apiClient and changes nothing.
     */
    method Close() returns (c: Completion)
      modifies this
      ensures !hasApiClient
      ensures old(hasApiClient) ==> c == Normal && database == None
      ensures !old(hasApiClient) ==> c == Thrown(NullPointer) && database == old(database)
    {
      if !hasApiClient {
        return Thrown(NullPointer);
      }
      hasApiClient := false;
      database := None;
      c := Normal;
    }

    /** closeQuietly: nothing for null, close() otherwise. */
    static method CloseQuietly(handler: QueryHandler?) returns (c: Completion)
      modifies handler
      ensures handler == null ==> c == Normal
      ensures handler != null ==>
        (!handler.hasApiClient
         && (old(handler.hasApiClient) ==> c == Normal && handler.database == None)
         && (!old(handler.hasApiClient) ==> c == Thrown(NullPointer) && handler.database == old(handler.database)))
    {
      c := Normal;
      if handler != null {
        c := handler.Close();
      }
    }
  }
}
