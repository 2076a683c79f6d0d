/** The request handlers of main.py. `WidgetsAPI` serves the collection
    `/widget/`. POST, PUT and DELETE validate the body first, answer 400
    with the errors when validation fails and touch no store, and
    otherwise run one statement inside a connection guard. `WidgetAPI`
    serves `/widget/{name}` without validation. Each handler object
    records the status it set and the bodies it wrote, as a Tornado
    handler does for one request. */
module Handlers {
  import opened Text
  import opened Widgets
  import opened Validation
  import opened Table
  import opened Storage

  /** The JSON bodies the handlers write. */
  datatype Body =
    | Rejected(errors: Errors)     // {"success": false, "errors": ...}
    | Created(widget: string)      // {"success": true, "Widget": <repr of the widget>}
    | Updated(widget: string)      // {"success": true, "Widget_Updated": <repr of the widget>}
    | Listing(widgets: seq<Row>)   // {"widgets": <rows fetched>}
    | Deleted(message: string)     // {"widget_deleted": ...}
    | ServerError                  // the error page Tornado sends for an uncaught exception

  const OK: int := 200
  const CREATED: int := 201
  const BAD_REQUEST: int := 400
  const INTERNAL_SERVER_ERROR: int := 500

  /** The confirmation of a DELETE on the collection: the name and the part
      count it was given, each after its label. Its partner is the reader
      below, which gets both back whatever characters the name holds. */
  function DeletedMessage(name: string, parts: int): (m: string)
    ensures ParseDeletedMessage(m) == Some((name, parts))
  {
    var head := "name-" + name;
    var rest := " number_of_parts-" + IntText(parts);
    var m := "name-" + name + ", number_of_parts-" + IntText(parts);
    assert m == head + [','] + rest && ',' !in rest;
    SplitAtLastConcat(head, ',', rest);
    assert rest[|" number_of_parts-"|..] == IntText(parts);
    assert head[5..] == name;
    IntTextRoundTrip(parts);
    m
  }

  /** Reads the name and part count back from the message: the part count
      follows the last comma, which the text of an int never holds. */
  function ParseDeletedMessage(m: string): Option<(string, int)> {
    match SplitAtLast(m, ',')
    case None => None
    case Some(split) =>
      var head, rest := split.0, split.1;
      if |head| < 5 || head[..5] != "name-" || |rest| < 17 || rest[..17] != " number_of_parts-" then None
      else match ParseInt(rest[17..])
        case None => None
        case Some(parts) => Some((head[5..], parts))
  }

  /** main.py `WidgetsAPI`: the collection resource `/widget/`. */
  class WidgetsAPI {
    const db: DbFile
    /** Whether the datetime field of the schema accepts a string. */
    const isoDateTime: string -> bool
    var status: int
    var written: seq<Body>

    constructor (db: DbFile, isoDateTime: string -> bool)
      ensures this.db == db && this.isoDateTime == isoDateTime
      ensures status == OK && written == []
    {
      this.db := db;
      this.isoDateTime := isoDateTime;
      status := OK;
      written := [];
    }

    /** Tornado's response to an exception that leaves the handler. */
    method SendServerError()
      modifies this`status, this`written
      ensures status == INTERNAL_SERVER_ERROR && written == [ServerError]
    {
      status := INTERNAL_SERVER_ERROR;
      written := [ServerError];
    }

    /** POST: validate, then insert one freshly created widget. */
    method Post(input: Payload, now: Time)
      modifies this, db
      ensures !Valid(input, isoDateTime) ==>
        && status == BAD_REQUEST
        && written == old(written) + [Rejected(ErrorsOf(input, isoDateTime))]
        && db.table == old(db.table)
      ensures Valid(input, isoDateTime) && !FitsInteger(PartsOf(input)) ==>
        status == INTERNAL_SERVER_ERROR && written == [ServerError] && db.table == old(db.table)
      ensures Valid(input, isoDateTime) && FitsInteger(PartsOf(input)) ==>
        && status == CREATED
        && written == old(written) + [Created(WidgetText(NameOf(input), PartsOf(input), At(now), Blank))]
        && db.table == old(db.table) + [Row(NameOf(input), PartsOf(input), At(now), Blank)]
    {
      var errors := ErrorsOf(input, isoDateTime);
      if errors != map[] {
        status := BAD_REQUEST;
        written := written + [Rejected(errors)];
      } else {
        assert Valid(input, isoDateTime);
        var widget := new Widget(NameOf(input), PartsOf(input), true, now);
        var conn := new SQLiteConnection(db);
        conn.Enter();
        var row := Row(widget.name, widget.numParts, widget.dateCreated, widget.dateUpdated);
        var ok, rows := conn.Execute(InsertRow(row));
        if !ok {
          conn.Exit(Some(OverflowError));
          SendServerError();
          return;
        }
        status := CREATED;
        written := written + [Created(widget.Repr())];
        conn.Exit(None);
      }
    }

    /** GET: every row, table unchanged. */
    method Get()
      modifies this, db
      ensures db.table == old(db.table)
      ensures status == OK && written == old(written) + [Listing(old(db.table))]
    {
      var conn := new SQLiteConnection(db);
      conn.Enter();
      var ok, rows := conn.Execute(SelectAll);
      status := OK;
      written := written + [Listing(rows)];
      conn.Exit(None);
    }

    /** PUT: validate, then update the part count and update stamp of every
        row with the given name; no row is created when none has it. */
    method Put(input: Payload, now: Time)
      modifies this, db
      ensures !Valid(input, isoDateTime) ==>
        && status == BAD_REQUEST
        && written == old(written) + [Rejected(ErrorsOf(input, isoDateTime))]
        && db.table == old(db.table)
      ensures Valid(input, isoDateTime) && !FitsInteger(PartsOf(input)) ==>
        status == INTERNAL_SERVER_ERROR && written == [ServerError] && db.table == old(db.table)
      ensures Valid(input, isoDateTime) && FitsInteger(PartsOf(input)) ==>
        && status == CREATED
        && written == old(written) + [Updated(WidgetText(NameOf(input), PartsOf(input), Blank, At(now)))]
        && db.table == Update(old(db.table), NameEq(NameOf(input)), PartsOf(input), At(now))
    {
      var errors := ErrorsOf(input, isoDateTime);
      if errors != map[] {
        status := BAD_REQUEST;
        written := written + [Rejected(errors)];
      } else {
        assert Valid(input, isoDateTime);
        var widget := new Widget(NameOf(input), PartsOf(input), false, now);
        var conn := new SQLiteConnection(db);
        conn.Enter();
        var ok, rows := conn.Execute(UpdateWhere(NameEq(widget.name), widget.numParts, widget.dateUpdated));
        if !ok {
          conn.Exit(Some(OverflowError));
          SendServerError();
          return;
        }
        status := CREATED;
        written := written + [Updated(widget.Repr())];
        conn.Exit(None);
      }
    }

    /** DELETE: validate, then remove the rows with both the given name and
        the given part count. */
    method Delete(input: Payload)
      modifies this, db
      ensures !Valid(input, isoDateTime) ==>
        && status == BAD_REQUEST
        && written == old(written) + [Rejected(ErrorsOf(input, isoDateTime))]
        && db.table == old(db.table)
      ensures Valid(input, isoDateTime) && !FitsInteger(PartsOf(input)) ==>
        status == INTERNAL_SERVER_ERROR && written == [ServerError] && db.table == old(db.table)
      ensures Valid(input, isoDateTime) && FitsInteger(PartsOf(input)) ==>
        && status == OK
        && written == old(written) + [Deleted(DeletedMessage(NameOf(input), PartsOf(input)))]
        && db.table == Table.Delete(old(db.table), NameAndPartsEq(NameOf(input), PartsOf(input)))
    {
      var errors := ErrorsOf(input, isoDateTime);
      if errors != map[] {
        status := BAD_REQUEST;
        written := written + [Rejected(errors)];
      } else {
        assert Valid(input, isoDateTime);
        var name, parts := NameOf(input), PartsOf(input);
        var conn := new SQLiteConnection(db);
        conn.Enter();
        var ok, rows := conn.Execute(DeleteWhere(NameAndPartsEq(name, parts)));
        if !ok {
          conn.Exit(Some(OverflowError));
          SendServerError();
          return;
        }
        status := OK;
        written := written + [Deleted(DeletedMessage(name, parts))];
        conn.Exit(None);
      }
    }
  }

  /** main.py `WidgetAPI`: the single-item resource `/widget/{name}`. */
  class WidgetAPI {
    const db: DbFile
    var status: int
    var written: seq<Body>

    constructor (db: DbFile)
      ensures this.db == db && status == OK && written == []
    {
      this.db := db;
      status := OK;
      written := [];
    }

    /** GET by name: the rows with that name (none is not an error), table
        unchanged. */
    method Get(name: string)
      modifies this, db
      ensures db.table == old(db.table)
      ensures status == OK && written == old(written) + [Listing(Select(old(db.table), NameEq(name)))]
    {
      var conn := new SQLiteConnection(db);
      conn.Enter();
      var ok, rows := conn.Execute(SelectWhere(NameEq(name)));
      status := OK;
      written := written + [Listing(rows)];
      conn.Exit(None);
    }

    /** DELETE by name: every row with that name goes, whatever its part count. */
    method Delete(name: string)
      modifies this, db
      ensures db.table == Table.Delete(old(db.table), NameEq(name))
      ensures status == OK && written == old(written) + [Deleted(name)]
    {
      var conn := new SQLiteConnection(db);
      conn.Enter();
      var ok, rows := conn.Execute(DeleteWhere(NameEq(name)));
      status := OK;
      written := written + [Deleted(name)];
      conn.Exit(None);
    }
  }

  /** A POST followed by a GET on the posted name: the listing holds the
      rows that already had that name and, once more, the new row, stamped
      at creation only. */
  method PostThenGet(db: DbFile, isoDateTime: string -> bool, input: Payload, now: Time)
      returns (listed: Body)
    requires Valid(input, isoDateTime) && FitsInteger(PartsOf(input))
    modifies db
    ensures db.table == old(db.table) + [Row(NameOf(input), PartsOf(input), At(now), Blank)]
    ensures listed.Listing?
    ensures multiset(listed.widgets) == multiset(Select(old(db.table), NameEq(NameOf(input))))
                                        + multiset{Row(NameOf(input), PartsOf(input), At(now), Blank)}
  {
    var collection := new WidgetsAPI(db, isoDateTime);
    collection.Post(input, now);
    var item := new WidgetAPI(db);
    item.Get(NameOf(input));
    InsertThenSelect(old(db.table), Row(NameOf(input), PartsOf(input), At(now), Blank));
    listed := item.written[0];
  }
}
