# Widget service: a Dafny model of its request handlers

The service keeps widgets in one SQLite table, `Widgets`. Each row holds
`(name, number_of_parts, date_created, date_updated)`. The service exposes
the table over HTTP:

- `/widget/` is the collection resource. POST inserts a row, GET lists every
  row, PUT updates the rows that have a given name, and DELETE removes the
  rows that have a given name and part count.
- `/widget/{name}` is the single-item resource. GET lists the rows with that
  name, and DELETE removes all of them.

POST, PUT and DELETE on the collection first check the JSON body against a
schema. If the check fails, they answer 400 with the errors and touch no
store. Every handler runs its one SQL statement inside a connection guard.
The guard connects on entry, and on exit it commits and then closes, whether
or not an exception is leaving the block.

The model has six modules.

- `Text` (text.dfy) covers `str()` of an int and a reader that inverts it. It
  also has a split at the last occurrence of a character.
- `Widgets` (widgets.dfy) covers the `Widget` class of widgets.py. A creation
  stamps only `date_created`, and an update stamps only `date_updated`. The
  module also has the `__repr__` text and a parser that reads the four fields
  back from that text. The parser reads from the right: the part count and
  the stamps never hold a comma or a quote, so any name, quotes included,
  comes back exactly. A timestamp is
  `Blank` (the `''` the constructor assigns first) or `At(t)`. Here `t` is the
  non-empty text of a `datetime.now()` reading, which the caller supplies.
- `Validation` (validation.dfy) covers the schema of `WidgetSchemaValidator`
  in utils.py. It holds the declared constraints as a predicate (`Valid`). It
  also holds the error report `validate()` returns (`ErrorsOf`), with one
  violation per failing field. `Valid` states that the two agree: the report
  is empty exactly when the payload is valid.
- `Table` (table.dfy) covers the WHERE clauses and the statements on the
  table of `Row`s, the record `Widgets` defines for the four fields. SELECT, UPDATE
  and DELETE are pure functions on the sequence of rows, with lemmas for
  counts, membership, partition, idempotence and the no-match cases.
- `Storage` (storage.dfy) covers `widget.db` (`DbFile`, the committed table),
  what each statement does to the table and fetches from it, and the guard
  `SQLiteConnection`. The guard has three states:
  `Unconnected` (the connection is None), `Connected` and `Closed`. While
  connected, statements change an uncommitted copy of the table. `Exit`
  commits that copy and then closes the connection, whatever exception is
  passed in.
- `Handlers` (handlers.dfy) covers the two `RequestHandler` classes of
  main.py. Each has a `status` and the list of bodies it `write`s. Their
  methods are proved against the functions above.

Three points where the code decides the model:

- PUT is described as "update or create", but it issues only an UPDATE. A PUT
  on a name that no row has changes nothing, and it still answers 201 with
  the echoed widget. The model keeps this update-only behaviour
  (`Table.UpdateNoMatch`).
- `__exit__` commits and closes whatever exception it is passed
  (utils.py:36-38). The one exception the model lets reach the guarded block is sqlite3's `OverflowError`. sqlite3
  raises it when a part count outside the 64-bit SQLite INTEGER range is
  bound. In that case the statement has no effect, the guard commits and
  closes, and Tornado answers 500.
- The `Widget` and `Widget_Updated` values of the POST and PUT bodies are
  `json.dumps(widget, default=str)`. Since `Widget` is not JSON-serialisable,
  that value is `str(widget)`, the `__repr__` text encoded as a JSON string.
  The model writes it as that text. The DELETE confirmation is likewise
  proved to give back its name and part count (`Handlers.DeletedMessage`).

## Model

| member | source | states |
|---|---|---|
| Text.IntTextRoundTrip | widgets.py:18 | the decimal text printed for `num_parts`, with its minus sign, reads back as the same int |
| Widgets.StampText | widgets.py:10-18 | a timestamp prints as the empty text exactly when it is the `''` of an unstamped field, and its text never holds a comma |
| Widgets.WidgetText | widgets.py:17-18 | the repr text of any name, part count and pair of stamps reads back as exactly those four fields, whatever characters the name holds (quotes and commas included) |
| Widgets.Widget.Repr | widgets.py:17-18 | a widget's repr parses back to exactly its own four fields, for every name |
| Widgets.Widget.constructor | widgets.py:7-15 | name and part count are stored as given; with `create` only `date_created` is stamped (`date_updated` is `''`), otherwise only `date_updated` is; exactly one timestamp is set |
| Validation.Valid | utils.py:5-25 | a payload meets every declared constraint (an object; `name` a string of 1 to 64 characters; `number_of_parts` an integer; each date absent or a non-empty accepted DateTime string) if and only if `validate()` reports no error, which is how the handlers choose between 400 and the store |
| Validation.ErrorsOf | utils.py:5-25 | every reported field carries one violation; a body that is not an object is reported under `_schema` only |
| Validation.ReportedFields | utils.py:5-25 | for an object body, each of the four fields is reported exactly when its declared rule fails, and `_schema` never is |
| Validation.MissingNameRejected | utils.py:7-8 | a payload without `name` is invalid and its report on `name` is "missing" |
| Validation.NameLengthRule | utils.py:11 | a string `name` is unreported exactly when its length is 1 to 64; lengths 0 and above 64 are reported as out of range |
| Validation.PartsRequired | utils.py:13-14 | a payload whose `number_of_parts` is absent or not an integer is invalid and reported on that field |
| Validation.DatesOptional | utils.py:18-25 | leaving out `date_created` and `date_updated` never makes a payload invalid; without them validity is the name and part-count rules alone, and the report only loses the two date keys |
| Table.Select | main.py:180 | the rows a SELECT on a WHERE returns all satisfy it, and there are no more of them than rows in the table |
| Table.SelectCount | main.py:180 | a SELECT holds each matching row as often as the table does and no other row |
| Table.SelectMembers | main.py:180-182 | a row is fetched by a SELECT on a name exactly when the table has it and it carries that name; a name no row has fetches nothing |
| Table.InsertThenSelect | main.py:52-54 | after an INSERT, a SELECT on the inserted name returns, as a multiset, the rows it returned before plus one more copy of the new row |
| Table.Delete | main.py:152-153 | no row left by a DELETE satisfies its WHERE, and the table does not grow |
| Table.DeleteCount | main.py:152-153 | a DELETE removes every row that satisfies its WHERE and keeps every other row as often as the table held it |
| Table.DeleteMembers | main.py:203 | a row survives a DELETE exactly when the table had it and it does not satisfy the WHERE |
| Table.SelectDeletePartition | main.py:203 | the rows a DELETE removes are exactly the rows a SELECT with the same WHERE returns: together they make up the table |
| Table.DeleteThenSelect | main.py:203 | after a DELETE by name, a SELECT on that name finds nothing |
| Table.DeleteNoMatch | main.py:152-153 | a DELETE whose WHERE no row satisfies leaves the table as it was |
| Table.DeleteIdempotent | main.py:152-153 | repeating a DELETE changes nothing more |
| Table.DeleteByNameSubsumes | main.py:203 | deleting by name removes every row a DELETE by the same name and any part count removes, whatever the part count |
| Table.Update | main.py:119-120 | an UPDATE keeps the number of rows |
| Table.UpdateAt | main.py:119-122 | row by row, an UPDATE by name gives each matching row the new part count and update stamp and keeps its name and `date_created`; every other row is unchanged |
| Table.UpdateNoMatch | main.py:119-124 | an UPDATE whose WHERE no row satisfies leaves the table as it was: PUT creates nothing |
| Table.UpdateIdempotent | main.py:119-122 | repeating an UPDATE by name with the same values changes nothing more |
| Table.UpdateThenSelect | main.py:119-122 | after an UPDATE by name, a SELECT on that name finds as many rows as before, each with the new part count and update stamp |
| Storage.Bindable | main.py:52-54 | a statement can be bound exactly when every int parameter it carries fits an SQLite INTEGER; otherwise sqlite3 raises OverflowError |
| Storage.Effect | main.py:52-203 | a SELECT leaves the table as it was; an INSERT adds exactly its row; a DELETE removes exactly the rows a SELECT with its WHERE returns; an UPDATE keeps every row in place with its name and `date_created`, gives each row that satisfies its WHERE the new `number_of_parts` and `date_updated`, and leaves every other row as it was |
| Storage.Fetched | main.py:77-182 | `fetchall()` never returns a row more often than the table holds it; after a SELECT with a WHERE it returns each matching row as often as the table holds it and nothing else; after a write it returns nothing |
| Storage.SQLiteConnection.constructor | utils.py:29-30 | a new guard has no connection and has done nothing yet |
| Storage.SQLiteConnection.Enter | utils.py:32-34 | entering opens a connection that sees the committed table and records the connect |
| Storage.SQLiteConnection.Execute | main.py:51-52 | a statement whose int parameters fit an SQLite INTEGER changes the uncommitted table by its effect and fetches its result; any other statement fails with nothing changed; either way the guard stays well formed |
| Storage.SQLiteConnection.Exit | utils.py:36-38 | leaving commits the uncommitted table to the file and then closes the connection, whatever exception is passed, and records commit and close in that order |
| Handlers.WidgetsAPI.Post | main.py:41-56 | an invalid body gets 400 and the report, with the table unchanged; a valid one appends exactly one row (name, part count, creation stamp, `''`) and gets 201 with the new widget's repr; a part count beyond the SQLite range gets 500 with the table unchanged |
| Handlers.WidgetsAPI.Get | main.py:74-79 | 200 and a listing of every row, with the table unchanged |
| Handlers.WidgetsAPI.Put | main.py:108-124 | an invalid body gets 400 and the report, with the table unchanged; a valid one updates part count and update stamp of every row with that name and nothing else, creates no row, and gets 201 with the repr of a widget stamped at update only |
| Handlers.DeletedMessage | main.py:155-156 | the DELETE confirmation gives back the name and the part count it was built from, whatever characters the name holds |
| Handlers.WidgetsAPI.Delete | main.py:142-156 | an invalid body gets 400 and the report, with the table unchanged; a valid one removes exactly the rows with that name and part count and gets 200 with a message naming both |
| Handlers.WidgetAPI.Get | main.py:177-182 | without validation: 200 and the rows with that name (possibly none), with the table unchanged |
| Handlers.WidgetAPI.Delete | main.py:200-205 | without validation: every row with that name is removed whatever its part count, and the 200 answer echoes the name |
| Handlers.PostThenGet | main.py:48-56 | after a valid POST, a GET on the posted name lists, as a multiset, the rows that had the name before plus the new row, stamped at creation only |

## Left out

- JSON decoding of the request body and JSON encoding of the responses. The body is given as a decoded `Payload`. A body that does not parse as JSON raises in `json.loads`, which is not modelled.
- The routing, the Swagger document generation and the server start-up in `make_app` and the `__main__` block of main.py. init_swagger.py is not part of this model.
- The wall clock. `datetime.now()` is a parameter `now` of the POST and PUT handlers. Its text is taken as non-empty and made of digits, `-`, `:`, `.` and spaces.
- Parsing of DateTime strings by marshmallow. Whether a string is accepted is the parameter `isoDateTime`. The model only keeps marshmallow's rejection of the empty string.
- Validation.ErrorsOf: reports one violation kind per field, not marshmallow's message texts. It does not report unknown keys, because a `Payload` carries only the four schema keys.
- Validation.PartsRule: accepts only JSON integers. marshmallow's `Int` field also coerces numeric strings and integral floats, and the handlers would then pass that raw value on to SQLite. Here the model rejects them: `Str("3")` gets `NotAnInteger` and a 400, where the service answers 201 and stores `"3"`.
- Handlers.WidgetsAPI.Post: the "Widget" value is the repr text itself, not that text wrapped in a JSON string. The same holds for Handlers.WidgetsAPI.Put and its "Widget_Updated" value.
- Row order of SELECT without ORDER BY, which SQLite does not promise. Storage.Fetched, Storage.SQLiteConnection.Execute, Handlers.WidgetsAPI.Get and Handlers.WidgetAPI.Get return the rows in the model's table order. The properties that relate two listings (Table.InsertThenSelect, Handlers.PostThenGet, Table.SelectCount) are stated as multisets.
- Store faults other than OverflowError on binding an out-of-range int: locked or missing database files, disk errors, missing tables, and strings SQLite cannot encode.
- Concurrent requests. Locking between them belongs to SQLite and the HTTP server.
- The 500 page of Tornado. It is modelled as a single `ServerError` body replacing whatever the handler had written.
