# Entity store of the Users / Orders / Offers CRUD service

This project models, in Dafny, the data layer behind the Flask application in
`app.py`: three tables (`user`, `order`, `offer`) keyed by an integer primary
key, the `to_dict` serialisation of their rows, the five request handlers each
table has (list, get by id, create, full replacement, delete) and the seeding
routine `init_database`.

- `wrappers.dfy` (`Wrappers`): `Option` and `Result`.
- `schema.dfy` (`Schema`): a column value (`Value`: null, boolean, integer or
  string, kept as the decoded JSON body gave it; SQLite's column affinity
  conversions are not modelled, see "Left out"), the request body and `to_dict` result as
  `map<string, Value>`, the three mapped classes as the constructors of one
  `Record` datatype, `Field` (Python's `dict.get`), `Build` (the
  `User(id=..., first_name=body.get("first_name"), ...)` calls), `ToDict`, and
  `Expected`, an independent definition of what a row built from a body must
  read back as.
- `tables.dfy` (`Tables`): each table as `map<int, Record>` and each handler's
  effect on it as a function (`Found`, `Inserted`, `Replaced`, `Removed`,
  `InsertAll`, `Seeded`), with the lemmas that state what they promise.
- `store.dfy` (`EntityStore`): the session as a class `Store` whose three map
  fields the handler methods update in place. Each method is proved against the
  table function of the same handler. `List` appends one `to_dict` per row in a
  loop, `Replace` assigns the non-key columns of the loaded row from the body,
  and `Seed` empties the tables and runs the three insert loops of
  `init_database` (users, then orders, then offers) through `Create`.
- `scenarios.dfy` (`Scenarios`): concrete request sequences, including a client
  session over `Store` whose every answer follows from the contracts.

The `kind` argument of a handler stands for the route's entity; `uid` is the
`<int:uid>` path segment, which Flask's `int` converter only matches for
non-negative numbers, hence `nat`.

Failures. In `app.py` nothing is checked: a missing id makes `Query.get`
return `None`, which is then dereferenced (GET, PUT) or handed to
`session.delete` (DELETE), and a duplicate primary key makes `commit` raise.
All of these end as an unhandled exception, which Flask answers with status 500
before anything is committed. The model returns `Err(NotFound)` or
`Err(Conflict)` with status 500 and leaves every table unchanged. The code
never answers 404 or 409, and neither does the model.

Foreign keys. `customer_id`, `executor_id` and `order_id` are declared as
foreign keys but never checked, and SQLite does not enforce them by default.
No handler consults another table: creating, replacing or deleting in one table
succeeds or fails on that table alone, so dangling references are accepted and
deleting a user leaves orders that name it.

## Model

| member | source | states |
|---|---|---|
| Schema.ToDict | app.py:25-34 | `to_dict` emits exactly the table's column names as keys, nulls included, with the row's id under "id" (same for Order 52-63 and Offer 72-77) |
| Schema.BuildMatchesBody | app.py:91-101 | a row built from a body reads back, column by column, as the body's value for that key or null when the key is absent, with the given id (same construction for Order 144-156, Offer 199-205 and the seed loops) |
| Schema.DictRoundTrip | app.py:52-63 | posting a row's `to_dict` back as a body carries the row's id and rebuilds the same row |
| Schema.ToDictInjective | app.py:72-77 | two rows with the same `to_dict` are the same row |
| Tables.InsertSpec | app.py:89-103 | create succeeds exactly when the body's id is not in the table; then the table gains that one key, the new row reads back as the body (absent keys null) and every other row is unchanged; otherwise it fails with Conflict |
| Tables.InsertTwiceConflicts | app.py:17 | `id` is the primary key: a second create with the same id fails with Conflict |
| Tables.InsertKeepsWellKeyed | app.py:40 | create keeps every row under its own id in its own table |
| Tables.InsertThenRemove | app.py:126-130 | deleting the row just created gives back the table as it was |
| Tables.ReplaceSpec | app.py:111-124 | PUT succeeds exactly when the id is in the table; it keeps the key set, the row's id and entity, the row reads back as the body's columns with null for absent keys (not merged with the old values), and no other row changes; otherwise NotFound |
| Tables.ReplaceIdempotent | app.py:166-181 | two identical PUTs leave the same table as one |
| Tables.ReplaceWithOwnDict | app.py:215-224 | PUT of the dictionary GET returned for a row leaves the table unchanged |
| Tables.ReplaceKeepsWellKeyed | app.py:168-177 | PUT keeps every row under its own id in its own table |
| Tables.RemoveSpec | app.py:182-186 | DELETE succeeds exactly when the id is present; it removes that key only, keeps every other row, and a later GET or DELETE of the id fails with NotFound |
| Tables.RemoveKeepsWellKeyed | app.py:225-229 | DELETE keeps the remaining rows under their own ids |
| Tables.ListedRows | app.py:83-85 | the appended list has one entry per row: every row's `to_dict` is in it, every entry is the `to_dict` of the row its "id" names, and no entry repeats |
| Tables.InsertAllSucceeds | app.py:235-247 | a seed loop gets through its fixtures exactly when their ids are distinct and not already in the table |
| Tables.InsertAllContents | app.py:249-263 | after a seed loop that got through, the table holds its earlier rows plus, under each fixture's id, the row built from that fixture |
| Tables.SeededSpec | app.py:231-273 | seeding succeeds exactly when each fixture list has distinct ids; the tables then hold exactly the fixture rows and nothing from before; a duplicate user id leaves orders and offers empty, since their loops come after |
| EntityStore.Store.constructor | app.py:233 | `create_all`: three empty tables |
| EntityStore.Store.List | app.py:133-139 | status 200 and a list with exactly one `to_dict` per stored row of the route's table, in no particular order |
| EntityStore.Store.Get | app.py:106-110 | status 200 with the row's `to_dict` when the id is present; otherwise NotFound (status 500) |
| EntityStore.Store.Create | app.py:141-158 | the table becomes `Inserted` of the old one, status 201; on a duplicate id Conflict, status 500, nothing changed; other tables never change or are consulted |
| EntityStore.Store.Replace | app.py:161-181 | the table becomes `Replaced` of the old one, status 201; a missing id gives NotFound, status 500, nothing changed; other tables untouched |
| EntityStore.Store.Delete | app.py:209-229 | the table becomes `Removed` of the old one, status 204; a missing id gives NotFound, status 500, nothing changed; other tables untouched |
| EntityStore.Store.InsertFixtures | app.py:265-273 | one insert loop through the create path: table and outcome are those of `InsertAll`; other tables untouched |
| EntityStore.Store.Seed | app.py:231-234 | the three tables and the outcome are those of `Seeded`, whatever the store held before |
| Scenarios.CreatedOrderReadsBack | app.py:144-157 | POST of an order with id, name, price and customer id, then GET, returns all nine columns with the missing ones null |
| Scenarios.ReplaceIsNotMerge | app.py:115-120 | PUT with only a first name turns the last name to null |
| Scenarios.ReplaceIgnoresBodyId | app.py:113-123 | an "id" in a PUT body does not move the row: it stays under the id of the path |

## Left out

- HTTP and JSON plumbing: Flask routing, `json.loads` of the request and `json.dumps` (indentation, `ensure_ascii`, key order of `to_dict`, the Content-Type header). Bodies are already-decoded maps and responses are `to_dict` maps and status codes.
- A request body that is not valid JSON: `json.loads` raises before any table is touched.
- JSON floats: `json.loads` gives a Python float and SQLite stores it as REAL, so the source accepts and returns them; `Value` has no float case, so such bodies are outside the model. Lists and objects as values (which the SQLite driver cannot bind) are outside it too.
- SQLAlchemy session mechanics (`add`, `commit`, identity map) and the in-memory SQLite engine; the order of `Query.all()` is treated as unspecified.
- SQLite's column affinity: an `Integer` column (age, price, customer_id, executor_id, order_id) stores a numeric string such as "25" as the integer 25, a `String` column stores a number such as 5 as the text "5", and a boolean is bound as 1 or 0; a later GET returns the converted value. The model stores every value as the body gave it, so its read-back equalities hold only for values that already match their column's type.
- Schema.Build: keeps each body value unconverted; the source's stored value is the affinity-converted one, so the two agree only for values of the column's own type.
- Schema.BuildMatchesBody: the read-back equals the body only for values already of their column's type, because affinity conversion is not modelled.
- Tables.InsertSpec: the created row reads back as the body only for values already of their column's type, because affinity conversion is not modelled.
- Tables.ReplaceSpec: the replaced row reads back as the body only for values already of their column's type, because affinity conversion is not modelled.
- Scenarios.CreatedOrderReadsBack: its body's values all have their column's type (text for name, integers for price and customer_id), so affinity changes nothing there; the scenario says nothing about other values.
- The `String(100)` length declarations: SQLite does not enforce lengths.
- EntityStore.Store.Create: requires the body to carry an integer "id"; without one SQLite would assign the next rowid, which the code never states.
- Tables.Inserted: requires the body to carry an integer "id", for the same reason.
- EntityStore.Store.Seed: requires every fixture to carry an integer "id", for the same reason; the fixture lists of `raw_data` are parameters, since their contents are not part of this model.
- EntityStore.Store.InsertFixtures: requires every fixture to carry an integer "id", for the same reason.
- The 64-bit range of SQLite integers: ids and values are unbounded.
- `app.run(debug=True)` and concurrent requests: each handler runs alone and commits once.
