/**
 * The database session behind the Flask handlers of app.py: three tables that
 * the handlers update in place. Each route's handler is a method; the `kind`
 * argument is the route's entity and `uid` the `<int:uid>` path segment, which
 * Flask's `int` converter only matches for non-negative numbers.
 */
module EntityStore {
  import opened Wrappers
  import opened Schema
  import opened Tables

  class Store {
    var users: Table
    var orders: Table
    var offers: Table

    /** The primary-key invariant: every row sits in its own table under its own id. */
    ghost predicate Valid()
      reads this
      ensures Valid() ==> forall kind :: WellKeyed(kind, TableOf(kind))
    {
      WellKeyed(UserTable, users) && WellKeyed(OrderTable, orders) && WellKeyed(OfferTable, offers)
    }

    function Abs(): Db
      reads this
    {
      Db(users, orders, offers)
    }

    function TableOf(kind: Kind): Table
      reads this
    {
      Abs().Of(kind)
    }

    /** `db.create_all()`: three empty tables. */
    constructor ()
      ensures Valid()
      ensures Abs() == Db(map[], map[], map[])
    {
      users, orders, offers := map[], map[], map[];
    }

    /** Commit a new version of one table. */
    method SetTable(kind: Kind, t: Table)
      requires Valid() && WellKeyed(kind, t)
      modifies this
      ensures Valid()
      ensures TableOf(kind) == t
      ensures forall other :: other != kind ==> TableOf(other) == old(TableOf(other))
    {
      match kind
      case UserTable => users := t;
      case OrderTable => orders := t;
      case OfferTable => offers := t;
    }

    /**
     * GET `/<entities>`: append the `to_dict` of every row to a list. The order of
     * `Query.all()` is not specified; the result holds each row exactly once.
     */
    method List(kind: Kind) returns (status: nat, result: seq<Dict>)
      requires Valid()
      ensures status == 200
      ensures |result| == |TableOf(kind)|
      ensures forall k :: k in TableOf(kind) ==> ToDict(TableOf(kind)[k]) in result
      ensures forall i :: 0 <= i < |result| ==> RowOf(TableOf(kind), result[i])
      ensures forall i, j :: 0 <= i < j < |result| ==> result[i] != result[j]
    {
      var t := TableOf(kind);
      var rest := t.Keys;
      ghost var ids: seq<int> := [];
      result := [];
      while rest != {}
        invariant Enumerating(t, rest, ids)
        invariant result == DictsOf(t, ids)
        decreases rest
      {
        SomeKey(rest);
        var k :| k in rest;
        result := result + [ToDict(t[k])];
        assert (ids + [k])[..|ids|] == ids;
        EnumerateStep(t, rest, ids, k);
        ids := ids + [k];
        rest := rest - {k};
      }
      ListedRows(kind, t, ids, result);
      status := 200;
    }

    /** GET `/<entities>/<uid>`: the row's `to_dict`. */
    method Get(kind: Kind, uid: nat) returns (status: nat, r: Result<Dict, Error>)
      ensures r.Ok? <==> uid in TableOf(kind)
      ensures r.Ok? ==> r.value == ToDict(TableOf(kind)[uid]) && status == 200
      ensures r.Err? ==> r.error == NotFound && status == ServerError
    {
      var t := TableOf(kind);
      if uid !in t {
        return ServerError, Err(NotFound);
      }
      return 200, Ok(ToDict(t[uid]));
    }

    /**
     * POST `/<entities>`: add the row built from the body and commit. The foreign-key
     * columns are stored as given: no other table is consulted.
     */
    method Create(kind: Kind, body: Body) returns (status: nat, r: Result<(), Error>)
      requires Valid() && BodyId(body).Some?
      modifies this
      ensures Valid()
      ensures Inserted(kind, old(TableOf(kind)), body) ==
        if r.Ok? then Ok(TableOf(kind)) else Err(r.error)
      ensures r.Err? ==> TableOf(kind) == old(TableOf(kind))
      ensures forall other :: other != kind ==> TableOf(other) == old(TableOf(other))
      ensures status == if r.Ok? then 201 else ServerError
    {
      var id := BodyId(body).value;
      var t := TableOf(kind);
      if id in t {
        return ServerError, Err(Conflict);
      }
      SetTable(kind, t[id := Build(kind, id, body)]);
      return 201, Ok(());
    }

    /**
     * PUT `/<entities>/<uid>`: load the row, assign each non-key column from the body
     * in turn, and commit. The body's own "id", if any, is ignored.
     */
    method Replace(kind: Kind, uid: nat, body: Body) returns (status: nat, r: Result<(), Error>)
      requires Valid()
      modifies this
      ensures Valid()
      ensures Replaced(old(TableOf(kind)), uid, body) ==
        if r.Ok? then Ok(TableOf(kind)) else Err(r.error)
      ensures r.Err? ==> TableOf(kind) == old(TableOf(kind))
      ensures forall other :: other != kind ==> TableOf(other) == old(TableOf(other))
      ensures status == if r.Ok? then 201 else ServerError
    {
      var t := TableOf(kind);
      if uid !in t {
        return ServerError, Err(NotFound);
      }
      var row := t[uid];
      match row {
        case User(_, _, _, _, _, _, _) =>
          row := row.(firstName := Field(body, "first_name"), lastName := Field(body, "last_name"),
                      age := Field(body, "age"), email := Field(body, "email"),
                      role := Field(body, "role"), phone := Field(body, "phone"));
        case Order(_, _, _, _, _, _, _, _, _) =>
          row := row.(name := Field(body, "name"), description := Field(body, "description"),
                      startDate := Field(body, "start_date"), endDate := Field(body, "end_date"),
                      address := Field(body, "address"), price := Field(body, "price"),
                      customerId := Field(body, "customer_id"), executorId := Field(body, "executor_id"));
        case Offer(_, _, _) =>
          row := row.(orderId := Field(body, "order_id"), executorId := Field(body, "executor_id"));
      }
      SetTable(kind, t[uid := row]);
      return 201, Ok(());
    }

    /** DELETE `/<entities>/<uid>`: delete the row and commit. */
    method Delete(kind: Kind, uid: nat) returns (status: nat, r: Result<(), Error>)
      requires Valid()
      modifies this
      ensures Valid()
      ensures Removed(old(TableOf(kind)), uid) ==
        if r.Ok? then Ok(TableOf(kind)) else Err(r.error)
      ensures r.Err? ==> TableOf(kind) == old(TableOf(kind))
      ensures forall other :: other != kind ==> TableOf(other) == old(TableOf(other))
      ensures status == if r.Ok? then 204 else ServerError
    {
      var t := TableOf(kind);
      if uid !in t {
        return ServerError, Err(NotFound);
      }
      SetTable(kind, t - {uid});
      return 204, Ok(());
    }

    /** One insert loop of `init_database`, through the create path; stops at the first failure. */
    method InsertFixtures(kind: Kind, fixtures: seq<Body>) returns (ok: bool)
      requires Valid() && HasIds(fixtures)
      modifies this
      ensures Valid()
      ensures (TableOf(kind), ok) == InsertAll(kind, old(TableOf(kind)), fixtures)
      ensures forall other :: other != kind ==> TableOf(other) == old(TableOf(other))
    {
      var i := 0;
      while i < |fixtures|
        invariant 0 <= i <= |fixtures| && Valid()
        invariant InsertAll(kind, old(TableOf(kind)), fixtures) == InsertAll(kind, TableOf(kind), fixtures[i..])
        invariant forall other :: other != kind ==> TableOf(other) == old(TableOf(other))
      {
        assert fixtures[i..][0] == fixtures[i] && fixtures[i..][1..] == fixtures[i + 1..];
        var _, r := Create(kind, fixtures[i]);
        if r.Err? {
          return false;
        }
        i := i + 1;
      }
      return true;
    }

    /** `init_database`: empty all three tables, then seed users, orders and offers in that order. */
    method Seed(userFixtures: seq<Body>, orderFixtures: seq<Body>, offerFixtures: seq<Body>)
      returns (ok: bool)
      requires HasIds(userFixtures) && HasIds(orderFixtures) && HasIds(offerFixtures)
      modifies this
      ensures Valid()
      ensures (Abs(), ok) == Seeded(userFixtures, orderFixtures, offerFixtures)
    {
      users, orders, offers := map[], map[], map[];
      ok := InsertFixtures(UserTable, userFixtures);
      assert TableOf(OrderTable) == map[] && TableOf(OfferTable) == map[];
      if !ok {
        return;
      }
      ok := InsertFixtures(OrderTable, orderFixtures);
      if !ok {
        return;
      }
      ok := InsertFixtures(OfferTable, offerFixtures);
    }
  }
}
