/**
 * Concrete request sequences against the store, written as lemmas over the
 * table functions and as a client of the `Store` class.
 */
module Scenarios {
  import opened Wrappers
  import opened Schema
  import opened Tables
  import opened EntityStore

  /**
   * POST /orders with {"id": 1, "name": "Move sofa", "price": 50, "customer_id": 10}
   * on an empty order table, then GET /orders/1: every column comes back, the ones
   * the body left out as null. Each value already has its column's type.
   * (`Inserted` takes no other table, so whether user 10 exists cannot matter;
   * `Session` shows the same on a store whose user table is empty.)
   */
  lemma CreatedOrderReadsBack()
    ensures
      var body := map["id" := Int(1), "name" := Str("Move sofa"), "price" := Int(50), "customer_id" := Int(10)];
      && Inserted(OrderTable, map[], body).Ok?
      && Found(Inserted(OrderTable, map[], body).value, 1) == Ok(map[
           "id" := Int(1), "name" := Str("Move sofa"), "description" := Null,
           "start_date" := Null, "end_date" := Null, "address" := Null,
           "price" := Int(50), "customer_id" := Int(10), "executor_id" := Null])
  {
    var body := map["id" := Int(1), "name" := Str("Move sofa"), "price" := Int(50), "customer_id" := Int(10)];
    assert BodyId(body) == Some(1);
    var row := Build(OrderTable, 1, body);
    assert row == Order(1, Str("Move sofa"), Null, Null, Null, Null, Int(50), Int(10), Null);
  }

  /**
   * A user created with first and last name, then PUT with only a first name:
   * the last name becomes null. Replacement is not a merge.
   */
  lemma ReplaceIsNotMerge()
    ensures
      var t := map[1 := User(1, Str("A"), Str("B"), Null, Null, Null, Null)];
      Replaced(t, 1, map["first_name" := Str("C")])
        == Ok(map[1 := User(1, Str("C"), Null, Null, Null, Null, Null)])
  {
    var t := map[1 := User(1, Str("A"), Str("B"), Null, Null, Null, Null)];
    var body: Body := map["first_name" := Str("C")];
    var row := User(1, Str("C"), Null, Null, Null, Null, Null);
    assert Build(UserTable, 1, body) == row;
    assert t[1 := row] == map[1 := row];
  }

  /**
   * A PUT body that names another id changes nothing about the key: the row stays
   * under the id in the path.
   */
  lemma ReplaceIgnoresBodyId(t: Table, id: int, other: int, body: Body)
    requires id in t && other != id
    ensures Replaced(t, id, body["id" := Int(other)]).Ok?
    ensures Replaced(t, id, body["id" := Int(other)]).value.Keys == t.Keys
    ensures Replaced(t, id, body["id" := Int(other)]).value[id].id == id
  {
    ReplaceSpec(t, id, body["id" := Int(other)]);
  }

  /** A client session: each handler's answer follows from the contracts alone. */
  method Session()
  {
    var store := new Store();
    var order: Body := map["id" := Int(1), "name" := Str("Move sofa"), "customer_id" := Int(10)];

    // No user 10 exists; the order is accepted all the same.
    var status, created := store.Create(OrderTable, order);
    assert created.Ok? && status == 201;
    assert store.TableOf(UserTable) == map[];

    var again: Body := map["id" := Int(1)];
    status, created := store.Create(OrderTable, again);
    assert created == Err(Conflict) && status == 500;

    var got;
    status, got := store.Get(OrderTable, 1);
    assert got.Ok? && got.value["customer_id"] == Int(10) && got.value["price"] == Null;

    var replaced;
    status, replaced := store.Replace(OrderTable, 1, map["price" := Int(70)]);
    assert replaced.Ok? && status == 201;
    status, got := store.Get(OrderTable, 1);
    assert got.Ok? && got.value["price"] == Int(70) && got.value["name"] == Null;

    var listed;
    status, listed := store.List(OrderTable);
    assert status == 200 && |listed| == 1;

    var deleted;
    status, deleted := store.Delete(OrderTable, 1);
    assert deleted.Ok? && status == 204;
    status, deleted := store.Delete(OrderTable, 1);
    assert deleted == Err(NotFound) && status == 500;
    status, got := store.Get(OrderTable, 1);
    assert got == Err(NotFound);
  }
}
