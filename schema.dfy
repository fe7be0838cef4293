/**
 * The three mapped classes of app.py (User, Order, Offer), the request bodies
 * the handlers read them from, and their `to_dict` serialisation.
 */
module Schema {
  import opened Wrappers

  /**
   * A decoded JSON scalar as it reaches a column; `Null` is both JSON null and
   * SQL NULL. A row keeps the value as the body gave it: the conversions SQLite's
   * column affinity applies on storage (a numeric string into an integer column,
   * a number into a text column, a boolean as 1 or 0) are not modelled.
   */
  datatype Value = Null | Bool(b: bool) | Int(i: int) | Str(s: string)

  /** A decoded JSON request body. */
  type Body = map<string, Value>

  /** The dictionary `to_dict` returns, before `json.dumps`. */
  type Dict = map<string, Value>

  /** The three tables: `user`, `order` and `offer`. */
  datatype Kind = UserTable | OrderTable | OfferTable

  /** One row. `id` is the integer primary key; every other column is nullable. */
  datatype Record =
    | User(id: int, firstName: Value, lastName: Value, age: Value,
           email: Value, role: Value, phone: Value)
    | Order(id: int, name: Value, description: Value, startDate: Value, endDate: Value,
            address: Value, price: Value, customerId: Value, executorId: Value)
    | Offer(id: int, orderId: Value, executorId: Value)

  function KindOf(r: Record): Kind
  {
    match r
    case User(_, _, _, _, _, _, _) => UserTable
    case Order(_, _, _, _, _, _, _, _, _) => OrderTable
    case Offer(_, _, _) => OfferTable
  }

  /** The column names of each table, which are also the keys of its `to_dict`. */
  function Keys(kind: Kind): set<string>
  {
    match kind
    case UserTable => {"id", "first_name", "last_name", "age", "email", "role", "phone"}
    case OrderTable => {"id", "name", "description", "start_date", "end_date", "address",
                        "price", "customer_id", "executor_id"}
    case OfferTable => {"id", "order_id", "executor_id"}
  }

  /** Python's `body.get(key)`: the value under `key`, or null when the key is absent. */
  function Field(body: Body, key: string): Value
  {
    if key in body then body[key] else Null
  }

  /** The primary key a create request carries, when it carries an integer one. */
  function BodyId(body: Body): Option<int>
  {
    if "id" in body && body["id"].Int? then Some(body["id"].i) else None
  }

  /**
   * The row a handler builds from a body: `User(id=..., first_name=body.get("first_name"), ...)`.
   * Create passes the body's own id, a full replacement the id of the row it overwrites.
   */
  function Build(kind: Kind, id: int, body: Body): (r: Record)
    ensures KindOf(r) == kind && r.id == id
  {
    match kind
    case UserTable =>
      User(id, Field(body, "first_name"), Field(body, "last_name"), Field(body, "age"),
           Field(body, "email"), Field(body, "role"), Field(body, "phone"))
    case OrderTable =>
      Order(id, Field(body, "name"), Field(body, "description"), Field(body, "start_date"),
            Field(body, "end_date"), Field(body, "address"), Field(body, "price"),
            Field(body, "customer_id"), Field(body, "executor_id"))
    case OfferTable =>
      Offer(id, Field(body, "order_id"), Field(body, "executor_id"))
  }

  /** `to_dict`: every column of the row under its name, nulls included. */
  function ToDict(r: Record): (d: Dict)
    ensures d.Keys == Keys(KindOf(r))
    ensures d["id"] == Int(r.id)
  {
    match r
    case User(id, firstName, lastName, age, email, role, phone) =>
      map["id" := Int(id), "first_name" := firstName, "last_name" := lastName, "age" := age,
          "email" := email, "role" := role, "phone" := phone]
    case Order(id, name, description, startDate, endDate, address, price, customerId, executorId) =>
      map["id" := Int(id), "name" := name, "description" := description,
          "start_date" := startDate, "end_date" := endDate, "address" := address,
          "price" := price, "customer_id" := customerId, "executor_id" := executorId]
    case Offer(id, orderId, executorId) =>
      map["id" := Int(id), "order_id" := orderId, "executor_id" := executorId]
  }

  /**
   * Reference definition of what a stored row reads back as: the table's columns,
   * each taken from the body or null when absent, except the key, which is `id`.
   */
  function Expected(kind: Kind, id: int, body: Body): Dict
  {
    map k | k in Keys(kind) :: if k == "id" then Int(id) else Field(body, k)
  }

  /** A row built from a body serialises to exactly the body's columns, absent ones as null. */
  lemma BuildMatchesBody(kind: Kind, id: int, body: Body)
    ensures ToDict(Build(kind, id, body)) == Expected(kind, id, body)
  {
    var d, e := ToDict(Build(kind, id, body)), Expected(kind, id, body);
    forall k | k in Keys(kind)
      ensures d[k] == e[k]
    {
      match kind
      case UserTable => UserColumn(k, id, body);
      case OrderTable => OrderColumn(k, id, body);
      case OfferTable => OfferColumn(k, id, body);
    }
  }

  lemma UserColumn(k: string, id: int, body: Body)
    requires k in Keys(UserTable)
    ensures ToDict(Build(UserTable, id, body))[k] == Expected(UserTable, id, body)[k]
  {
  }

  lemma OrderColumn(k: string, id: int, body: Body)
    requires k in Keys(OrderTable)
    ensures ToDict(Build(OrderTable, id, body))[k] == Expected(OrderTable, id, body)[k]
  {
  }

  lemma OfferColumn(k: string, id: int, body: Body)
    requires k in Keys(OfferTable)
    ensures ToDict(Build(OfferTable, id, body))[k] == Expected(OfferTable, id, body)[k]
  {
  }

  /** Sending a row's `to_dict` back as a body rebuilds the same row under the same id. */
  lemma DictRoundTrip(r: Record)
    ensures BodyId(ToDict(r)) == Some(r.id)
    ensures Build(KindOf(r), r.id, ToDict(r)) == r
  {
  }

  /** Distinct rows never serialise to the same dictionary. */
  lemma ToDictInjective(a: Record, b: Record)
    requires ToDict(a) == ToDict(b)
    ensures a == b
  {
    DictRoundTrip(a);
    DictRoundTrip(b);
    assert KindOf(a) == KindOf(b) by {
      assert Keys(KindOf(a)) == Keys(KindOf(b));
    }
  }
}
