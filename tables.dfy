/**
 * The entity store as values: one table per entity, keyed by primary key, and
 * the effect of each handler on its table. The `Store` class in store.dfy is
 * proved against these functions.
 */
module Tables {
  import opened Wrappers
  import opened Schema

  /**
   * Why a request fails. In app.py neither case is handled: a missing id makes
   * `Query.get` return None, which is then dereferenced or passed to
   * `session.delete`, and a duplicate primary key makes `commit` raise; both
   * end as an unhandled exception, an HTTP 500.
   */
  datatype Error = NotFound | Conflict

  /** The status Flask answers with when a handler raises. */
  const ServerError: nat := 500

  /** One table: rows by primary key. A map cannot hold two rows under one key. */
  type Table = map<int, Record>

  /** Every row sits in the table of its own entity, under its own id. */
  ghost predicate WellKeyed(kind: Kind, t: Table)
  {
    forall k :: k in t ==> KindOf(t[k]) == kind && t[k].id == k
  }

  /** All three tables. */
  datatype Db = Db(users: Table, orders: Table, offers: Table)
  {
    function Of(kind: Kind): Table
    {
      match kind
      case UserTable => users
      case OrderTable => orders
      case OfferTable => offers
    }
  }

  /** GET `/<entities>/<id>`: the row's `to_dict`, or NotFound. */
  function Found(t: Table, id: int): Result<Dict, Error>
  {
    if id in t then Ok(ToDict(t[id])) else Err(NotFound)
  }

  /** POST `/<entities>`: insert the row built from the body under the body's id. */
  function Inserted(kind: Kind, t: Table, body: Body): Result<Table, Error>
    requires BodyId(body).Some?
  {
    var id := BodyId(body).value;
    if id in t then Err(Conflict) else Ok(t[id := Build(kind, id, body)])
  }

  /** PUT `/<entities>/<id>`: overwrite every non-key column of the row from the body. */
  function Replaced(t: Table, id: int, body: Body): Result<Table, Error>
  {
    if id in t then Ok(t[id := Build(KindOf(t[id]), id, body)]) else Err(NotFound)
  }

  /** DELETE `/<entities>/<id>`: drop the row. */
  function Removed(t: Table, id: int): Result<Table, Error>
  {
    if id in t then Ok(t - {id}) else Err(NotFound)
  }

  /** A successful create puts exactly the body's columns under the body's id and nothing else changes. */
  lemma InsertSpec(kind: Kind, t: Table, body: Body)
    requires BodyId(body).Some?
    ensures Inserted(kind, t, body).Ok? <==> BodyId(body).value !in t
    ensures Inserted(kind, t, body).Err? ==> Inserted(kind, t, body).error == Conflict
    ensures Inserted(kind, t, body).Ok? ==>
      var t', id := Inserted(kind, t, body).value, BodyId(body).value;
      && t'.Keys == t.Keys + {id}
      && Found(t', id) == Ok(Expected(kind, id, body))
      && (forall k :: k in t ==> t'[k] == t[k])
  {
    var id := BodyId(body).value;
    if id !in t {
      BuildMatchesBody(kind, id, body);
    }
  }

  /** A create whose id is already in the table fails: creating the same id twice conflicts. */
  lemma InsertTwiceConflicts(kind: Kind, t: Table, body: Body, again: Body)
    requires BodyId(body).Some? && BodyId(again) == BodyId(body)
    requires Inserted(kind, t, body).Ok?
    ensures Inserted(kind, Inserted(kind, t, body).value, again) == Err(Conflict)
  {
  }

  /** Creating keeps each row under its own id in its own table. */
  lemma InsertKeepsWellKeyed(kind: Kind, t: Table, body: Body)
    requires BodyId(body).Some? && WellKeyed(kind, t)
    requires Inserted(kind, t, body).Ok?
    ensures WellKeyed(kind, Inserted(kind, t, body).value)
  {
  }

  /** Deleting a row just created gives the table back as it was. */
  lemma InsertThenRemove(kind: Kind, t: Table, body: Body)
    requires BodyId(body).Some? && Inserted(kind, t, body).Ok?
    ensures Removed(Inserted(kind, t, body).value, BodyId(body).value) == Ok(t)
  {
    var id := BodyId(body).value;
    var t' := Inserted(kind, t, body).value;
    assert t' - {id} == t;
  }

  /**
   * A full replacement keeps the key set and the row's id and entity, reads back as
   * exactly the body's columns (absent ones null, not kept) and touches no other row.
   */
  lemma ReplaceSpec(t: Table, id: int, body: Body)
    ensures Replaced(t, id, body).Ok? <==> id in t
    ensures Replaced(t, id, body).Err? ==> Replaced(t, id, body).error == NotFound
    ensures Replaced(t, id, body).Ok? ==>
      var t' := Replaced(t, id, body).value;
      && t'.Keys == t.Keys
      && t'[id].id == id && KindOf(t'[id]) == KindOf(t[id])
      && Found(t', id) == Ok(Expected(KindOf(t[id]), id, body))
      && (forall k :: k in t && k != id ==> t'[k] == t[k])
  {
    if id in t {
      BuildMatchesBody(KindOf(t[id]), id, body);
    }
  }

  /** Replacing twice with the same body is the same as replacing once. */
  lemma ReplaceIdempotent(t: Table, id: int, body: Body)
    requires Replaced(t, id, body).Ok?
    ensures Replaced(Replaced(t, id, body).value, id, body) == Replaced(t, id, body)
  {
    var t' := Replaced(t, id, body).value;
    assert t'[id := t'[id]] == t';
  }

  /** Putting back the dictionary a GET returned leaves the table as it was. */
  lemma ReplaceWithOwnDict(kind: Kind, t: Table, id: int)
    requires WellKeyed(kind, t) && id in t
    ensures Replaced(t, id, ToDict(t[id])) == Ok(t)
  {
    DictRoundTrip(t[id]);
    assert t[id := t[id]] == t;
  }

  /** Replacing keeps each row under its own id in its own table. */
  lemma ReplaceKeepsWellKeyed(kind: Kind, t: Table, id: int, body: Body)
    requires WellKeyed(kind, t) && Replaced(t, id, body).Ok?
    ensures WellKeyed(kind, Replaced(t, id, body).value)
  {
  }

  /** Delete removes exactly the addressed row; a second delete of it finds nothing. */
  lemma RemoveSpec(t: Table, id: int)
    ensures Removed(t, id).Ok? <==> id in t
    ensures Removed(t, id).Err? ==> Removed(t, id).error == NotFound
    ensures Removed(t, id).Ok? ==>
      var t' := Removed(t, id).value;
      && t'.Keys == t.Keys - {id}
      && (forall k :: k in t' ==> t'[k] == t[k])
      && Found(t', id) == Err(NotFound)
      && Removed(t', id) == Err(NotFound)
  {
  }

  /** Deleting keeps each remaining row under its own id. */
  lemma RemoveKeepsWellKeyed(kind: Kind, t: Table, id: int)
    requires WellKeyed(kind, t) && Removed(t, id).Ok?
    ensures WellKeyed(kind, Removed(t, id).value)
  {
  }

  /** The `to_dict` of the rows under `ids`, in that order. */
  function DictsOf(t: Table, ids: seq<int>): seq<Dict>
    requires forall i :: 0 <= i < |ids| ==> ids[i] in t
  {
    if ids == [] then [] else DictsOf(t, ids[..|ids| - 1]) + [ToDict(t[ids[|ids| - 1]])]
  }

  lemma {:induction false} DictsOfAt(t: Table, ids: seq<int>)
    requires forall i :: 0 <= i < |ids| ==> ids[i] in t
    ensures |DictsOf(t, ids)| == |ids|
    ensures forall i :: 0 <= i < |ids| ==> DictsOf(t, ids)[i] == ToDict(t[ids[i]])
  {
    if ids != [] {
      DictsOfAt(t, ids[..|ids| - 1]);
    }
  }

  /**
   * Halfway through walking a table's keys: `ids` are the keys visited, each once,
   * and `rest` the keys still to visit.
   */
  ghost predicate Enumerating(t: Table, rest: set<int>, ids: seq<int>)
  {
    && rest <= t.Keys
    && |ids| + |rest| == |t|
    && (forall i :: 0 <= i < |ids| ==> ids[i] in t && ids[i] !in rest)
    && (forall k :: k in t && k !in rest ==> k in ids)
    && (forall i, j :: 0 <= i < j < |ids| ==> ids[i] != ids[j])
  }

  lemma EnumerateStep(t: Table, rest: set<int>, ids: seq<int>, k: int)
    requires Enumerating(t, rest, ids) && k in rest
    ensures Enumerating(t, rest - {k}, ids + [k])
  {
  }

  /** Helper for the loop in `Store.List`: a non-empty set of keys has a key to take next. */
  lemma SomeKey(keys: set<int>)
    requires keys != {}
    ensures exists k :: k in keys
  {
    if forall k :: k !in keys {
      assert false;
    }
  }

  /** `d` is the `to_dict` of the row its "id" names. */
  predicate RowOf(t: Table, d: Dict)
  {
    BodyId(d).Some? && BodyId(d).value in t && d == ToDict(t[BodyId(d).value])
  }

  /** Rows under distinct ids serialise to distinct dictionaries. */
  lemma DistinctRows(kind: Kind, t: Table, ids: seq<int>, result: seq<Dict>)
    requires WellKeyed(kind, t)
    requires |ids| == |result|
    requires forall i :: 0 <= i < |ids| ==> ids[i] in t && result[i] == ToDict(t[ids[i]])
    requires forall i, j :: 0 <= i < j < |ids| ==> ids[i] != ids[j]
    ensures forall i, j :: 0 <= i < j < |result| ==> result[i] != result[j]
  {
    forall i, j | 0 <= i < j < |result|
      ensures result[i] != result[j]
    {
      IdOfDict(t[ids[i]]);
      IdOfDict(t[ids[j]]);
    }
  }

  lemma IdOfDict(r: Record)
    ensures ToDict(r)["id"] == Int(r.id)
  {
  }

  /**
   * A list built from the rows under a duplicate-free sequence of ids that covers the
   * table holds each row's `to_dict` exactly once and nothing else.
   */
  lemma ListedRows(kind: Kind, t: Table, ids: seq<int>, result: seq<Dict>)
    requires WellKeyed(kind, t) && Enumerating(t, {}, ids)
    requires result == DictsOf(t, ids)
    ensures |result| == |t|
    ensures forall k :: k in t ==> ToDict(t[k]) in result
    ensures forall i :: 0 <= i < |result| ==> RowOf(t, result[i])
    ensures forall i, j :: 0 <= i < j < |result| ==> result[i] != result[j]
  {
    DictsOfAt(t, ids);
    DistinctRows(kind, t, ids, result);
    forall i | 0 <= i < |result|
      ensures RowOf(t, result[i])
    {
      var k := ids[i];
      DictRoundTrip(t[k]);
      assert result[i] == ToDict(t[k]) && t[k].id == k;
      assert BodyId(result[i]) == Some(k);
    }
    forall id | id in t
      ensures ToDict(t[id]) in result
    {
      var i :| 0 <= i < |ids| && ids[i] == id;
      assert result[i] == ToDict(t[id]);
    }
  }

  // ---------------------------------------------------------------- seeding

  /** Every fixture carries an integer primary key. */
  predicate HasIds(fixtures: seq<Body>)
  {
    forall i :: 0 <= i < |fixtures| ==> BodyId(fixtures[i]).Some?
  }

  function IdAt(fixtures: seq<Body>, i: int): int
    requires HasIds(fixtures) && 0 <= i < |fixtures|
  {
    BodyId(fixtures[i]).value
  }

  /** The primary keys the fixtures carry. */
  function IdSet(fixtures: seq<Body>): set<int>
    requires HasIds(fixtures)
  {
    set i | 0 <= i < |fixtures| :: IdAt(fixtures, i)
  }

  /** No two fixtures share a primary key. */
  ghost predicate DistinctIds(fixtures: seq<Body>)
    requires HasIds(fixtures)
  {
    forall i, j :: 0 <= i < j < |fixtures| ==> IdAt(fixtures, i) != IdAt(fixtures, j)
  }

  /**
   * One loop of `init_database`: insert the fixtures one by one, each committed on
   * its own. The flag is false when an insert hit a duplicate key; the table is then
   * what the earlier commits left, and the startup aborts.
   */
  function InsertAll(kind: Kind, t: Table, fixtures: seq<Body>): (Table, bool)
    requires HasIds(fixtures)
    decreases |fixtures|
  {
    if fixtures == [] then (t, true)
    else match Inserted(kind, t, fixtures[0])
      case Err(_) => (t, false)
      case Ok(t') => InsertAll(kind, t', fixtures[1..])
  }

  /**
   * `init_database`: drop and recreate the three tables, then insert the user,
   * order and offer fixtures in that order. A failing loop stops the ones after it.
   */
  function Seeded(users: seq<Body>, orders: seq<Body>, offers: seq<Body>): (Db, bool)
    requires HasIds(users) && HasIds(orders) && HasIds(offers)
  {
    var (u, usersOk) := InsertAll(UserTable, map[], users);
    if !usersOk then (Db(u, map[], map[]), false)
    else
      var (o, ordersOk) := InsertAll(OrderTable, map[], orders);
      if !ordersOk then (Db(u, o, map[]), false)
      else
        var (f, offersOk) := InsertAll(OfferTable, map[], offers);
        (Db(u, o, f), offersOk)
  }

  lemma IdSetCons(fixtures: seq<Body>)
    requires HasIds(fixtures) && fixtures != []
    ensures HasIds(fixtures[1..])
    ensures forall i :: 0 < i < |fixtures| ==> IdAt(fixtures, i) == IdAt(fixtures[1..], i - 1)
    ensures IdSet(fixtures) == {IdAt(fixtures, 0)} + IdSet(fixtures[1..])
  {
    var rest := fixtures[1..];
    forall x | x in IdSet(fixtures)
      ensures x in {IdAt(fixtures, 0)} + IdSet(rest)
    {
      var i :| 0 <= i < |fixtures| && IdAt(fixtures, i) == x;
      if i > 0 {
        assert IdAt(rest, i - 1) == x;
      }
    }
    forall x | x in IdSet(rest)
      ensures x in IdSet(fixtures)
    {
      var i :| 0 <= i < |rest| && IdAt(rest, i) == x;
      assert IdAt(fixtures, i + 1) == x;
    }
  }

  lemma DistinctIdsCons(fixtures: seq<Body>)
    requires HasIds(fixtures) && fixtures != []
    ensures HasIds(fixtures[1..])
    ensures DistinctIds(fixtures) <==>
      DistinctIds(fixtures[1..]) && IdAt(fixtures, 0) !in IdSet(fixtures[1..])
  {
    var id, rest := IdAt(fixtures, 0), fixtures[1..];
    IdSetCons(fixtures);
    if DistinctIds(fixtures) {
      forall i, j | 0 <= i < j < |rest|
        ensures IdAt(rest, i) != IdAt(rest, j)
      {
        assert IdAt(fixtures, i + 1) != IdAt(fixtures, j + 1);
      }
      forall j | 0 <= j < |rest|
        ensures IdAt(rest, j) != id
      {
        assert IdAt(fixtures, 0) != IdAt(fixtures, j + 1);
      }
    }
    if DistinctIds(rest) && id !in IdSet(rest) {
      forall i, j | 0 <= i < j < |fixtures|
        ensures IdAt(fixtures, i) != IdAt(fixtures, j)
      {
        if i == 0 {
          assert IdAt(fixtures, j) == IdAt(rest, j - 1);
        } else {
          assert IdAt(rest, i - 1) != IdAt(rest, j - 1);
        }
      }
    }
  }

  /** Inserting a fixture list succeeds exactly when its keys are distinct and new to the table. */
  lemma {:induction false} InsertAllSucceeds(kind: Kind, t: Table, fixtures: seq<Body>)
    requires HasIds(fixtures)
    ensures InsertAll(kind, t, fixtures).1 <==> DistinctIds(fixtures) && IdSet(fixtures) !! t.Keys
    decreases |fixtures|
  {
    if fixtures == [] {
      assert IdSet(fixtures) == {};
    } else {
      var id := IdAt(fixtures, 0);
      IdSetCons(fixtures);
      if id !in t {
        var t1 := t[id := Build(kind, id, fixtures[0])];
        InsertAllSucceeds(kind, t1, fixtures[1..]);
        DistinctIdsCons(fixtures);
      }
    }
  }

  /**
   * After a successful insert of a fixture list the table holds its old rows plus
   * one row per fixture, built from it.
   */
  lemma {:induction false} InsertAllContents(kind: Kind, t: Table, fixtures: seq<Body>)
    requires HasIds(fixtures) && InsertAll(kind, t, fixtures).1
    ensures
      var t' := InsertAll(kind, t, fixtures).0;
      && t'.Keys == t.Keys + IdSet(fixtures)
      && (forall k :: k in t ==> t'[k] == t[k])
      && (forall i :: 0 <= i < |fixtures| ==> t'[IdAt(fixtures, i)] == Build(kind, IdAt(fixtures, i), fixtures[i]))
    decreases |fixtures|
  {
    if fixtures == [] {
      assert IdSet(fixtures) == {};
    } else {
      var id, rest := IdAt(fixtures, 0), fixtures[1..];
      IdSetCons(fixtures);
      var t1 := t[id := Build(kind, id, fixtures[0])];
      InsertAllContents(kind, t1, rest);
      InsertAllSucceeds(kind, t1, rest);
      var t' := InsertAll(kind, t, fixtures).0;
      forall i | 0 <= i < |fixtures|
        ensures t'[IdAt(fixtures, i)] == Build(kind, IdAt(fixtures, i), fixtures[i])
      {
        if i > 0 {
          assert fixtures[i] == rest[i - 1];
        }
      }
    }
  }

  /**
   * Seeding succeeds exactly when each fixture list has distinct keys; the three tables
   * then hold exactly one row per fixture and nothing from before.
   */
  lemma SeededSpec(users: seq<Body>, orders: seq<Body>, offers: seq<Body>)
    requires HasIds(users) && HasIds(orders) && HasIds(offers)
    ensures Seeded(users, orders, offers).1 <==>
      DistinctIds(users) && DistinctIds(orders) && DistinctIds(offers)
    ensures Seeded(users, orders, offers).1 ==>
      var db := Seeded(users, orders, offers).0;
      && db.users.Keys == IdSet(users)
      && db.orders.Keys == IdSet(orders)
      && db.offers.Keys == IdSet(offers)
      && (forall i :: 0 <= i < |users| ==> db.users[IdAt(users, i)] == Build(UserTable, IdAt(users, i), users[i]))
      && (forall i :: 0 <= i < |orders| ==> db.orders[IdAt(orders, i)] == Build(OrderTable, IdAt(orders, i), orders[i]))
      && (forall i :: 0 <= i < |offers| ==> db.offers[IdAt(offers, i)] == Build(OfferTable, IdAt(offers, i), offers[i]))
    ensures !DistinctIds(users) ==>
      Seeded(users, orders, offers).0.orders == map[] && Seeded(users, orders, offers).0.offers == map[]
  {
    InsertAllSucceeds(UserTable, map[], users);
    InsertAllSucceeds(OrderTable, map[], orders);
    InsertAllSucceeds(OfferTable, map[], offers);
    if DistinctIds(users) && DistinctIds(orders) && DistinctIds(offers) {
      InsertAllContents(UserTable, map[], users);
      InsertAllContents(OrderTable, map[], orders);
      InsertAllContents(OfferTable, map[], offers);
    }
  }
}
