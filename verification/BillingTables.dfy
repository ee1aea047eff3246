/**
 Billing tables fed by webhook events. A row is its natural key (the provider's id), its
 owner columns (set on insert only) and its updatable columns (overwritten on conflict).
 A row's local id is its index.
 */
module BillingTables {
  import opened Wrappers

  datatype Row<O, U> = Row(key: string, owner: O, fields: U)

  /** The row with natural key `key`: keys are unique columns. */
  function Find<O, U>(rows: seq<Row<O, U>>, key: string): (r: Option<nat>)
    ensures r.Some? ==> r.value < |rows| && rows[r.value].key == key
    ensures r.None? <==> forall row <- rows :: row.key != key
  {
    if rows == [] then None
    else
      var last := |rows| - 1;
      if rows[last].key == key then Some(last) else Find(rows[..last], key)
  }

  /** INSERT ... ON CONFLICT (key) DO UPDATE of the updatable columns. */
  function Upsert<O, U>(rows: seq<Row<O, U>>, row: Row<O, U>): (r: seq<Row<O, U>>)
    ensures Find(r, row.key).Some?
  {
    var at := Find(rows, row.key);
    var i := if at.Some? then at.value else |rows|;
    var r := if at.Some? then rows[i := rows[i].(fields := row.fields)] else rows + [row];
    assert r[i] in r;
    r
  }

  // ---------------------------------------------------------------- a log of upserts, and the table it makes

  function FirstOf<O, U>(log: seq<Row<O, U>>, key: string): Option<Row<O, U>> {
    if log == [] then None
    else if log[0].key == key then Some(log[0])
    else FirstOf(log[1..], key)
  }

  function LastOf<O, U>(log: seq<Row<O, U>>, key: string): Option<Row<O, U>> {
    if log == [] then None
    else if log[|log| - 1].key == key then Some(log[|log| - 1])
    else LastOf(log[..|log| - 1], key)
  }

  ghost predicate UniqueKeys<O, U>(rows: seq<Row<O, U>>) {
    forall i, j :: 0 <= i < j < |rows| ==> rows[i].key != rows[j].key
  }

  /** Row `key` exists iff it was ever upserted, owned as by the first upsert, with the columns of the last. */
  ghost predicate ReflectsKey<O, U>(rows: seq<Row<O, U>>, log: seq<Row<O, U>>, key: string) {
    var at := Find(rows, key);
    && (at.None? <==> FirstOf(log, key).None?)
    && (at.None? <==> LastOf(log, key).None?)
    && (at.Some? ==>
          && rows[at.value].owner == FirstOf(log, key).value.owner
          && rows[at.value].fields == LastOf(log, key).value.fields)
  }

  ghost predicate Reflects<O(!new), U(!new)>(rows: seq<Row<O, U>>, log: seq<Row<O, U>>) {
    UniqueKeys(rows) && forall key :: ReflectsKey(rows, log, key)
  }

  lemma {:induction false} FirstAppend<O, U>(log: seq<Row<O, U>>, row: Row<O, U>, key: string)
    ensures FirstOf(log + [row], key)
         == if FirstOf(log, key).Some? then FirstOf(log, key) else if row.key == key then Some(row) else None
  {
    if log != [] {
      FirstAppend(log[1..], row, key);
      assert (log + [row])[1..] == log[1..] + [row];
    }
  }

  lemma FindUnique<O, U>(rows: seq<Row<O, U>>, i: nat)
    requires UniqueKeys(rows) && i < |rows|
    ensures Find(rows, rows[i].key) == Some(i)
  {
    assert rows[i] in rows;
  }

  /** An upsert is seen under its own key and under no other. */
  lemma FindUpsert<O, U>(rows: seq<Row<O, U>>, row: Row<O, U>, key: string)
    requires UniqueKeys(rows)
    ensures UniqueKeys(Upsert(rows, row))
    ensures
      var at, at' := Find(rows, key), Find(Upsert(rows, row), key);
      at' == if at.Some? then at else if row.key == key then Some(|rows|) else None
  {
    var rows' := Upsert(rows, row);
    forall i, j | 0 <= i < j < |rows'| ensures rows'[i].key != rows'[j].key {
      if j == |rows| { assert rows[i] in rows; }
    }
    var at := Find(rows, key);
    if at.Some? {
      assert rows'[at.value].key == key;
      FindUnique(rows', at.value);
    } else if row.key == key {
      FindUnique(rows', |rows|);
    } else {
      forall i | 0 <= i < |rows'| ensures rows'[i].key != key {
        if i < |rows| { assert rows[i] in rows; }
      }
    }
  }

  lemma UpsertReflects<O(!new), U(!new)>(rows: seq<Row<O, U>>, log: seq<Row<O, U>>, row: Row<O, U>)
    requires Reflects(rows, log)
    ensures Reflects(Upsert(rows, row), log + [row])
  {
    FindUpsert(rows, row, row.key);
    forall key ensures ReflectsKey(Upsert(rows, row), log + [row], key) {
      assert ReflectsKey(rows, log, key);
      FindUpsert(rows, row, key);
      FirstAppend(log, row, key);
      assert (log + [row])[..|log|] == log;
    }
  }
}
