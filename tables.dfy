/** A database table as the sequence of its rows in primary-key order, with the
    few queries the handlers issue against it: look a row up by id, filter the
    rows, and choose the id of a new row. `key` gives a row's primary key. */
module Tables {
  import opened Outcomes

  /** Primary keys strictly increase along the table (so they are unique). */
  ghost predicate Increasing<R>(rows: seq<R>, key: R -> int) {
    forall i, j :: 0 <= i < j < |rows| ==> key(rows[i]) < key(rows[j])
  }

  /** Some row of the table has primary key `id`. */
  ghost predicate HasId<R>(rows: seq<R>, key: R -> int, id: int) {
    exists j :: 0 <= j < |rows| && key(rows[j]) == id
  }

  /** The position of the first row with primary key `id`, if any:
      `query.filter(id == …).first()`. */
  function Find<R>(rows: seq<R>, key: R -> int, id: int): (r: Option<nat>)
    ensures r.Some? ==> r.value < |rows| && key(rows[r.value]) == id
    ensures r.Some? ==> forall j :: 0 <= j < r.value ==> key(rows[j]) != id
    ensures r.None? <==> !HasId(rows, key, id)
  {
    if rows == [] then None
    else if key(rows[0]) == id then Some(0)
    else
      var rest := Find(rows[1..], key, id);
      assert rest.None? ==> forall j :: 0 <= j < |rows| ==> key(rows[j]) != id by {
        if rest.None? {
          forall j | 0 <= j < |rows| ensures key(rows[j]) != id {
            if j > 0 { assert rows[j] == rows[1..][j - 1]; }
          }
        }
      }
      match rest
      case None => None
      case Some(k) => Some(k + 1)
  }

  /** The row with primary key `id`, which must exist (a lazy relationship load). */
  function Get<R>(rows: seq<R>, key: R -> int, id: int): (row: R)
    requires HasId(rows, key, id)
    ensures row in rows && key(row) == id
  {
    rows[Find(rows, key, id).value]
  }

  /** The rows that satisfy `keep`, in table order. */
  function Filter<R(!new)>(rows: seq<R>, keep: R -> bool): (r: seq<R>)
    ensures |r| <= |rows|
    ensures forall x :: x in r <==> x in rows && keep(x)
  {
    if rows == [] then []
    else
      var rest := Filter(rows[1..], keep);
      assert forall x :: x in rows <==> x == rows[0] || x in rows[1..];
      if keep(rows[0]) then [rows[0]] + rest else rest
  }

  /** The id the database gives a new row: one more than the largest id
      (the last one), or 1 in an empty table. */
  function NextId<R>(rows: seq<R>, key: R -> int): (id: int)
    requires Increasing(rows, key)
    ensures forall j :: 0 <= j < |rows| ==> key(rows[j]) < id
    ensures !HasId(rows, key, id)
  {
    if rows == [] then 1 else key(rows[|rows| - 1]) + 1
  }

  /** Filtering keeps the primary-key order. */
  lemma {:induction false} FilterIncreasing<R(!new)>(rows: seq<R>, keep: R -> bool, key: R -> int)
    ensures Increasing(rows, key) ==> Increasing(Filter(rows, keep), key)
  {
    if rows != [] && Increasing(rows, key) {
      var rest := Filter(rows[1..], keep);
      assert Increasing(rows[1..], key) by {
        forall i, j | 0 <= i < j < |rows[1..]|
          ensures key(rows[1..][i]) < key(rows[1..][j])
        {
          assert rows[1..][i] == rows[i + 1] && rows[1..][j] == rows[j + 1];
        }
      }
      FilterIncreasing(rows[1..], keep, key);
      if keep(rows[0]) {
        forall x | x in rest ensures key(rows[0]) < key(x) {
          var j :| 0 <= j < |rows[1..]| && rows[1..][j] == x;
          assert x == rows[j + 1];
        }
        var r := [rows[0]] + rest;
        forall i, j | 0 <= i < j < |r| ensures key(r[i]) < key(r[j]) {
          assert r[j] == rest[j - 1] && r[j] in rest;
          if i > 0 { assert r[i] == rest[i - 1]; }
        }
      }
    }
  }

  /** Appending a row with a fresh, larger id keeps the primary-key order. */
  lemma AppendIncreasing<R>(rows: seq<R>, key: R -> int, row: R)
    requires Increasing(rows, key)
    requires forall j :: 0 <= j < |rows| ==> key(rows[j]) < key(row)
    ensures Increasing(rows + [row], key)
  {
    var r := rows + [row];
    forall i, j | 0 <= i < j < |r| ensures key(r[i]) < key(r[j]) {
      assert r[i] == rows[i];
      if j < |rows| { assert r[j] == rows[j]; }
    }
  }

  /** Overwriting a row by one with the same id keeps the primary-key order. */
  lemma UpdateIncreasing<R>(rows: seq<R>, key: R -> int, i: nat, row: R)
    requires Increasing(rows, key)
    requires i < |rows| && key(row) == key(rows[i])
    ensures Increasing(rows[i := row], key)
  {
    var r := rows[i := row];
    forall a, b | 0 <= a < b < |r| ensures key(r[a]) < key(r[b]) {
      assert key(r[a]) == key(rows[a]) && key(r[b]) == key(rows[b]);
    }
  }

  /** Deleting a row keeps the primary-key order. */
  lemma RemoveIncreasing<R>(rows: seq<R>, key: R -> int, i: nat)
    requires Increasing(rows, key)
    requires i < |rows|
    ensures Increasing(rows[..i] + rows[i + 1..], key)
  {
    var r := rows[..i] + rows[i + 1..];
    forall a, b | 0 <= a < b < |r| ensures key(r[a]) < key(r[b]) {
      var a' := if a < i then a else a + 1;
      var b' := if b < i then b else b + 1;
      assert r[a] == rows[a'] && r[b] == rows[b'];
    }
  }

  /** A row that was there is still there after a row is appended. */
  lemma HasIdAppend<R>(rows: seq<R>, key: R -> int, row: R)
    ensures forall id :: HasId(rows + [row], key, id) <==> HasId(rows, key, id) || key(row) == id
  {
    var r := rows + [row];
    forall id ensures HasId(r, key, id) <==> HasId(rows, key, id) || key(row) == id {
      if HasId(rows, key, id) {
        var j :| 0 <= j < |rows| && key(rows[j]) == id;
        assert r[j] == rows[j];
      }
      if key(row) == id {
        assert r[|rows|] == row;
      }
      if HasId(r, key, id) {
        var j :| 0 <= j < |r| && key(r[j]) == id;
        if j < |rows| { assert r[j] == rows[j]; }
      }
    }
  }

  /** Overwriting a row by one with the same key keeps the set of keys. */
  lemma HasIdUpdate<R>(rows: seq<R>, key: R -> int, i: nat, row: R)
    requires i < |rows| && key(row) == key(rows[i])
    ensures forall id :: HasId(rows[i := row], key, id) <==> HasId(rows, key, id)
  {
    var r := rows[i := row];
    forall id ensures HasId(r, key, id) <==> HasId(rows, key, id) {
      if HasId(rows, key, id) {
        var j :| 0 <= j < |rows| && key(rows[j]) == id;
        assert key(r[j]) == id;
      }
      if HasId(r, key, id) {
        var j :| 0 <= j < |r| && key(r[j]) == id;
        assert key(rows[j]) == id;
      }
    }
  }

  /** Deleting a row keeps every other key. */
  lemma HasIdRemove<R>(rows: seq<R>, key: R -> int, i: nat)
    requires i < |rows|
    ensures forall id :: HasId(rows, key, id) && id != key(rows[i]) ==> HasId(rows[..i] + rows[i + 1..], key, id)
  {
    var r := rows[..i] + rows[i + 1..];
    forall id | HasId(rows, key, id) && id != key(rows[i]) ensures HasId(r, key, id) {
      var j :| 0 <= j < |rows| && key(rows[j]) == id;
      if j < i { assert r[j] == rows[j]; } else { assert r[j - 1] == rows[j]; }
    }
  }
}
