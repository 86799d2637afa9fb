/** A database table as the services see it: a sequence of rows in store order
    (no query of the core has an ORDER BY), each row carrying a string key.
    These are the ORM calls the services make (`findById`, `where`, `first`,
    `deleteById`, `patchAndFetchById`, `insert`), stated over sequences. */
module Table {
  import opened Common

  /** Position of the first row that `keep` accepts, or `|rows|` if none does. */
  function FirstIndex<T(==)>(rows: seq<T>, keep: T -> bool): (i: nat)
    ensures i <= |rows|
    ensures forall j :: 0 <= j < i ==> !keep(rows[j])
    ensures i < |rows| ==> keep(rows[i])
  {
    if |rows| == 0 then 0
    else if keep(rows[0]) then 0
    else 1 + FirstIndex(rows[1..], keep)
  }

  /** `query.where(...).first()`: the first row in store order that matches. */
  function First<T(==)>(rows: seq<T>, keep: T -> bool): (r: Option<T>)
    ensures r.None? <==> forall j :: 0 <= j < |rows| ==> !keep(rows[j])
    ensures r.Some? ==> r.value in rows && keep(r.value)
    ensures r.Some? ==> exists i :: 0 <= i < |rows| && rows[i] == r.value && forall j :: 0 <= j < i ==> !keep(rows[j])
  {
    var i := FirstIndex(rows, keep);
    if i < |rows| then Some(rows[i]) else None
  }

  /** `findById(id)`: the row whose key is `id`, if any. */
  function FindBy<T(==)>(rows: seq<T>, key: T -> string, id: string): (r: Option<T>)
    ensures r.None? <==> forall j :: 0 <= j < |rows| ==> key(rows[j]) != id
    ensures r.Some? ==> r.value in rows && key(r.value) == id
  {
    First(rows, (x: T) => key(x) == id)
  }

  /** `where(...)`: the matching rows, in store order. */
  function Where<T(==,!new)>(rows: seq<T>, keep: T -> bool): (r: seq<T>)
    ensures |r| <= |rows|
    ensures forall x :: x in r <==> x in rows && keep(x)
  {
    if |rows| == 0 then []
    else (if keep(rows[0]) then [rows[0]] else []) + Where(rows[1..], keep)
  }

  /** The set of keys in use. */
  function Keys<T(==)>(rows: seq<T>, key: T -> string): (ks: set<string>)
    ensures forall x :: x in rows ==> key(x) in ks
    ensures forall k :: k in ks ==> exists j :: 0 <= j < |rows| && key(rows[j]) == k
  {
    set x | x in rows :: key(x)
  }

  /** No two rows share a key: a primary key or a UNIQUE column. */
  predicate UniqueKeys<T(==)>(rows: seq<T>, key: T -> string)
  {
    forall i, j :: 0 <= i < j < |rows| ==> key(rows[i]) != key(rows[j])
  }

  /** `deleteById(id)`: every row with that key goes, the others stay in order. */
  function DeleteBy<T(==,!new)>(rows: seq<T>, key: T -> string, id: string): (r: seq<T>)
    ensures forall x :: x in r <==> x in rows && key(x) != id
    ensures FindBy(r, key, id).None?
  {
    Where(rows, (x: T) => key(x) != id)
  }

  /** `patchAndFetchById(id, ...)`: the row with that key is replaced by `row`,
      every other row and the order are kept. */
  function ReplaceBy<T(==)>(rows: seq<T>, key: T -> string, id: string, row: T): (r: seq<T>)
    ensures |r| == |rows|
    ensures forall j :: 0 <= j < |rows| ==> r[j] == if key(rows[j]) == id then row else rows[j]
  {
    if |rows| == 0 then []
    else [if key(rows[0]) == id then row else rows[0]] + ReplaceBy(rows[1..], key, id, row)
  }

  /** Filtering distributes over concatenation: a row appended to a table lands
      at the end of every filter that accepts it. */
  lemma {:induction false} WhereAppend<T(!new)>(a: seq<T>, b: seq<T>, keep: T -> bool)
    ensures Where(a + b, keep) == Where(a, keep) + Where(b, keep)
  {
    if |a| == 0 {
      assert a + b == b;
    } else {
      assert (a + b)[1..] == a[1..] + b;
      WhereAppend(a[1..], b, keep);
    }
  }

  /** Inserting a row whose key is not in use keeps the keys unique. */
  lemma InsertKeepsUnique<T>(rows: seq<T>, key: T -> string, row: T)
    requires UniqueKeys(rows, key)
    requires key(row) !in Keys(rows, key)
    ensures UniqueKeys(rows + [row], key)
    ensures Keys(rows + [row], key) == Keys(rows, key) + {key(row)}
  {
    var r := rows + [row];
    forall i, j | 0 <= i < j < |r| ensures key(r[i]) != key(r[j]) {
      if j == |rows| {
        assert r[i] in rows;
      }
    }
    assert forall x :: x in r <==> x in rows || x == row;
  }

  /** Replacing a row by one with the same key keeps the keys, and their uniqueness. */
  lemma ReplaceKeepsKeys<T>(rows: seq<T>, key: T -> string, id: string, row: T)
    requires key(row) == id
    ensures Keys(ReplaceBy(rows, key, id, row), key) == Keys(rows, key)
    ensures UniqueKeys(rows, key) ==> UniqueKeys(ReplaceBy(rows, key, id, row), key)
  {
    var r := ReplaceBy(rows, key, id, row);
    assert forall j :: 0 <= j < |rows| ==> key(r[j]) == key(rows[j]);
    forall k | k in Keys(r, key) ensures k in Keys(rows, key) {
      var j :| 0 <= j < |r| && key(r[j]) == k;
      assert rows[j] in rows;
    }
    forall k | k in Keys(rows, key) ensures k in Keys(r, key) {
      var j :| 0 <= j < |rows| && key(rows[j]) == k;
      assert r[j] in r;
    }
  }

  /** After a patch, looking the key up finds the new row. */
  lemma {:induction false} ReplaceThenFind<T>(rows: seq<T>, key: T -> string, id: string, row: T)
    requires key(row) == id
    requires FindBy(rows, key, id).Some?
    ensures FindBy(ReplaceBy(rows, key, id, row), key, id) == Some(row)
  {
    if key(rows[0]) != id {
      ReplaceThenFind(rows[1..], key, id, row);
    }
  }

  /** In a table whose keys are unique, a key names one row. */
  lemma UniqueKeyNamesOneRow<T>(rows: seq<T>, key: T -> string, x: T, y: T)
    requires UniqueKeys(rows, key)
    requires x in rows && y in rows && key(x) == key(y)
    ensures x == y
  {
  }

  /** Deleting a key that is present, from a table whose keys are unique,
      removes exactly one row. */
  lemma {:induction false} DeleteRemovesOne<T(!new)>(rows: seq<T>, key: T -> string, id: string)
    requires UniqueKeys(rows, key)
    requires FindBy(rows, key, id).Some?
    ensures |DeleteBy(rows, key, id)| == |rows| - 1
  {
    var keep := (x: T) => key(x) != id;
    if key(rows[0]) == id {
      forall j | 0 <= j < |rows[1..]| ensures key(rows[1..][j]) != id {
        assert key(rows[0]) != key(rows[j + 1]);
      }
      WhereAll(rows[1..], keep);
    } else {
      assert UniqueKeys(rows[1..], key);
      assert FindBy(rows[1..], key, id).Some?;
      DeleteRemovesOne(rows[1..], key, id);
      assert DeleteBy(rows[1..], key, id) == Where(rows[1..], keep);
    }
  }

  /** A filter that accepts every row is the identity. */
  lemma {:induction false} WhereAll<T(!new)>(rows: seq<T>, keep: T -> bool)
    requires forall j :: 0 <= j < |rows| ==> keep(rows[j])
    ensures Where(rows, keep) == rows
  {
    if |rows| > 0 {
      WhereAll(rows[1..], keep);
    }
  }

  /** Deleting keeps uniqueness of any column. */
  lemma {:induction false} WhereKeepsUnique<T(!new)>(rows: seq<T>, keep: T -> bool, key: T -> string)
    requires UniqueKeys(rows, key)
    ensures UniqueKeys(Where(rows, keep), key)
  {
    if |rows| > 0 {
      WhereKeepsUnique(rows[1..], keep, key);
      var rest := Where(rows[1..], keep);
      if keep(rows[0]) {
        var r := [rows[0]] + rest;
        forall i, j | 0 <= i < j < |r| ensures key(r[i]) != key(r[j]) {
          if i == 0 {
            assert r[j] in rows[1..];
          }
        }
      }
    }
  }

  /** Deleting rows keeps every column that was unique unique. */
  lemma DeleteKeepsUnique<T(!new)>(rows: seq<T>, key: T -> string, id: string, column: T -> string)
    requires UniqueKeys(rows, column)
    ensures UniqueKeys(DeleteBy(rows, key, id), column)
  {
    WhereKeepsUnique(rows, (x: T) => key(x) != id, column);
  }
}
