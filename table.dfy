/** A database table as a sequence of rows in identity order, one generic helper set for the three tables. */
module Table {
  import opened Wrappers

  /** Row ids strictly increase along the sequence: the clustered order of an `IDENTITY` key.
      In particular no two rows share an id. */
  predicate IdsIncreasing<T>(rows: seq<T>, key: T -> int) {
    forall i, j :: 0 <= i < j < |rows| ==> key(rows[i]) < key(rows[j])
  }

  /** Every id is below the next identity value. */
  predicate IdsBelow<T>(rows: seq<T>, key: T -> int, next: int) {
    forall i :: 0 <= i < |rows| ==> key(rows[i]) < next
  }

  predicate HasId<T>(rows: seq<T>, key: T -> int, id: int) {
    exists i :: 0 <= i < |rows| && key(rows[i]) == id
  }

  /** Position of the row with id `id` (`WHERE Id = @Id`). */
  function IndexOf<T>(rows: seq<T>, key: T -> int, id: int): (r: Option<nat>)
    ensures r.Some? <==> HasId(rows, key, id)
    ensures r.Some? ==> r.value < |rows| && key(rows[r.value]) == id
  {
    if rows == [] then None
    else if key(rows[0]) == id then Some(0)
    else
      var r := IndexOf(rows[1..], key, id);
      assert HasId(rows, key, id) ==> HasId(rows[1..], key, id) by {
        if HasId(rows, key, id) {
          var i :| 0 <= i < |rows| && key(rows[i]) == id;
          assert rows[1..][i - 1] == rows[i];
        }
      }
      if r.None? then None
      else
        assert rows[r.value + 1] == rows[1..][r.value];
        Some(r.value + 1)
  }

  /** The reader loop of every listing: each row the query yields is appended to the result list in
      turn, so the list ends up holding exactly the query's rows, in the query's order. */
  method ReadAll<T>(consulta: seq<T>) returns (lista: seq<T>)
    ensures lista == consulta
  {
    lista := [];
    var i := 0;
    while i < |consulta|
      invariant 0 <= i <= |consulta|
      invariant lista == consulta[..i]
    {
      lista := lista + [consulta[i]];
      i := i + 1;
    }
    assert consulta[..|consulta|] == consulta;
  }

  /** `SELECT * ... WHERE Id = @Id`: the row, or null. */
  function Find<T>(rows: seq<T>, key: T -> int, id: int): (r: Option<T>)
    ensures r.Some? <==> HasId(rows, key, id)
    ensures r.Some? ==> r.value in rows && key(r.value) == id
  {
    var i := IndexOf(rows, key, id);
    if i.Some? then Some(rows[i.value]) else None
  }

  /** With distinct ids, the row `Find` returns is the only row with that id. */
  lemma FindUnique<T>(rows: seq<T>, key: T -> int, id: int, x: T)
    requires IdsIncreasing(rows, key)
    ensures Find(rows, key, id) == Some(x) <==> x in rows && key(x) == id
  {
    if x in rows && key(x) == id {
      var i :| 0 <= i < |rows| && rows[i] == x;
      var j := IndexOf(rows, key, id).value;
      assert i == j;
    }
  }

  /** `DELETE ... WHERE Id = @Id`: the rows whose id differs, in their order. */
  function Remove<T(!new)>(rows: seq<T>, key: T -> int, id: int): (r: seq<T>)
    ensures |r| <= |rows|
    ensures forall x :: x in r <==> x in rows && key(x) != id
  {
    if rows == [] then []
    else (if key(rows[0]) == id then [] else [rows[0]]) + Remove(rows[1..], key, id)
  }

  lemma {:induction false} RemoveKeepsOrder<T(!new)>(rows: seq<T>, key: T -> int, id: int, next: int)
    requires IdsIncreasing(rows, key) && IdsBelow(rows, key, next)
    ensures IdsIncreasing(Remove(rows, key, id), key) && IdsBelow(Remove(rows, key, id), key, next)
  {
    if rows != [] {
      var t := Remove(rows[1..], key, id);
      RemoveKeepsOrder(rows[1..], key, id, next);
      if key(rows[0]) == id {
        assert Remove(rows, key, id) == [] + t == t;
      } else {
        HeadBelowRemaining(rows, key, id);
        ConsOrdered(rows[0], t, key, next);
      }
    }
  }

  /** The first row's id is below every id left after deleting from the other rows. */
  lemma HeadBelowRemaining<T(!new)>(rows: seq<T>, key: T -> int, id: int)
    requires rows != [] && IdsIncreasing(rows, key)
    ensures forall k :: 0 <= k < |Remove(rows[1..], key, id)| ==> key(rows[0]) < key(Remove(rows[1..], key, id)[k])
  {
    var t := Remove(rows[1..], key, id);
    forall k | 0 <= k < |t| ensures key(rows[0]) < key(t[k]) {
      assert t[k] in t;
      var j :| 0 <= j < |rows[1..]| && rows[1..][j] == t[k];
      assert rows[1..][j] == rows[j + 1];
    }
  }

  /** A row placed in front of ordered rows with larger ids keeps them ordered. */
  lemma ConsOrdered<T>(h: T, t: seq<T>, key: T -> int, next: int)
    requires IdsIncreasing(t, key) && IdsBelow(t, key, next) && key(h) < next
    requires forall k :: 0 <= k < |t| ==> key(h) < key(t[k])
    ensures IdsIncreasing([h] + t, key) && IdsBelow([h] + t, key, next)
  {
    var r := [h] + t;
    forall i | 0 < i < |r| ensures r[i] == t[i - 1] { }
  }

  lemma HasIdCons<T>(rows: seq<T>, key: T -> int, id: int)
    requires rows != []
    ensures HasId(rows, key, id) <==> key(rows[0]) == id || HasId(rows[1..], key, id)
  {
    if HasId(rows, key, id) && key(rows[0]) != id {
      var i :| 0 <= i < |rows| && key(rows[i]) == id;
      assert rows[1..][i - 1] == rows[i];
    }
    if HasId(rows[1..], key, id) {
      var i :| 0 <= i < |rows[1..]| && key(rows[1..][i]) == id;
      assert rows[i + 1] == rows[1..][i];
    }
  }

  /** With distinct ids, deleting an existing id removes exactly one row, and deleting a missing id
      changes nothing. */
  lemma {:induction false} RemoveCount<T(!new)>(rows: seq<T>, key: T -> int, id: int)
    requires IdsIncreasing(rows, key)
    ensures |Remove(rows, key, id)| == if HasId(rows, key, id) then |rows| - 1 else |rows|
    ensures !HasId(rows, key, id) ==> Remove(rows, key, id) == rows
  {
    if rows != [] {
      var tail := rows[1..];
      assert IdsIncreasing(tail, key);
      RemoveCount(tail, key, id);
      HasIdCons(rows, key, id);
      if key(rows[0]) != id {
        assert rows == [rows[0]] + tail;
      }
    }
  }

  /** Create then get: a row appended under a fresh id is what a lookup of that id returns. */
  lemma FindAppended<T>(rows: seq<T>, key: T -> int, x: T)
    requires !HasId(rows, key, key(x))
    ensures Find(rows + [x], key, key(x)) == Some(x)
  {
    var r := rows + [x];
    assert key(r[|rows|]) == key(x);
    var i := IndexOf(r, key, key(x)).value;
  }

  /** Delete then get: after deleting an id, a lookup of that id finds nothing. */
  lemma FindRemoved<T(!new)>(rows: seq<T>, key: T -> int, id: int)
    ensures Find(Remove(rows, key, id), key, id) == None
  {
    var r := Remove(rows, key, id);
    forall i | 0 <= i < |r| ensures key(r[i]) != id {
      assert r[i] in r;
    }
  }

  /** Appending a row whose id is the next identity value keeps the table's id invariants. */
  lemma AppendKeepsOrder<T>(rows: seq<T>, key: T -> int, x: T, next: int)
    requires IdsIncreasing(rows, key) && IdsBelow(rows, key, next) && key(x) == next
    ensures IdsIncreasing(rows + [x], key) && IdsBelow(rows + [x], key, next + 1)
    ensures !HasId(rows, key, next)
  {
  }

  /** `OFFSET offset ROWS FETCH NEXT size ROWS ONLY` over an ordered result: the rows from position
      `offset` on, at most `size` of them. */
  function Page<T>(s: seq<T>, offset: nat, size: nat): (r: seq<T>)
    ensures |r| == if offset >= |s| then 0 else if size <= |s| - offset then size else |s| - offset
    ensures forall k :: 0 <= k < |r| ==> r[k] == s[offset + k]
  {
    if offset >= |s| then [] else s[offset..if offset + size <= |s| then offset + size else |s|]
  }

  /** A page holds no row the ordered result does not hold, counting repetitions. */
  lemma PageWithin<T>(s: seq<T>, offset: nat, size: nat)
    ensures multiset(Page(s, offset, size)) <= multiset(s)
  {
    if offset < |s| {
      var e := if offset + size <= |s| then offset + size else |s|;
      assert s == s[..offset] + s[offset..e] + s[e..];
    }
  }

  /** With a positive page size every row lies on exactly the page that `i / size` names, at position
      `i % size`. */
  lemma RowOnItsPage<T>(s: seq<T>, i: nat, size: nat)
    requires i < |s| && size > 0
    ensures var p := Page(s, (i / size) * size, size);
      i % size < |p| && p[i % size] == s[i]
  {
    assert (i / size) * size + i % size == i;
  }
}
