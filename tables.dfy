/** The query semantics the handlers rely on, over a table held as a sequence
    of rows in insertion order: `query.get(id)`, `filter_by(...).first()`,
    `filter_by(...).all()`, `session.delete(row)`. */
module Tables {
  import opened Json

  /** Index of the first row satisfying `p`: `filter_by(...).first()`,
      with the database's row order taken to be insertion order. */
  function FirstWhere<T>(rows: seq<T>, p: T -> bool): (r: Option<nat>)
    ensures r.Some? ==> r.value < |rows| && p(rows[r.value])
    ensures r.Some? ==> forall j :: 0 <= j < r.value ==> !p(rows[j])
    ensures r.None? <==> forall j :: 0 <= j < |rows| ==> !p(rows[j])
  {
    if rows == [] then None
    else if p(rows[0]) then Some(0)
    else match FirstWhere(rows[1..], p)
      case None => None
      case Some(k) => Some(k + 1)
  }

  /** Rows are identified by the primary key `key`. */
  predicate UniqueBy<T>(rows: seq<T>, key: T -> int) {
    forall i, j :: 0 <= i < j < |rows| ==> key(rows[i]) != key(rows[j])
  }

  /** The condition `key(row) == id`, as one function value shared by every use. */
  function KeyIs<T>(key: T -> int, id: int): T -> bool {
    row => key(row) == id
  }

  /** `query.get(id)`: the position of the row whose primary key is `id`. */
  function FindById<T>(rows: seq<T>, key: T -> int, id: int): (r: Option<nat>)
    ensures r.Some? ==> r.value < |rows| && key(rows[r.value]) == id
    ensures r.None? <==> forall j :: 0 <= j < |rows| ==> key(rows[j]) != id
  {
    FirstWhere(rows, KeyIs(key, id))
  }

  /** With a primary key, `query.get` finds every stored row at its own position. */
  lemma FindByIdStored<T>(rows: seq<T>, key: T -> int, i: nat)
    requires UniqueBy(rows, key) && i < |rows|
    ensures FindById(rows, key, key(rows[i])) == Some(i)
  {
  }

  /** Number of rows satisfying `p`. */
  function CountWhere<T>(rows: seq<T>, p: T -> bool): (n: nat)
    ensures n <= |rows|
  {
    if rows == [] then 0
    else (if p(rows[0]) then 1 else 0) + CountWhere(rows[1..], p)
  }

  lemma {:induction false} CountConcat<T>(a: seq<T>, b: seq<T>, p: T -> bool)
    ensures CountWhere(a + b, p) == CountWhere(a, p) + CountWhere(b, p)
  {
    if a == [] {
      assert a + b == b;
    } else {
      assert (a + b)[1..] == a[1..] + b;
      CountConcat(a[1..], b, p);
    }
  }

  /** No row satisfies `p` exactly when none is counted. */
  lemma {:induction false} CountZero<T>(rows: seq<T>, p: T -> bool)
    ensures CountWhere(rows, p) == 0 <==> forall j :: 0 <= j < |rows| ==> !p(rows[j])
  {
    if rows != [] {
      CountZero(rows[1..], p);
      assert forall j :: 1 <= j < |rows| ==> rows[j] == rows[1..][j - 1];
    }
  }

  /** `filter_by(...).all()`: the rows satisfying `p`, in table order. */
  function Filter<T>(rows: seq<T>, p: T -> bool): (r: seq<T>)
    ensures |r| == CountWhere(rows, p)
    ensures forall k :: 0 <= k < |r| ==> r[k] in rows && p(r[k])
    ensures forall j :: 0 <= j < |rows| && p(rows[j]) ==> rows[j] in r
  {
    if rows == [] then []
    else (if p(rows[0]) then [rows[0]] else []) + Filter(rows[1..], p)
  }

  /** `session.delete(rows[i])`: the table without that one row, the others
      keeping their order. */
  function RemoveAt<T>(rows: seq<T>, i: nat): (r: seq<T>)
    requires i < |rows|
    ensures |r| == |rows| - 1
    ensures forall j :: 0 <= j < i ==> r[j] == rows[j]
    ensures forall j :: i <= j < |r| ==> r[j] == rows[j + 1]
    ensures multiset(r) + multiset{rows[i]} == multiset(rows)
  {
    assert rows == rows[..i] + [rows[i]] + rows[i + 1..];
    rows[..i] + rows[i + 1..]
  }

  /** Removing a row lowers the count by one exactly when that row is counted. */
  lemma CountRemoveAt<T>(rows: seq<T>, i: nat, p: T -> bool)
    requires i < |rows|
    ensures CountWhere(RemoveAt(rows, i), p) + (if p(rows[i]) then 1 else 0) == CountWhere(rows, p)
  {
    var front, back := rows[..i], rows[i + 1..];
    var tail := [rows[i]] + back;
    assert rows == front + tail;
    assert RemoveAt(rows, i) == front + back;
    CountConcat(front, tail, p);
    assert tail[1..] == back;
    CountConcat(front, back, p);
  }

  /** Deleting a row keeps the primary key unique and takes that key out of the table. */
  lemma RemoveAtKey<T>(rows: seq<T>, key: T -> int, i: nat)
    requires UniqueBy(rows, key) && i < |rows|
    ensures UniqueBy(RemoveAt(rows, i), key)
    ensures forall j :: 0 <= j < |rows| - 1 ==> key(RemoveAt(rows, i)[j]) != key(rows[i])
  {
  }
}
