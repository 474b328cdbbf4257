/**
 * A relational table as the store sees it: rows with an integer primary key,
 * listed in ascending key order (what `order_by(id)` returns), each key at
 * most once. Point lookup, first match, filter, column update and delete.
 */
module Tables {
  import opened Options

  /** One row: its primary key and its columns. */
  datatype Row<T> = Row(id: int, data: T)

  /** Keys strictly ascend, so each key names at most one row. */
  ghost predicate Increasing<T>(t: seq<Row<T>>) {
    forall i, j :: 0 <= i < j < |t| ==> t[i].id < t[j].id
  }

  /** Every key lies below `bound`, the next key the table will hand out. */
  ghost predicate Below<T>(t: seq<Row<T>>, bound: int) {
    forall r {:trigger r in t} :: r in t ==> r.id < bound
  }

  ghost function Keys<T>(t: seq<Row<T>>): set<int> {
    set r {:trigger r in t} | r in t :: r.id
  }

  /** Some row has value `k` in column `col`. */
  ghost predicate Taken<T, K>(t: seq<Row<T>>, col: T -> K, k: K) {
    exists r {:trigger r in t} :: r in t && col(r.data) == k
  }

  /** Some row other than the one with key `id` has value `k` in column `col`. */
  ghost predicate TakenByOther<T, K>(t: seq<Row<T>>, col: T -> K, k: K, id: int) {
    exists r {:trigger r in t} :: r in t && r.id != id && col(r.data) == k
  }

  /** No two rows with different keys share a value in column `col` (a unique constraint). */
  ghost predicate Unique<T, K>(t: seq<Row<T>>, col: T -> K) {
    forall x, y {:trigger x in t, y in t} :: x in t && y in t && x.id != y.id ==> col(x.data) != col(y.data)
  }

  /** `session.get(Model, id)`: the row with key `id`, if any. */
  function Get<T(!new)>(t: seq<Row<T>>, id: int): (r: Option<T>)
    ensures r.Some? <==> id in Keys(t)
    ensures r.Some? ==> Row(id, r.value) in t
  {
    if t == [] then None
    else if t[0].id == id then assert t[0] in t; Some(t[0].data)
    else
      assert forall x :: x in t <==> x == t[0] || x in t[1..];
      Get(t[1..], id)
  }

  /** In a keyed table the row found by `Get` is the only row with that key. */
  lemma GetExact<T(!new)>(t: seq<Row<T>>, id: int, v: T)
    requires Increasing(t)
    ensures Get(t, id) == Some(v) <==> Row(id, v) in t
  {
    if Row(id, v) in t {
      var w := Get(t, id).value;
      var i :| 0 <= i < |t| && t[i] == Row(id, v);
      var j :| 0 <= j < |t| && t[j] == Row(id, w);
      assert i == j;
    }
  }

  /** `select(...).where(col == k).first()`: the first row, in key order, with `col == k`. */
  function FirstWith<T(!new), K(==)>(t: seq<Row<T>>, col: T -> K, k: K): (r: Option<Row<T>>)
    ensures r.Some? ==> r.value in t && col(r.value.data) == k
    ensures r.None? <==> !Taken(t, col, k)
  {
    if t == [] then None
    else if col(t[0].data) == k then Some(t[0])
    else
      assert forall x :: x in t <==> x == t[0] || x in t[1..];
      FirstWith(t[1..], col, k)
  }

  /** `select(...).where(p)` keeping key order: exactly the rows satisfying `p`. */
  function Where<T(!new)>(t: seq<Row<T>>, p: Row<T> -> bool): (r: seq<Row<T>>)
    ensures forall x :: x in r <==> x in t && p(x)
    ensures Increasing(t) ==> Increasing(r)
  {
    if t == [] then []
    else
      var rest := Where(t[1..], p);
      assert forall x :: x in t <==> x == t[0] || x in t[1..];
      if p(t[0]) then
        assert Increasing(t) ==> forall x :: x in rest ==> t[0].id < x.id by {
          if Increasing(t) {
            forall x | x in rest ensures t[0].id < x.id {
              var k :| 0 <= k < |t[1..]| && t[1..][k] == x;
              assert t[k + 1] == x;
            }
          }
        }
        [t[0]] + rest
      else rest
  }

  /** Replace the columns of the row with key `id`; every key stays where it was. */
  function Put<T(!new)>(t: seq<Row<T>>, id: int, v: T): (r: seq<Row<T>>)
    ensures |r| == |t|
    ensures forall i :: 0 <= i < |t| ==> r[i] == if t[i].id == id then Row(id, v) else t[i]
    ensures forall x :: x in r ==> x in t || x == Row(id, v)
    ensures forall x {:trigger x in r} {:trigger x in t} :: x in t && x.id != id ==> x in r
  {
    var r := seq(|t|, i requires 0 <= i < |t| => if t[i].id == id then Row(id, v) else t[i]);
    assert forall x :: x in t && x.id != id ==> x in r by {
      forall x | x in t && x.id != id ensures x in r {
        var i :| 0 <= i < |t| && t[i] == x;
        assert r[i] == x;
      }
    }
    r
  }

  /** `session.delete(row)`: every row except the one with key `id`, order kept. */
  function Remove<T(!new)>(t: seq<Row<T>>, id: int): (r: seq<Row<T>>)
    ensures forall x {:trigger x in r} {:trigger x in t} :: x in r <==> x in t && x.id != id
    ensures Increasing(t) ==> Increasing(r)
  {
    Where(t, (x: Row<T>) => x.id != id)
  }

  /** A table rewritten row by row, keeping each row's key, stays keyed. */
  lemma SameKeysKeyed<T, U>(t: seq<Row<T>>, r: seq<Row<U>>, bound: int)
    requires Increasing(t) && Below(t, bound)
    requires |r| == |t| && forall i :: 0 <= i < |t| ==> r[i].id == t[i].id
    ensures Increasing(r) && Below(r, bound)
    ensures Keys(r) == Keys(t)
  {
    forall x | x in r ensures x.id < bound && x.id in Keys(t) {
      var i :| 0 <= i < |r| && r[i] == x;
      assert t[i] in t;
    }
    forall k | k in Keys(t) ensures k in Keys(r) {
      var x :| x in t && x.id == k;
      var i :| 0 <= i < |t| && t[i] == x;
      assert r[i] in r;
    }
  }

  /** Updating the row with key `id` keeps a unique column unique when no other row holds the new value. */
  lemma PutUnique<T(!new), K>(t: seq<Row<T>>, id: int, v: T, col: T -> K)
    requires Unique(t, col)
    requires forall x {:trigger x in t} :: x in t && x.id != id ==> col(x.data) != col(v)
    ensures Unique(Put(t, id, v), col)
  {
  }

  /** Appending a row whose value is not yet taken keeps a unique column unique. */
  lemma AppendUnique<T, K>(t: seq<Row<T>>, x: Row<T>, col: T -> K)
    requires Unique(t, col) && !Taken(t, col, col(x.data))
    ensures Unique(t + [x], col)
  {
  }

  /** Appending a row with a key at or above the bound keeps the table keyed. */
  lemma AppendKeyed<T>(t: seq<Row<T>>, x: Row<T>, bound: int)
    requires Increasing(t) && Below(t, bound) && bound <= x.id
    ensures Increasing(t + [x]) && Below(t + [x], x.id + 1)
    ensures x.id !in Keys(t)
  {
    var s := t + [x];
    forall i, j | 0 <= i < j < |s| ensures s[i].id < s[j].id {
      if j == |t| {
        assert s[i] == t[i] && t[i] in t;
      }
    }
  }
}
