/** A table is a sequence of rows in storage order, each with its integer primary key.
    The queries the handlers run (`filter(...).first()`, `filter(...).all()`,
    `order_by(id)`, `delete`) are the functions of this module. */
module Tables {
  import opened Wrappers

  datatype Row<T> = Row(id: int, data: T)

  /** The keys an autoincrementing primary key hands out: positive, below the next
      key to be issued, and increasing in storage order (hence unique). */
  ghost predicate WellKeyed<T>(rows: seq<Row<T>>, next: int) {
    && (forall i :: 0 <= i < |rows| ==> 1 <= rows[i].id < next)
    && (forall i, j :: 0 <= i < j < |rows| ==> rows[i].id < rows[j].id)
  }

  /** The position of the first row with key `id`. */
  function IndexOf<T>(rows: seq<Row<T>>, id: int): (r: Option<nat>)
    ensures r.None? <==> forall i :: 0 <= i < |rows| ==> rows[i].id != id
    ensures r.Some? ==> r.value < |rows| && rows[r.value].id == id
    ensures r.Some? ==> forall i :: 0 <= i < r.value ==> rows[i].id != id
  {
    if rows == [] then None
    else if rows[0].id == id then Some(0)
    else
      match IndexOf(rows[1..], id)
      case None => None
      case Some(k) => Some(k + 1)
  }

  /** `query(T).filter(T.id == id).first()`. */
  function Lookup<T>(rows: seq<Row<T>>, id: int): (r: Option<Row<T>>)
    ensures r.None? <==> forall i :: 0 <= i < |rows| ==> rows[i].id != id
    ensures r.Some? ==> r.value in rows && r.value.id == id
  {
    match IndexOf(rows, id)
    case None => None
    case Some(k) => Some(rows[k])
  }

  /** In a well-keyed table the lookup finds the one row with that key. */
  lemma LookupFindsTheRow<T>(rows: seq<Row<T>>, next: int, i: int)
    requires WellKeyed(rows, next) && 0 <= i < |rows|
    ensures IndexOf(rows, rows[i].id) == Some(i)
    ensures Lookup(rows, rows[i].id) == Some(rows[i])
  {
  }

  /** `query(T).filter(keep).all()`: the kept rows, in storage order. */
  function Filter<T>(rows: seq<Row<T>>, keep: Row<T> -> bool): (r: seq<Row<T>>)
    ensures |r| <= |rows|
    ensures forall i :: 0 <= i < |r| ==> r[i] in rows && keep(r[i])
    ensures forall i :: 0 <= i < |rows| && keep(rows[i]) ==> rows[i] in r
  {
    if rows == [] then []
    else (if keep(rows[0]) then [rows[0]] else []) + Filter(rows[1..], keep)
  }

  /** Filtering keeps storage order: the result is itself well keyed. */
  lemma {:induction false} FilterKeepsKeyOrder<T>(rows: seq<Row<T>>, keep: Row<T> -> bool, next: int)
    requires WellKeyed(rows, next)
    ensures WellKeyed(Filter(rows, keep), next)
  {
    if rows != [] {
      TailKeepsKeys(rows, next);
      FilterKeepsKeyOrder(rows[1..], keep, next);
      var rest := Filter(rows[1..], keep);
      if keep(rows[0]) {
        forall i | 0 <= i < |rest| ensures rows[0].id < rest[i].id {
          assert rest[i] in rows[1..];
        }
        ConsKeepsKeys(rows[0], rest, next);
      }
    }
  }

  /** The rows after the first of a well-keyed table are well keyed and have larger keys. */
  lemma TailKeepsKeys<T>(rows: seq<Row<T>>, next: int)
    requires WellKeyed(rows, next) && rows != []
    ensures WellKeyed(rows[1..], next)
    ensures forall x :: x in rows[1..] ==> rows[0].id < x.id
  {
    forall x | x in rows[1..] ensures rows[0].id < x.id {
      var j :| 0 <= j < |rows[1..]| && rows[1..][j] == x;
      assert rows[j + 1] == x;
    }
  }

  /** A row with a smaller key than all of a well-keyed table can go in front of it. */
  lemma ConsKeepsKeys<T>(x: Row<T>, rows: seq<Row<T>>, next: int)
    requires WellKeyed(rows, next) && 1 <= x.id < next
    requires forall i :: 0 <= i < |rows| ==> x.id < rows[i].id
    ensures WellKeyed([x] + rows, next)
  {
    var r := [x] + rows;
    assert forall i :: 1 <= i < |r| ==> r[i] == rows[i - 1];
  }

  /** A filter that keeps every row returns the whole table. */
  lemma {:induction false} FilterKeepingAll<T>(rows: seq<Row<T>>, keep: Row<T> -> bool)
    requires forall i :: 0 <= i < |rows| ==> keep(rows[i])
    ensures Filter(rows, keep) == rows
  {
    if rows != [] {
      FilterKeepingAll(rows[1..], keep);
    }
  }

  /** Two filters that agree on every row select the same rows. */
  lemma {:induction false} FilterExtensional<T>(rows: seq<Row<T>>, keep1: Row<T> -> bool, keep2: Row<T> -> bool)
    requires forall i :: 0 <= i < |rows| ==> keep1(rows[i]) == keep2(rows[i])
    ensures Filter(rows, keep1) == Filter(rows, keep2)
  {
    if rows != [] {
      FilterExtensional(rows[1..], keep1, keep2);
    }
  }

  /** The data of each row, in order: what a response model built per row copies. */
  function Project<T>(rows: seq<Row<T>>): (r: seq<T>)
    ensures |r| == |rows|
    ensures forall i :: 0 <= i < |rows| ==> r[i] == rows[i].data
  {
    seq(|rows|, i requires 0 <= i < |rows| => rows[i].data)
  }

  ghost predicate SortedById<T>(rows: seq<Row<T>>) {
    forall i, j :: 0 <= i < j < |rows| ==> rows[i].id <= rows[j].id
  }

  function InsertById<T>(x: Row<T>, rows: seq<Row<T>>): (r: seq<Row<T>>)
    requires SortedById(rows)
    ensures SortedById(r)
    ensures multiset(r) == multiset(rows) + multiset{x}
    ensures |r| == |rows| + 1
    ensures forall i :: 0 <= i < |r| ==> r[i] == x || r[i] in rows
  {
    if rows == [] || x.id <= rows[0].id then
      ConsSorted(x, rows);
      [x] + rows
    else
      TailSorted(rows);
      var rest := InsertById(x, rows[1..]);
      ConsSorted(rows[0], rest);
      ConsKeepsContents(x, rows, rest);
      [rows[0]] + rest
  }

  /** Putting back the first row in front of `x` inserted into the others gives the
      rows plus `x`. */
  lemma ConsKeepsContents<T>(x: Row<T>, rows: seq<Row<T>>, rest: seq<Row<T>>)
    requires rows != []
    requires multiset(rest) == multiset(rows[1..]) + multiset{x}
    requires forall i :: 0 <= i < |rest| ==> rest[i] == x || rest[i] in rows[1..]
    ensures multiset([rows[0]] + rest) == multiset(rows) + multiset{x}
    ensures forall i :: 0 <= i < |rest| + 1 ==> ([rows[0]] + rest)[i] == x || ([rows[0]] + rest)[i] in rows
  {
    assert rows == [rows[0]] + rows[1..];
    var r := [rows[0]] + rest;
    forall i | 0 <= i < |r| ensures r[i] == x || r[i] in rows {
      if i > 0 {
        assert r[i] == rest[i - 1];
      }
    }
  }

  /** The rows after the first of a sorted sequence are sorted and have keys no smaller. */
  lemma TailSorted<T>(rows: seq<Row<T>>)
    requires SortedById(rows) && rows != []
    ensures SortedById(rows[1..])
    ensures forall y :: y in rows[1..] ==> rows[0].id <= y.id
  {
    forall y | y in rows[1..] ensures rows[0].id <= y.id {
      var j :| 0 <= j < |rows[1..]| && rows[1..][j] == y;
      assert rows[j + 1] == y;
    }
  }

  /** A row with a key no larger than any of a sorted sequence's can go in front of it. */
  lemma ConsSorted<T>(x: Row<T>, rows: seq<Row<T>>)
    requires SortedById(rows)
    requires forall i :: 0 <= i < |rows| ==> x.id <= rows[i].id
    ensures SortedById([x] + rows)
  {
    var r := [x] + rows;
    assert forall i :: 1 <= i < |r| ==> r[i] == rows[i - 1];
  }

  /** `.order_by(T.id)`: the same rows, ordered by key. */
  function SortById<T>(rows: seq<Row<T>>): (r: seq<Row<T>>)
    ensures SortedById(r)
    ensures multiset(r) == multiset(rows)
    ensures |r| == |rows|
  {
    if rows == [] then []
    else
      assert rows == [rows[0]] + rows[1..];
      InsertById(rows[0], SortById(rows[1..]))
  }

  /** Ordering rows that are already in key order changes nothing. */
  lemma {:induction false} SortingSortedRowsIsIdentity<T>(rows: seq<Row<T>>)
    requires SortedById(rows)
    ensures SortById(rows) == rows
  {
    if rows != [] {
      SortingSortedRowsIsIdentity(rows[1..]);
    }
  }

  /** The table without the row at position `k`. */
  function RemoveAt<T>(rows: seq<Row<T>>, k: nat): (r: seq<Row<T>>)
    requires k < |rows|
    ensures |r| == |rows| - 1
    ensures forall i :: 0 <= i < k ==> r[i] == rows[i]
    ensures forall i :: k <= i < |r| ==> r[i] == rows[i + 1]
  {
    rows[..k] + rows[k + 1..]
  }

  /** `after` is `before` with exactly one row, one whose key is `id`, taken out. */
  ghost predicate RemovedOnce<T>(before: seq<Row<T>>, after: seq<Row<T>>, id: int) {
    exists k :: 0 <= k < |before| && before[k].id == id && after == RemoveAt(before, k)
  }

  lemma RemoveAtRemovesOnce<T>(rows: seq<Row<T>>, k: nat)
    requires k < |rows|
    ensures RemovedOnce(rows, RemoveAt(rows, k), rows[k].id)
  {
  }

  /** Inserting a row with the next key keeps the table well keyed, and the
      new row is what a lookup of that key finds. */
  lemma AppendKeepsKeys<T>(rows: seq<Row<T>>, next: int, x: T)
    requires WellKeyed(rows, next) && next >= 1
    ensures WellKeyed(rows + [Row(next, x)], next + 1)
    ensures Lookup(rows + [Row(next, x)], next) == Some(Row(next, x))
  {
    LookupFindsTheRow(rows + [Row(next, x)], next + 1, |rows|);
  }

  /** Deleting a row keeps the table well keyed, and its key is then gone. */
  lemma RemoveKeepsKeys<T>(rows: seq<Row<T>>, next: int, k: nat)
    requires WellKeyed(rows, next) && k < |rows|
    ensures WellKeyed(RemoveAt(rows, k), next)
    ensures Lookup(RemoveAt(rows, k), rows[k].id).None?
  {
    var r := RemoveAt(rows, k);
    forall i, j | 0 <= i < j < |r| ensures r[i].id < r[j].id {
      var i' := if i < k then i else i + 1;
      var j' := if j < k then j else j + 1;
      assert r[i] == rows[i'] && r[j] == rows[j'];
    }
    forall i | 0 <= i < |r| ensures r[i].id != rows[k].id {
      var i' := if i < k then i else i + 1;
      assert r[i] == rows[i'];
    }
  }

  /** In a well-keyed table the rows are in key order. */
  lemma WellKeyedIsSorted<T>(rows: seq<Row<T>>, next: int)
    requires WellKeyed(rows, next)
    ensures SortedById(rows)
  {
  }

  /** Rewriting the data of rows in place, keeping every key, keeps the table well keyed. */
  lemma SameKeysKeepKeys<T>(rows: seq<Row<T>>, rows': seq<Row<T>>, next: int)
    requires WellKeyed(rows, next)
    requires |rows'| == |rows| && forall i :: 0 <= i < |rows| ==> rows'[i].id == rows[i].id
    ensures WellKeyed(rows', next)
  {
  }

  /** The child rows after their parent is deleted, when the relationship has no
      delete cascade: every row stays under its key, and each row that `refers` to
      the parent has its data replaced by `clear` of it (its foreign key NULL). */
  function Unlink<T>(rows: seq<Row<T>>, refers: T -> bool, clear: T -> T): (r: seq<Row<T>>)
    ensures |r| == |rows|
    ensures forall i :: 0 <= i < |r| ==> r[i].id == rows[i].id
    ensures forall i :: 0 <= i < |r| && !refers(rows[i].data) ==> r[i] == rows[i]
    ensures forall i :: 0 <= i < |r| && refers(rows[i].data) ==> r[i].data == clear(rows[i].data)
  {
    seq(|rows|, i requires 0 <= i < |rows| =>
      if refers(rows[i].data) then Row(rows[i].id, clear(rows[i].data)) else rows[i])
  }

  /** Unlinking keeps the table well keyed, and when a cleared row no longer refers
      to the parent, no row refers to it afterwards. */
  lemma UnlinkLeavesNoReference<T>(rows: seq<Row<T>>, next: int, refers: T -> bool, clear: T -> T)
    requires WellKeyed(rows, next)
    requires forall x :: !refers(clear(x))
    ensures WellKeyed(Unlink(rows, refers, clear), next)
    ensures forall i :: 0 <= i < |rows| ==> !refers(Unlink(rows, refers, clear)[i].data)
  {
    SameKeysKeepKeys(rows, Unlink(rows, refers, clear), next);
  }

  /** Two filters applied one after the other keep the rows both keep. */
  lemma {:induction false} FilterTwice<T>(rows: seq<Row<T>>, first: Row<T> -> bool, second: Row<T> -> bool, both: Row<T> -> bool)
    requires forall i :: 0 <= i < |rows| ==> both(rows[i]) == (first(rows[i]) && second(rows[i]))
    ensures Filter(Filter(rows, first), second) == Filter(rows, both)
  {
    if rows != [] {
      FilterTwice(rows[1..], first, second, both);
      var head := if first(rows[0]) then [rows[0]] else [];
      FilterAppend(head, Filter(rows[1..], first), second);
      assert head == [] ==> Filter(head, second) == [];
      assert head != [] ==> head[1..] == [];
    }
  }

  lemma {:induction false} FilterAppend<T>(a: seq<Row<T>>, b: seq<Row<T>>, keep: Row<T> -> bool)
    ensures Filter(a + b, keep) == Filter(a, keep) + Filter(b, keep)
  {
    if a != [] {
      assert (a + b)[1..] == a[1..] + b;
      FilterAppend(a[1..], b, keep);
    } else {
      assert a + b == b;
    }
  }
}
