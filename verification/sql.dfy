/**
 * The relational operations the routers and the webhook ask of the database, on a table
 * held as a sequence of rows in storage order: `where` (filter), the first row of a result
 * (`const [row] = …`), `count()`, `ORDER BY created_at DESC, id DESC`, and `LIMIT … OFFSET …`.
 */
module Sql {
  import opened Wrappers
  import Text

  /** `SELECT … WHERE p`: the rows satisfying `p`, in storage order. */
  function Where<T>(rows: seq<T>, p: T -> bool): (r: seq<T>)
    ensures |r| <= |rows|
    ensures forall k :: 0 <= k < |r| ==> r[k] in rows && p(r[k])
    ensures forall i :: 0 <= i < |rows| && p(rows[i]) ==> rows[i] in r
  {
    if rows == [] then []
    else (if p(rows[0]) then [rows[0]] else []) + Where(rows[1..], p)
  }

  /** Where each row of `Where(rows, p)` stands in `rows`: strictly increasing positions that
      cover every row satisfying `p`. So the filter keeps exactly those rows, in their order. */
  function WherePositions<T>(rows: seq<T>, p: T -> bool): (pos: seq<nat>)
    ensures IsPositionsOf(pos, rows, p)
  {
    if rows == [] then []
    else
      var rest := WherePositions(rows[1..], p);
      var pos := if p(rows[0]) then [0] + Shift(rest) else Shift(rest);
      ConsPositions(rows, p, rest, pos);
      pos
  }

  /** `pos` lists, in increasing order, the places in `rows` of the rows of `Where(rows, p)`,
      and every row satisfying `p` has its place in it: the filter keeps exactly those rows,
      in their order. */
  ghost predicate IsPositionsOf<T>(pos: seq<nat>, rows: seq<T>, p: T -> bool) {
    && |pos| == |Where(rows, p)|
    && (forall k :: 0 <= k < |pos| ==> pos[k] < |rows| && Where(rows, p)[k] == rows[pos[k]])
    && (forall k, l :: 0 <= k < l < |pos| ==> pos[k] < pos[l])
    && (forall i :: 0 <= i < |rows| && p(rows[i]) ==> i in pos)
  }

  /** Where a kept row sits among the positions: the index `k` with `pos[k] == i`. */
  lemma PositionOf<T>(pos: seq<nat>, rows: seq<T>, p: T -> bool, i: nat) returns (k: nat)
    requires IsPositionsOf(pos, rows, p)
    requires i < |rows| && p(rows[i])
    ensures k < |pos| && pos[k] == i
  {
    assert i in pos;
    k :| 0 <= k < |pos| && pos[k] == i;
  }

  function Shift(s: seq<nat>): (r: seq<nat>)
    ensures |r| == |s| && forall k :: 0 <= k < |s| ==> r[k] == s[k] + 1
  {
    seq(|s|, k requires 0 <= k < |s| => s[k] + 1)
  }

  /** The positions found in `rows[1..]`, moved up by one and preceded by 0 when the first
      row is kept, are the positions in `rows`. */
  lemma ConsPositions<T>(rows: seq<T>, p: T -> bool, rest: seq<nat>, pos: seq<nat>)
    requires rows != []
    requires IsPositionsOf(rest, rows[1..], p)
    requires pos == if p(rows[0]) then [0] + Shift(rest) else Shift(rest)
    ensures IsPositionsOf(pos, rows, p)
  {
    var w := Where(rows, p);
    var w1 := Where(rows[1..], p);
    var d := if p(rows[0]) then 1 else 0;
    assert w == (if p(rows[0]) then [rows[0]] else []) + w1;
    ConsElements(rows, rest, pos, w, w1, d);
    ConsIncreasing(rest, pos, d);
    ConsCovering(rows, p, rest, pos, d);
  }

  lemma ConsElements<T>(rows: seq<T>, rest: seq<nat>, pos: seq<nat>, w: seq<T>, w1: seq<T>, d: nat)
    requires rows != [] && d <= 1 && |rest| == |w1|
    requires forall k :: 0 <= k < |rest| ==> rest[k] < |rows[1..]| && w1[k] == rows[1..][rest[k]]
    requires pos == if d == 1 then [0] + Shift(rest) else Shift(rest)
    requires w == (if d == 1 then [rows[0]] else []) + w1
    ensures |pos| == |w|
    ensures forall k :: 0 <= k < |pos| ==> pos[k] < |rows| && w[k] == rows[pos[k]]
  {
    forall k | 0 <= k < |pos| ensures pos[k] < |rows| && w[k] == rows[pos[k]] {
      if k >= d {
        assert pos[k] == Shift(rest)[k - d] == rest[k - d] + 1;
        assert w[k] == w1[k - d] == rows[1..][rest[k - d]];
      }
    }
  }

  lemma ConsIncreasing(rest: seq<nat>, pos: seq<nat>, d: nat)
    requires d <= 1
    requires forall k, l :: 0 <= k < l < |rest| ==> rest[k] < rest[l]
    requires pos == if d == 1 then [0] + Shift(rest) else Shift(rest)
    ensures forall k, l :: 0 <= k < l < |pos| ==> pos[k] < pos[l]
  {
    forall k, l | 0 <= k < l < |pos| ensures pos[k] < pos[l] {
      assert pos[l] == rest[l - d] + 1;
      if k >= d {
        assert pos[k] == rest[k - d] + 1;
      }
    }
  }

  lemma ConsCovering<T>(rows: seq<T>, p: T -> bool, rest: seq<nat>, pos: seq<nat>, d: nat)
    requires rows != [] && d == (if p(rows[0]) then 1 else 0)
    requires forall i :: 0 <= i < |rows[1..]| && p(rows[1..][i]) ==> i in rest
    requires pos == if d == 1 then [0] + Shift(rest) else Shift(rest)
    ensures forall i :: 0 <= i < |rows| && p(rows[i]) ==> i in pos
  {
    forall i | 0 <= i < |rows| && p(rows[i]) ensures i in pos {
      if i == 0 {
        assert pos[0] == 0;
      } else {
        assert rows[1..][i - 1] == rows[i];
        var k :| 0 <= k < |rest| && rest[k] == i - 1;
        assert pos[k + d] == Shift(rest)[k] == i;
      }
    }
  }

  /** A filter keeps the rows' distinctness under any key (e.g. a primary key). */
  lemma WhereKeepsUnique<T, K>(rows: seq<T>, p: T -> bool, key: T -> K)
    ensures UniqueBy(rows, key) ==> UniqueBy(Where(rows, p), key)
  {
    if UniqueBy(rows, key) {
      var pos := WherePositions(rows, p);
      var r := Where(rows, p);
      forall k, l | 0 <= k < l < |r| ensures key(r[k]) != key(r[l]) {
        assert r[k] == rows[pos[k]] && r[l] == rows[pos[l]];
      }
    }
  }

  /** A filter that every row passes keeps the table as it is. */
  lemma {:induction false} WhereAll<T>(rows: seq<T>, p: T -> bool)
    requires forall j :: 0 <= j < |rows| ==> p(rows[j])
    ensures Where(rows, p) == rows
  {
    if rows != [] {
      WhereAll(rows[1..], p);
    }
  }

  /** A filter that only the row at `i` fails removes exactly that row. */
  lemma WhereDropsOne<T>(rows: seq<T>, p: T -> bool, i: nat)
    requires i < |rows| && !p(rows[i])
    requires forall j :: 0 <= j < |rows| && j != i ==> p(rows[j])
    ensures Where(rows, p) == rows[..i] + rows[i + 1..]
  {
    WherePiecesDropOne(rows, p, i);
    SplitAround(rows, i);
  }

  /** The same, over the table written as the rows before `i`, the row at `i`, and the rest. */
  lemma WherePiecesDropOne<T>(rows: seq<T>, p: T -> bool, i: nat)
    requires i < |rows| && !p(rows[i])
    requires forall j :: 0 <= j < |rows| && j != i ==> p(rows[j])
    ensures Where(rows[..i] + ([rows[i]] + rows[i + 1..]), p) == rows[..i] + rows[i + 1..]
  {
    var before, after := rows[..i], rows[i + 1..];
    WhereAppend(before, [rows[i]] + after, p);
    WhereAll(before, p);
    assert Where([rows[i]] + after, p) == Where(after, p) by {
      assert ([rows[i]] + after)[1..] == after;
    }
    WhereAll(after, p);
  }

  /** The rows before `i`, the row at `i`, and the rows after it make up the table. */
  lemma SplitAround<T>(rows: seq<T>, i: nat)
    requires i < |rows|
    ensures rows == rows[..i] + ([rows[i]] + rows[i + 1..])
  {
    assert rows[i..] == [rows[i]] + rows[i + 1..];
    assert rows == rows[..i] + rows[i..];
  }

  /** Filtering a concatenation filters each part. */
  lemma {:induction false} WhereAppend<T>(a: seq<T>, b: seq<T>, p: T -> bool)
    ensures Where(a + b, p) == Where(a, p) + Where(b, p)
  {
    if a == [] {
      assert a + b == b;
    } else {
      assert (a + b)[1..] == a[1..] + b;
      WhereAppend(a[1..], b, p);
    }
  }

  /** A filter and its complement split the table: their sizes add up to the table's. */
  lemma {:induction false} WhereComplement<T>(rows: seq<T>, p: T -> bool, q: T -> bool)
    requires forall j :: 0 <= j < |rows| ==> (p(rows[j]) <==> !q(rows[j]))
    ensures |Where(rows, p)| + |Where(rows, q)| == |rows|
  {
    if rows != [] {
      WhereComplement(rows[1..], p, q);
    }
  }

  /** No two rows share a key. */
  ghost predicate UniqueBy<T, K>(rows: seq<T>, key: T -> K) {
    forall i, j :: 0 <= i < j < |rows| ==> key(rows[i]) != key(rows[j])
  }

  /** The position of the first row satisfying `p`, as `const [row] = await db.select()…` reads it. */
  function FirstIndex<T>(rows: seq<T>, p: T -> bool): (r: Option<nat>)
    ensures r.Some? ==> r.value < |rows| && p(rows[r.value])
    ensures r.Some? ==> forall j :: 0 <= j < r.value ==> !p(rows[j])
    ensures r.None? <==> forall j :: 0 <= j < |rows| ==> !p(rows[j])
  {
    if rows == [] then None
    else if p(rows[0]) then Some(0)
    else match FirstIndex(rows[1..], p)
      case None => None
      case Some(i) => Some(i + 1)
  }

  /** `LIMIT limit OFFSET offset`. */
  function LimitOffset<T>(rows: seq<T>, limit: nat, offset: nat): (r: seq<T>)
    ensures |r| == if offset >= |rows| then 0 else Min(limit, |rows| - offset)
    ensures forall k :: 0 <= k < |r| ==> r[k] == rows[offset + k]
  {
    if offset >= |rows| then [] else rows[offset..offset + Min(limit, |rows| - offset)]
  }

  function Min(a: int, b: int): int {
    if a <= b then a else b
  }

  /** `Math.ceil(total / size)` for a non-negative count and a positive size: the least
      number of pages of `size` rows that hold `total` rows. */
  function CeilDiv(total: nat, size: nat): (r: nat)
    requires size >= 1
    ensures r * size >= total
    ensures r == 0 || (r - 1) * size < total
  {
    var q := (total + size - 1) / size;
    var m := (total + size - 1) % size;
    assert total + size - 1 == q * size + m;
    assert (q - 1) * size == q * size - size;
    q
  }

  /** The sort key of `ORDER BY created_at DESC, id DESC`. */
  datatype OrderKey = OrderKey(createdAt: int, id: string)

  /** `a` may be listed before `b`: `a` is newer, or as new with an id not below `b`'s. */
  predicate NewerOrSame(a: OrderKey, b: OrderKey) {
    a.createdAt > b.createdAt || (a.createdAt == b.createdAt && !Text.Less(a.id, b.id))
  }

  lemma NewerOrSameTotal(a: OrderKey, b: OrderKey)
    ensures NewerOrSame(a, b) || NewerOrSame(b, a)
  {
    if a.createdAt == b.createdAt && Text.Less(a.id, b.id) {
      Text.LessAsymmetric(a.id, b.id);
    }
  }

  lemma NewerOrSameTransitive(a: OrderKey, b: OrderKey, c: OrderKey)
    requires NewerOrSame(a, b) && NewerOrSame(b, c)
    ensures NewerOrSame(a, c)
  {
    if a.createdAt == b.createdAt == c.createdAt && Text.Less(a.id, c.id) {
      if a.id == b.id {
      } else {
        Text.LessTotal(a.id, b.id);
        Text.LessTransitive(b.id, a.id, c.id);
      }
    }
  }

  predicate SortedNewestFirst<T>(rows: seq<T>, key: T -> OrderKey) {
    forall i, j :: 0 <= i < j < |rows| ==> NewerOrSame(key(rows[i]), key(rows[j]))
  }

  /** Places `x` into a list already in `ORDER BY … DESC` order. */
  function InsertNewestFirst<T>(x: T, rows: seq<T>, key: T -> OrderKey): (r: seq<T>)
    requires SortedNewestFirst(rows, key)
    ensures SortedNewestFirst(r, key)
    ensures multiset(r) == multiset(rows) + multiset{x}
    ensures |r| == |rows| + 1 && (r[0] == x || (rows != [] && r[0] == rows[0]))
  {
    if rows == [] || NewerOrSame(key(x), key(rows[0])) then
      NewerThanHeadNewerThanAll(x, rows, key);
      [x] + rows
    else
      var rest := InsertNewestFirst(x, rows[1..], key);
      NewerOrSameTotal(key(x), key(rows[0]));
      HeadNewerThanInserted(rows[0], x, rows[1..], rest, key);
      assert rows == [rows[0]] + rows[1..];
      [rows[0]] + rest
  }

  /** In a sorted list, a row newer than the head is newer than every row. */
  lemma NewerThanHeadNewerThanAll<T>(x: T, rows: seq<T>, key: T -> OrderKey)
    requires SortedNewestFirst(rows, key)
    requires rows == [] || NewerOrSame(key(x), key(rows[0]))
    ensures forall j :: 0 <= j < |rows| ==> NewerOrSame(key(x), key(rows[j]))
  {
    forall j | 0 <= j < |rows| ensures NewerOrSame(key(x), key(rows[j])) {
      if j > 0 { NewerOrSameTransitive(key(x), key(rows[0]), key(rows[j])); }
    }
  }

  /** A row at least as new as `x` and as every row of `tail` is at least as new as every
      row of any rearrangement of `tail` with `x` added. */
  lemma HeadNewerThanInserted<T>(head: T, x: T, tail: seq<T>, rest: seq<T>, key: T -> OrderKey)
    requires NewerOrSame(key(head), key(x))
    requires forall j :: 0 <= j < |tail| ==> NewerOrSame(key(head), key(tail[j]))
    requires multiset(rest) == multiset(tail) + multiset{x}
    ensures forall j :: 0 <= j < |rest| ==> NewerOrSame(key(head), key(rest[j]))
  {
    forall j | 0 <= j < |rest| ensures NewerOrSame(key(head), key(rest[j])) {
      assert rest[j] in multiset(tail) + multiset{x};
      if rest[j] != x {
        assert rest[j] in tail;
      }
    }
  }

  /** `ORDER BY created_at DESC, id DESC`: the same rows, newest first. */
  function OrderNewestFirst<T>(rows: seq<T>, key: T -> OrderKey): (r: seq<T>)
    ensures SortedNewestFirst(r, key)
    ensures multiset(r) == multiset(rows)
    ensures |r| == |rows|
  {
    if rows == [] then []
    else
      assert rows == [rows[0]] + rows[1..];
      InsertNewestFirst(rows[0], OrderNewestFirst(rows[1..], key), key)
  }
}
