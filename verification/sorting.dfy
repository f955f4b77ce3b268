/** ORDER BY: the stable sort, the partial sort over presorted input, and
    the row bound a parent LIMIT lets a sort apply. */
module Sorting {
  import opened Values
  import opened Expressions

  datatype SortDirection = Asc | Desc
  datatype NullsOrder = First | Last
  datatype SortKey = SortKey(expr: Expr, direction: SortDirection, nulls: NullsOrder)

  /** The order of non-null values of every kind: `le(a, b)` when `a` sorts
      no later than `b` ascending. */
  type Rank = (Value, Value) -> bool

  ghost predicate TotalPreorder(le: Rank) {
    && (forall a, b :: le(a, b) || le(b, a))
    && (forall a, b, c :: le(a, b) && le(b, c) ==> le(a, c))
  }

  /** One key: nulls where the key puts them, the rest by direction. */
  predicate ValueNotAfter(key: SortKey, a: Value, b: Value, le: Rank) {
    if a.Null? then b.Null? || key.nulls.First?
    else if b.Null? then key.nulls.Last?
    else if key.direction.Asc? then le(a, b) else le(b, a)
  }

  /** Lexicographic over the keys. */
  predicate NotAfter(keys: seq<SortKey>, a: Row, b: Row, env: Env, le: Rank) {
    if keys == [] then true
    else
      var x, y := Eval(keys[0].expr, a, env), Eval(keys[0].expr, b, env);
      ValueNotAfter(keys[0], x, y, le)
      && (ValueNotAfter(keys[0], y, x, le) ==> NotAfter(keys[1..], a, b, env, le))
  }

  predicate SameKeys(keys: seq<SortKey>, a: Row, b: Row, env: Env, le: Rank) {
    NotAfter(keys, a, b, env, le) && NotAfter(keys, b, a, env, le)
  }

  ghost predicate Sorted(keys: seq<SortKey>, rows: seq<Row>, env: Env, le: Rank) {
    forall i, j | 0 <= i < j < |rows| :: NotAfter(keys, rows[i], rows[j], env, le)
  }

  // ----- the order, key by key -----

  /** The values are both null or of one rank. */
  predicate SameRank(x: Value, y: Value, le: Rank) {
    if x.Null? || y.Null? then x.Null? && y.Null? else le(x, y) && le(y, x)
  }

  /** The first of two values that do not tie: a null by where the key puts
      nulls, any other by rank and direction. */
  predicate Precedes(key: SortKey, x: Value, y: Value, le: Rank) {
    if x.Null? then !y.Null? && key.nulls == First
    else if y.Null? then key.nulls == Last
    else if key.direction == Asc then le(x, y) && !le(y, x)
    else le(y, x) && !le(x, y)
  }

  /** The first `k` keys tie and the next, if any, puts `a` first. */
  predicate DecidedAt(keys: seq<SortKey>, a: Row, b: Row, env: Env, le: Rank, k: nat) {
    && k <= |keys|
    && (forall m | 0 <= m < k :: SameRank(Eval(keys[m].expr, a, env), Eval(keys[m].expr, b, env), le))
    && (k < |keys| ==> Precedes(keys[k], Eval(keys[k].expr, a, env), Eval(keys[k].expr, b, env), le))
  }

  /** A row may come before another exactly when the first key they do not tie
      on puts it first, or there is none. */
  lemma {:induction false} NotAfterIff(keys: seq<SortKey>, a: Row, b: Row, env: Env, le: Rank)
    requires TotalPreorder(le)
    ensures NotAfter(keys, a, b, env, le) <==> exists k: nat :: DecidedAt(keys, a, b, env, le, k)
  {
    if keys == [] {
      assert DecidedAt(keys, a, b, env, le, 0);
      return;
    }
    var x, y, rest := Eval(keys[0].expr, a, env), Eval(keys[0].expr, b, env), keys[1..];
    NotAfterIff(rest, a, b, env, le);
    assert NotAfter(keys, a, b, env, le) <==> Precedes(keys[0], x, y, le) || (SameRank(x, y, le) && NotAfter(rest, a, b, env, le));
    if Precedes(keys[0], x, y, le) {
      assert DecidedAt(keys, a, b, env, le, 0);
    } else if SameRank(x, y, le) && NotAfter(rest, a, b, env, le) {
      var k: nat :| DecidedAt(rest, a, b, env, le, k);
      assert DecidedAt(keys, a, b, env, le, k + 1) by {
        forall m | 0 < m <= k ensures keys[m] == rest[m - 1] {}
      }
    }
    forall k: nat | DecidedAt(keys, a, b, env, le, k) ensures NotAfter(keys, a, b, env, le) {
      if k > 0 {
        assert DecidedAt(rest, a, b, env, le, k - 1) by {
          forall m | 0 <= m < k - 1 ensures rest[m] == keys[m + 1] {}
        }
      }
    }
  }

  // ----- the stable sort -----

  function Insert(keys: seq<SortKey>, row: Row, rows: seq<Row>, env: Env, le: Rank): seq<Row> {
    if rows == [] || NotAfter(keys, row, rows[0], env, le) then [row] + rows
    else [rows[0]] + Insert(keys, row, rows[1..], env, le)
  }

  function StableSort(keys: seq<SortKey>, rows: seq<Row>, env: Env, le: Rank): seq<Row> {
    if rows == [] then [] else Insert(keys, rows[0], StableSort(keys, rows[1..], env, le), env, le)
  }

  lemma {:induction false} NotAfterTotal(keys: seq<SortKey>, a: Row, b: Row, env: Env, le: Rank)
    requires TotalPreorder(le)
    ensures NotAfter(keys, a, b, env, le) || NotAfter(keys, b, a, env, le)
  {
    if keys != [] { NotAfterTotal(keys[1..], a, b, env, le); }
  }

  lemma {:induction false} NotAfterTransitive(
    keys: seq<SortKey>, a: Row, b: Row, c: Row, env: Env, le: Rank)
    requires TotalPreorder(le)
    requires NotAfter(keys, a, b, env, le) && NotAfter(keys, b, c, env, le)
    ensures NotAfter(keys, a, c, env, le)
  {
    if keys != [] {
      var k := keys[0];
      var x, y, z := Eval(k.expr, a, env), Eval(k.expr, b, env), Eval(k.expr, c, env);
      if ValueNotAfter(k, z, x, le) {
        assert ValueNotAfter(k, y, x, le) && ValueNotAfter(k, z, y, le);
        NotAfterTransitive(keys[1..], a, b, c, env, le);
      }
    }
  }

  lemma {:induction false} InsertKeeps(keys: seq<SortKey>, row: Row, rows: seq<Row>, env: Env, le: Rank)
    ensures multiset(Insert(keys, row, rows, env, le)) == multiset{row} + multiset(rows)
    ensures |Insert(keys, row, rows, env, le)| == |rows| + 1
  {
    if rows != [] {
      assert rows == [rows[0]] + rows[1..];
      InsertKeeps(keys, row, rows[1..], env, le);
    }
  }

  lemma {:induction false} InsertSorts(keys: seq<SortKey>, row: Row, rows: seq<Row>, env: Env, le: Rank)
    requires TotalPreorder(le)
    requires Sorted(keys, rows, env, le)
    ensures Sorted(keys, Insert(keys, row, rows, env, le), env, le)
  {
    if rows == [] {
    } else if NotAfter(keys, row, rows[0], env, le) {
      forall j | 0 < j < |rows| ensures NotAfter(keys, row, rows[j], env, le) {
        NotAfterTransitive(keys, row, rows[0], rows[j], env, le);
      }
    } else {
      var tail := Insert(keys, row, rows[1..], env, le);
      InsertSorts(keys, row, rows[1..], env, le);
      InsertKeeps(keys, row, rows[1..], env, le);
      NotAfterTotal(keys, row, rows[0], env, le);
      forall j | 0 <= j < |tail| ensures NotAfter(keys, rows[0], tail[j], env, le) {
        assert tail[j] in multiset(tail);
        if tail[j] != row { assert tail[j] in rows[1..]; }
      }
    }
  }

  lemma {:induction false} SortKeeps(keys: seq<SortKey>, rows: seq<Row>, env: Env, le: Rank)
    ensures multiset(StableSort(keys, rows, env, le)) == multiset(rows)
    ensures |StableSort(keys, rows, env, le)| == |rows|
  {
    if rows != [] {
      assert rows == [rows[0]] + rows[1..];
      SortKeeps(keys, rows[1..], env, le);
      InsertKeeps(keys, rows[0], StableSort(keys, rows[1..], env, le), env, le);
    }
  }

  lemma {:induction false} SortSorts(keys: seq<SortKey>, rows: seq<Row>, env: Env, le: Rank)
    requires TotalPreorder(le)
    ensures Sorted(keys, StableSort(keys, rows, env, le), env, le)
  {
    if rows != [] {
      SortSorts(keys, rows[1..], env, le);
      InsertSorts(keys, rows[0], StableSort(keys, rows[1..], env, le), env, le);
    }
  }

  /** Rows equal on every key keep their arrival order. */
  function Ties(keys: seq<SortKey>, row: Row, rows: seq<Row>, env: Env, le: Rank): seq<Row> {
    if rows == [] then []
    else
      var rest := Ties(keys, row, rows[1..], env, le);
      if SameKeys(keys, row, rows[0], env, le) then [rows[0]] + rest else rest
  }

  lemma {:induction false} InsertStable(
    keys: seq<SortKey>, row: Row, rows: seq<Row>, like: Row, env: Env, le: Rank)
    requires TotalPreorder(le)
    ensures Ties(keys, like, Insert(keys, row, rows, env, le), env, le)
         == Ties(keys, like, [row] + rows, env, le)
  {
    if rows != [] && !NotAfter(keys, row, rows[0], env, le) {
      InsertStable(keys, row, rows[1..], like, env, le);
      var inserted := Insert(keys, row, rows[1..], env, le);
      assert ([rows[0]] + inserted)[1..] == inserted;
      assert ([row] + rows[1..])[1..] == rows[1..];
      assert ([row] + rows)[1..] == rows;
      if SameKeys(keys, like, rows[0], env, le) && SameKeys(keys, like, row, env, le) {
        NotAfterTransitive(keys, row, like, rows[0], env, le);
      }
    }
  }

  lemma {:induction false} SortStable(keys: seq<SortKey>, rows: seq<Row>, like: Row, env: Env, le: Rank)
    requires TotalPreorder(le)
    ensures Ties(keys, like, StableSort(keys, rows, env, le), env, le)
         == Ties(keys, like, rows, env, le)
  {
    if rows != [] {
      var tail := StableSort(keys, rows[1..], env, le);
      SortStable(keys, rows[1..], like, env, le);
      InsertStable(keys, rows[0], tail, like, env, le);
      assert ([rows[0]] + tail)[1..] == tail;
    }
  }

  // ----- the partial sort -----

  /** Rows at the front whose first `presorted` keys equal the first row's. */
  function RunLength(lead: seq<SortKey>, first: Row, rows: seq<Row>, env: Env, le: Rank): (n: nat)
    ensures n <= |rows|
  {
    if rows == [] || !SameKeys(lead, first, rows[0], env, le) then 0
    else 1 + RunLength(lead, first, rows[1..], env, le)
  }

  /** Input ordered by the first `presorted` keys, sorted one run of equal
      leading keys at a time. */
  function PartialSort(
    keys: seq<SortKey>, presorted: nat, rows: seq<Row>, env: Env, le: Rank): seq<Row>
    requires presorted <= |keys|
    decreases |rows|
  {
    if rows == [] then []
    else
      var n := 1 + RunLength(keys[..presorted], rows[0], rows[1..], env, le);
      StableSort(keys, rows[..n], env, le) + PartialSort(keys, presorted, rows[n..], env, le)
  }

  lemma {:induction false} InsertBeforeTail(
    keys: seq<SortKey>, row: Row, a: seq<Row>, b: seq<Row>, env: Env, le: Rank)
    requires forall y | y in b :: NotAfter(keys, row, y, env, le)
    ensures Insert(keys, row, a + b, env, le) == Insert(keys, row, a, env, le) + b
  {
    if a == [] {
      assert a + b == b;
    } else {
      assert (a + b)[1..] == a[1..] + b;
      InsertBeforeTail(keys, row, a[1..], b, env, le);
    }
  }

  /** A sort splits where nothing in front belongs after anything behind. */
  lemma {:induction false} SortSplits(
    keys: seq<SortKey>, a: seq<Row>, b: seq<Row>, env: Env, le: Rank)
    requires forall x, y | x in a && y in b :: NotAfter(keys, x, y, env, le)
    ensures StableSort(keys, a + b, env, le)
         == StableSort(keys, a, env, le) + StableSort(keys, b, env, le)
  {
    if a == [] {
      assert a + b == b;
    } else {
      assert (a + b)[1..] == a[1..] + b;
      SortSplits(keys, a[1..], b, env, le);
      var sa, sb := StableSort(keys, a[1..], env, le), StableSort(keys, b, env, le);
      SortKeeps(keys, b, env, le);
      forall y | y in sb ensures NotAfter(keys, a[0], y, env, le) {
        assert y in multiset(sb);
        assert y in b;
      }
      InsertBeforeTail(keys, a[0], sa, sb, env, le);
    }
  }

  lemma {:induction false} RunShares(lead: seq<SortKey>, first: Row, rows: seq<Row>, i: nat, env: Env, le: Rank)
    requires i < RunLength(lead, first, rows, env, le)
    ensures SameKeys(lead, first, rows[i], env, le)
  {
    if i > 0 { RunShares(lead, first, rows[1..], i - 1, env, le); }
  }

  lemma {:induction false} RunEnds(lead: seq<SortKey>, first: Row, rows: seq<Row>, env: Env, le: Rank)
    ensures var n := RunLength(lead, first, rows, env, le);
      n < |rows| ==> !SameKeys(lead, first, rows[n], env, le)
  {
    if rows != [] && SameKeys(lead, first, rows[0], env, le) {
      RunEnds(lead, first, rows[1..], env, le);
    }
  }

  /** A strict order on the leading keys decides the whole comparison. */
  lemma {:induction false} LeadDecides(
    keys: seq<SortKey>, presorted: nat, a: Row, b: Row, env: Env, le: Rank)
    requires presorted <= |keys|
    requires NotAfter(keys[..presorted], a, b, env, le)
    requires !NotAfter(keys[..presorted], b, a, env, le)
    ensures NotAfter(keys, a, b, env, le)
  {
    if presorted > 0 {
      assert keys[..presorted][1..] == keys[1..][..presorted - 1];
      var x, y := Eval(keys[0].expr, a, env), Eval(keys[0].expr, b, env);
      if ValueNotAfter(keys[0], y, x, le) {
        LeadDecides(keys[1..], presorted - 1, a, b, env, le);
      }
    }
  }

  /** On input in order of the leading keys, sorting run by run is the full
      stable sort, row for row. */
  lemma {:induction false} PartialSortIsSort(
    keys: seq<SortKey>, presorted: nat, rows: seq<Row>, env: Env, le: Rank)
    requires TotalPreorder(le)
    requires presorted <= |keys|
    requires Sorted(keys[..presorted], rows, env, le)
    ensures PartialSort(keys, presorted, rows, env, le) == StableSort(keys, rows, env, le)
    decreases |rows|
  {
    if rows != [] {
      var lead := keys[..presorted];
      var n := 1 + RunLength(lead, rows[0], rows[1..], env, le);
      var run, rest := rows[..n], rows[n..];
      forall x, y | x in run && y in rest ensures NotAfter(keys, x, y, env, le) {
        RunPrecedesRest(lead, rows, n, x, y, env, le);
        LeadDecides(keys, presorted, x, y, env, le);
      }
      assert rows == run + rest;
      SortSplits(keys, run, rest, env, le);
      PartialSortIsSort(keys, presorted, rest, env, le);
    }
  }

  lemma RunPrecedesRest(
    lead: seq<SortKey>, rows: seq<Row>, n: nat, x: Row, y: Row, env: Env, le: Rank)
    requires TotalPreorder(le)
    requires rows != [] && Sorted(lead, rows, env, le)
    requires n == 1 + RunLength(lead, rows[0], rows[1..], env, le)
    requires x in rows[..n] && y in rows[n..]
    ensures NotAfter(lead, x, y, env, le) && !NotAfter(lead, y, x, env, le)
  {
    var i :| 0 <= i < n && rows[i] == x;
    var j :| n <= j < |rows| && rows[j] == y;
    if NotAfter(lead, y, x, env, le) {
      NotAfterReflexive(lead, rows[0], env, le);
      if i > 0 { RunShares(lead, rows[0], rows[1..], i - 1, env, le); }
      RunEnds(lead, rows[0], rows[1..], env, le);
      assert rows[n] == rows[1..][n - 1];
      if n < j { NotAfterTransitive(lead, rows[n], rows[j], x, env, le); }
      NotAfterTransitive(lead, rows[n], x, rows[0], env, le);
      assert false;
    }
  }

  lemma {:induction false} NotAfterReflexive(keys: seq<SortKey>, a: Row, env: Env, le: Rank)
    requires TotalPreorder(le)
    ensures NotAfter(keys, a, a, env, le)
  {
    if keys != [] { NotAfterReflexive(keys[1..], a, env, le); }
  }
}
