/** The `SELECT ... ORDER BY <column> DESC [LIMIT n]` queries of the
    context export (app/main.py:139-140). Rows whose sort keys tie may
    come out in any order: the database decides, and so the selection
    below picks among tied rows nondeterministically. */
module Ordering {
  import opened Text

  /** `rows` is what the query may return from `items`: distinct rows of
      `items`, keys non-increasing, at most `limit` of them, all of them
      when fewer than `limit` came back, and no row left out is newer
      than a row returned. */
  ghost predicate IsNewestFirst<T>(rows: seq<T>, items: set<T>, key: T -> int, limit: Option<nat>)
  {
    && (forall i :: 0 <= i < |rows| ==> rows[i] in items)
    && (forall i, j :: 0 <= i < j < |rows| ==> rows[i] != rows[j])
    && (forall i, j :: 0 <= i < j < |rows| ==> key(rows[j]) <= key(rows[i]))
    && (limit.Some? ==> |rows| <= limit.value)
    && (limit.None? || |rows| < limit.value ==> forall x :: x in items ==> x in rows)
    && (forall x, i :: x in items && x !in rows && 0 <= i < |rows| ==> key(x) <= key(rows[i]))
  }

  /** A non-empty set has an element whose key is largest. */
  lemma {:induction false} NewestExists<T>(items: set<T>, key: T -> int)
    requires items != {}
    ensures exists x :: x in items && forall y :: y in items ==> key(y) <= key(x)
  {
    var x :| x in items;
    var rest := items - {x};
    if rest != {} {
      NewestExists(rest, key);
      var m :| m in rest && forall y :: y in rest ==> key(y) <= key(m);
      if key(m) < key(x) {
        assert forall y :: y in items ==> key(y) <= key(x);
      } else {
        assert forall y :: y in items ==> key(y) <= key(m);
      }
    } else {
      assert items == {x};
    }
  }

  /** Runs the query: repeatedly takes a newest remaining row until the
      rows run out or the limit is reached. */
  method SelectNewest<T(==)>(items: set<T>, key: T -> int, limit: Option<nat>) returns (rows: seq<T>)
    ensures IsNewestFirst(rows, items, key, limit)
  {
    rows := [];
    var remaining := items;
    while remaining != {} && (limit.None? || |rows| < limit.value)
      invariant remaining <= items
      invariant forall i :: 0 <= i < |rows| ==> rows[i] in items && rows[i] !in remaining
      invariant forall x :: x in items ==> x in remaining || x in rows
      invariant forall i, j :: 0 <= i < j < |rows| ==> rows[i] != rows[j]
      invariant forall i, j :: 0 <= i < j < |rows| ==> key(rows[j]) <= key(rows[i])
      invariant forall x, i :: x in remaining && 0 <= i < |rows| ==> key(x) <= key(rows[i])
      invariant limit.Some? ==> |rows| <= limit.value
      decreases remaining
    {
      NewestExists(remaining, key);
      var x :| x in remaining && forall y :: y in remaining ==> key(y) <= key(x);
      rows := rows + [x];
      remaining := remaining - {x};
    }
  }

  /** A sequence without repeated elements has as many elements as the
      set of its elements. */
  lemma {:induction false} DistinctCard<T>(rows: seq<T>)
    requires forall i, j :: 0 <= i < j < |rows| ==> rows[i] != rows[j]
    ensures |set x | x in rows| == |rows|
  {
    if rows != [] {
      var last := rows[|rows| - 1];
      var init := rows[..|rows| - 1];
      DistinctCard(init);
      assert (set x | x in rows) == (set x | x in init) + {last};
      assert last !in (set x | x in init);
    }
  }

  /** The query returns exactly min(limit, number of rows) rows. */
  lemma NewestFirstCount<T>(rows: seq<T>, items: set<T>, key: T -> int, limit: Option<nat>)
    requires IsNewestFirst(rows, items, key, limit)
    ensures |rows| == if limit.Some? && limit.value < |items| then limit.value else |items|
  {
    DistinctCard(rows);
    var shown := set x | x in rows;
    assert shown <= items;
    if limit.None? || |rows| < limit.value {
      assert items <= shown;
      assert shown == items;
    } else {
      assert |shown| <= |items| by { SubsetCard(shown, items); }
    }
  }

  lemma {:induction false} SubsetCard<T>(a: set<T>, b: set<T>)
    requires a <= b
    ensures |a| <= |b|
  {
    assert b == a + (b - a);
  }
}
