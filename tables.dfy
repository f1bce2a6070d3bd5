/**
 * Reading rows out of a table: a `findMany` with a `where` yields every row
 * that satisfies the condition, once each. The store keeps a table as a map
 * from id to row; the order of the result is imposed afterwards with
 * `Ordering.SortBy`.
 */
module Tables {

  /** The ids of the rows that satisfy `keep`. */
  ghost function Matching<T>(m: map<string, T>, keep: T -> bool): set<string> {
    set k | k in m && keep(m[k])
  }

  predicate Distinct<T(==)>(s: seq<T>) {
    forall i, j :: 0 <= i < j < |s| ==> s[i] != s[j]
  }

  /** A sequence without repetitions has as many elements as its set of elements. */
  lemma {:induction false} DistinctCard<T>(s: seq<T>)
    requires Distinct(s)
    ensures |set x | x in s| == |s|
  {
    if s != [] {
      var init := s[..|s| - 1];
      var last := s[|s| - 1];
      assert s == init + [last];
      assert Distinct(init);
      DistinctCard(init);
      assert last !in init;
      assert (set x | x in s) == (set x | x in init) + {last};
    }
  }

  /** No element occurs twice in a sequence without repetitions. */
  lemma {:induction false} DistinctCounts<T>(s: seq<T>, x: T)
    requires Distinct(s)
    ensures multiset(s)[x] <= 1
  {
    if s != [] {
      assert s == [s[0]] + s[1..];
      assert Distinct(s[1..]);
      DistinctCounts(s[1..], x);
      if x == s[0] {
        assert x !in s[1..];
      }
    }
  }

  /** An element at two positions occurs at least twice. */
  lemma Repeated<T>(s: seq<T>, i: nat, j: nat)
    requires i < j < |s| && s[i] == s[j]
    ensures multiset(s)[s[i]] >= 2
  {
    assert s == s[..j] + s[j..];
    assert s[i] in s[..j] && s[j] in s[j..];
  }

  /** Reordering a sequence without repetitions gives one without repetitions. */
  lemma DistinctPermutation<T>(s: seq<T>, t: seq<T>)
    requires Distinct(s) && multiset(s) == multiset(t)
    ensures Distinct(t)
  {
    forall i, j | 0 <= i < j < |t| ensures t[i] != t[j] {
      if t[i] == t[j] {
        Repeated(t, i, j);
        DistinctCounts(s, t[i]);
      }
    }
  }

  /** A table whose rows are all different values (as when each row carries its own id). */
  ghost predicate Injective<T>(m: map<string, T>) {
    forall a, b :: a in m && b in m && m[a] == m[b] ==> a == b
  }

  /**
   * A filtered scan of a table: every row that satisfies `keep`, each once
   * (one element per matching id), in no particular order.
   */
  method Select<T(==)>(m: map<string, T>, keep: T -> bool) returns (rows: seq<T>)
    ensures forall x :: x in rows <==> x in m.Values && keep(x)
    ensures |rows| == |Matching(m, keep)|
    ensures Injective(m) ==> Distinct(rows)
  {
    var ids: seq<string> := [];
    rows := [];
    var todo := m.Keys;
    while todo != {}
      invariant todo <= m.Keys
      invariant forall k :: k in ids <==> k in m && k !in todo && keep(m[k])
      invariant Distinct(ids)
      invariant |rows| == |ids| && forall i :: 0 <= i < |ids| ==> ids[i] in m && rows[i] == m[ids[i]]
      decreases |todo|
    {
      var k :| k in todo;
      todo := todo - {k};
      if keep(m[k]) {
        ids := ids + [k];
        rows := rows + [m[k]];
      }
    }
    DistinctCard(ids);
    assert (set x | x in ids) == Matching(m, keep);
    forall x | x in m.Values && keep(x) ensures x in rows {
      var k :| k in m && m[k] == x;
      var i :| 0 <= i < |ids| && ids[i] == k;
      assert rows[i] == x;
    }
  }
}
