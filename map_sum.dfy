/**
 * The sum of the values of a PHP array keyed by integers, independent of
 * the order in which the array is walked (`array_sum`, or a `foreach` that
 * accumulates).
 */
module MapSum {

  /** A non-empty set of keys has a member to pick. */
  lemma HasMember(s: set<int>)
    requires s != {}
    ensures exists k :: k in s
  {
    if forall k :: k !in s { assert false; }
  }

  /** Some key of a non-empty map; the sum below starts from it. */
  ghost function SomeKey(m: map<int, int>): (k: int)
    requires m.Keys != {}
    ensures k in m
  {
    HasMember(m.Keys);
    var k :| k in m.Keys; k
  }

  ghost function SumValues(m: map<int, int>): int
    decreases |m|
  {
    if m.Keys == {} then 0
    else
      var k := SomeKey(m);
      m[k] + SumValues(m - {k})
  }

  /** Any key may be taken out first: the sum does not depend on the order. */
  lemma {:induction false} SumValuesPick(m: map<int, int>, k: int)
    requires k in m
    ensures SumValues(m) == m[k] + SumValues(m - {k})
    decreases |m|
  {
    assert k in m.Keys;
    var j := SomeKey(m);
    if j != k {
      var mj, mk := m - {j}, m - {k};
      assert k in mj && j in mk;
      SumValuesPick(mj, k);
      SumValuesPick(mk, j);
      assert mj - {k} == mk - {j};
    }
  }

  /** Overwriting (or creating) one entry changes the sum by the difference. */
  lemma SumValuesUpdate(m: map<int, int>, k: int, v: int)
    ensures SumValues(m[k := v]) == SumValues(m) - (if k in m then m[k] else 0) + v
  {
    var m' := m[k := v];
    SumValuesPick(m', k);
    if k in m {
      SumValuesPick(m, k);
      assert m' - {k} == m - {k};
    } else {
      assert m' - {k} == m;
    }
  }

  /** Deleting one entry lowers the sum by that entry's value. */
  lemma SumValuesRemove(m: map<int, int>, k: int)
    ensures SumValues(m - {k}) == SumValues(m) - (if k in m then m[k] else 0)
  {
    if k in m {
      SumValuesPick(m, k);
    } else {
      assert m - {k} == m;
    }
  }
}
