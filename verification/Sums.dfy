/** Sums over finite maps. */
module Sums {

  ghost function Sum(f: map<nat, nat>): nat
    decreases |f|
  {
    if |f| == 0 then 0 else f[AnyKey(f)] + Sum(f - {AnyKey(f)})
  }

  ghost function AnyKey(f: map<nat, nat>): (k: nat)
    requires |f| != 0
    ensures k in f
  {
    var k :| k in f;
    k
  }

  /** Any key can be split off. */
  lemma {:induction false} SumAt(f: map<nat, nat>, k: nat)
    requires k in f
    ensures Sum(f) == f[k] + Sum(f - {k})
    decreases |f|
  {
    var j := AnyKey(f);
    if j != k {
      SumAt(f - {j}, k);
      SumAt(f - {k}, j);
      assert f - {j} - {k} == f - {k} - {j};
    }
  }

  lemma SumPut(f: map<nat, nat>, k: nat, v: nat)
    ensures Sum(f[k := v]) == v + Sum(f - {k})
  {
    SumAt(f[k := v], k);
    assert f[k := v] - {k} == f - {k};
  }

  lemma SumWithout(f: map<nat, nat>, k: nat)
    ensures Sum(f - {k}) + (if k in f then f[k] else 0) == Sum(f)
  {
    if k in f {
      SumAt(f, k);
    } else {
      assert f - {k} == f;
    }
  }
}
