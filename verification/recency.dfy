/**
 * "Most recent first": the game with the greatest update stamp among those of one kind.
 * Used by the in-memory cache lookup and by the active_games read path.
 */
module Recency {
  import opened Wrappers

  /** `k` is a kept entry of `m` whose stamp no other kept entry exceeds. */
  ghost predicate IsLatest<K, V>(m: map<K, V>, keep: V -> bool, stamp: V -> int, k: K) {
    k in m && keep(m[k]) && forall j :: j in m && keep(m[j]) ==> stamp(m[j]) <= stamp(m[k])
  }

  lemma {:induction false} LatestInKeys<K, V>(m: map<K, V>, keep: V -> bool, stamp: V -> int, ks: set<K>, k0: K)
    requires ks <= m.Keys && k0 in ks && keep(m[k0])
    ensures exists k :: k in ks && keep(m[k]) && forall j :: j in ks && keep(m[j]) ==> stamp(m[j]) <= stamp(m[k])
    decreases ks
  {
    if ks != {k0} {
      var x :| x in ks && x != k0;
      LatestInKeys(m, keep, stamp, ks - {x}, k0);
      var k :| k in ks - {x} && keep(m[k]) && forall j :: j in ks - {x} && keep(m[j]) ==> stamp(m[j]) <= stamp(m[k]);
      if keep(m[x]) && stamp(m[x]) > stamp(m[k]) {
        assert forall j :: j in ks && keep(m[j]) ==> stamp(m[j]) <= stamp(m[x]);
      } else {
        assert forall j :: j in ks && keep(m[j]) ==> stamp(m[j]) <= stamp(m[k]);
      }
    }
  }

  /** Whenever some entry is kept, a latest kept entry exists. */
  lemma LatestExists<K, V>(m: map<K, V>, keep: V -> bool, stamp: V -> int, k0: K)
    requires k0 in m && keep(m[k0])
    ensures exists k :: IsLatest(m, keep, stamp, k)
  {
    LatestInKeys(m, keep, stamp, m.Keys, k0);
    var k :| k in m.Keys && keep(m[k]) && forall j :: j in m.Keys && keep(m[j]) ==> stamp(m[j]) <= stamp(m[k]);
    assert IsLatest(m, keep, stamp, k);
  }

  /** Scans the entries once, remembering the latest kept one seen so far. */
  method FindLatest<K, V>(m: map<K, V>, keep: V -> bool, stamp: V -> int) returns (r: Option<K>)
    ensures r.Some? ==> IsLatest(m, keep, stamp, r.value)
    ensures r.None? <==> forall k :: k in m ==> !keep(m[k])
  {
    r := None;
    var todo := m.Keys;
    while todo != {}
      invariant todo <= m.Keys
      invariant r.Some? ==> r.value in m && r.value !in todo && keep(m[r.value])
      invariant r.Some? ==> forall j :: j in m && j !in todo && keep(m[j]) ==> stamp(m[j]) <= stamp(m[r.value])
      invariant r.None? ==> forall j :: j in m && j !in todo ==> !keep(m[j])
      decreases todo
    {
      var k :| k in todo;
      if keep(m[k]) && (r.None? || stamp(m[k]) > stamp(m[r.value])) {
        r := Some(k);
      }
      todo := todo - {k};
    }
  }
}
