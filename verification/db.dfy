/**
 * The `sql` tagged template of lib/db.ts: the literal pieces of the template and the
 * interpolated values become one query text with `$1`, `$2`, … placeholders and the
 * parameter list the driver binds to them. Running the query is not part of this model.
 */
module Db {
  import opened Wrappers
  import opened Strings

  /** The placeholder for the `i`-th value, counting from 1. */
  function Placeholder(i: nat): string {
    "$" + NatToString(i)
  }

  /** The query text after the first `n` values: `strings[0]`, then `$i` and `strings[i]` for each i <= n. */
  function Query(strings: seq<string>, n: nat): (q: string)
    requires n < |strings|
    ensures |q| >= |strings[0]| && q[..|strings[0]|] == strings[0]
  {
    if n == 0 then strings[0]
    else Query(strings, n - 1) + Placeholder(n) + strings[n]
  }

  /** An earlier stage of the text is a prefix of every later one. */
  lemma {:induction false} QueryPrefix(strings: seq<string>, i: nat, n: nat)
    requires i <= n < |strings|
    ensures |Query(strings, i)| <= |Query(strings, n)|
    ensures Query(strings, n)[..|Query(strings, i)|] == Query(strings, i)
    decreases n - i
  {
    if i < n {
      QueryPrefix(strings, i, n - 1);
      var q := Query(strings, n - 1);
      assert Query(strings, n) == q + (Placeholder(n) + strings[n]);
      assert Query(strings, n)[..|q|] == q;
    }
  }

  /** Where the placeholder of value `i` starts in the final text. */
  function PlaceholderOffset(strings: seq<string>, i: nat): nat
    requires 1 <= i < |strings|
  {
    |Query(strings, i - 1)|
  }

  /**
   * Every value 1..n has its placeholder in the text, at an offset that grows strictly
   * with the value's position, so the placeholders read $1, $2, … $n from left to right.
   */
  lemma PlaceholdersInOrder(strings: seq<string>, n: nat, i: nat)
    requires n < |strings| && 1 <= i <= n
    ensures var q := Query(strings, n); var k := PlaceholderOffset(strings, i);
      k + |Placeholder(i)| <= |q| && q[k..k + |Placeholder(i)|] == Placeholder(i)
    ensures i < n ==> PlaceholderOffset(strings, i) + |Placeholder(i)| <= PlaceholderOffset(strings, i + 1)
  {
    QueryPrefix(strings, i, n);
    var qi := Query(strings, i);
    var prev := Query(strings, i - 1);
    var k := |prev|;
    var p := Placeholder(i);
    assert qi == prev + p + strings[i];
    assert qi[k..k + |p|] == p;
    var q := Query(strings, n);
    assert q[..|qi|] == qi;
    assert q[k..k + |p|] == q[..|qi|][k..k + |p|];
  }

  /**
   * The loop of `sql`: `values` are pushed onto `params` in order and the query text gains
   * one placeholder and the next literal piece per value. A tagged template always has one
   * more literal piece than values.
   */
  method Sql<V>(strings: seq<string>, values: seq<V>) returns (query: string, params: seq<V>)
    requires |strings| == |values| + 1
    ensures params == values
    ensures query == Query(strings, |values|)
    ensures values == [] ==> query == strings[0]
  {
    query := strings[0];
    params := [];
    for i := 0 to |values|
      invariant params == values[..i]
      invariant query == Query(strings, i)
    {
      params := params + [values[i]];
      query := query + Placeholder(i + 1) + strings[i + 1];
    }
  }

  /** `result.rowCount || 0`: a missing count, or a count of 0, reads as 0. */
  function RowCount(driverCount: Option<nat>): (n: nat)
    ensures driverCount.Some? ==> n == driverCount.value
    ensures driverCount.None? ==> n == 0
  {
    if driverCount.Some? && driverCount.value != 0 then driverCount.value else 0
  }
}
