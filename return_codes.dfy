/**
 * The map from exit code to number of occurrences that both executors build,
 * and the verdict they reduce it to: 0 when every command succeeded,
 * otherwise the most frequent non-zero code, ties going to the larger code.
 */
module ReturnCodes {
  import opened Results

  /** A Python dict from exit code to count. It is an object so that an update through one reference is seen through every other. */
  class CountDict {
    var counts: map<int, nat>

    constructor (initial: map<int, nat>)
      ensures counts == initial
    {
      counts := initial;
    }
  }

  /** A non-empty set of codes has a member to pick. */
  lemma HasMember(s: set<int>)
    requires s != {}
    ensures exists k :: k in s
  {
    if forall k :: k !in s {
      assert false;
    }
  }

  /** The count recorded for `code`, 0 when the map has no entry for it. */
  function CountOf(m: map<int, nat>, code: int): nat {
    if code in m then m[code] else 0
  }

  /** One more occurrence of `code`: a missing entry is created with count 1, an existing one grows by 1. */
  function Increment(m: map<int, nat>, code: int): (r: map<int, nat>)
    ensures r.Keys == m.Keys + {code}
    ensures r[code] == CountOf(m, code) + 1
    ensures forall k :: k in m && k != code ==> r[k] == m[k]
  {
    if code !in m then m[code := 1] else m[code := m[code] + 1]
  }

  /** The map after one `Increment` per code, in order. */
  function CountAll(m: map<int, nat>, codes: seq<int>): map<int, nat>
    decreases |codes|
  {
    if codes == [] then m
    else Increment(CountAll(m, codes[..|codes| - 1]), codes[|codes| - 1])
  }

  /** The sum of the counts. */
  ghost function Total(m: map<int, nat>): nat
    decreases m.Keys
  {
    if m.Keys == {} then 0
    else
      HasMember(m.Keys);
      var k :| k in m;
      m[k] + Total(m - {k})
  }

  lemma {:induction false} TotalRemove(m: map<int, nat>, k: int)
    requires k in m
    ensures Total(m) == m[k] + Total(m - {k})
    decreases m.Keys
  {
    var j :| j in m && Total(m) == m[j] + Total(m - {j});
    if j != k {
      TotalRemove(m - {j}, k);
      TotalRemove(m - {k}, j);
      assert m - {j} - {k} == m - {k} - {j};
    }
  }

  /** Every increment adds exactly one to the sum of the counts. */
  lemma IncrementTotal(m: map<int, nat>, code: int)
    ensures Total(Increment(m, code)) == Total(m) + 1
  {
    var r := Increment(m, code);
    TotalRemove(r, code);
    if code in m {
      TotalRemove(m, code);
      assert r - {code} == m - {code};
    } else {
      assert r - {code} == m;
    }
  }

  /** Counting a list of codes adds its length to the sum of the counts. */
  lemma {:induction false} CountAllTotal(m: map<int, nat>, codes: seq<int>)
    ensures Total(CountAll(m, codes)) == Total(m) + |codes|
    decreases |codes|
  {
    if codes != [] {
      CountAllTotal(m, codes[..|codes| - 1]);
      IncrementTotal(CountAll(m, codes[..|codes| - 1]), codes[|codes| - 1]);
    }
  }

  /** After counting `codes`, each code's entry exists exactly when it did before or the code occurs, and grew by its number of occurrences. */
  lemma {:induction false} CountAllEntry(m: map<int, nat>, codes: seq<int>, k: int)
    ensures k in CountAll(m, codes) <==> k in m || k in codes
    ensures CountOf(CountAll(m, codes), k) == CountOf(m, k) + multiset(codes)[k]
    decreases |codes|
  {
    if codes != [] {
      var init, last := codes[..|codes| - 1], codes[|codes| - 1];
      assert codes == init + [last];
      CountAllEntry(m, init, k);
    }
  }

  /** Counting one more code is one more increment. */
  lemma CountAllSnoc(m: map<int, nat>, codes: seq<int>, code: int)
    ensures CountAll(m, codes + [code]) == Increment(CountAll(m, codes), code)
  {
    assert (codes + [code])[..|codes|] == codes;
  }

  /**
   * `v` is the verdict of a map of non-zero codes: its count is maximal, and
   * no larger code has that same count.
   */
  ghost predicate IsVerdict(m: map<int, nat>, v: int) {
    && v in m
    && (forall k :: k in m ==> m[k] <= m[v])
    && (forall k :: k in m && k > v ==> m[k] < m[v])
  }

  /** The tie-break makes the verdict unique. */
  lemma VerdictUnique(m: map<int, nat>, v: int, w: int)
    requires IsVerdict(m, v) && IsVerdict(m, w)
    ensures v == w
  {
  }

  /** The largest count in a non-empty map (the first value after sorting the items by count, descending). */
  method TopCount(m: map<int, nat>) returns (top: nat)
    requires m != map[]
    ensures exists k :: k in m && m[k] == top
    ensures forall k :: k in m ==> m[k] <= top
  {
    HasMember(m.Keys);
    var first :| first in m;
    top := m[first];
    var rest := m.Keys - {first};
    while rest != {}
      invariant rest <= m.Keys
      invariant exists k :: k in m && m[k] == top
      invariant forall k :: k in m && k !in rest ==> m[k] <= top
      decreases rest
    {
      HasMember(rest);
      var k :| k in rest;
      if m[k] > top {
        top := m[k];
      }
      rest := rest - {k};
    }
  }

  /** The largest code whose count is `top` (the first such item after sorting the items by code, descending). */
  method HighestKeyWithCount(m: map<int, nat>, top: nat) returns (key: int)
    requires exists k :: k in m && m[k] == top
    ensures key in m && m[key] == top
    ensures forall k :: k in m && m[k] == top ==> k <= key
  {
    var first :| first in m && m[first] == top;
    key := first;
    var rest := m.Keys - {first};
    while rest != {}
      invariant rest <= m.Keys
      invariant key in m && m[key] == top
      invariant forall k :: k in m && k !in rest && m[k] == top ==> k <= key
      decreases rest
    {
      HasMember(rest);
      var k :| k in rest;
      if m[k] == top && k > key {
        key := k;
      }
      rest := rest - {k};
    }
  }

  /** The two steps of the tie-break together give the verdict. */
  lemma TopKeyIsVerdict(m: map<int, nat>, top: nat, key: int)
    requires forall k :: k in m ==> m[k] <= top
    requires key in m && m[key] == top
    requires forall k :: k in m && m[k] == top ==> k <= key
    ensures IsVerdict(m, key)
  {
  }

  /**
   * What a tally does to the map `before`, compared against `n` commands:
   * no entry for 0 raises KeyError and changes nothing; a zero count of `n`
   * gives 0 and changes nothing; otherwise entry 0 is deleted and, unless the
   * map is then empty (StopIteration), the verdict of what is left is returned.
   */
  ghost predicate Tallied(before: map<int, nat>, n: int, after: map<int, nat>, r: Result<int>) {
    if 0 !in before then after == before && r == Err(ZeroKeyMissing)
    else if before[0] == n then after == before && r == Ok(0)
    else
      && after == before - {0}
      && if after == map[] then r == Err(NoNonZeroCode) else r.Ok? && IsVerdict(after, r.value)
  }

  /** A tally that returned a non-zero verdict has deleted entry 0, so a second tally raises KeyError. */
  lemma TallyNotRepeatable(before: map<int, nat>, n: int, after: map<int, nat>, v: int, again: map<int, nat>, r: Result<int>)
    requires Tallied(before, n, after, Ok(v)) && v != 0
    requires Tallied(after, n, again, r)
    ensures r == Err(ZeroKeyMissing) && again == after
  {
  }

  /**
   * When the counts add up to `n` and the zero count is not `n`, some non-zero
   * code has a positive count, so the tally's lookup of the top count never
   * meets an empty map.
   */
  lemma NonZeroCodeExists(m: map<int, nat>, n: int)
    requires Total(m) == n && 0 in m && m[0] != n
    ensures exists k :: k in m && k != 0 && m[k] > 0
  {
    TotalRemove(m, 0);
    PositiveEntry(m - {0});
  }

  lemma {:induction false} PositiveEntry(m: map<int, nat>)
    requires Total(m) > 0
    ensures exists k :: k in m && m[k] > 0
    decreases m.Keys
  {
    var k :| k in m;
    TotalRemove(m, k);
    if m[k] == 0 {
      PositiveEntry(m - {k});
    }
  }

  /** A list's zero count equals its length exactly when every code in it is 0. */
  lemma {:induction false} ZeroCountIsLength(codes: seq<int>)
    ensures multiset(codes)[0] == |codes| <==> forall i :: 0 <= i < |codes| ==> codes[i] == 0
    decreases |codes|
  {
    if codes != [] {
      var init, last := codes[..|codes| - 1], codes[|codes| - 1];
      assert codes == init + [last];
      ZeroCountIsLength(init);
      assert multiset(init)[0] <= |init| by {
        assert |multiset(init)| == |init|;
      }
    }
  }

  /**
   * Counting `n` results into a fresh map `{0: 0}` and tallying against `n`
   * never raises: entry 0 exists, the zero count is `n` exactly when every
   * result is 0, and otherwise a non-zero entry remains after deleting 0.
   */
  lemma FreshCountsTally(codes: seq<int>)
    ensures var m := CountAll(map[0 := 0], codes);
      && 0 in m
      && (m[0] == |codes| <==> forall i :: 0 <= i < |codes| ==> codes[i] == 0)
      && (m[0] != |codes| ==> m - {0} != map[])
  {
    var m := CountAll(map[0 := 0], codes);
    CountAllEntry(map[0 := 0], codes, 0);
    ZeroCountIsLength(codes);
    if m[0] != |codes| {
      var i :| 0 <= i < |codes| && codes[i] != 0;
      CountAllEntry(map[0 := 0], codes, codes[i]);
      assert codes[i] in m - {0};
    }
  }

  /**
   * The verdict of a fresh count, in terms of the results themselves: a
   * non-zero code that occurs, no non-zero code occurs more often, and no
   * larger non-zero code occurs as often.
   */
  lemma BatchVerdict(codes: seq<int>, v: int)
    requires IsVerdict(CountAll(map[0 := 0], codes) - {0}, v)
    ensures v != 0 && v in codes
    ensures forall c :: c != 0 ==> multiset(codes)[c] <= multiset(codes)[v]
    ensures forall c :: c != 0 && c > v ==> multiset(codes)[c] < multiset(codes)[v]
  {
    var m := CountAll(map[0 := 0], codes);
    var rest := m - {0};
    CountAllEntry(map[0 := 0], codes, v);
    assert v in multiset(codes) && rest[v] == multiset(codes)[v];
    forall c | c != 0
      ensures multiset(codes)[c] <= multiset(codes)[v]
      ensures c > v ==> multiset(codes)[c] < multiset(codes)[v]
    {
      CountAllEntry(map[0 := 0], codes, c);
      if c in m {
        assert c in rest && rest[c] == multiset(codes)[c];
      } else {
        assert c !in multiset(codes);
      }
    }
  }
}
