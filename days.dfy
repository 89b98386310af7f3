/** Calendar days are integers (day numbers). Both the server (`ORDER BY
    data_pedal DESC`) and the client (`sort` then `new Set`) list a set of ride
    days newest first; `NewestFirst` is that ordering. */
module Days {

  predicate StrictlyDescending(s: seq<int>) {
    forall i, j :: 0 <= i < j < |s| ==> s[i] > s[j]
  }

  /** Some day of a non-empty set. The negated `forall` gives the solver
      the existential it needs for the choice. */
  ghost function PickAny(s: set<int>): (x: int)
    requires s != {}
    ensures x in s
  {
    if forall y :: y !in s then assert false; 0 else var x :| x in s; x
  }

  lemma {:induction false} MaxExists(s: set<int>)
    requires s != {}
    ensures exists m :: m in s && forall y :: y in s ==> y <= m
    decreases |s|
  {
    var x := PickAny(s);
    var rest := s - {x};
    if rest == {} {
      assert forall y :: y in s ==> y in rest || y == x;
    } else {
      MaxExists(rest);
      var m :| m in rest && forall y :: y in rest ==> y <= m;
      var top := if x > m then x else m;
      assert forall y :: y in s ==> y == x || y in rest;
      assert top in s && forall y :: y in s ==> y <= top;
    }
  }

  /** The latest day of a non-empty set of days. */
  function Latest(s: set<int>): (m: int)
    requires s != {}
    ensures m in s && forall y :: y in s ==> y <= m
  {
    MaxExists(s);
    var m :| m in s && forall y :: y in s ==> y <= m; m
  }

  /** The days of `s`, each once, newest first. */
  function NewestFirst(s: set<int>): (r: seq<int>)
    ensures |r| == |s|
    ensures forall d :: d in r <==> d in s
    ensures StrictlyDescending(r)
    decreases |s|
  {
    if s == {} then []
    else
      var m := Latest(s);
      var smaller := s - {m};
      assert |smaller| == |s| - 1;
      var rest := NewestFirst(smaller);
      assert forall d :: d in rest ==> d < m;
      PrependKeepsDescending(m, rest);
      [m] + rest
  }

  lemma PrependKeepsDescending(m: int, rest: seq<int>)
    requires StrictlyDescending(rest)
    requires forall d :: d in rest ==> d < m
    ensures StrictlyDescending([m] + rest)
  {
    var r := [m] + rest;
    forall i, j | 0 <= i < j < |r| ensures r[i] > r[j] {
      assert r[j] == rest[j - 1];
      if i > 0 {
        assert r[i] == rest[i - 1];
      } else {
        assert rest[j - 1] in rest;
      }
    }
  }

  /** The first `k` days of a newest-first listing are the `k` latest days:
      every day left out is older than every day kept. */
  lemma {:induction false} PrefixHoldsLatest(s: set<int>, k: nat, d: int, i: nat)
    requires k <= |s| && i < k
    requires d in s && d !in NewestFirst(s)[..k]
    ensures d < NewestFirst(s)[i]
  {
    var r := NewestFirst(s);
    assert forall t :: 0 <= t < k ==> r[..k][t] == r[t];
  }
}
