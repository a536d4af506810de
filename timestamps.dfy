/**
 * Claim timestamps are ISO 8601 strings. The store never parses them: it
 * compares them with Python's `<` on `str`, which is the lexicographic order
 * on code points, and takes `max` of a list of them.
 */
module Timestamps {
  import opened Wrappers

  /** Python's `a < b` on strings: first differing character decides, a proper prefix is smaller. */
  predicate Less(a: string, b: string): (r: bool)
    ensures r ==> a != b
    ensures |a| < |b| && a == b[..|a|] ==> r
  {
    if a == [] then b != []
    else if b == [] then false
    else if a[0] != b[0] then a[0] < b[0]
    else Less(a[1..], b[1..])
  }

  predicate LessEq(a: string, b: string)
  {
    a == b || Less(a, b)
  }

  lemma {:induction false} LessIrreflexive(a: string)
    ensures !Less(a, a)
  {
  }

  lemma {:induction false} LessAsymmetric(a: string, b: string)
    requires Less(a, b)
    ensures !Less(b, a)
  {
    if a != [] && a[0] == b[0] {
      LessAsymmetric(a[1..], b[1..]);
    }
  }

  lemma {:induction false} LessTransitive(a: string, b: string, c: string)
    requires Less(a, b) && Less(b, c)
    ensures Less(a, c)
  {
    if a != [] && a[0] == b[0] && b[0] == c[0] {
      LessTransitive(a[1..], b[1..], c[1..]);
    }
  }

  /** Any two strings are comparable: the order is total. */
  lemma {:induction false} LessTotal(a: string, b: string)
    ensures Less(a, b) || a == b || Less(b, a)
  {
    if a != [] && b != [] && a[0] == b[0] {
      LessTotal(a[1..], b[1..]);
      if a[1..] == b[1..] {
        assert a == [a[0]] + a[1..];
        assert b == [b[0]] + b[1..];
      }
    }
  }

  lemma LessEqTransitive(a: string, b: string, c: string)
    requires LessEq(a, b) && LessEq(b, c)
    ensures LessEq(a, c)
  {
    if a != b && b != c {
      LessTransitive(a, b, c);
    }
  }

  lemma LessEqAntisymmetric(a: string, b: string)
    requires LessEq(a, b) && LessEq(b, a)
    ensures a == b
  {
    if a != b {
      LessAsymmetric(a, b);
    }
  }

  /** One step of Python's `max`: `next` is the larger of `cur` and `x`, and `m` is at least `next`. */
  lemma MaxStep(cur: string, x: string, next: string, m: string)
    requires next == if Less(cur, x) then x else cur
    requires LessEq(next, m)
    ensures LessEq(cur, m) && LessEq(x, m)
  {
    if Less(cur, x) {
      LessEqTransitive(cur, x, m);
    } else {
      LessTotal(cur, x);
      LessEqTransitive(x, cur, m);
    }
  }

  /**
   * Python's `max` as it runs: keep the current maximum and replace it by
   * each later element that is strictly greater.
   */
  function MaxFrom(cur: string, rest: seq<string>): (m: string)
    ensures m == cur || m in rest
    ensures LessEq(cur, m)
    ensures forall t :: t in rest ==> LessEq(t, m)
    decreases |rest|
  {
    if rest == [] then cur
    else
      var next := if Less(cur, rest[0]) then rest[0] else cur;
      var m := MaxFrom(next, rest[1..]);
      MaxStep(cur, rest[0], next, m);
      assert rest == [rest[0]] + rest[1..];
      m
  }

  /** `max(ts) if ts else None`: the greatest element of `ts`, or None for an empty list. */
  function Latest(ts: seq<string>): (r: Option<string>)
    ensures r.None? <==> ts == []
    ensures r.Some? ==> r.value in ts && forall t :: t in ts ==> LessEq(t, r.value)
  {
    if ts == [] then None
    else
      assert ts == [ts[0]] + ts[1..];
      Some(MaxFrom(ts[0], ts[1..]))
  }

  /** The greatest element is unique: any element at least as large as all others is what `Latest` returns. */
  lemma LatestIsTheGreatest(ts: seq<string>, m: string)
    requires m in ts
    requires forall t :: t in ts ==> LessEq(t, m)
    ensures Latest(ts) == Some(m)
  {
    var r := Latest(ts).value;
    LessEqAntisymmetric(r, m);
  }

  /** The result does not depend on the order of the list. */
  lemma LatestIgnoresOrder(ts: seq<string>, us: seq<string>)
    requires multiset(ts) == multiset(us)
    ensures Latest(ts) == Latest(us)
  {
    if ts != [] {
      assert |us| == |ts| by {
        assert |multiset(us)| == |multiset(ts)|;
      }
      var m := Latest(ts).value;
      assert m in multiset(us);
      forall t | t in us
        ensures LessEq(t, m)
      {
        assert t in multiset(ts);
      }
      LatestIsTheGreatest(us, m);
    }
  }
}
