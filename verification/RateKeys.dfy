/** Redis keys of the rate limiter's counters. */
module RateKeys {
  import opened Decimal

  /** The request method and the caller's `x-user-id`. */
  datatype Identity = Identity(method_: string, user: string)

  const PREFIX := "rate_limit:"

  /** `rate_limit:{method}:{user}:{bucket}`. */
  function Key(id: Identity, bucket: nat): string {
    PREFIX + (id.method_ + ":" + (id.user + ":" + Dec(bucket)))
  }

  /** A method is a token (section 9.1 of RFC 9110, grammar in section 5.6.2), so it has no colon. */
  predicate IsMethod(m: string) {
    ':' !in m
  }

  lemma FirstColonAt(a: string, x: string)
    requires ':' !in a
    ensures
      var s := a + ":" + x;
      s[|a|] == ':' && forall i :: 0 <= i < |a| ==> s[i] != ':'
  {}

  lemma SplitAtFirstColon(a: string, b: string, x: string, y: string)
    requires ':' !in a && ':' !in b && a + ":" + x == b + ":" + y
    ensures a == b && x == y
  {
    var s := a + ":" + x;
    FirstColonAt(a, x);
    FirstColonAt(b, y);
    assert a == s[..|a|] && b == s[..|b|];
    assert x == s[|a| + 1..] && y == s[|b| + 1..];
  }

  lemma LastColonAt(u: string, d: string)
    requires ':' !in d
    ensures
      var s := u + ":" + d;
      s[|u|] == ':' && forall i :: |u| < i < |s| ==> s[i] != ':'
  {}

  lemma SplitAtLastColon(u: string, v: string, d: string, e: string)
    requires ':' !in d && ':' !in e && u + ":" + d == v + ":" + e
    ensures u == v && d == e
  {
    var s := u + ":" + d;
    LastColonAt(u, d);
    LastColonAt(v, e);
    assert u == s[..|u|] && v == s[..|v|];
    assert d == s[|u| + 1..] && e == s[|v| + 1..];
  }

  lemma DecHasNoColon(n: nat)
    ensures ':' !in Dec(n)
  {
    DecIsNumeral(n);
    assert !IsDigit(':');
  }

  /** Different methods, users or buckets never share a key, whatever the user string contains. */
  lemma KeysAreInjective(a: Identity, b: Identity, i: nat, j: nat)
    requires IsMethod(a.method_) && IsMethod(b.method_) && Key(a, i) == Key(b, j)
    ensures a == b && i == j
  {
    var x := a.user + ":" + Dec(i);
    var y := b.user + ":" + Dec(j);
    assert a.method_ + ":" + x == Key(a, i)[|PREFIX|..] && b.method_ + ":" + y == Key(b, j)[|PREFIX|..];
    SplitAtFirstColon(a.method_, b.method_, x, y);
    DecHasNoColon(i);
    DecHasNoColon(j);
    SplitAtLastColon(a.user, b.user, Dec(i), Dec(j));
    DecInjective(i, j);
  }
}
