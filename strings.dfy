/** The few `java.lang.String` operations the handlers rely on, over `seq<char>`,
    and the ordering the store uses for sort keys. */
module Strings {
  import opened Wrappers

  /** A Java `String` reference: `None` is `null`. */
  type JString = Option<string>

  /** What Java's `+` appends for a possibly-null string: the text "null" for `null`. */
  function Show(s: JString): string
  {
    match s
    case None => "null"
    case Some(v) => v
  }

  /** `prefix + s` in Java, where `s` may be `null`. */
  function Concat(prefix: string, s: JString): (r: string)
    ensures s.Some? ==> r == prefix + s.value
    ensures s.None? ==> r == prefix + "null"
  {
    prefix + Show(s)
  }

  /** `begins_with(s, prefix)` of the store's key conditions. */
  predicate StartsWith(s: string, prefix: string)
  {
    |prefix| <= |s| && s[..|prefix|] == prefix
  }

  /** `s.contains(target)`: `target` occurs somewhere in `s`. */
  predicate Contains(s: string, target: string)
    decreases |s|
  {
    StartsWith(s, target) || (|s| > 0 && Contains(s[1..], target))
  }

  /** Java's `s.replace(target, replacement)` for a non-empty target: every
      occurrence, found scanning left to right without overlaps, is replaced. */
  function ReplaceAll(s: string, target: string, replacement: string): (r: string)
    requires |target| > 0
    ensures !Contains(s, target) ==> r == s
    ensures StartsWith(s, target) ==> StartsWith(r, replacement)
    decreases |s|
  {
    if StartsWith(s, target) then replacement + ReplaceAll(s[|target|..], target, replacement)
    else if s == [] then []
    else [s[0]] + ReplaceAll(s[1..], target, replacement)
  }

  /** Replacing at a leading occurrence consumes it whole, so a prefix that was
      prepended is always the first thing removed. */
  lemma ReplaceAllAfterPrefix(target: string, s: string, replacement: string)
    requires |target| > 0
    ensures ReplaceAll(target + s, target, replacement) == replacement + ReplaceAll(s, target, replacement)
  {
    assert StartsWith(target + s, target) by { assert (target + s)[..|target|] == target; }
    assert (target + s)[|target|..] == s;
  }

  lemma {:induction false} ShorterNotContains(s: string, target: string)
    requires |s| < |target|
    ensures !Contains(s, target)
    decreases |s|
  {
    if |s| > 0 {
      ShorterNotContains(s[1..], target);
    }
  }

  /** Removing every occurrence of `target` leaves `s` as it was exactly when
      `target` does not occur in it; otherwise the result is strictly shorter. */
  lemma {:induction false} RemoveAllIdentity(s: string, target: string)
    requires |target| > 0
    ensures ReplaceAll(s, target, "") == s <==> !Contains(s, target)
    ensures Contains(s, target) ==> |ReplaceAll(s, target, "")| < |s|
    ensures |ReplaceAll(s, target, "")| <= |s|
    decreases |s|
  {
    if StartsWith(s, target) {
      RemoveAllIdentity(s[|target|..], target);
    } else if s != [] {
      RemoveAllIdentity(s[1..], target);
      assert Contains(s, target) == Contains(s[1..], target);
      if ReplaceAll(s, target, "") == s {
        assert ReplaceAll(s[1..], target, "") == s[1..];
      }
    }
  }

  // ---------------------------------------------------------------------------
  // Lexicographic order on strings (the order of sort keys in a query result).

  /** `a` comes no later than `b` in lexicographic order. */
  predicate Le(a: string, b: string)
    decreases |a|
  {
    |a| == 0 || (|b| > 0 && (a[0] < b[0] || (a[0] == b[0] && Le(a[1..], b[1..]))))
  }

  /** `a` comes strictly before `b`. */
  predicate Lt(a: string, b: string)
  {
    Le(a, b) && a != b
  }

  lemma {:induction false} LeTotal(a: string, b: string)
    ensures Le(a, b) || Le(b, a)
    decreases |a|
  {
    if |a| > 0 && |b| > 0 && a[0] == b[0] {
      LeTotal(a[1..], b[1..]);
    }
  }

  lemma {:induction false} LeTransitive(a: string, b: string, c: string)
    requires Le(a, b) && Le(b, c)
    ensures Le(a, c)
    decreases |a|
  {
    if |a| > 0 && a[0] == b[0] && b[0] == c[0] {
      LeTransitive(a[1..], b[1..], c[1..]);
    }
  }

  lemma {:induction false} LeAntisymmetric(a: string, b: string)
    requires Le(a, b) && Le(b, a)
    ensures a == b
    decreases |a|
  {
    if |a| > 0 {
      LeAntisymmetric(a[1..], b[1..]);
      assert a == [a[0]] + a[1..] && b == [b[0]] + b[1..];
    }
  }

  /** Every non-empty finite set of strings has a least element. */
  lemma {:induction false} MinimumExists(s: set<string>)
    requires s != {}
    ensures exists m :: m in s && forall x :: x in s ==> Le(m, x)
    decreases |s|
  {
    var y :| y in s;
    LeTotal(y, y);
    if s == {y} {
      assert forall x :: x in s ==> x == y;
      assert IsLeast(y, s);
    } else {
      MinimumExists(s - {y});
      var m :| m in s - {y} && forall x :: x in s - {y} ==> Le(m, x);
      LeTotal(m, y);
      if Le(m, y) {
        forall x | x in s ensures Le(m, x) {
          if x != y { assert x in s - {y}; }
        }
        assert IsLeast(m, s);
      } else {
        forall x | x in s ensures Le(y, x) {
          if x != y {
            assert x in s - {y};
            LeTransitive(y, m, x);
          }
        }
        assert IsLeast(y, s);
      }
    }
  }

  /** `m` is the least element of `s`. */
  predicate IsLeast(m: string, s: set<string>)
  {
    m in s && forall x :: x in s ==> Le(m, x)
  }

  /** A non-empty set has exactly one least element. */
  lemma LeastUnique(s: set<string>)
    requires s != {}
    ensures exists m :: IsLeast(m, s)
    ensures forall a, b :: IsLeast(a, s) && IsLeast(b, s) ==> a == b
  {
    MinimumExists(s);
    var m :| m in s && forall x :: x in s ==> Le(m, x);
    assert IsLeast(m, s);
    forall a, b | IsLeast(a, s) && IsLeast(b, s) ensures a == b {
      LeAntisymmetric(a, b);
    }
  }

  /** The elements of `s` in strictly ascending lexicographic order. */
  function Sorted(s: set<string>): (r: seq<string>)
    ensures |r| == |s|
    ensures forall x :: x in s <==> x in r
    ensures forall i, j :: 0 <= i < j < |r| ==> Lt(r[i], r[j])
    decreases |s|
  {
    if s == {} then []
    else
      LeastUnique(s);
      var m :| IsLeast(m, s);
      var rest := Sorted(s - {m});
      assert forall j :: 0 <= j < |rest| ==> Le(m, rest[j]) by {
        forall j | 0 <= j < |rest| ensures Le(m, rest[j]) {
          assert rest[j] in rest;
          assert rest[j] in s - {m};
        }
      }
      [m] + rest
  }
}
