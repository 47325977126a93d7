/** The order in which a `std::map<std::string, ...>` is iterated:
    each key once, the lexicographically smallest first. */
module Ordering {

  /** Lexicographic comparison of two keys, as `std::less<std::string>` makes it. */
  predicate LexLe(a: string, b: string) {
    a == "" || (b != "" && (a[0] < b[0] || (a[0] == b[0] && LexLe(a[1..], b[1..]))))
  }

  lemma LexTotal(a: string, b: string)
    ensures LexLe(a, b) || LexLe(b, a)
  {
  }

  lemma {:induction false} LexAntisymmetric(a: string, b: string)
    requires LexLe(a, b) && LexLe(b, a)
    ensures a == b
  {
    if a != "" {
      LexAntisymmetric(a[1..], b[1..]);
      assert a == [a[0]] + a[1..] && b == [b[0]] + b[1..];
    }
  }

  lemma {:induction false} LexTransitive(a: string, b: string, c: string)
    requires LexLe(a, b) && LexLe(b, c)
    ensures LexLe(a, c)
  {
    if a != "" && a[0] == b[0] && b[0] == c[0] {
      LexTransitive(a[1..], b[1..], c[1..]);
    }
  }

  predicate IsLeast(k: string, s: set<string>) {
    k in s && forall j | j in s :: LexLe(k, j)
  }

  lemma {:induction false} LeastExists(s: set<string>)
    requires s != {}
    ensures exists k :: IsLeast(k, s)
    decreases |s|
  {
    var x :| x in s;
    if s == {x} {
      LexTotal(x, x);
      assert IsLeast(x, s);
    } else {
      LeastExists(s - {x});
      var m :| IsLeast(m, s - {x});
      LexTotal(x, m);
      LexTotal(x, x);
      forall j | j in s && LexLe(x, m) ensures LexLe(x, j) {
        if j != x { LexTransitive(x, m, j); }
      }
      assert IsLeast(if LexLe(x, m) then x else m, s);
    }
  }

  lemma LeastUnique(s: set<string>, a: string, b: string)
    requires IsLeast(a, s) && IsLeast(b, s)
    ensures a == b
  {
    LexAntisymmetric(a, b);
  }

  lemma OneLeast(s: set<string>)
    ensures forall a, b | IsLeast(a, s) && IsLeast(b, s) :: a == b
  {
    hide IsLeast;
    forall a, b | IsLeast(a, s) && IsLeast(b, s) ensures a == b { LeastUnique(s, a, b); }
  }

  ghost predicate Distinct<T>(s: seq<T>) {
    forall i, j | 0 <= i < j < |s| :: s[i] != s[j]
  }

  ghost predicate InOrder(r: seq<string>) {
    forall i, j | 0 <= i < j < |r| :: LexLe(r[i], r[j])
  }

  lemma LeastFirst(s: set<string>, k: string, rest: seq<string>)
    requires IsLeast(k, s) && Distinct(rest) && InOrder(rest) && forall j :: j in rest <==> j in s - {k}
    ensures Distinct([k] + rest) && InOrder([k] + rest) && forall j :: j in [k] + rest <==> j in s
  {
    hide LexLe;
    var r := [k] + rest;
    assert k !in rest;
    assert forall i | 0 < i < |r| :: r[i] == rest[i - 1] && r[i] in rest;
    forall j ensures j in r <==> j in s {
    }
  }

  /** The keys in iteration order: each key once, smallest first. */
  function SortedKeys(s: set<string>): (r: seq<string>)
    ensures forall k :: k in r <==> k in s
    ensures Distinct(r)
    ensures |r| == |s|
    ensures InOrder(r)
    decreases |s|
  {
    if s == {} then []
    else
      LeastExists(s);
      OneLeast(s);
      var k :| k in s && IsLeast(k, s);
      var rest := SortedKeys(s - {k});
      LeastFirst(s, k, rest);
      [k] + rest
  }
}
