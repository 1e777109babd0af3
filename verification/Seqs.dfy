/** Order-preserving filtering, shared by the queues. */
module Seqs {

  function Filter<T>(s: seq<T>, keep: T -> bool): (r: seq<T>)
    ensures |r| <= |s|
  {
    if s == [] then []
    else (if keep(s[0]) then [s[0]] else []) + Filter(s[1..], keep)
  }

  lemma FilterSmall<T(!new)>(x: T, keep: T -> bool)
    ensures Filter([], keep) == []
    ensures Filter([x], keep) == if keep(x) then [x] else []
  {
  }

  lemma {:induction false} FilterMembers<T(!new)>(s: seq<T>, keep: T -> bool)
    ensures forall x :: x in Filter(s, keep) <==> x in s && keep(x)
  {
    if s != [] {
      FilterMembers(s[1..], keep);
      assert forall x :: x in s <==> x == s[0] || x in s[1..];
    }
  }

  lemma {:induction false} FilterConcat<T(!new)>(a: seq<T>, b: seq<T>, keep: T -> bool)
    ensures Filter(a + b, keep) == Filter(a, keep) + Filter(b, keep)
  {
    if a == [] {
      assert a + b == b;
    } else {
      assert (a + b)[1..] == a[1..] + b && (a + b)[0] == a[0];
      FilterConcat(a[1..], b, keep);
      var head := if keep(a[0]) then [a[0]] else [];
      assert head + (Filter(a[1..], keep) + Filter(b, keep)) == head + Filter(a[1..], keep) + Filter(b, keep);
    }
  }

  /** Filtering twice is filtering by both, and only the members' answers matter. */
  lemma {:induction false} FilterTwice<T(!new)>(s: seq<T>, first: T -> bool, second: T -> bool, both: T -> bool)
    requires forall x :: x in s ==> (both(x) <==> first(x) && second(x))
    ensures Filter(Filter(s, first), second) == Filter(s, both)
  {
    if s != [] {
      FilterTwice(s[1..], first, second, both);
      assert s[0] in s;
      var rest := Filter(s[1..], first);
      if first(s[0]) { assert ([s[0]] + rest)[1..] == rest; } else { assert [] + rest == rest; }
    }
  }

  lemma {:induction false} FilterSame<T(!new)>(s: seq<T>, first: T -> bool, second: T -> bool)
    requires forall x :: x in s ==> (first(x) <==> second(x))
    ensures Filter(s, first) == Filter(s, second)
  {
    if s != [] {
      FilterSame(s[1..], first, second);
      assert s[0] in s;
    }
  }

  /** The order of a filtered sequence is the order of the original. */
  lemma {:induction false} FilterKeepsOrder<T(!new)>(s: seq<T>, keep: T -> bool, i: nat, j: nat)
    requires i < j < |Filter(s, keep)|
    ensures exists a: nat, b: nat :: a < b < |s| && s[a] == Filter(s, keep)[i] && s[b] == Filter(s, keep)[j]
  {
    var r := Filter(s, keep);
    var rest := Filter(s[1..], keep);
    if keep(s[0]) {
      if i == 0 {
        var x := rest[j - 1];
        FilterMembers(s[1..], keep);
        assert x in s[1..];
        var b :| 1 <= b < |s| && s[b] == x;
        assert r == [s[0]] + rest && r[j] == x;
        assert s[0] == r[0] && s[b] == r[j];
      } else {
        FilterKeepsOrder(s[1..], keep, i - 1, j - 1);
        var a: nat, b: nat :| a < b < |s[1..]| && s[1..][a] == rest[i - 1] && s[1..][b] == rest[j - 1];
        assert s[a + 1] == r[i] && s[b + 1] == r[j];
      }
    } else {
      FilterKeepsOrder(s[1..], keep, i, j);
      var a: nat, b: nat :| a < b < |s[1..]| && s[1..][a] == rest[i] && s[1..][b] == rest[j];
      assert s[a + 1] == r[i] && s[b + 1] == r[j];
    }
  }

  predicate Distinct<T(==)>(s: seq<T>) {
    forall i, j :: 0 <= i < j < |s| ==> s[i] != s[j]
  }
}
