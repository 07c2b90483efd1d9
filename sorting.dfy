/**
 * `sorted(d.keys())` for a dictionary with string keys: the keys in ascending
 * code-point order, each once.
 */
module Sorting {
  import opened Text

  predicate StrictlyAscending(s: seq<string>) {
    forall i, j :: 0 <= i < j < |s| ==> Less(s[i], s[j])
  }

  /** A strictly ascending list holds no element twice. */
  lemma AscendingDistinct(s: seq<string>, i: nat, j: nat)
    requires StrictlyAscending(s) && i < j < |s|
    ensures s[i] != s[j]
  {
    LessIrreflexive(s[i]);
  }

  /** The smallest element of a non-empty finite set of strings. */
  method Least(keys: set<string>) returns (m: string)
    requires keys != {}
    ensures m in keys
    ensures forall y :: y in keys && y != m ==> Less(m, y)
  {
    m :| m in keys;
    var rest := keys - {m};
    while rest != {}
      invariant m in keys && rest <= keys
      invariant forall y :: y in keys - rest && y != m ==> Less(m, y)
      decreases rest
    {
      var y :| y in rest;
      LessTotal(m, y);
      if Less(y, m) {
        forall z | z in keys - rest && z != y ensures Less(y, z) {
          if z != m { LessTransitive(y, m, z); }
        }
        m := y;
      }
      rest := rest - {y};
    }
  }

  predicate IsLeast(m: string, keys: set<string>) {
    m in keys && forall y :: y in keys && y != m ==> Less(m, y)
  }

  /** Every non-empty finite set of strings has a least element. */
  lemma {:induction false} HasLeast(keys: set<string>)
    requires keys != {}
    ensures exists m :: IsLeast(m, keys)
    decreases keys
  {
    var x :| x in keys;
    var rest := keys - {x};
    if rest == {} {
      assert keys == {x} by {
        forall y | y in keys ensures y == x { assert y !in rest; }
      }
      assert IsLeast(x, keys);
    } else {
      HasLeast(rest);
      var m :| IsLeast(m, rest);
      LessTotal(m, x);
      if Less(m, x) {
        assert IsLeast(m, keys);
      } else {
        assert m != x && Less(x, m);
        forall y | y in keys && y != x ensures Less(x, y) {
          if y != m { LessTransitive(x, m, y); }
        }
        assert IsLeast(x, keys);
      }
    }
  }

  /** The keys in ascending order, each once: the list `sorted` returns. */
  ghost function Sorted(keys: set<string>): seq<string>
    decreases keys
  {
    if keys == {} then []
    else
      HasLeast(keys);
      var m :| IsLeast(m, keys);
      [m] + Sorted(keys - {m})
  }

  /** The sorted list is strictly ascending and holds exactly the keys. */
  lemma {:induction false} SortedSpec(keys: set<string>)
    ensures StrictlyAscending(Sorted(keys))
    ensures forall x :: x in Sorted(keys) <==> x in keys
    ensures |Sorted(keys)| == |keys|
    decreases keys
  {
    if keys != {} {
      HasLeast(keys);
      var r := Sorted(keys);
      var m := r[0];
      assert IsLeast(m, keys) && r == [m] + Sorted(keys - {m});
      var tail := Sorted(keys - {m});
      SortedSpec(keys - {m});
      forall j | 0 <= j < |tail| ensures Less(m, tail[j]) {
        assert tail[j] in keys - {m};
      }
      assert forall i | 1 <= i < |r| :: r[i] == tail[i - 1];
    }
  }

  /** `sorted(keys)`: every key exactly once, ascending, as SortedSpec states of
      Sorted. */
  method SortedKeys(keys: set<string>) returns (r: seq<string>)
    ensures r == Sorted(keys)
  {
    r := [];
    var rest := keys;
    while rest != {}
      invariant rest <= keys
      invariant forall x :: x in r <==> x in keys && x !in rest
      invariant |r| + |rest| == |keys|
      invariant StrictlyAscending(r)
      invariant forall x, y :: x in r && y in rest ==> Less(x, y)
      decreases rest
    {
      var m := Least(rest);
      forall x, y | x in r + [m] && y in rest - {m} ensures Less(x, y) {
        if x == m { assert y != m; } else { LessTransitive(x, m, y); }
      }
      r := r + [m];
      rest := rest - {m};
    }
    SortedSpec(keys);
    AscendingUnique(r, Sorted(keys));
  }

  /** Two strictly ascending lists with the same elements are the same list, so the
      sorted key list is determined by the key set alone. */
  lemma {:induction false} AscendingUnique(a: seq<string>, b: seq<string>)
    requires StrictlyAscending(a) && StrictlyAscending(b)
    requires forall x :: x in a <==> x in b
    ensures a == b
  {
    assert a == [] <==> b == [] by {
      if a != [] { assert a[0] in b; }
      if b != [] { assert b[0] in a; }
    }
    if a != [] {
      LessTotal(a[0], b[0]);
      if a[0] != b[0] {
        assert a[0] in b && b[0] in a;
        var j :| 0 <= j < |b| && b[j] == a[0];
        var k :| 0 <= k < |a| && a[k] == b[0];
        assert j != 0 && k != 0;
        assert Less(b[0], b[j]) && Less(a[0], a[k]);
        LessTransitive(a[0], b[0], a[0]);
        LessIrreflexive(a[0]);
      }
      assert a[0] == b[0];
      forall x ensures x in a[1..] <==> x in b[1..] {
        if x in a[1..] {
          var k :| 1 <= k < |a| && a[k] == x;
          AscendingDistinct(a, 0, k);
          assert x in b && x != b[0];
          var j :| 0 <= j < |b| && b[j] == x;
          assert b[1..][j - 1] == x;
        }
        if x in b[1..] {
          var k :| 1 <= k < |b| && b[k] == x;
          AscendingDistinct(b, 0, k);
          assert x in a && x != a[0];
          var j :| 0 <= j < |a| && a[j] == x;
          assert a[1..][j - 1] == x;
        }
      }
      AscendingUnique(a[1..], b[1..]);
      assert a == [a[0]] + a[1..] && b == [b[0]] + b[1..];
    }
  }
}
