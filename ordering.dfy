/** Rust's `Ord` on `&str` (byte-wise on UTF-8, which is the order of the
    Unicode scalar values) and the sorted listing of a set of keys that
    `sort_by_key` / `sort` produce when the keys are distinct. */
module Ordering {

  /** `a < b` in lexicographic order. */
  predicate Below(a: string, b: string) {
    if a == [] then b != []
    else if b == [] then false
    else a[0] < b[0] || (a[0] == b[0] && Below(a[1..], b[1..]))
  }

  lemma {:induction false} BelowIrreflexive(a: string)
    ensures !Below(a, a)
  {
    if a != [] {
      BelowIrreflexive(a[1..]);
    }
  }

  lemma {:induction false} BelowTransitive(a: string, b: string, c: string)
    requires Below(a, b) && Below(b, c)
    ensures Below(a, c)
  {
    if a != [] && b != [] && c != [] && a[0] == b[0] && b[0] == c[0] {
      BelowTransitive(a[1..], b[1..], c[1..]);
    }
  }

  /** Distinct strings are always comparable, one way only. */
  lemma {:induction false} BelowTotal(a: string, b: string)
    ensures a != b ==> (Below(a, b) <==> !Below(b, a))
  {
    if a != [] && b != [] && a[0] == b[0] {
      BelowTotal(a[1..], b[1..]);
      assert a == [a[0]] + a[1..] && b == [b[0]] + b[1..];
    }
  }

  predicate StrictlySorted(s: seq<string>) {
    forall i, j :: 0 <= i < j < |s| ==> Below(s[i], s[j])
  }

  predicate IsLeast(k: string, ks: set<string>) {
    k in ks && forall j :: j in ks && j != k ==> Below(k, j)
  }

  lemma {:induction false} LeastExists(ks: set<string>)
    requires ks != {}
    ensures exists k :: IsLeast(k, ks)
  {
    var x :| x in ks;
    if ks - {x} == {} {
      assert ks == {x};
      assert IsLeast(x, ks);
    } else {
      LeastExists(ks - {x});
      var y :| IsLeast(y, ks - {x});
      BelowTotal(x, y);
      if Below(x, y) {
        forall j | j in ks && j != x
          ensures Below(x, j)
        {
          if j != y {
            BelowTransitive(x, y, j);
          }
        }
        assert IsLeast(x, ks);
      } else {
        assert IsLeast(y, ks);
      }
    }
  }

  lemma LeastUnique(a: string, b: string, ks: set<string>)
    requires IsLeast(a, ks) && IsLeast(b, ks)
    ensures a == b
  {
    if a != b {
      BelowIrreflexive(a);
      BelowTransitive(a, b, a);
    }
  }

  /** The keys of `ks` in ascending order. */
  function SortedKeys(ks: set<string>): (r: seq<string>)
    ensures |r| == |ks|
    ensures forall k :: k in r <==> k in ks
    ensures StrictlySorted(r)
    decreases ks
  {
    if ks == {} then []
    else
      LeastExists(ks);
      assert forall a, b :: IsLeast(a, ks) && IsLeast(b, ks) ==> a == b by {
        forall a, b | IsLeast(a, ks) && IsLeast(b, ks) ensures a == b {
          LeastUnique(a, b, ks);
        }
      }
      var k :| IsLeast(k, ks);
      var rest := SortedKeys(ks - {k});
      LeastFirst(k, ks, rest);
      [k] + rest
  }

  /** The least key followed by the others in order lists the whole set in
      order. */
  lemma LeastFirst(k: string, ks: set<string>, rest: seq<string>)
    requires IsLeast(k, ks)
    requires |rest| == |ks - {k}| && StrictlySorted(rest)
    requires forall x :: x in rest <==> x in ks - {k}
    ensures |[k] + rest| == |ks|
    ensures forall x :: x in [k] + rest <==> x in ks
    ensures StrictlySorted([k] + rest)
  {
    forall i | 0 <= i < |rest|
      ensures Below(k, rest[i])
    {
      assert rest[i] in rest;
    }
    var r := [k] + rest;
    forall i, j | 0 <= i < j < |r|
      ensures Below(r[i], r[j])
    {
      if i > 0 {
        assert r[i] == rest[i - 1] && r[j] == rest[j - 1];
      } else {
        assert r[j] == rest[j - 1];
      }
    }
  }
}
