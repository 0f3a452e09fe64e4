/** The ordering of `String` keys in a `BTreeMap`: lexicographic comparison.
    Rust compares the UTF-8 bytes; UTF-8 preserves the order of code points,
    so comparing characters by code point gives the same order. */
module StringOrder {

  /** `a` sorts strictly before `b`. */
  predicate Less(a: string, b: string) {
    if a == [] then b != []
    else if b == [] then false
    else if a[0] != b[0] then a[0] < b[0]
    else Less(a[1..], b[1..])
  }

  predicate LessOrEqual(a: string, b: string) {
    a == b || Less(a, b)
  }

  lemma {:induction false} LessIrreflexive(a: string)
    ensures !Less(a, a)
  {
    if a != [] {
      LessIrreflexive(a[1..]);
    }
  }

  lemma {:induction false} LessTransitive(a: string, b: string, c: string)
    requires Less(a, b) && Less(b, c)
    ensures Less(a, c)
  {
    if a != [] && a[0] == b[0] && b[0] == c[0] {
      LessTransitive(a[1..], b[1..], c[1..]);
    }
  }

  lemma {:induction false} LessTrichotomy(a: string, b: string)
    ensures a == b || Less(a, b) || Less(b, a)
  {
    if a != [] && b != [] && a[0] == b[0] {
      LessTrichotomy(a[1..], b[1..]);
      if a[1..] == b[1..] {
        assert a == [a[0]] + a[1..] && b == [b[0]] + b[1..];
      }
    }
  }

  lemma LessAsymmetric(a: string, b: string)
    requires Less(a, b)
    ensures !Less(b, a)
  {
    if Less(b, a) {
      LessTransitive(a, b, a);
      LessIrreflexive(a);
    }
  }

  /** The smallest key of a non-empty set. */
  ghost function Least(keys: set<string>): (m: string)
    requires keys != {}
    ensures m in keys
    ensures forall k | k in keys :: LessOrEqual(m, k)
    decreases |keys|
  {
    var x :| x in keys;
    if keys == {x} then x
    else
      var y := Least(keys - {x});
      var m := if Less(x, y) then x else y;
      assert forall k | k in keys :: LessOrEqual(m, k) by {
        forall k | k in keys
          ensures LessOrEqual(m, k)
        {
          if k != x {
            assert k in keys - {x};
            if Less(y, k) && Less(x, y) {
              LessTransitive(x, y, k);
            }
          }
          if k == x && m == y {
            LessTrichotomy(x, y);
          }
        }
      }
      m
  }

  /** A key no other key sorts before is the least one. */
  lemma LeastUnique(keys: set<string>, m: string)
    requires m in keys
    requires forall k | k in keys :: LessOrEqual(m, k)
    ensures m == Least(keys)
  {
    var l := Least(keys);
    if m != l {
      assert Less(m, l) && Less(l, m);
      LessAsymmetric(m, l);
    }
  }

  /** The keys of a set in ascending order: the order in which a `BTreeMap`
      yields its entries. */
  ghost function SortedKeys(keys: set<string>): (r: seq<string>)
    ensures |r| == |keys|
    ensures forall i | 0 <= i < |r| :: r[i] in keys
    decreases |keys|
  {
    if keys == {} then []
    else
      var m := Least(keys);
      [m] + SortedKeys(keys - {m})
  }

  /** The sorted keys are strictly ascending. */
  lemma {:induction false} SortedKeysAscending(keys: set<string>)
    ensures forall i, j | 0 <= i < j < |SortedKeys(keys)| :: Less(SortedKeys(keys)[i], SortedKeys(keys)[j])
    decreases |keys|
  {
    if keys != {} {
      var m := Least(keys);
      var rest := SortedKeys(keys - {m});
      SortedKeysAscending(keys - {m});
      var r := SortedKeys(keys);
      assert r == [m] + rest;
      forall i, j | 0 <= i < j < |r|
        ensures Less(r[i], r[j])
      {
        if i == 0 {
          assert r[j] == rest[j - 1] && rest[j - 1] in keys - {m};
        } else {
          assert r[i] == rest[i - 1] && r[j] == rest[j - 1];
        }
      }
    }
  }

  /** The sorted keys start with the least key. */
  lemma SortedKeysStep(keys: set<string>, m: string)
    requires keys != {} && m == Least(keys)
    ensures SortedKeys(keys) == [m] + SortedKeys(keys - {m})
  {
  }

  /** Every key of the set appears in its sorted sequence. */
  lemma {:induction false} SortedKeysComplete(keys: set<string>, k: string)
    requires k in keys
    ensures k in SortedKeys(keys)
    decreases |keys|
  {
    var m := Least(keys);
    if k != m {
      SortedKeysComplete(keys - {m}, k);
    }
  }

  /** Finds the smallest key by a linear scan of the set. */
  method SmallestKey(keys: set<string>) returns (m: string)
    requires keys != {}
    ensures m in keys
    ensures forall k | k in keys :: LessOrEqual(m, k)
    ensures m == Least(keys)
  {
    m :| m in keys;
    var rest := keys - {m};
    while rest != {}
      invariant rest <= keys && m in keys && m !in rest
      invariant forall k | k in keys && k !in rest :: LessOrEqual(m, k)
      decreases |rest|
    {
      var k :| k in rest;
      if Less(k, m) {
        forall k' | k' in keys && k' !in rest && k' != m
          ensures Less(k, k')
        {
          LessTransitive(k, m, k');
        }
        m := k;
      } else {
        LessTrichotomy(k, m);
      }
      rest := rest - {k};
    }
    LeastUnique(keys, m);
  }
}
