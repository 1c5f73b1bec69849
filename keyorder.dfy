/**
 * The order in which the world state's open-ended range scan yields its keys:
 * lexicographic on code points, which is the byte-wise order of the keys'
 * UTF-8 encodings that the ledger's key-value store sorts by.
 */
module KeyOrder {

  /** `a` sorts strictly before `b`: a proper prefix sorts first, otherwise the first differing character decides. */
  predicate KeyLess(a: string, b: string)
    decreases |a|
  {
    if |b| == 0 then false
    else if |a| == 0 then true
    else if a[0] != b[0] then a[0] < b[0]
    else KeyLess(a[1..], b[1..])
  }

  lemma {:induction false} KeyLessIrreflexive(a: string)
    ensures !KeyLess(a, a)
    decreases |a|
  {
    if |a| > 0 {
      KeyLessIrreflexive(a[1..]);
    }
  }

  lemma {:induction false} KeyLessTransitive(a: string, b: string, c: string)
    requires KeyLess(a, b) && KeyLess(b, c)
    ensures KeyLess(a, c)
    decreases |a|
  {
    if |a| > 0 && a[0] == b[0] && b[0] == c[0] {
      KeyLessTransitive(a[1..], b[1..], c[1..]);
    }
  }

  /** Any two distinct keys are ordered one way or the other. */
  lemma {:induction false} KeyLessTotal(a: string, b: string)
    requires a != b
    ensures KeyLess(a, b) || KeyLess(b, a)
    decreases |a|
  {
    if |a| > 0 && |b| > 0 && a[0] == b[0] {
      assert a == [a[0]] + a[1..] && b == [b[0]] + b[1..];
      KeyLessTotal(a[1..], b[1..]);
    }
  }

  lemma {:induction false} KeyLessAsymmetric(a: string, b: string)
    requires KeyLess(a, b)
    ensures !KeyLess(b, a)
  {
    if KeyLess(b, a) {
      KeyLessTransitive(a, b, a);
      KeyLessIrreflexive(a);
    }
  }

  /** Two keys that agree up to one character are ordered by that character. */
  lemma {:induction false} KeyLessAtFirstDifference(p: string, c: char, d: char)
    requires c < d
    ensures KeyLess(p + [c], p + [d])
    decreases |p|
  {
    if |p| > 0 {
      assert (p + [c])[1..] == p[1..] + [c];
      assert (p + [d])[1..] == p[1..] + [d];
      KeyLessAtFirstDifference(p[1..], c, d);
    }
  }

  /** `m` is the key of `s` that sorts before every other key of `s`. */
  ghost predicate IsLeast(m: string, s: set<string>)
  {
    m in s && forall k :: k in s && k != m ==> KeyLess(m, k)
  }

  lemma {:induction false} LeastExists(s: set<string>)
    requires s != {}
    ensures exists m :: IsLeast(m, s)
    decreases |s|
  {
    var x :| x in s;
    var rest := s - {x};
    if rest == {} {
      assert s == {x};
      assert IsLeast(x, s);
    } else {
      LeastExists(rest);
      var m :| IsLeast(m, rest);
      if KeyLess(x, m) {
        forall k | k in s && k != x
          ensures KeyLess(x, k)
        {
          if k != m {
            KeyLessTransitive(x, m, k);
          }
        }
        assert IsLeast(x, s);
      } else {
        KeyLessTotal(x, m);
        assert IsLeast(m, s);
      }
    }
  }

  lemma LeastUnique(m: string, n: string, s: set<string>)
    requires IsLeast(m, s) && IsLeast(n, s)
    ensures m == n
  {
    if m != n {
      KeyLessAsymmetric(m, n);
    }
  }

  /** The least key of a non-empty set of keys. */
  ghost function Least(s: set<string>): (m: string)
    requires s != {}
    ensures IsLeast(m, s)
  {
    LeastExists(s);
    var m :| IsLeast(m, s);
    m
  }

  /** Finds the least key of a non-empty set by one pass over it, as the range scan does for its next key. */
  method LeastKey(s: set<string>) returns (m: string)
    requires s != {}
    ensures IsLeast(m, s)
  {
    m :| m in s;
    var rest := s - {m};
    while rest != {}
      invariant rest <= s && m in s && m !in rest
      invariant forall k :: k in s && k !in rest && k != m ==> KeyLess(m, k)
      decreases |rest|
    {
      var k :| k in rest;
      if KeyLess(k, m) {
        forall j | j in s && j !in rest && j != k
          ensures KeyLess(k, j)
        {
          if j != m {
            KeyLessTransitive(k, m, j);
          }
        }
        m := k;
      } else {
        KeyLessTotal(k, m);
      }
      rest := rest - {k};
    }
  }

  /** Every key of `keys` sorts strictly before every key after it. */
  ghost predicate StrictlySorted(keys: seq<string>)
  {
    forall i, j :: 0 <= i < j < |keys| ==> KeyLess(keys[i], keys[j])
  }

  /** Putting a key before a sorted sequence of larger keys keeps it sorted. */
  lemma SortedCons(m: string, rest: seq<string>)
    requires StrictlySorted(rest)
    requires forall k :: k in rest ==> KeyLess(m, k)
    ensures StrictlySorted([m] + rest)
  {
    var keys := [m] + rest;
    forall i, j | 0 <= i < j < |keys|
      ensures KeyLess(keys[i], keys[j])
    {
      assert keys[j] == rest[j - 1];
      if i > 0 {
        assert keys[i] == rest[i - 1];
      }
    }
  }

  /** The first key of a sorted sequence sorts before, and so does not occur in, the rest. */
  lemma SortedHead(keys: seq<string>)
    requires StrictlySorted(keys) && keys != []
    ensures StrictlySorted(keys[1..])
    ensures forall k :: k in keys[1..] ==> KeyLess(keys[0], k)
    ensures keys[0] !in keys[1..]
  {
    var tail := keys[1..];
    forall k | k in tail
      ensures KeyLess(keys[0], k)
    {
      var j :| 0 <= j < |tail| && tail[j] == k;
      assert keys[j + 1] == k;
    }
    KeyLessIrreflexive(keys[0]);
  }

  /** The keys of `s` in the order an open-ended range scan yields them. */
  ghost function SortedKeys(s: set<string>): (keys: seq<string>)
    ensures StrictlySorted(keys)
    ensures |keys| == |s|
    ensures forall k :: k in keys <==> k in s
    decreases |s|
  {
    if s == {} then []
    else
      var m := Least(s);
      var rest := SortedKeys(s - {m});
      SortedCons(m, rest);
      [m] + rest
  }

  /** Taking the least key off a set takes the first key off its scan. */
  lemma SortedKeysUnfold(m: string, s: set<string>)
    requires IsLeast(m, s)
    ensures SortedKeys(s) == [m] + SortedKeys(s - {m})
  {
    LeastUnique(m, Least(s), s);
  }

  /** A scan that has yielded `scanned` and yields the least unread key next has yielded `scanned + [key]`. */
  lemma ScanAdvance(full: seq<string>, scanned: seq<string>, unread: set<string>, key: string)
    requires scanned + SortedKeys(unread) == full
    requires IsLeast(key, unread)
    ensures (scanned + [key]) + SortedKeys(unread - {key}) == full
  {
    SortedKeysUnfold(key, unread);
    assert (scanned + [key]) + SortedKeys(unread - {key}) == scanned + ([key] + SortedKeys(unread - {key}));
  }

  /** A strictly sorted sequence is the scan of its own elements: the scan order is fully determined by the key set. */
  lemma {:induction false} SortedKeysUnique(keys: seq<string>, s: set<string>)
    requires StrictlySorted(keys)
    requires forall k :: k in keys <==> k in s
    ensures keys == SortedKeys(s)
    decreases |keys|
  {
    if keys == [] {
      assert s == {};
    } else {
      var m := keys[0];
      var tail := keys[1..];
      SortedHead(keys);
      assert keys == [m] + tail;
      assert IsLeast(m, s);
      SortedKeysUnfold(m, s);
      assert forall k :: k in tail <==> k in s - {m};
      SortedKeysUnique(tail, s - {m});
    }
  }
}
