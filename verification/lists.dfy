/**
  Generic list and record helpers shared by every screen of the client:
  optional values, the order-preserving `Array.prototype.filter`, and the
  "forget one field's error" step every form performs when a field changes.
 */
module Lists {

  /** A value that may be missing (`undefined` / `null` in the client). */
  datatype Option<+T> = None | Some(value: T)

  /** `a` is an order-preserving sub-list of `b`: `b` with some items dropped. */
  ghost predicate SubSeq<T>(a: seq<T>, b: seq<T>)
    decreases |b|
  {
    |a| == 0 ||
    (|b| > 0 && ((a[0] == b[0] && SubSeq(a[1..], b[1..])) || SubSeq(a, b[1..])))
  }

  /** `s.filter(p)`: keeps, in their original order, the items satisfying `p`. */
  function Filter<T>(s: seq<T>, p: T -> bool): (r: seq<T>)
    ensures |r| <= |s|
    ensures forall i :: 0 <= i < |r| ==> p(r[i]) && r[i] in s
    ensures forall i :: 0 <= i < |s| && p(s[i]) ==> s[i] in r
    ensures SubSeq(r, s)
  {
    if |s| == 0 then []
    else if p(s[0]) then [s[0]] + Filter(s[1..], p)
    else Filter(s[1..], p)
  }

  /** Filtering keeps every copy of every item satisfying `p`, and nothing else. */
  lemma {:induction false} FilterMultiplicity<T(!new)>(s: seq<T>, p: T -> bool)
    ensures forall x :: multiset(Filter(s, p))[x] == (if p(x) then multiset(s)[x] else 0)
  {
    if |s| > 0 {
      FilterMultiplicity(s[1..], p);
      assert s == [s[0]] + s[1..];
      assert multiset(s) == multiset{s[0]} + multiset(s[1..]);
    }
  }

  /** Filtering distributes over concatenation. */
  lemma {:induction false} FilterAppend<T>(a: seq<T>, b: seq<T>, p: T -> bool)
    ensures Filter(a + b, p) == Filter(a, p) + Filter(b, p)
  {
    if |a| == 0 {
      assert a + b == b;
    } else {
      assert (a + b)[0] == a[0];
      assert (a + b)[1..] == a[1..] + b;
      FilterAppend(a[1..], b, p);
    }
  }

  /** A list whose every item passes the test is returned unchanged. */
  lemma {:induction false} FilterKeepsAll<T>(s: seq<T>, p: T -> bool)
    requires forall i :: 0 <= i < |s| ==> p(s[i])
    ensures Filter(s, p) == s
  {
    if |s| > 0 {
      FilterKeepsAll(s[1..], p);
    }
  }

  /** A list whose every item fails the test filters to nothing. */
  lemma {:induction false} FilterKeepsNone<T>(s: seq<T>, p: T -> bool)
    requires forall i :: 0 <= i < |s| ==> !p(s[i])
    ensures Filter(s, p) == []
  {
    if |s| > 0 {
      FilterKeepsNone(s[1..], p);
    }
  }

  /** Filtering twice with the same test is filtering once. */
  lemma {:induction false} FilterIdempotent<T>(s: seq<T>, p: T -> bool)
    ensures Filter(Filter(s, p), p) == Filter(s, p)
  {
    var r := Filter(s, p);
    FilterKeepsAll(r, p);
  }

  /** The number of items of `s` satisfying `p`. */
  function Count<T>(s: seq<T>, p: T -> bool): nat
  {
    if |s| == 0 then 0 else (if p(s[0]) then 1 else 0) + Count(s[1..], p)
  }

  /** The filter keeps exactly as many items as satisfy the test. */
  lemma {:induction false} FilterLength<T>(s: seq<T>, p: T -> bool)
    ensures |Filter(s, p)| == Count(s, p)
  {
    if |s| > 0 {
      FilterLength(s[1..], p);
    }
  }

  /** Two filters can be applied in either order. */
  lemma {:induction false} FilterCommutes<T>(s: seq<T>, p: T -> bool, q: T -> bool)
    ensures Filter(Filter(s, p), q) == Filter(Filter(s, q), p)
  {
    if |s| > 0 {
      FilterCommutes(s[1..], p, q);
    }
  }

  /**
    `list.filter(x => x.id !== k)`: the items whose key differs from `k`, in
    order. Nothing with key `k` survives and everything else does.
   */
  function RemoveKey<T>(s: seq<T>, key: T -> int, k: int): (r: seq<T>)
    ensures forall i :: 0 <= i < |r| ==> key(r[i]) != k && r[i] in s
    ensures forall i :: 0 <= i < |s| && key(s[i]) != k ==> s[i] in r
    ensures SubSeq(r, s)
  {
    Filter(s, x => key(x) != k)
  }

  /** Removing a key keeps every copy of every item with another key. */
  lemma RemoveKeyMultiplicity<T(!new)>(s: seq<T>, key: T -> int, k: int)
    ensures forall x :: multiset(RemoveKey(s, key, k))[x] == (if key(x) != k then multiset(s)[x] else 0)
  {
    FilterMultiplicity(s, x => key(x) != k);
  }

  /**
    Removing a key from a list and from a filtered view of it keep the two
    consistent: the view of the shortened list is the shortened view.
   */
  lemma RemoveKeyKeepsView<T>(s: seq<T>, key: T -> int, k: int, p: T -> bool)
    ensures RemoveKey(Filter(s, p), key, k) == Filter(RemoveKey(s, key, k), p)
  {
    FilterCommutes(s, p, x => key(x) != k);
  }

  /** Removing a key twice is removing it once, and removing an absent key changes nothing. */
  lemma RemoveKeyIdempotent<T>(s: seq<T>, key: T -> int, k: int)
    ensures RemoveKey(RemoveKey(s, key, k), key, k) == RemoveKey(s, key, k)
    ensures (forall i :: 0 <= i < |s| ==> key(s[i]) != k) ==> RemoveKey(s, key, k) == s
  {
    FilterIdempotent(s, x => key(x) != k);
    if forall i :: 0 <= i < |s| ==> key(s[i]) != k {
      FilterKeepsAll(s, x => key(x) != k);
    }
  }

  /**
    The error-clearing half of every form's `updateFormData`: the edited
    field's error is removed and every other error is kept as it was.
   */
  function ClearError<K>(errors: map<K, string>, field: K): (r: map<K, string>)
    ensures field !in r
    ensures forall k :: k in errors && k != field ==> k in r && r[k] == errors[k]
    ensures forall k :: k in r ==> k in errors
  {
    errors - {field}
  }
}
