/** The byte order of path names, and sorting by it. */
module Ordering {
  /** `a` comes strictly before `b`. */
  predicate Less(a: string, b: string) {
    b != [] && (a == [] || a[0] < b[0] || (a[0] == b[0] && Less(a[1..], b[1..])))
  }

  lemma {:induction false} LessTrichotomy(a: string, b: string)
    ensures Less(a, b) || a == b || Less(b, a)
    ensures !(Less(a, b) && Less(b, a))
    ensures a == b ==> !Less(a, b)
  {
    if a == [] || b == [] {
    } else {
      LessTrichotomy(a[1..], b[1..]);
      assert a == [a[0]] + a[1..] && b == [b[0]] + b[1..];
    }
  }

  lemma {:induction false} LessTransitive(a: string, b: string, c: string)
    requires Less(a, b) && Less(b, c)
    ensures Less(a, c)
  {
    if a == [] || a[0] != b[0] || b[0] != c[0] {
    } else {
      LessTransitive(a[1..], b[1..], c[1..]);
    }
  }

  /** What the order is: after a common beginning, the first ends where the second goes on, or has the smaller
      character. */
  lemma {:induction false} LessIff(a: string, b: string)
    ensures Less(a, b) <==> exists k: nat :: PartsAt(a, b, k)
  {
    if a == [] || b == [] || a[0] != b[0] {
      if Less(a, b) {
        assert PartsAt(a, b, 0);
      }
      if k: nat :| PartsAt(a, b, k) {
        assert k > 0 ==> a[..k][0] == b[..k][0];
      }
    } else {
      LessIff(a[1..], b[1..]);
      if k: nat :| PartsAt(a[1..], b[1..], k) {
        assert a[..k + 1] == [a[0]] + a[1..][..k] && b[..k + 1] == [b[0]] + b[1..][..k];
        assert PartsAt(a, b, k + 1);
      }
      if k: nat :| PartsAt(a, b, k) {
        assert a[1..][..k - 1] == a[..k][1..] && b[1..][..k - 1] == b[..k][1..];
        assert PartsAt(a[1..], b[1..], k - 1);
      }
    }
  }

  predicate PartsAt(a: string, b: string, k: nat) {
    && k <= |a| && k < |b| && a[..k] == b[..k]
    && (k == |a| || a[k] < b[k])
  }

  /** A name comes before everything it is a proper prefix of. */
  lemma {:induction false} PrefixIsLess(a: string, b: string)
    requires a < b
    ensures Less(a, b)
  {
    if a == [] {
    } else {
      assert a[1..] < b[1..] by { assert forall k :: 0 <= k < |a[1..]| ==> a[1..][k] == a[k + 1] == b[k + 1]; }
      PrefixIsLess(a[1..], b[1..]);
    }
  }

  ghost predicate Ordered<T>(s: seq<T>, key: T -> string) {
    forall i, j :: 0 <= i < j < |s| ==> !Less(key(s[j]), key(s[i]))
  }

  ghost predicate StrictlyOrdered<T>(s: seq<T>, key: T -> string) {
    forall i, j :: 0 <= i < j < |s| ==> Less(key(s[i]), key(s[j]))
  }

  ghost predicate DistinctKeys<T>(s: seq<T>, key: T -> string) {
    forall i, j :: 0 <= i < j < |s| ==> key(s[i]) != key(s[j])
  }

  /** `x` placed before the first element that does not come before it. */
  function Insert<T>(x: T, s: seq<T>, key: T -> string): (r: seq<T>)
    ensures multiset(r) == multiset(s) + multiset{x}
  {
    if s == [] then [x]
    else if !Less(key(s[0]), key(x)) then [x] + s
    else
      assert s == [s[0]] + s[1..];
      [s[0]] + Insert(x, s[1..], key)
  }

  /** A sorted rearrangement (the library's stable sort). */
  function Sort<T>(s: seq<T>, key: T -> string): (r: seq<T>)
    ensures multiset(r) == multiset(s)
    ensures |r| == |s|
  {
    if s == [] then []
    else
      assert s == [s[0]] + s[1..];
      var r := Insert(s[0], Sort(s[1..], key), key);
      assert |r| == |multiset(r)| && |s| == |multiset(s)|;
      r
  }

  lemma InMultiset<T>(s: seq<T>, r: seq<T>, x: T)
    requires multiset(s) == multiset(r)
    ensures x in s <==> x in r
  {
    assert x in s <==> x in multiset(s);
  }

  lemma {:induction false} InsertKeepsOrder<T>(x: T, s: seq<T>, key: T -> string)
    requires Ordered(s, key)
    ensures Ordered(Insert(x, s, key), key)
  {
    var r := Insert(x, s, key);
    if s == [] {
    } else if !Less(key(s[0]), key(x)) {
      forall i, j | 0 <= i < j < |r|
        ensures !Less(key(r[j]), key(r[i]))
      {
        if i == 0 && j > 1 {
          if Less(key(s[j - 1]), key(x)) {
            LessTrichotomy(key(s[0]), key(x));
            if key(x) != key(s[0]) {
              LessTransitive(key(s[j - 1]), key(x), key(s[0]));
            }
          }
        }
      }
    } else {
      var t := Insert(x, s[1..], key);
      InsertKeepsOrder(x, s[1..], key);
      forall j | 0 <= j < |t|
        ensures !Less(key(t[j]), key(s[0]))
      {
        assert t[j] in multiset(t);
        if t[j] in s[1..] {
        } else {
          assert t[j] == x;
          LessTrichotomy(key(s[0]), key(x));
        }
      }
    }
  }

  /** Sorting sorts. */
  lemma {:induction false} SortOrders<T>(s: seq<T>, key: T -> string)
    ensures Ordered(Sort(s, key), key)
  {
    if s == [] {
    } else {
      SortOrders(s[1..], key);
      InsertKeepsOrder(s[0], Sort(s[1..], key), key);
    }
  }

  lemma {:induction false} DistinctOfMultiset<T>(s: seq<T>, r: seq<T>, key: T -> string)
    requires multiset(s) == multiset(r) && DistinctKeys(s, key)
    ensures DistinctKeys(r, key)
  {
    forall i, j | 0 <= i < j < |r|
      ensures key(r[i]) != key(r[j])
    {
      if key(r[i]) == key(r[j]) {
        InMultiset(s, r, r[i]);
        InMultiset(s, r, r[j]);
        var a, b :| 0 <= a < |s| && 0 <= b < |s| && s[a] == r[i] && s[b] == r[j];
        assert a == b;
        TwiceInMultiset(r, i, j);
        OnceInMultiset(s, a, key);
        assert false;
      }
    }
  }

  lemma TwiceInMultiset<T>(r: seq<T>, i: nat, j: nat)
    requires i < j < |r| && r[i] == r[j]
    ensures multiset(r)[r[i]] >= 2
  {
    assert r == r[..j] + [r[j]] + r[j + 1..];
    assert r[i] in r[..j];
  }

  lemma OnceInMultiset<T>(s: seq<T>, a: nat, key: T -> string)
    requires a < |s| && DistinctKeys(s, key)
    ensures multiset(s)[s[a]] <= 1
  {
    assert s == s[..a] + [s[a]] + s[a + 1..];
    assert s[a] !in s[..a] && s[a] !in s[a + 1..];
  }

  /** Distinct keys sort strictly. */
  lemma SortOrdersStrictly<T>(s: seq<T>, key: T -> string)
    requires DistinctKeys(s, key)
    ensures StrictlyOrdered(Sort(s, key), key)
  {
    var r := Sort(s, key);
    SortOrders(s, key);
    DistinctOfMultiset(s, r, key);
    forall i, j | 0 <= i < j < |r|
      ensures Less(key(r[i]), key(r[j]))
    {
      LessTrichotomy(key(r[i]), key(r[j]));
    }
  }

  lemma LessGivesIndex<T>(s: seq<T>, key: T -> string, i: nat, j: nat)
    requires StrictlyOrdered(s, key) && i < |s| && j < |s| && Less(key(s[i]), key(s[j]))
    ensures i < j
  {
    LessTrichotomy(key(s[i]), key(s[j]));
  }

  function Itself(s: string): string {
    s
  }

  /** A strictly ordered list is determined by its elements. */
  lemma {:induction false} StrictOrderIsUnique(a: seq<string>, b: seq<string>)
    requires StrictlyOrdered(a, Itself) && StrictlyOrdered(b, Itself)
    requires forall x :: x in a <==> x in b
    ensures a == b
  {
    assert b != [] ==> b[0] in b;
    if a == [] {
    } else {
      assert a[0] in a && b != [] by { assert a[0] in b; }
      assert b[0] in b;
      FirstIsLeast(a, b[0]);
      FirstIsLeast(b, a[0]);
      LessTrichotomy(a[0], b[0]);
      forall x
        ensures x in a[1..] <==> x in b[1..]
      {
        TailDropsFirst(a, x);
        TailDropsFirst(b, x);
      }
      StrictOrderIsUnique(a[1..], b[1..]);
      assert a == [a[0]] + a[1..] && b == [b[0]] + b[1..];
    }
  }

  lemma FirstIsLeast(a: seq<string>, x: string)
    requires StrictlyOrdered(a, Itself) && x in a
    ensures a[0] == x || Less(a[0], x)
  {
    var k :| 0 <= k < |a| && a[k] == x;
    if k > 0 {
      assert Less(Itself(a[0]), Itself(a[k]));
    }
  }

  lemma TailDropsFirst(a: seq<string>, x: string)
    requires StrictlyOrdered(a, Itself) && a != []
    ensures x in a[1..] <==> x in a && x != a[0]
  {
    if x in a[1..] {
      var k :| 1 <= k < |a| && a[k] == x;
      assert Less(Itself(a[0]), Itself(a[k]));
      LessTrichotomy(a[0], x);
    }
  }
}
