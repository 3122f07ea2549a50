/** Names in lexicographic order, sorting by name, and removing repetitions. */
module Ordering {
  predicate Less(a: string, b: string) {
    b != "" && (a == "" || (if a[0] == b[0] then Less(a[1..], b[1..]) else a[0] < b[0]))
  }

  /** One name is less than another when it is a proper beginning of it, or has the smaller character at the
      first place where they differ. */
  lemma {:induction false} LessIff(a: string, b: string)
    ensures Less(a, b) <==>
            exists k :: 0 <= k <= |a| && k < |b| && a[..k] == b[..k] && (k == |a| || a[k] < b[k])
  {
    if a == "" || b == "" {
      assert a[..0] == b[..0];
    } else if a[0] == b[0] {
      LessIff(a[1..], b[1..]);
      if k :| 0 <= k <= |a| && k < |b| && a[..k] == b[..k] && (k == |a| || a[k] < b[k]) {
        assert k > 0;
        assert a[1..][..k - 1] == a[..k][1..] && b[1..][..k - 1] == b[..k][1..];
      }
      if Less(a, b) {
        var k :| 0 <= k <= |a| - 1 && k < |b| - 1 && a[1..][..k] == b[1..][..k]
              && (k == |a| - 1 || a[1..][k] < b[1..][k]);
        assert a[..k + 1] == [a[0]] + a[1..][..k] && b[..k + 1] == [b[0]] + b[1..][..k];
      }
    } else {
      assert a[..0] == b[..0];
      assert forall k :: 0 < k <= |a| && k < |b| && a[..k] == b[..k] ==> a[..k][0] == b[..k][0];
    }
  }

  lemma {:induction false} LessTransitive(a: string, b: string, c: string)
    requires Less(a, b) && Less(b, c)
    ensures Less(a, c)
  {
    if a != "" && a[0] == b[0] && b[0] == c[0] { LessTransitive(a[1..], b[1..], c[1..]); }
  }

  /** Exactly one of a < b, a == b and b < a. */
  lemma {:induction false} LessTotal(a: string, b: string)
    ensures Less(a, b) || a == b || Less(b, a)
    ensures Less(a, b) ==> a != b && !Less(b, a)
  {
    if a != "" && b != "" && a[0] == b[0] {
      LessTotal(a[1..], b[1..]);
      assert a == [a[0]] + a[1..] && b == [b[0]] + b[1..];
    }
  }

  ghost predicate Sorted<T>(s: seq<T>, key: T -> string) {
    forall i, j :: 0 <= i < j < |s| ==> !Less(key(s[j]), key(s[i]))
  }

  ghost predicate StrictlySorted<T>(s: seq<T>, key: T -> string) {
    forall i, j :: 0 <= i < j < |s| ==> Less(key(s[i]), key(s[j]))
  }

  lemma SortedIsStrict<T>(s: seq<T>, key: T -> string)
    requires Sorted(s, key)
    requires forall i, j :: 0 <= i < j < |s| ==> key(s[i]) != key(s[j])
    ensures StrictlySorted(s, key)
  {
    forall i, j | 0 <= i < j < |s| ensures Less(key(s[i]), key(s[j])) { LessTotal(key(s[i]), key(s[j])); }
  }

  /** Elements in strict order of their names are in the only such order. */
  lemma {:induction false} StrictOrderIsUnique<T>(a: seq<T>, b: seq<T>, key: T -> string)
    requires StrictlySorted(a, key) && StrictlySorted(b, key)
    requires forall x :: x in a <==> x in b
    ensures a == b
    decreases |a|
  {
    assert (a != [] ==> a[0] in a) && (b != [] ==> b[0] in b);
    if a != [] && b != [] {
      FirstIsSame(a, b, key);
      var x := a[0];
      assert a == [x] + a[1..] && b == [x] + b[1..];
      FirstIsOnce(a, key);
      FirstIsOnce(b, key);
      assert forall y :: y in a[1..] <==> y in a && y != x;
      assert forall y :: y in b[1..] <==> y in b && y != x;
      StrictOrderIsUnique(a[1..], b[1..], key);
    }
  }

  lemma FirstIsOnce<T>(a: seq<T>, key: T -> string)
    requires a != [] && StrictlySorted(a, key)
    ensures a[0] !in a[1..] && StrictlySorted(a[1..], key)
  {
    if a[0] in a[1..] {
      var i :| 0 <= i < |a| - 1 && a[1..][i] == a[0];
      assert a[i + 1] == a[0];
      LessTotal(key(a[0]), key(a[i + 1]));
    }
  }

  lemma FirstIsSame<T>(a: seq<T>, b: seq<T>, key: T -> string)
    requires StrictlySorted(a, key) && StrictlySorted(b, key) && a != [] && b != []
    requires forall x :: x in a <==> x in b
    ensures a[0] == b[0]
  {
    assert a[0] in a && b[0] in b;
    var i :| 0 <= i < |b| && b[i] == a[0];
    var j :| 0 <= j < |a| && a[j] == b[0];
    if i > 0 && j > 0 {
      assert Less(key(b[0]), key(b[i])) && Less(key(a[0]), key(a[j]));
      LessTotal(key(a[0]), key(b[0]));
      assert false;
    }
  }

  /** Stands for the standard library's sort: a permutation in which no name follows a greater one. */
  method Sort<T>(s: seq<T>, key: T -> string) returns (r: seq<T>)
    ensures multiset(r) == multiset(s) && Sorted(r, key)
  {
    r := [];
    for i := 0 to |s|
      invariant multiset(r) == multiset(s[..i]) && Sorted(r, key)
    {
      var k := |r|;
      while k > 0 && Less(key(s[i]), key(r[k - 1]))
        invariant 0 <= k <= |r|
        invariant forall j :: k <= j < |r| ==> Less(key(s[i]), key(r[j]))
      {
        k := k - 1;
      }
      InsertKeepsOrder(r, k, s[i], key);
      assert r == r[..k] + r[k..];
      r := r[..k] + [s[i]] + r[k..];
      assert s[..i + 1] == s[..i] + [s[i]];
    }
    assert s[..|s|] == s;
  }

  lemma InsertKeepsOrder<T>(r: seq<T>, k: nat, x: T, key: T -> string)
    requires Sorted(r, key) && k <= |r|
    requires k > 0 ==> !Less(key(x), key(r[k - 1]))
    requires forall j :: k <= j < |r| ==> Less(key(x), key(r[j]))
    ensures Sorted(r[..k] + [x] + r[k..], key)
  {
    forall j | 0 <= j < k ensures !Less(key(x), key(r[j])) {
      if Less(key(x), key(r[j])) && j < k - 1 {
        LessTotal(key(r[j]), key(r[k - 1]));
        if Less(key(r[j]), key(r[k - 1])) { LessTransitive(key(x), key(r[j]), key(r[k - 1])); }
      }
    }
    forall j | k <= j < |r| ensures !Less(key(r[j]), key(x)) { LessTotal(key(x), key(r[j])); }
  }

  // ---------------------------------------------------------------- removing repetitions

  ghost predicate Distinct<T(!new)>(s: seq<T>) { forall i, j :: 0 <= i < j < |s| ==> s[i] != s[j] }

  /** The elements, each where it first occurs. */
  function FirstSeen<T(==)>(s: seq<T>): seq<T> {
    if s == [] then []
    else
      var before := FirstSeen(s[..|s| - 1]);
      if s[|s| - 1] in before then before else before + [s[|s| - 1]]
  }

  /** Where x first occurs. */
  ghost predicate FirstAt<T(!new)>(s: seq<T>, x: T, k: nat) { k < |s| && s[k] == x && x !in s[..k] }

  /** The elements stand in the order in which they first occur. */
  ghost predicate InFirstOrder<T(!new)>(s: seq<T>, r: seq<T>) {
    forall i, j, k, l :: 0 <= i < j < |r| && FirstAt(s, r[i], k) && FirstAt(s, r[j], l) ==> k < l
  }

  /** Each element once, and in the order of first occurrence. */
  lemma {:induction false} FirstSeenIs<T(!new)>(s: seq<T>)
    ensures Distinct(FirstSeen(s)) && InFirstOrder(s, FirstSeen(s))
    ensures forall x :: x in FirstSeen(s) <==> x in s
  {
    if s != [] {
      var before, last := s[..|s| - 1], s[|s| - 1];
      FirstSeenIs(before);
      assert s == before + [last];
      var r, q := FirstSeen(s), FirstSeen(before);
      forall i, j, k, l | 0 <= i < j < |r| && FirstAt(s, r[i], k) && FirstAt(s, r[j], l) ensures k < l {
        assert r[i] == q[i] && q[i] in q;
        FirstAtBefore(before, last, r[i], k);
        if j < |q| {
          assert q[j] in q;
          FirstAtBefore(before, last, r[j], l);
        }
      }
    }
  }

  lemma FirstAtBefore<T(!new)>(before: seq<T>, last: T, x: T, k: nat)
    requires x in before && FirstAt(before + [last], x, k)
    ensures FirstAt(before, x, k)
  {
    assert (before + [last])[..|before|] == before;
    assert k < |before| ==> (before + [last])[..k] == before[..k];
  }

  lemma {:induction false} FirstOccurs<T(!new)>(s: seq<T>, x: T) returns (k: nat)
    requires x in s
    ensures FirstAt(s, x, k)
  {
    if s[0] == x { return 0; }
    k := FirstOccurs(s[1..], x);
    assert s[..k + 1] == [s[0]] + s[1..][..k];
    k := k + 1;
  }

  /** And it is the only such list: the order of first occurrence leaves no choice. */
  lemma FirstSeenIsUnique<T(!new)>(s: seq<T>, r: seq<T>)
    requires Distinct(r) && InFirstOrder(s, r) && forall x :: x in r <==> x in s
    ensures r == FirstSeen(s)
  {
    FirstSeenIs(s);
    SameOrderIsSame(s, r, FirstSeen(s));
  }

  lemma {:induction false} SameOrderIsSame<T(!new)>(s: seq<T>, a: seq<T>, b: seq<T>)
    requires Distinct(a) && Distinct(b) && InFirstOrder(s, a) && InFirstOrder(s, b)
    requires (forall x :: x in a <==> x in b) && (forall x :: x in a ==> x in s)
    ensures a == b
    decreases |a|
  {
    assert (a != [] ==> a[0] in a) && (b != [] ==> b[0] in b);
    if a != [] && b != [] {
      LeastIsSame(s, a, b);
      var x := a[0];
      assert a == [x] + a[1..] && b == [x] + b[1..];
      assert forall y :: y in a[1..] <==> y in a && y != x;
      assert forall y :: y in b[1..] <==> y in b && y != x;
      TailKeeps(s, a);
      TailKeeps(s, b);
      SameOrderIsSame(s, a[1..], b[1..]);
    }
  }

  lemma TailKeeps<T(!new)>(s: seq<T>, a: seq<T>)
    requires a != [] && Distinct(a) && InFirstOrder(s, a)
    ensures Distinct(a[1..]) && InFirstOrder(s, a[1..])
  {
    var r := a[1..];
    assert forall i :: 0 <= i < |r| ==> r[i] == a[i + 1];
  }

  lemma LeastIsSame<T(!new)>(s: seq<T>, a: seq<T>, b: seq<T>)
    requires a != [] && b != [] && InFirstOrder(s, a) && InFirstOrder(s, b)
    requires (forall x :: x in a <==> x in b) && (forall x :: x in a ==> x in s)
    ensures a[0] == b[0]
  {
    assert a[0] in a && b[0] in b;
    var k := FirstOccurs(s, a[0]);
    var l := FirstOccurs(s, b[0]);
    var i :| 0 <= i < |b| && b[i] == a[0];
    var j :| 0 <= j < |a| && a[j] == b[0];
    assert i > 0 ==> l < k;
    assert j > 0 ==> k < l;
  }

  lemma FirstSeenStep<T>(s: seq<T>, x: T)
    ensures FirstSeen(s + [x]) == if x in FirstSeen(s) then FirstSeen(s) else FirstSeen(s) + [x]
  {
    assert (s + [x])[..|s|] == s;
  }

  // ---------------------------------------------------------------- permutations

  lemma CountTwice<T>(s: seq<T>, i: nat, j: nat)
    requires i < j < |s| && s[i] == s[j]
    ensures multiset(s)[s[i]] >= 2
  {
    assert s == s[..j] + s[j..] && s[..j][i] == s[i] && s[j..][0] == s[i];
    assert multiset(s) == multiset(s[..j]) + multiset(s[j..]);
    assert s[i] in multiset(s[..j]) && s[i] in multiset(s[j..]);
  }

  lemma CountOnce<T(!new)>(s: seq<T>, k: nat)
    requires Distinct(s) && k < |s|
    ensures multiset(s)[s[k]] == 1
  {
    assert s == s[..k] + [s[k]] + s[k + 1..];
    assert s[k] !in s[..k] && s[k] !in s[k + 1..];
    assert multiset(s) == multiset(s[..k]) + multiset{s[k]} + multiset(s[k + 1..]);
  }

  lemma InPermutation<T>(a: seq<T>, b: seq<T>, k: nat) returns (i: nat)
    requires multiset(a) == multiset(b) && k < |a|
    ensures i < |b| && b[i] == a[k]
  {
    assert a[k] in multiset(a);
    assert a[k] in b;
    i :| 0 <= i < |b| && b[i] == a[k];
  }

  lemma PermutationIsDistinct<T(!new)>(a: seq<T>, b: seq<T>)
    requires Distinct(a) && multiset(a) == multiset(b)
    ensures Distinct(b) && forall x :: x in a <==> x in b
  {
    forall x ensures x in a <==> x in b { assert x in multiset(a) <==> x in multiset(b); }
    forall i, j | 0 <= i < j < |b| ensures b[i] != b[j] {
      if b[i] == b[j] {
        CountTwice(b, i, j);
        var k := InPermutation(b, a, i);
        CountOnce(a, k);
        assert false;
      }
    }
  }
}
