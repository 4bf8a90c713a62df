/** The byte order of strings, sorting by a string key, and what a strictly sorted list says about its keys. */
module ByteOrder {
  import opened Bytes

  predicate Less(a: string, b: string) {
    b != [] && (a == [] || a[0] < b[0] || (a[0] == b[0] && Less(a[1..], b[1..])))
  }

  lemma {:induction false} LessTotal(a: string, b: string)
    ensures a == b || Less(a, b) || Less(b, a)
  {
    if a != [] && b != [] && a[0] == b[0] {
      LessTotal(a[1..], b[1..]);
      assert a == [a[0]] + a[1..] && b == [b[0]] + b[1..];
    }
  }

  lemma {:induction false} LessAsymmetric(a: string, b: string)
    requires Less(a, b)
    ensures !Less(b, a) && a != b
  {
    if a != [] && a[0] == b[0] {
      LessAsymmetric(a[1..], b[1..]);
    }
  }

  lemma {:induction false} LessTransitive(a: string, b: string, c: string)
    requires Less(a, b) && Less(b, c)
    ensures Less(a, c)
  {
    if a != [] && a[0] == b[0] == c[0] {
      LessTransitive(a[1..], b[1..], c[1..]);
    }
  }

  lemma {:induction false} LessAfterPrefix(p: string, a: string, b: string)
    ensures Less(p + a, p + b) <==> Less(a, b)
  {
    if p == [] {
      assert p + a == a && p + b == b;
    } else {
      assert (p + a)[1..] == p[1..] + a && (p + b)[1..] == p[1..] + b;
      LessAfterPrefix(p[1..], a, b);
    }
  }

  // ----- sorting by a key

  /** No element has a smaller key than one before it. */
  ghost predicate ByKey<T>(s: seq<T>, key: T -> string) {
    forall i, j :: 0 <= i < j < |s| ==> !Less(key(s[j]), key(s[i]))
  }

  function Insert<T>(s: seq<T>, x: T, key: T -> string): seq<T> {
    if s == [] then [x]
    else if Less(key(x), key(s[0])) then [x] + s
    else [s[0]] + Insert(s[1..], x, key)
  }

  /** The library's sort, here by insertion. */
  function SortedByKey<T>(s: seq<T>, key: T -> string): seq<T> {
    if s == [] then [] else Insert(SortedByKey(s[..|s| - 1], key), s[|s| - 1], key)
  }

  lemma {:induction false} InsertKeeps<T>(s: seq<T>, x: T, key: T -> string)
    ensures multiset(Insert(s, x, key)) == multiset(s) + multiset{x}
  {
    if s == [] {
    } else if Less(key(x), key(s[0])) {
      assert multiset([x] + s) == multiset{x} + multiset(s);
    } else {
      InsertKeeps(s[1..], x, key);
      assert s == [s[0]] + s[1..];
      assert multiset(s) == multiset{s[0]} + multiset(s[1..]);
    }
  }

  lemma InsertFirst<T>(s: seq<T>, x: T, key: T -> string)
    requires s != [] && ByKey(s, key) && Less(key(x), key(s[0]))
    ensures ByKey([x] + s, key)
  {
    forall j | 0 <= j < |s| ensures !Less(key(s[j]), key(x)) {
      if Less(key(s[j]), key(x)) {
        LessTransitive(key(s[j]), key(x), key(s[0]));
        LessAsymmetric(key(s[j]), key(s[0]));
      }
    }
  }

  lemma {:induction false} InsertSorts<T>(s: seq<T>, x: T, key: T -> string)
    requires ByKey(s, key)
    ensures ByKey(Insert(s, x, key), key)
  {
    if s == [] {
    } else if Less(key(x), key(s[0])) {
      InsertFirst(s, x, key);
    } else {
      var rest := Insert(s[1..], x, key);
      InsertSorts(s[1..], x, key);
      InsertKeeps(s[1..], x, key);
      forall j | 0 <= j < |rest| ensures !Less(key(rest[j]), key(s[0])) {
        assert rest[j] in multiset(rest);
        if rest[j] != x {
          assert rest[j] in s[1..];
        }
      }
    }
  }

  lemma {:induction false} SortedSorts<T>(s: seq<T>, key: T -> string)
    ensures multiset(SortedByKey(s, key)) == multiset(s) && ByKey(SortedByKey(s, key), key)
  {
    if s == [] {
    } else {
      var front, last := s[..|s| - 1], s[|s| - 1];
      SortedSorts(front, key);
      InsertKeeps(SortedByKey(front, key), last, key);
      InsertSorts(SortedByKey(front, key), last, key);
      assert s == front + [last];
    }
  }

  method SortByKey<T>(s: seq<T>, key: T -> string) returns (r: seq<T>)
    ensures r == SortedByKey(s, key)
  {
    r := [];
    for i := 0 to |s|
      invariant r == SortedByKey(s[..i], key)
    {
      assert s[..i + 1][..i] == s[..i];
      r := Insert(r, s[i], key);
    }
    assert s[..|s|] == s;
  }

  // ----- strictly sorted lists

  predicate Steps<T>(s: seq<T>, key: T -> string, k: nat)
    requires 0 < k < |s|
  {
    Less(key(s[k - 1]), key(s[k]))
  }

  /** Each neighbour has a greater key: what the report validation compares. */
  predicate StrictlySorted<T>(s: seq<T>, key: T -> string) {
    forall k :: 0 < k < |s| ==> Steps(s, key, k)
  }

  ghost predicate DistinctKeys<T(!new)>(s: seq<T>, key: T -> string) {
    Distinct(s) && forall a, b :: a in s && b in s && key(a) == key(b) ==> a == b
  }

  method CheckStrictlySorted<T>(s: seq<T>, key: T -> string) returns (ok: bool)
    ensures ok <==> StrictlySorted(s, key)
  {
    var k := 1;
    while k < |s|
      invariant forall j :: 0 < j < k && j < |s| ==> Steps(s, key, j)
    {
      if !Steps(s, key, k) {
        return false;
      }
      k := k + 1;
    }
    return true;
  }

  lemma {:induction false} StrictlySortedApart<T>(s: seq<T>, key: T -> string, i: nat, j: nat)
    requires StrictlySorted(s, key) && i < j < |s|
    ensures Less(key(s[i]), key(s[j]))
    decreases j
  {
    assert Steps(s, key, j);
    if i < j - 1 {
      StrictlySortedApart(s, key, i, j - 1);
      LessTransitive(key(s[i]), key(s[j - 1]), key(s[j]));
    }
  }

  lemma StrictlySortedDistinct<T(!new)>(s: seq<T>, key: T -> string)
    requires StrictlySorted(s, key)
    ensures DistinctKeys(s, key)
  {
    forall i, j | 0 <= i < j < |s| ensures key(s[i]) != key(s[j]) {
      StrictlySortedApart(s, key, i, j);
      LessAsymmetric(key(s[i]), key(s[j]));
    }
    forall a, b | a in s && b in s && key(a) == key(b) ensures a == b {
      var i :| 0 <= i < |s| && s[i] == a;
      var j :| 0 <= j < |s| && s[j] == b;
      assert i == j;
    }
  }

  lemma DistinctStrictlySorted<T(!new)>(s: seq<T>, key: T -> string)
    requires ByKey(s, key) && DistinctKeys(s, key)
    ensures StrictlySorted(s, key)
  {
    forall k | 0 < k < |s| ensures Steps(s, key, k) {
      assert s[k - 1] in s && s[k] in s;
      LessTotal(key(s[k - 1]), key(s[k]));
    }
  }

  /** Sorting succeeds in making a list strictly sorted exactly when its keys are distinct. */
  lemma SortedStrictlyExactly<T(!new)>(s: seq<T>, key: T -> string)
    ensures StrictlySorted(SortedByKey(s, key), key) <==> DistinctKeys(s, key)
  {
    var r := SortedByKey(s, key);
    SortedSorts(s, key);
    DistinctAsMultiset(s);
    DistinctAsMultiset(r);
    forall t ensures t in s <==> t in r {
      assert t in s <==> t in multiset(s);
      assert t in r <==> t in multiset(r);
    }
    if StrictlySorted(r, key) {
      StrictlySortedDistinct(r, key);
    }
    if DistinctKeys(r, key) {
      DistinctStrictlySorted(r, key);
    }
  }
}
