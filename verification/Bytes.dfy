/** Byte strings, optional values and the few sequence facts every component shares. */
module Bytes {
  type Byte = b: int | 0 <= b < 256

  datatype Option<+T> = None | Some(value: T)

  function Flatten<T>(parts: seq<seq<T>>): seq<T> {
    if parts == [] then [] else parts[0] + Flatten(parts[1..])
  }

  lemma {:induction false} FlattenAppend<T>(parts: seq<seq<T>>, part: seq<T>)
    ensures Flatten(parts + [part]) == Flatten(parts) + part
  {
    if parts == [] {
      assert [part][1..] == [];
    } else {
      assert (parts + [part])[1..] == parts[1..] + [part];
      FlattenAppend(parts[1..], part);
    }
  }

  predicate Distinct<T(==)>(s: seq<T>) {
    forall i, j :: 0 <= i < j < |s| ==> s[i] != s[j]
  }

  /** Being distinct does not depend on the order. */
  lemma DistinctAsMultiset<T(!new)>(s: seq<T>)
    ensures Distinct(s) <==> forall t :: multiset(s)[t] <= 1
  {
    if Distinct(s) {
      forall t ensures multiset(s)[t] <= 1 {
        OnceIfDistinct(s, t);
      }
    } else {
      var i, j :| 0 <= i < j < |s| && s[i] == s[j];
      assert s == s[..j] + s[j..] && s[i] in s[..j] && s[i] in s[j..];
      assert s[..j][i] == s[i] && s[j..][0] == s[j];
      assert multiset(s) == multiset(s[..j]) + multiset(s[j..]);
      assert multiset(s)[s[i]] >= 2;
    }
  }

  lemma {:induction false} OnceIfDistinct<T>(s: seq<T>, t: T)
    requires Distinct(s)
    ensures multiset(s)[t] <= 1
  {
    if s == [] {
    } else {
      var front := s[..|s| - 1];
      OnceIfDistinct(front, t);
      assert s == front + [s[|s| - 1]];
      assert multiset(s) == multiset(front) + multiset{s[|s| - 1]};
      if t == s[|s| - 1] {
        assert t !in front;
      }
    }
  }

  /** As many different elements as elements. */
  lemma {:induction false} DistinctCount<T>(s: seq<T>)
    requires Distinct(s)
    ensures |set t | t in s| == |s|
  {
    if s == [] {
      assert (set t | t in s) == {};
    } else {
      var front, last := s[..|s| - 1], s[|s| - 1];
      DistinctCount(front);
      assert s == front + [last];
      assert last !in front;
      assert (set t | t in s) == (set t | t in front) + {last};
    }
  }

  // ----- strings split at a character

  function Split(s: string, c: char): (parts: seq<string>)
    ensures parts != []
  {
    if s == "" then [""]
    else if s[0] == c then [""] + Split(s[1..], c)
    else var rest := Split(s[1..], c); [[s[0]] + rest[0]] + rest[1..]
  }

  /** Without the character there is one part. */
  lemma {:induction false} SplitOne(part: string, c: char)
    requires c !in part
    ensures Split(part, c) == [part]
  {
    if part == "" {
    } else {
      SplitOne(part[1..], c);
      assert [part[0]] + part[1..] == part;
    }
  }

  lemma {:induction false} SplitJoined(a: string, b: string, c: char)
    ensures Split(a + [c] + b, c) == Split(a, c) + Split(b, c)
  {
    var whole := a + [c] + b;
    if a == "" {
      assert whole[1..] == b;
    } else {
      assert whole[1..] == a[1..] + [c] + b;
      SplitJoined(a[1..], b, c);
    }
  }
}
