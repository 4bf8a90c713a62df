/**
  Tool evidence in canonical form: sorted by name and version, equal neighbours removed in
  place.  The sort is the library's: what is used of it is that it returns some sorted
  permutation.
 */
module ToolEvidence {
  import opened Bytes
  import opened ByteOrder

  const NUL: char := '\0'
  const MAXIMUM_TOOLS: nat := 256

  datatype Tool = Tool(name: string, version: string)

  // ----- the sort key

  predicate NoNul(s: string) {
    NUL !in s
  }

  function SortKey(tool: Tool): string {
    tool.name + [NUL] + tool.version
  }

  /** The separator sorts below every character of a name, so the key orders by name first. */
  lemma {:induction false} KeyOrdersByName(a: Tool, b: Tool)
    requires NoNul(a.name) && NoNul(b.name) && Less(a.name, b.name)
    ensures Less(SortKey(a), SortKey(b))
    decreases |a.name|
  {
    if a.name == [] {
      assert SortKey(a)[0] == NUL && SortKey(b)[0] == b.name[0];
      assert b.name[0] in b.name;
    } else if a.name[0] == b.name[0] {
      var c, d := Tool(a.name[1..], a.version), Tool(b.name[1..], b.version);
      KeyOrdersByName(c, d);
      assert SortKey(a)[1..] == SortKey(c) && SortKey(b)[1..] == SortKey(d);
    }
  }

  /** Names without NUL make the key faithful. */
  lemma KeyDetermines(a: Tool, b: Tool)
    requires NoNul(a.name) && NoNul(b.name) && SortKey(a) == SortKey(b)
    ensures a == b
  {
    LessTotal(a.name, b.name);
    if Less(a.name, b.name) {
      KeyOrdersByName(a, b);
      LessAsymmetric(SortKey(a), SortKey(b));
    } else if Less(b.name, a.name) {
      KeyOrdersByName(b, a);
      LessAsymmetric(SortKey(b), SortKey(a));
    } else {
      var n := |a.name| + 1;
      assert SortKey(a)[n..] == a.version && SortKey(b)[n..] == b.version;
    }
  }

  /** With a NUL inside a name two different tools can share a key. */
  lemma NulConfusesKeys()
    ensures exists a: Tool, b: Tool :: a != b && SortKey(a) == SortKey(b)
  {
    var a, b := Tool([NUL], []), Tool([], [NUL]);
    assert SortKey(a) == [NUL, NUL] == SortKey(b);
    assert a.name != b.name;
  }

  // ----- sorting and compaction

  /** No element has a smaller key than one before it. */
  predicate Sorted(s: seq<Tool>) {
    forall i, j :: 0 <= i < j < |s| ==> !Less(SortKey(s[j]), SortKey(s[i]))
  }

  predicate SortOf(values: seq<Tool>, sorted: seq<Tool>) {
    multiset(values) == multiset(sorted) && Sorted(sorted)
  }

  /** One more element, unless it repeats the last one. */
  function Keep(front: seq<Tool>, value: Tool): seq<Tool> {
    if front != [] && front[|front| - 1] == value then front else front + [value]
  }

  /** Equal neighbours removed. */
  function Compacted(s: seq<Tool>): seq<Tool> {
    if s == [] then [] else Keep(Compacted(s[..|s| - 1]), s[|s| - 1])
  }

  lemma CompactedStep(s: seq<Tool>, i: nat)
    requires i < |s|
    ensures Compacted(s[..i + 1]) == Keep(Compacted(s[..i]), s[i])
  {
    assert s[..i + 1][..i] == s[..i];
  }

  /** Compaction into the array it reads from: the kept prefix never overtakes the reader. */
  method CompactInPlace(a: array<Tool>) returns (n: nat)
    modifies a
    ensures n <= a.Length && a[..n] == Compacted(old(a[..]))
  {
    ghost var was := a[..];
    n := 0;
    var i := 0;
    while i < a.Length
      invariant 0 <= n <= i <= a.Length
      invariant forall k :: i <= k < a.Length ==> a[k] == was[k]
      invariant a[..n] == Compacted(was[..i])
    {
      CompactedStep(was, i);
      var value := a[i];
      ghost var kept := a[..n];
      if n == 0 || a[n - 1] != value {
        assert Keep(kept, value) == kept + [value];
        a[n] := value;
        n := n + 1;
      } else {
        assert kept[n - 1] == value;
      }
      assert a[..n] == Keep(kept, value);
      i := i + 1;
    }
    assert was[..i] == was;
  }

  lemma {:induction false} CompactedKeepsElements(s: seq<Tool>, t: Tool)
    ensures t in Compacted(s) <==> t in s
    ensures |Compacted(s)| <= |s| && (s != [] ==> Compacted(s) != [] && Compacted(s)[|Compacted(s)| - 1] == s[|s| - 1])
  {
    if s == [] {
    } else {
      var front := s[..|s| - 1];
      CompactedKeepsElements(front, t);
      assert s == front + [s[|s| - 1]];
    }
  }

  /** Sorted with every key different: canonical. */
  predicate Canonical(s: seq<Tool>) {
    forall i, j :: 0 <= i < j < |s| ==> Less(SortKey(s[i]), SortKey(s[j]))
  }

  predicate NamesWithoutNul(s: seq<Tool>) {
    forall t :: t in s ==> NoNul(t.name)
  }

  /** In a sorted sequence without NULs, a new last element that differs from the one before it is greater than all. */
  lemma NextIsGreater(s: seq<Tool>, front: seq<Tool>, i: nat)
    requires s != [] && Sorted(s) && NamesWithoutNul(s)
    requires front == Compacted(s[..|s| - 1]) && Canonical(front) && i < |front|
    requires front[|front| - 1] != s[|s| - 1]
    ensures Less(SortKey(front[i]), SortKey(s[|s| - 1]))
  {
    var last, previous := s[|s| - 1], front[|front| - 1];
    CompactedKeepsElements(s[..|s| - 1], previous);
    var k :| 0 <= k < |s| - 1 && s[..|s| - 1][k] == previous;
    assert s[k] == previous && previous in s && last in s;
    LessTotal(SortKey(previous), SortKey(last));
    if SortKey(previous) == SortKey(last) {
      KeyDetermines(previous, last);
    }
    if i < |front| - 1 {
      LessTransitive(SortKey(front[i]), SortKey(previous), SortKey(last));
    }
  }

  /** Compacting a sorted sequence of NUL-free names gives the canonical form. */
  lemma {:induction false} CompactedIsCanonical(s: seq<Tool>)
    requires Sorted(s) && NamesWithoutNul(s)
    ensures Canonical(Compacted(s))
  {
    if s == [] {
    } else {
      var short := s[..|s| - 1];
      assert forall t :: t in short ==> t in s;
      assert forall i, j :: 0 <= i < j < |short| ==> short[i] == s[i] && short[j] == s[j];
      CompactedIsCanonical(short);
      var front := Compacted(short);
      if front != [] && front[|front| - 1] != s[|s| - 1] {
        forall i | 0 <= i < |front| ensures Less(SortKey(front[i]), SortKey(s[|s| - 1])) {
          NextIsGreater(s, front, i);
        }
      }
    }
  }

  /** A canonical sequence holds nothing twice. */
  lemma CanonicalIsDistinct(s: seq<Tool>)
    requires Canonical(s)
    ensures Distinct(s)
  {
    forall i, j | 0 <= i < j < |s| ensures s[i] != s[j] {
      LessAsymmetric(SortKey(s[i]), SortKey(s[j]));
    }
  }

  /** Compaction changes the length exactly when there are equal neighbours. */
  lemma {:induction false} CompactedLength(s: seq<Tool>)
    ensures |Compacted(s)| <= |s|
    ensures |Compacted(s)| == |s| <==> Compacted(s) == s
  {
    if s == [] {
    } else {
      CompactedLength(s[..|s| - 1]);
      assert s == s[..|s| - 1] + [s[|s| - 1]];
    }
  }

  lemma {:induction false} DistinctUncompacted(s: seq<Tool>)
    requires Distinct(s)
    ensures Compacted(s) == s
  {
    if s == [] {
    } else {
      var front := s[..|s| - 1];
      DistinctUncompacted(front);
      assert front != [] ==> front[|front| - 1] == s[|s| - 2];
      assert s == front + [s[|s| - 1]];
    }
  }

  // ----- the canonical form

  method CanonicalTools(values: seq<Tool>, sorted: seq<Tool>) returns (result: seq<Tool>)
    requires SortOf(values, sorted)
    ensures result == Compacted(sorted)
  {
    var a := new Tool[|sorted|](i requires 0 <= i < |sorted| => sorted[i]);
    assert a[..] == sorted;
    var n := CompactInPlace(a);
    return a[..n];
  }

  lemma SortKeepsElements(values: seq<Tool>, sorted: seq<Tool>)
    requires SortOf(values, sorted)
    ensures forall t :: t in sorted <==> t in values
  {
    forall t ensures t in sorted <==> t in values {
      assert t in sorted <==> t in multiset(sorted);
      assert t in values <==> t in multiset(values);
    }
  }

  /** The canonical form: every tool once, in strictly increasing order. */
  lemma CanonicalForm(values: seq<Tool>, sorted: seq<Tool>)
    requires SortOf(values, sorted) && NamesWithoutNul(values)
    ensures Canonical(Compacted(sorted))
    ensures forall t :: t in Compacted(sorted) <==> t in values
  {
    SortKeepsElements(values, sorted);
    CompactedIsCanonical(sorted);
    forall t ensures t in Compacted(sorted) <==> t in values {
      CompactedKeepsElements(sorted, t);
    }
  }

  /** For NUL-free names the comparison of lengths finds exactly the repeated records. */
  lemma LengthDetectsDuplicates(values: seq<Tool>, sorted: seq<Tool>)
    requires SortOf(values, sorted) && NamesWithoutNul(values)
    ensures |Compacted(sorted)| == |values| <==> Distinct(values)
  {
    SortKeepsElements(values, sorted);
    assert |values| == |multiset(values)| == |multiset(sorted)| == |sorted|;
    CompactedLength(sorted);
    CompactedIsCanonical(sorted);
    CanonicalIsDistinct(Compacted(sorted));
    if Distinct(sorted) {
      DistinctUncompacted(sorted);
    }
    DistinctAsMultiset(values);
    DistinctAsMultiset(sorted);
  }

  /** The last element of a canonical sequence is the greatest of its elements. */
  lemma LastIsGreatest(s: seq<Tool>, t: Tool)
    requires Canonical(s) && t in s && t != s[|s| - 1]
    ensures Less(SortKey(t), SortKey(s[|s| - 1]))
  {
    var i :| 0 <= i < |s| && s[i] == t;
  }

  lemma SameLast(a: seq<Tool>, b: seq<Tool>)
    requires a != [] && b != [] && Canonical(a) && Canonical(b) && forall t :: t in a <==> t in b
    ensures a[|a| - 1] == b[|b| - 1]
  {
    var x, y := a[|a| - 1], b[|b| - 1];
    assert x in a && y in b;
    if x != y {
      LastIsGreatest(a, y);
      LastIsGreatest(b, x);
      LessAsymmetric(SortKey(x), SortKey(y));
    }
  }

  lemma WithoutLast(s: seq<Tool>, t: Tool)
    requires s != [] && Canonical(s)
    ensures t in s[..|s| - 1] <==> t in s && t != s[|s| - 1]
  {
    CanonicalIsDistinct(s);
    assert s == s[..|s| - 1] + [s[|s| - 1]];
  }

  /** Whatever the library does with equal keys, the canonical form is the same. */
  lemma {:induction false} CanonicalIsUnique(a: seq<Tool>, b: seq<Tool>)
    requires Canonical(a) && Canonical(b) && forall t :: t in a <==> t in b
    ensures a == b
  {
    assert a != [] ==> a[0] in b;
    assert b != [] ==> b[0] in a;
    if a == [] {
    } else {
      SameLast(a, b);
      var c, d := a[..|a| - 1], b[..|b| - 1];
      forall t ensures t in c <==> t in d {
        WithoutLast(a, t);
        WithoutLast(b, t);
      }
      CanonicalIsUnique(c, d);
      assert a == c + [a[|a| - 1]] && b == d + [b[|b| - 1]];
    }
  }

  // ----- the configured tools

  predicate ValidIdentity(s: string) {
    0 < |s| <= 256 && forall i :: 0 <= i < |s| ==> s[i] >= ' ' && s[i] != '\U{7f}'
  }

  predicate ValidTool(t: Tool) {
    ValidIdentity(t.name) && ValidIdentity(t.version)
  }

  /** What the configuration has to be: bounded, well-formed, one entry per tool name. */
  predicate Acceptable(values: seq<Tool>) {
    && 0 < |values| <= MAXIMUM_TOOLS
    && AllValid(values) && Distinct(values) && OneVersion(values)
  }

  predicate OneVersion(values: seq<Tool>) {
    forall a, b :: a in values && b in values && a.name == b.name ==> a == b
  }

  lemma ValidHasNoNul(t: Tool)
    requires ValidTool(t)
    ensures NoNul(t.name)
  {
    assert forall i :: 0 <= i < |t.name| ==> t.name[i] != NUL;
  }

  /** In key order neighbours with different names are in name order. */
  lemma NeighboursByName(s: seq<Tool>, i: nat)
    requires Sorted(s) && NamesWithoutNul(s) && i + 1 < |s| && s[i].name != s[i + 1].name
    ensures Less(s[i].name, s[i + 1].name)
  {
    assert s[i] in s && s[i + 1] in s;
    LessTotal(s[i].name, s[i + 1].name);
    if Less(s[i + 1].name, s[i].name) {
      KeyOrdersByName(s[i + 1], s[i]);
    }
  }

  lemma {:induction false} NamesIncrease(s: seq<Tool>, i: nat, j: nat)
    requires Sorted(s) && NamesWithoutNul(s) && i < j < |s|
    requires NeighboursDiffer(s)
    ensures Less(s[i].name, s[j].name)
    decreases j
  {
    assert !SameName(s, j);
    NeighboursByName(s, j - 1);
    if i < j - 1 {
      NamesIncrease(s, i, j - 1);
      LessTransitive(s[i].name, s[j - 1].name, s[j].name);
    }
  }

  predicate SameName(s: seq<Tool>, k: nat)
    requires 0 < k < |s|
  {
    s[k - 1].name == s[k].name
  }

  predicate NeighboursDiffer(s: seq<Tool>) {
    forall k :: 0 < k < |s| ==> !SameName(s, k)
  }

  predicate AllValid(s: seq<Tool>) {
    forall k :: 0 <= k < |s| ==> ValidTool(s[k])
  }

  lemma NamesApart(s: seq<Tool>, i: nat, j: nat)
    requires Sorted(s) && AllValid(s) && NeighboursDiffer(s) && i < j < |s|
    ensures s[i].name != s[j].name
  {
    forall t | t in s ensures NoNul(t.name) {
      ValidHasNoNul(t);
    }
    NamesIncrease(s, i, j);
    LessAsymmetric(s[i].name, s[j].name);
  }

  lemma NeighboursSuffice(s: seq<Tool>)
    requires Sorted(s) && AllValid(s) && NeighboursDiffer(s)
    ensures Distinct(s) && OneVersion(s)
  {
    forall i, j | 0 <= i < j < |s| ensures s[i].name != s[j].name {
      NamesApart(s, i, j);
    }
    forall a, b | a in s && b in s && a.name == b.name ensures a == b {
      var i :| 0 <= i < |s| && s[i] == a;
      var j :| 0 <= j < |s| && s[j] == b;
      assert i == j;
    }
  }

  /** Looking at neighbours only, the check finds every repeated name. */
  lemma NeighboursDecide(s: seq<Tool>)
    requires Sorted(s) && AllValid(s)
    ensures NeighboursDiffer(s) <==> Distinct(s) && OneVersion(s)
  {
    if NeighboursDiffer(s) {
      NeighboursSuffice(s);
    } else {
      var k: nat :| 0 < k < |s| && SameName(s, k);
      RepeatedName(s, k);
    }
  }

  lemma RepeatedName(s: seq<Tool>, k: nat)
    requires 0 < k < |s| && SameName(s, k)
    ensures !(Distinct(s) && OneVersion(s))
  {
    assert s[k - 1] in s && s[k] in s;
  }

  method CheckTools(s: seq<Tool>) returns (ok: bool)
    ensures ok <==> AllValid(s) && NeighboursDiffer(s)
  {
    var i := 0;
    while i < |s|
      invariant 0 <= i <= |s|
      invariant forall k :: 0 <= k < i ==> ValidTool(s[k])
      invariant forall k :: 0 < k < i ==> !SameName(s, k)
    {
      if !ValidTool(s[i]) || (i > 0 && SameName(s, i)) {
        return false;
      }
      i := i + 1;
    }
    return true;
  }

  lemma PermutedAcceptable(values: seq<Tool>, sorted: seq<Tool>)
    requires SortOf(values, sorted)
    ensures |values| == |sorted| && (Acceptable(values) <==> Acceptable(sorted))
  {
    SortKeepsElements(values, sorted);
    assert AllValid(values) <==> forall t :: t in values ==> ValidTool(t);
    assert AllValid(sorted) <==> forall t :: t in sorted ==> ValidTool(t);
    DistinctAsMultiset(values);
    DistinctAsMultiset(sorted);
    assert |values| == |multiset(values)| && |sorted| == |multiset(sorted)|;
  }

  /** Sorting, compacting and the two checks decide acceptability. */
  lemma ChecksDecide(values: seq<Tool>, sorted: seq<Tool>)
    requires SortOf(values, sorted) && 0 < |values| <= MAXIMUM_TOOLS
    ensures Acceptable(values) <==>
            |Compacted(sorted)| == |values| && AllValid(Compacted(sorted)) && NeighboursDiffer(Compacted(sorted))
    ensures |Compacted(sorted)| == |values| ==> Compacted(sorted) == sorted
  {
    PermutedAcceptable(values, sorted);
    CompactedLength(sorted);
    if Distinct(sorted) {
      DistinctUncompacted(sorted);
    }
    if AllValid(sorted) {
      NeighboursDecide(sorted);
    }
  }

  /** Accepts exactly the acceptable configurations, and returns them sorted. */
  method ValidateConfiguredTools(values: seq<Tool>, sorted: seq<Tool>) returns (r: Option<seq<Tool>>)
    requires SortOf(values, sorted)
    ensures r.Some? <==> Acceptable(values)
    ensures r.Some? ==> multiset(r.value) == multiset(values) && Sorted(r.value)
  {
    if |values| == 0 || |values| > MAXIMUM_TOOLS {
      return None;
    }
    ChecksDecide(values, sorted);
    var result := CanonicalTools(values, sorted);
    if |result| != |values| {
      return None;
    }
    var ok := CheckTools(result);
    return if ok then Some(result) else None;
  }

  // ----- the tools of a report

  function NameOf(t: Tool): string {
    t.name
  }

  /** The canonical form, with the library's sort written out. */
  function CanonicalList(values: seq<Tool>): seq<Tool> {
    Compacted(SortedByKey(values, SortKey))
  }

  lemma ListIsCanonical(values: seq<Tool>)
    requires NamesWithoutNul(values)
    ensures Canonical(CanonicalList(values)) && Sorted(CanonicalList(values)) && Distinct(CanonicalList(values))
    ensures forall t :: t in CanonicalList(values) <==> t in values
  {
    var list := CanonicalList(values);
    SortedSorts(values, SortKey);
    CanonicalForm(values, SortedByKey(values, SortKey));
    CanonicalIsDistinct(list);
    forall i, j | 0 <= i < j < |list| ensures !Less(SortKey(list[j]), SortKey(list[i])) {
      LessAsymmetric(SortKey(list[i]), SortKey(list[j]));
    }
  }

  /** It has as many entries as there are different tools. */
  lemma ListCount(values: seq<Tool>)
    requires NamesWithoutNul(values)
    ensures |CanonicalList(values)| == |set t | t in values|
  {
    ListIsCanonical(values);
    DistinctCount(CanonicalList(values));
    assert (set t | t in CanonicalList(values)) == (set t | t in values);
  }

  lemma NamesStepExactly(s: seq<Tool>)
    requires Sorted(s) && NamesWithoutNul(s)
    ensures StrictlySorted(s, NameOf) <==> NeighboursDiffer(s)
  {
    if StrictlySorted(s, NameOf) {
      forall k | 0 < k < |s| ensures !SameName(s, k) {
        assert Steps(s, NameOf, k);
        LessAsymmetric(s[k - 1].name, s[k].name);
      }
    }
    if NeighboursDiffer(s) {
      forall k | 0 < k < |s| ensures Steps(s, NameOf, k) {
        assert !SameName(s, k);
        NeighboursByName(s, k - 1);
      }
    }
  }

  /** The list is strictly increasing by name, as a report demands, exactly when no tool has two versions. */
  lemma NamesStrictExactly(values: seq<Tool>)
    requires AllValid(values)
    ensures StrictlySorted(CanonicalList(values), NameOf) <==> OneVersion(values)
  {
    var list := CanonicalList(values);
    forall t | t in values ensures ValidTool(t) && NoNul(t.name) {
      ValidHasNoNul(t);
    }
    ListIsCanonical(values);
    assert NamesWithoutNul(list);
    NamesStepExactly(list);
    assert AllValid(list) by {
      assert forall k :: 0 <= k < |list| ==> list[k] in values;
    }
    NeighboursDecide(list);
  }
}
