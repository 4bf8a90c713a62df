/**
  The names a report may contain: relative paths in their cleaned form.  A path is looked at
  through its components, the parts between slashes.
 */
module LogicalNames {
  import opened Bytes

  const MAXIMUM_NAME: nat := 4096

  /** The parts between slashes. */
  function Components(name: string): seq<string> {
    Split(name, '/')
  }

  /** A relative path that path cleaning leaves alone: `..` only at its start, nothing else to remove. */
  predicate Cleaned(name: string) {
    var parts := Components(name);
    forall i :: 0 <= i < |parts| ==>
      && parts[i] != "" && parts[i] != "."
      && (parts[i] == ".." ==> forall j :: 0 <= j < i ==> parts[j] == "..")
  }

  /** What the report accepts as a name. */
  predicate LogicalName(name: string) {
    0 < |name| <= MAXIMUM_NAME && '\0' !in name && '\\' !in name && Cleaned(name) && name != ".."
  }

  predicate PlainComponent(part: string) {
    part != "" && part != "." && part != ".."
  }

  /** What the inventory accepts, whatever its length: no component that means something else. */
  predicate PlainPath(name: string) {
    '\0' !in name && forall i :: 0 <= i < |Components(name)| ==> PlainComponent(Components(name)[i])
  }

  /** Of the paths the inventory accepts, the report refuses exactly those with a backslash. */
  lemma PlainPathNames(name: string)
    requires PlainPath(name) && |name| <= MAXIMUM_NAME
    ensures LogicalName(name) <==> '\\' !in name
  {
    assert PlainComponent(Components(name)[0]);
    SplitOne("", '/');
    SplitOne("..", '/');
  }

  lemma {:induction false} ComponentsMarked(a: string)
    ensures var parts := Components(a);
      Components(a + "!") == parts[..|parts| - 1] + [parts[|parts| - 1] + "!"]
  {
    if a == "" {
      SplitOne("!", '/');
      assert a + "!" == "!" && Components(a) == [""] && "" + "!" == "!";
    } else {
      assert (a + "!")[1..] == a[1..] + "!";
      ComponentsMarked(a[1..]);
      var parts, rest := Components(a), Components(a[1..]);
      var marked := rest[..|rest| - 1] + [rest[|rest| - 1] + "!"];
      if a[0] == '/' {
        assert parts[..|parts| - 1] == [""] + rest[..|rest| - 1];
      } else if |rest| == 1 {
        assert marked[0] == rest[0] + "!" && [a[0]] + (rest[0] + "!") == [a[0]] + rest[0] + "!";
      } else {
        assert marked[0] == rest[0] && marked[1..] == rest[1..|rest| - 1] + [rest[|rest| - 1] + "!"];
        assert parts[..|parts| - 1] == [parts[0]] + rest[1..|rest| - 1];
      }
    }
  }

  /** An archive's path with a mark and a member's path behind it is such a path again. */
  lemma PlainPathJoined(a: string, b: string)
    requires PlainPath(a) && PlainPath(b)
    ensures PlainPath(a + "!/" + b)
  {
    var parts, more := Components(a), Components(b);
    ComponentsMarked(a);
    SplitJoined(a + "!", b, '/');
    assert a + "!" + "/" + b == a + "!/" + b;
    var last := parts[|parts| - 1] + "!";
    assert last[|last| - 1] == '!' && PlainComponent(last);
    var all := parts[..|parts| - 1] + [last] + more;
    assert Components(a + "!/" + b) == all;
    forall i | 0 <= i < |all| ensures PlainComponent(all[i]) {
      if i < |parts| - 1 {
        assert all[i] == parts[i];
      } else if i >= |parts| {
        assert all[i] == more[i - |parts|];
      }
    }
  }
}
