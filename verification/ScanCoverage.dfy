/**
  The malware scan must cover the inventory: the check of a scan summary and the verdicts
  copied into the report.
 */
module ScanCoverage {
  import opened Bytes
  import opened ByteOrder

  const CLEAN: string := "CLAMAV_CLEAN"

  datatype Severity = Info | Blocking | Warning
  datatype Finding = Finding(path: string, code: string, identifier: string, severity: Severity)
  datatype Entry = Entry(path: string, sha: string, size: nat)
  datatype Summary = Summary(complete: bool, scanned: nat, findings: seq<Finding>)
  datatype Input = Input(entry: Entry, verdict: string)

  predicate ValidCode(code: string) {
    0 < |code| <= 64 && forall i :: 0 <= i < |code| ==>
      'A' <= code[i] <= 'Z' || '0' <= code[i] <= '9' || code[i] == '_'
  }

  /** A finding names a file and a code, and blocks exactly when the code is not the clean one. */
  predicate WellFormed(f: Finding) {
    && f.path != "" && ValidCode(f.code)
    && f.severity == (if f.code == CLEAN then Info else Blocking)
  }

  predicate DistinctPaths(findings: seq<Finding>) {
    forall i, j :: 0 <= i < j < |findings| ==> findings[i].path != findings[j].path
  }

  predicate Judged(findings: seq<Finding>, path: string) {
    exists i :: 0 <= i < |findings| && findings[i].path == path
  }

  predicate Covers(inventory: seq<Entry>, summary: Summary) {
    && summary.complete && summary.scanned == |inventory| == |summary.findings|
    && (forall i :: 0 <= i < |summary.findings| ==> WellFormed(summary.findings[i]))
    && DistinctPaths(summary.findings)
    && forall i :: 0 <= i < |inventory| ==> Judged(summary.findings, inventory[i].path)
  }

  method ValidateScanSummary(inventory: seq<Entry>, summary: Summary) returns (ok: bool)
    ensures ok <==> Covers(inventory, summary)
  {
    var findings := summary.findings;
    if !summary.complete || summary.scanned != |inventory| || |findings| != |inventory| {
      return false;
    }
    var seen: set<string> := {};
    for i := 0 to |findings|
      invariant forall path :: path in seen <==> Judged(findings[..i], path)
      invariant forall j :: 0 <= j < i ==> WellFormed(findings[j])
      invariant DistinctPaths(findings[..i])
    {
      var f := findings[i];
      if !WellFormed(f) {
        return false;
      }
      if f.path in seen {
        var j :| 0 <= j < i && findings[..i][j].path == f.path;
        assert findings[j].path == findings[i].path;
        return false;
      }
      JudgedNext(findings, i);
      seen := seen + {f.path};
    }
    assert findings[..|findings|] == findings;
    for i := 0 to |inventory|
      invariant forall j :: 0 <= j < i ==> Judged(findings, inventory[j].path)
    {
      if inventory[i].path !in seen {
        return false;
      }
    }
    return true;
  }

  lemma JudgedNext(findings: seq<Finding>, i: nat)
    requires i < |findings|
    ensures forall path :: Judged(findings[..i + 1], path) <==> Judged(findings[..i], path) || path == findings[i].path
  {
    var long, short := findings[..i + 1], findings[..i];
    forall path ensures Judged(long, path) <==> Judged(short, path) || path == findings[i].path {
      assert forall j :: 0 <= j < i ==> long[j] == short[j];
      assert long[i] == findings[i];
    }
  }

  // ----- what coverage means

  function EntryPaths(inventory: seq<Entry>): set<string> {
    set i | 0 <= i < |inventory| :: inventory[i].path
  }

  function FindingPaths(findings: seq<Finding>): set<string> {
    set i | 0 <= i < |findings| :: findings[i].path
  }

  predicate DistinctEntries(inventory: seq<Entry>) {
    forall i, j :: 0 <= i < j < |inventory| ==> inventory[i].path != inventory[j].path
  }

  /** As many paths as entries, or fewer when one is repeated. */
  lemma {:induction false} CountEntryPaths(inventory: seq<Entry>)
    ensures |EntryPaths(inventory)| <= |inventory|
    ensures |EntryPaths(inventory)| == |inventory| <==> DistinctEntries(inventory)
  {
    if inventory == [] {
    } else {
      var front, last := inventory[..|inventory| - 1], inventory[|inventory| - 1];
      CountEntryPaths(front);
      assert EntryPaths(inventory) == EntryPaths(front) + {last.path};
      DistinctEntriesStep(inventory);
    }
  }

  lemma DistinctEntriesStep(inventory: seq<Entry>)
    requires inventory != []
    ensures var front, last := inventory[..|inventory| - 1], inventory[|inventory| - 1];
      DistinctEntries(inventory) <==> DistinctEntries(front) && last.path !in EntryPaths(front)
  {
    var front := inventory[..|inventory| - 1];
    assert forall i :: 0 <= i < |front| ==> front[i] == inventory[i];
  }

  lemma {:induction false} CountFindingPaths(findings: seq<Finding>)
    requires DistinctPaths(findings)
    ensures |FindingPaths(findings)| == |findings|
  {
    if findings == [] {
    } else {
      var front, last := findings[..|findings| - 1], findings[|findings| - 1];
      CountFindingPaths(front);
      assert FindingPaths(findings) == FindingPaths(front) + {last.path};
      assert last.path !in FindingPaths(front);
    }
  }

  lemma {:induction false} SubsetCounts(a: set<string>, b: set<string>)
    requires a <= b
    ensures |a| <= |b| && (|a| == |b| <==> a == b)
  {
    if a == {} {
    } else {
      var x :| x in a;
      SubsetCounts(a - {x}, b - {x});
      assert a == a - {x} + {x} && b == b - {x} + {x};
    }
  }

  /** Every verdict belongs to an inventoried file exactly when the inventory names no file twice. */
  lemma CoverageIsExact(inventory: seq<Entry>, summary: Summary)
    requires Covers(inventory, summary)
    ensures FindingPaths(summary.findings) == EntryPaths(inventory) <==> DistinctEntries(inventory)
  {
    var files, judged := EntryPaths(inventory), FindingPaths(summary.findings);
    assert files <= judged by {
      forall i | 0 <= i < |inventory| ensures inventory[i].path in judged {
        assert Judged(summary.findings, inventory[i].path);
      }
    }
    CountEntryPaths(inventory);
    CountFindingPaths(summary.findings);
    SubsetCounts(files, judged);
  }

  // ----- the report inputs

  /** The verdict map of the report: the last finding for a path decides, no finding is the empty verdict. */
  function Verdict(findings: seq<Finding>, path: string): string {
    if findings == [] then ""
    else if findings[|findings| - 1].path == path then findings[|findings| - 1].code
    else Verdict(findings[..|findings| - 1], path)
  }

  function InputsOf(inventory: seq<Entry>, findings: seq<Finding>): seq<Input> {
    seq(|inventory|, i requires 0 <= i < |inventory| => Input(inventory[i], Verdict(findings, inventory[i].path)))
  }

  method CollectInputs(inventory: seq<Entry>, findings: seq<Finding>) returns (r: Option<seq<Input>>)
    ensures r.Some? <==> forall i :: 0 <= i < |inventory| ==> Verdict(findings, inventory[i].path) != ""
    ensures r.Some? ==> r.value == InputsOf(inventory, findings)
  {
    var verdicts: map<string, string> := map[];
    for i := 0 to |findings|
      invariant forall path :: Lookup(verdicts, path) == Verdict(findings[..i], path)
    {
      assert findings[..i + 1][..i] == findings[..i];
      verdicts := verdicts[findings[i].path := findings[i].code];
    }
    assert findings[..|findings|] == findings;
    var inputs: seq<Input> := [];
    for i := 0 to |inventory|
      invariant |inputs| == i
      invariant forall j :: 0 <= j < i ==> inputs[j].verdict != ""
      invariant forall j :: 0 <= j < i ==> inputs[j] == Input(inventory[j], Verdict(findings, inventory[j].path))
    {
      var verdict := Lookup(verdicts, inventory[i].path);
      if verdict == "" {
        return None;
      }
      inputs := inputs + [Input(inventory[i], verdict)];
    }
    return Some(inputs);
  }

  /** One input per file, ordered by path. */
  method ReportInputs(inventory: seq<Entry>, findings: seq<Finding>) returns (r: Option<seq<Input>>)
    ensures r.Some? <==> forall i :: 0 <= i < |inventory| ==> Verdict(findings, inventory[i].path) != ""
    ensures r.Some? ==> r.value == SortedByKey(InputsOf(inventory, findings), PathOfInput)
    ensures r.Some? ==> multiset(r.value) == multiset(InputsOf(inventory, findings)) && ByKey(r.value, PathOfInput)
  {
    r := CollectInputs(inventory, findings);
    if r.Some? {
      SortedSorts(r.value, PathOfInput);
      var sorted := SortByKey(r.value, PathOfInput);
      r := Some(sorted);
    }
  }

  function Lookup(verdicts: map<string, string>, path: string): string {
    if path in verdicts then verdicts[path] else ""
  }

  function PathOfInput(input: Input): string {
    input.entry.path
  }

  /** Inputs of distinct files are distinct, and told apart by their paths. */
  lemma InputsAreDistinct(inventory: seq<Entry>, findings: seq<Finding>)
    requires DistinctEntries(inventory)
    ensures Distinct(InputsOf(inventory, findings))
    ensures var inputs := InputsOf(inventory, findings);
      forall a, b :: a in inputs && b in inputs && a.entry.path == b.entry.path ==> a == b
  {
    var inputs := InputsOf(inventory, findings);
    forall a, b | a in inputs && b in inputs && a.entry.path == b.entry.path ensures a == b {
      var i :| 0 <= i < |inputs| && inputs[i] == a;
      var j :| 0 <= j < |inputs| && inputs[j] == b;
      assert inputs[i].entry == inventory[i] && inputs[j].entry == inventory[j];
    }
  }

  /** The sorted inputs are strictly increasing by path, as a report must list them, exactly for distinct files. */
  lemma InputsAreCanonical(inventory: seq<Entry>, findings: seq<Finding>)
    ensures StrictlySorted(SortedByKey(InputsOf(inventory, findings), PathOfInput), PathOfInput) <==>
            DistinctEntries(inventory)
  {
    var inputs := InputsOf(inventory, findings);
    SortedStrictlyExactly(inputs, PathOfInput);
    if DistinctEntries(inventory) {
      InputsAreDistinct(inventory, findings);
    } else {
      var i, j :| 0 <= i < j < |inventory| && inventory[i].path == inventory[j].path;
      assert inputs[i] in inputs && inputs[j] in inputs && PathOfInput(inputs[i]) == PathOfInput(inputs[j]);
    }
  }

  /** With one finding per path, the verdict of a path is the code of its finding. */
  lemma {:induction false} VerdictIsTheFinding(findings: seq<Finding>, k: nat)
    requires DistinctPaths(findings) && k < |findings|
    ensures Verdict(findings, findings[k].path) == findings[k].code
  {
    if k < |findings| - 1 {
      VerdictIsTheFinding(findings[..|findings| - 1], k);
    }
  }

  /** After a covering scan every file has its verdict, and it is clean exactly when its finding does not block. */
  lemma EveryFileHasItsVerdict(inventory: seq<Entry>, summary: Summary, i: nat)
    requires Covers(inventory, summary) && i < |inventory|
    ensures Verdict(summary.findings, inventory[i].path) != ""
    ensures exists k :: 0 <= k < |summary.findings| && summary.findings[k].path == inventory[i].path
              && Verdict(summary.findings, inventory[i].path) == summary.findings[k].code
              && (summary.findings[k].code == CLEAN <==> summary.findings[k].severity != Blocking)
  {
    assert Judged(summary.findings, inventory[i].path);
    var k :| 0 <= k < |summary.findings| && summary.findings[k].path == inventory[i].path;
    VerdictIsTheFinding(summary.findings, k);
    assert WellFormed(summary.findings[k]);
  }

  /** So a report can always be given its inputs once the scan was accepted. */
  lemma InputsNeverMissing(inventory: seq<Entry>, summary: Summary)
    requires Covers(inventory, summary)
    ensures forall i :: 0 <= i < |inventory| ==> Verdict(summary.findings, inventory[i].path) != ""
  {
    forall i | 0 <= i < |inventory| ensures Verdict(summary.findings, inventory[i].path) != "" {
      EveryFileHasItsVerdict(inventory, summary, i);
    }
  }
}
